/**
 * The sub-index calculation of the firmware: a first-match scan over a
 * breakpoint table, linear interpolation inside the matching bucket
 * (Equation 1 of the US EPA Technical Assistance Document for the
 * Reporting of Daily Air Quality), rounding by "add one half, then
 * truncate", and the sentinel -1 when no bucket holds the concentration.
 */
module Aqi {
  import opened Breakpoints

  /** The value `calculate_aqi` returns when no bucket matches. */
  const NoBucket: int := -1

  /** C's conversion of a float to `int`: truncation toward zero. */
  function Truncate(x: real): (r: int)
    ensures 0.0 <= x ==> r as real <= x < r as real + 1.0
    ensures x < 0.0 ==> r as real - 1.0 < x <= r as real
  {
    if x >= 0.0 then x.Floor else -((-x).Floor)
  }

  /** The bucket test of the scan: both ends inclusive. */
  predicate Matches(b: Breakpoint, conc: real) {
    b.concLo <= conc <= b.concHi
  }

  /** Equation 1, before rounding. The index difference is an integer
      difference, as in the source, then divided by the concentration span. */
  function Interpolate(b: Breakpoint, conc: real): real
    requires b.concLo < b.concHi
  {
    ((b.aqiHi - b.aqiLo) as real / (b.concHi - b.concLo)) * (conc - b.concLo) + b.aqiLo as real
  }

  /** The sub-index a matching bucket yields: the interpolated value
      plus one half, truncated. */
  function BucketAqi(b: Breakpoint, conc: real): (r: int)
    requires ValidBucket(b) && Matches(b, conc)
    ensures b.aqiLo <= r <= b.aqiHi
    ensures conc == b.concLo ==> r == b.aqiLo
    ensures conc == b.concHi ==> r == b.aqiHi
  {
    InterpolateBounds(b, conc);
    Truncate(Interpolate(b, conc) + 0.5)
  }

  lemma InterpolateBounds(b: Breakpoint, conc: real)
    requires ValidBucket(b) && Matches(b, conc)
    ensures b.aqiLo as real <= Interpolate(b, conc) <= b.aqiHi as real
    ensures conc == b.concLo ==> Interpolate(b, conc) == b.aqiLo as real
    ensures conc == b.concHi ==> Interpolate(b, conc) == b.aqiHi as real
  {
    var span := b.concHi - b.concLo;
    var rise := (b.aqiHi - b.aqiLo) as real;
    var slope := rise / span;
    assert slope >= 0.0;
    assert Interpolate(b, conc) == slope * (conc - b.concLo) + b.aqiLo as real;
    MulMonotone(slope, conc - b.concLo, span);
    MulMonotone(slope, 0.0, conc - b.concLo);
    assert slope * span == rise;
  }

  lemma MulMonotone(a: real, x: real, y: real)
    requires 0.0 <= a && x <= y
    ensures a * x <= a * y
  {
    assert a * y - a * x == a * (y - x);
  }

  /** Bucket `i` is the one the scan stops at. */
  predicate IsFirstMatch(t: seq<Breakpoint>, conc: real, i: int) {
    && 0 <= i < |t|
    && Matches(t[i], conc)
    && forall j :: 0 <= j < i ==> !Matches(t[j], conc)
  }

  predicate AnyMatch(t: seq<Breakpoint>, conc: real) {
    exists i :: 0 <= i < |t| && Matches(t[i], conc)
  }

  /** `calculate_aqi`: scan the buckets in order and interpolate in the
      first one that holds the concentration; -1 when none does. */
  function CalculateAqi(conc: real, t: seq<Breakpoint>): (r: int)
    requires AllValid(t)
    ensures r == NoBucket <==> !AnyMatch(t, conc)
    ensures forall i :: IsFirstMatch(t, conc, i) ==> r == BucketAqi(t[i], conc)
    decreases |t|
  {
    if |t| == 0 then NoBucket
    else if Matches(t[0], conc) then
      assert !IsFirstMatch(t, conc, 0) ==> false;
      BucketAqi(t[0], conc)
    else
      var r := CalculateAqi(conc, t[1..]);
      assert forall i :: IsFirstMatch(t, conc, i) ==> IsFirstMatch(t[1..], conc, i - 1);
      assert AnyMatch(t, conc) ==> AnyMatch(t[1..], conc) by {
        if AnyMatch(t, conc) {
          var k :| 0 <= k < |t| && Matches(t[k], conc);
          assert Matches(t[1..][k - 1], conc);
        }
      }
      r
  }

  /** In a well-formed table at most one bucket holds a concentration, so
      the first-match scan is deterministic. */
  lemma UniqueMatch(t: seq<Breakpoint>, conc: real, i: int, j: int)
    requires WellFormed(t)
    requires 0 <= i < |t| && 0 <= j < |t|
    requires Matches(t[i], conc) && Matches(t[j], conc)
    ensures i == j
  {
  }

  /** Whatever bucket holds the concentration determines the result, and
      the result lies in that bucket's index range. */
  lemma SubIndexInBucket(t: seq<Breakpoint>, conc: real, i: int)
    requires WellFormed(t)
    requires 0 <= i < |t| && Matches(t[i], conc)
    ensures CalculateAqi(conc, t) == BucketAqi(t[i], conc)
    ensures t[i].aqiLo <= CalculateAqi(conc, t) <= t[i].aqiHi
  {
    forall j | 0 <= j < i
      ensures !Matches(t[j], conc)
    {
      assert t[j].concHi < t[i].concLo;
    }
    assert IsFirstMatch(t, conc, i);
  }

  /** Each bucket's ends are hit exactly: `conc_lo` gives `aqi_lo` and
      `conc_hi` gives `aqi_hi`. */
  lemma EndpointsExact(t: seq<Breakpoint>, i: int)
    requires WellFormed(t)
    requires 0 <= i < |t|
    ensures CalculateAqi(t[i].concLo, t) == t[i].aqiLo
    ensures CalculateAqi(t[i].concHi, t) == t[i].aqiHi
  {
    SubIndexInBucket(t, t[i].concLo, i);
    SubIndexInBucket(t, t[i].concHi, i);
  }

  /** A sub-index is either the sentinel or lies between the first
      bucket's lowest and the last bucket's highest index. */
  lemma SubIndexRange(t: seq<Breakpoint>, conc: real)
    requires WellFormed(t) && |t| > 0
    ensures var r := CalculateAqi(conc, t);
      r == NoBucket || t[0].aqiLo <= r <= t[|t| - 1].aqiHi
  {
    if AnyMatch(t, conc) {
      var i :| 0 <= i < |t| && Matches(t[i], conc);
      SubIndexInBucket(t, conc, i);
      if 0 < i {
        assert t[0].aqiHi < t[i].aqiLo;
      }
      if i < |t| - 1 {
        assert t[i].aqiHi < t[|t| - 1].aqiLo;
      }
    }
  }

  /** Below the first bucket the result is the sentinel: in particular
      for a negative concentration, since every table here starts at 0. */
  lemma BelowFirst(t: seq<Breakpoint>, conc: real)
    requires WellFormed(t) && |t| > 0
    requires conc < t[0].concLo
    ensures CalculateAqi(conc, t) == NoBucket
  {
    forall i | 0 < i < |t|
      ensures !Matches(t[i], conc)
    {
      assert t[0].concHi < t[i].concLo;
    }
  }

  /** Above the last bucket the result is the sentinel. */
  lemma AboveLast(t: seq<Breakpoint>, conc: real)
    requires WellFormed(t) && |t| > 0
    requires t[|t| - 1].concHi < conc
    ensures CalculateAqi(conc, t) == NoBucket
  {
    var last := |t| - 1;
    forall i | 0 <= i < last
      ensures !Matches(t[i], conc)
    {
      assert t[i].concHi < t[last].concLo;
    }
  }

  /** Strictly between two neighbouring buckets the result is the sentinel. */
  lemma InGap(t: seq<Breakpoint>, k: int, conc: real)
    requires WellFormed(t)
    requires 0 <= k < |t| - 1
    requires t[k].concHi < conc < t[k + 1].concLo
    ensures CalculateAqi(conc, t) == NoBucket
  {
    forall i | 0 <= i < |t|
      ensures !Matches(t[i], conc)
    {
      if i < k {
        assert t[i].concHi < t[k].concLo;
      } else if k + 1 < i {
        assert t[k + 1].concHi < t[i].concLo;
      }
    }
  }

  lemma InterpolateMonotone(b: Breakpoint, c1: real, c2: real)
    requires ValidBucket(b) && c1 <= c2
    ensures Interpolate(b, c1) <= Interpolate(b, c2)
  {
    var slope := (b.aqiHi - b.aqiLo) as real / (b.concHi - b.concLo);
    MulMonotone(slope, c1 - b.concLo, c2 - b.concLo);
  }

  /** Within one bucket the sub-index never decreases as the
      concentration grows. */
  lemma BucketAqiMonotone(b: Breakpoint, c1: real, c2: real)
    requires ValidBucket(b) && Matches(b, c1) && Matches(b, c2) && c1 <= c2
    ensures BucketAqi(b, c1) <= BucketAqi(b, c2)
  {
    InterpolateMonotone(b, c1, c2);
    InterpolateBounds(b, c1);
  }

  /** Over a whole table the sub-index never decreases as the
      concentration grows, as long as both concentrations lie in a bucket
      (bucket `i` holds `c1`, bucket `j` holds `c2`). */
  lemma CalculateAqiMonotone(t: seq<Breakpoint>, c1: real, c2: real, i: int, j: int)
    requires WellFormed(t) && c1 <= c2
    requires 0 <= i < |t| && Matches(t[i], c1)
    requires 0 <= j < |t| && Matches(t[j], c2)
    ensures CalculateAqi(c1, t) <= CalculateAqi(c2, t)
  {
    SubIndexInBucket(t, c1, i);
    SubIndexInBucket(t, c2, j);
    assert i <= j;
    if i == j {
      BucketAqiMonotone(t[i], c1, c2);
    } else {
      assert t[i].aqiHi < t[j].aqiLo;
    }
  }
}
