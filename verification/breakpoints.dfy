/**
 * The breakpoint tables the firmware uses to turn a pollutant concentration
 * into an Air Quality Index sub-index, and the shape every such table has:
 * non-empty buckets that strictly ascend in concentration and in index.
 *
 * Concentrations are exact reals here; the firmware stores them as
 * single-precision floats.
 */
module Breakpoints {

  /** One interpolation bucket: concentrations in [concLo, concHi] map
      linearly onto the index range [aqiLo, aqiHi]. */
  datatype Breakpoint = Breakpoint(concLo: real, concHi: real, aqiLo: int, aqiHi: int)

  /** A bucket the interpolation can use: its concentration range is not
      empty (so the slope's divisor is not zero) and its index range is
      non-negative and non-decreasing. */
  predicate ValidBucket(b: Breakpoint) {
    b.concLo < b.concHi && 0 <= b.aqiLo <= b.aqiHi
  }

  predicate AllValid(t: seq<Breakpoint>) {
    forall i :: 0 <= i < |t| ==> ValidBucket(t[i])
  }

  /** Every bucket lies strictly below every later one, in concentration
      and in index; in particular no two buckets overlap. */
  predicate Ascending(t: seq<Breakpoint>) {
    forall i, j :: 0 <= i < j < |t| ==> t[i].concHi < t[j].concLo && t[i].aqiHi < t[j].aqiLo
  }

  predicate WellFormed(t: seq<Breakpoint>) {
    AllValid(t) && Ascending(t)
  }

  /** The same shape checked bucket by bucket, neighbour against neighbour:
      the form in which a concrete table can be checked by evaluation. */
  predicate Chain(t: seq<Breakpoint>)
    decreases |t|
  {
    if |t| == 0 then true
    else if |t| == 1 then ValidBucket(t[0])
    else
      && ValidBucket(t[0])
      && t[0].concHi < t[1].concLo
      && t[0].aqiHi < t[1].aqiLo
      && Chain(t[1..])
  }

  /** PM2.5 buckets, in micrograms per cubic metre (main/main.c:34-42). */
  const Pm25: seq<Breakpoint> := [
    Breakpoint(0.0, 12.0, 0, 50),
    Breakpoint(12.1, 35.4, 51, 100),
    Breakpoint(35.5, 55.4, 101, 150),
    Breakpoint(55.5, 150.4, 151, 200),
    Breakpoint(150.5, 250.4, 201, 300),
    Breakpoint(250.5, 350.4, 301, 400),
    Breakpoint(350.5, 500.4, 401, 500)
  ]

  /** PM10 buckets, in micrograms per cubic metre (main/main.c:45-53). */
  const Pm10: seq<Breakpoint> := [
    Breakpoint(0.0, 54.0, 0, 50),
    Breakpoint(55.0, 154.0, 51, 100),
    Breakpoint(155.0, 254.0, 101, 150),
    Breakpoint(255.0, 354.0, 151, 200),
    Breakpoint(355.0, 424.0, 201, 300),
    Breakpoint(425.0, 504.0, 301, 400),
    Breakpoint(505.0, 604.0, 401, 500)
  ]

  /** NO2 buckets in parts per billion, used as a proxy for NOx
      (main/main.c:56-64). */
  const Nox: seq<Breakpoint> := [
    Breakpoint(0.0, 53.0, 0, 50),
    Breakpoint(54.0, 100.0, 51, 100),
    Breakpoint(101.0, 360.0, 101, 150),
    Breakpoint(361.0, 649.0, 151, 200),
    Breakpoint(650.0, 1249.0, 201, 300),
    Breakpoint(1250.0, 1649.0, 301, 400),
    Breakpoint(1650.0, 2049.0, 401, 500)
  ]

  /** Neighbour-wise ascent extends to any two buckets. */
  lemma {:induction false} ChainAscends(t: seq<Breakpoint>, i: int, j: int)
    requires Chain(t)
    requires 0 <= i < j < |t|
    ensures t[i].concHi < t[j].concLo && t[i].aqiHi < t[j].aqiLo
    decreases j
  {
    if i == 0 {
      if j > 1 {
        ChainAscends(t[1..], 0, j - 1);
        ChainValid(t[1..], 0);
      }
    } else {
      ChainAscends(t[1..], i - 1, j - 1);
    }
  }

  lemma {:induction false} ChainValid(t: seq<Breakpoint>, i: int)
    requires Chain(t)
    requires 0 <= i < |t|
    ensures ValidBucket(t[i])
    decreases i
  {
    if i > 0 {
      ChainValid(t[1..], i - 1);
    }
  }

  lemma ChainWellFormed(t: seq<Breakpoint>)
    requires Chain(t)
    ensures WellFormed(t)
  {
    forall i | 0 <= i < |t|
      ensures ValidBucket(t[i])
    {
      ChainValid(t, i);
    }
    forall i, j | 0 <= i < j < |t|
      ensures t[i].concHi < t[j].concLo && t[i].aqiHi < t[j].aqiLo
    {
      ChainAscends(t, i, j);
    }
  }

  /** A table of the firmware's shape: well formed, every bucket's index
      strictly rising, starting at concentration 0 with index 0 and ending
      with index 500. */
  predicate Scale500(t: seq<Breakpoint>) {
    && WellFormed(t)
    && (forall i :: 0 <= i < |t| ==> t[i].aqiLo < t[i].aqiHi)
    && |t| > 0 && t[0].concLo == 0.0 && t[0].aqiLo == 0 && t[|t| - 1].aqiHi == 500
  }

  lemma Pm25Shape()
    ensures Scale500(Pm25)
  {
    ChainWellFormed(Pm25);
  }

  lemma Pm10Shape()
    ensures Scale500(Pm10)
  {
    ChainWellFormed(Pm10);
  }

  lemma NoxShape()
    ensures Scale500(Nox)
  {
    ChainWellFormed(Nox);
  }
}
