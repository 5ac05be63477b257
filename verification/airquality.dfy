/**
 * The three pollutant sub-indices of one reading and the overall index the
 * firmware derives from them: a running maximum in which the sentinel -1
 * loses to any valid sub-index.
 */
module AirQuality {
  import opened Breakpoints
  import opened Aqi
  import opened Units

  /** The top of the index scale every table here ends at. */
  const MaxIndex: int := 500

  /** The overall index: start from the PM2.5 sub-index, then let the PM10
      and the NOx sub-index replace it when strictly larger. */
  function Composite(aqi25: int, aqi10: int, aqiNox: int): (r: int)
    ensures r >= aqi25 && r >= aqi10 && r >= aqiNox
    ensures r == aqi25 || r == aqi10 || r == aqiNox
  {
    var aqi := aqi25;
    var aqi := if aqi10 > aqi then aqi10 else aqi;
    if aqiNox > aqi then aqiNox else aqi
  }

  /** A sub-index is the sentinel or a point of the scale. */
  predicate IsSubIndex(r: int) {
    r == NoBucket || 0 <= r
  }

  /** The sentinel never beats a valid sub-index: the overall index is the
      sentinel exactly when all three sub-indices are. */
  lemma CompositeSentinel(aqi25: int, aqi10: int, aqiNox: int)
    requires IsSubIndex(aqi25) && IsSubIndex(aqi10) && IsSubIndex(aqiNox)
    ensures var r := Composite(aqi25, aqi10, aqiNox);
      (r == NoBucket <==> aqi25 == NoBucket && aqi10 == NoBucket && aqiNox == NoBucket)
      && (r != NoBucket ==> 0 <= r)
  {
  }

  /** A sub-index from any table of the firmware's shape is the sentinel
      or lies in [0, 500]. */
  lemma InScale(t: seq<Breakpoint>, conc: real)
    requires Scale500(t)
    ensures var r := CalculateAqi(conc, t); r == NoBucket || 0 <= r <= MaxIndex
  {
    SubIndexRange(t, conc);
  }

  /** The three sub-indices of one reading and the overall index. */
  datatype Assessment = Assessment(aqi25: int, aqi10: int, aqiNox: int, aqi: int)

  /** The index step of a cycle: PM2.5 and PM10 against their tables, the
      NOx index against the NO2 table, then the running maximum. */
  function Assess(m: Measurement): (a: Assessment)
    ensures a.aqi == NoBucket || 0 <= a.aqi <= MaxIndex
    ensures a.aqi == NoBucket <==> !AnyMatch(Pm25, m.pm2_5) && !AnyMatch(Pm10, m.pm10) && !AnyMatch(Nox, m.nox)
    ensures a.aqi >= a.aqi25 && a.aqi >= a.aqi10 && a.aqi >= a.aqiNox
    ensures a.aqi == a.aqi25 || a.aqi == a.aqi10 || a.aqi == a.aqiNox
    ensures a.aqi25 == CalculateAqi(m.pm2_5, Pm25) && a.aqi10 == CalculateAqi(m.pm10, Pm10)
    ensures a.aqiNox == CalculateAqi(m.nox, Nox)
  {
    Pm25Shape();
    Pm10Shape();
    NoxShape();
    var aqi25 := CalculateAqi(m.pm2_5, Pm25);
    var aqi10 := CalculateAqi(m.pm10, Pm10);
    var aqiNox := CalculateAqi(m.nox, Nox);
    InScale(Pm25, m.pm2_5);
    InScale(Pm10, m.pm10);
    InScale(Nox, m.nox);
    CompositeSentinel(aqi25, aqi10, aqiNox);
    Assessment(aqi25, aqi10, aqiNox, Composite(aqi25, aqi10, aqiNox))
  }

  /** The points the PM2.5 table pins: 0.0 gives 0, 35.4 (the top of the
      second bucket) gives 100, 500.4 gives 500; -1.0 and 500.5 give the
      sentinel. */
  lemma Pm25Examples()
    ensures CalculateAqi(0.0, Pm25) == 0
    ensures CalculateAqi(35.4, Pm25) == 100
    ensures CalculateAqi(500.4, Pm25) == 500
    ensures CalculateAqi(-1.0, Pm25) == NoBucket
    ensures CalculateAqi(500.5, Pm25) == NoBucket
  {
    Pm25Shape();
    EndpointsExact(Pm25, 0);
    EndpointsExact(Pm25, 1);
    EndpointsExact(Pm25, 6);
    BelowFirst(Pm25, -1.0);
    AboveLast(Pm25, 500.5);
  }

  /** PM10 gives the sentinel in the gap 54.0 to 55.0 and above 604.0. */
  lemma Pm10Examples()
    ensures CalculateAqi(54.0, Pm10) == 50
    ensures CalculateAqi(55.0, Pm10) == 51
    ensures CalculateAqi(54.5, Pm10) == NoBucket
    ensures CalculateAqi(604.5, Pm10) == NoBucket
  {
    Pm10Shape();
    EndpointsExact(Pm10, 0);
    EndpointsExact(Pm10, 1);
    InGap(Pm10, 0, 54.5);
    AboveLast(Pm10, 604.5);
  }

  /** The NO2 table gives the sentinel in the gap 100.0 to 101.0 and above
      2049.0. */
  lemma NoxExamples()
    ensures CalculateAqi(100.0, Nox) == 100
    ensures CalculateAqi(100.5, Nox) == NoBucket
    ensures CalculateAqi(2049.5, Nox) == NoBucket
  {
    NoxShape();
    EndpointsExact(Nox, 1);
    InGap(Nox, 1, 100.5);
    AboveLast(Nox, 2049.5);
  }

  /** `x` is a whole number of tenths. */
  predicate IsTenths(x: real) {
    (x * 10.0).Floor as real == x * 10.0
  }

  /** Each gap between neighbouring buckets is exactly one tenth wide, with
      the lower bucket ending on a whole tenth. */
  predicate TenthGaps(t: seq<Breakpoint>)
    decreases |t|
  {
    |t| <= 1 || (IsTenths(t[0].concHi) && t[1].concLo == t[0].concHi + 0.1 && TenthGaps(t[1..]))
  }

  /** A table whose gaps are one tenth wide covers every concentration the
      sensor can report, in tenths, between its first and last bucket. */
  lemma {:induction false} TenthsCovered(t: seq<Breakpoint>, n: int)
    requires |t| > 0 && TenthGaps(t)
    requires t[0].concLo <= n as real / 10.0 <= t[|t| - 1].concHi
    ensures AnyMatch(t, n as real / 10.0)
    decreases |t|
  {
    var c := n as real / 10.0;
    if c <= t[0].concHi {
      assert Matches(t[0], c);
    } else {
      assert |t| > 1;
      var k := (t[0].concHi * 10.0).Floor;
      assert k as real == t[0].concHi * 10.0;
      assert k as real < c * 10.0;
      assert c * 10.0 == n as real;
      assert k < n;
      assert t[1].concLo == (k + 1) as real / 10.0;
      assert t[1..][0].concLo <= c;
      assert t[1..][|t[1..]| - 1] == t[|t| - 1];
      TenthsCovered(t[1..], n);
      var i :| 0 <= i < |t[1..]| && Matches(t[1..][i], c);
      assert Matches(t[i + 1], c);
    }
  }

  /** For PM2.5 the gaps never show: a raw count gives the sentinel exactly
      when it exceeds 5004, the top of the last bucket in tenths. */
  lemma Pm25SentinelOnlyAboveRange(raw: RawValues)
    ensures CalculateAqi(ToPhysical(raw).pm2_5, Pm25) == NoBucket <==> raw.pm2p5 > 5004
  {
    var c := ToPhysical(raw).pm2_5;
    Pm25Shape();
    if raw.pm2p5 > 5004 {
      AboveLast(Pm25, c);
    } else {
      assert TenthGaps(Pm25);
      TenthsCovered(Pm25, raw.pm2p5 as int);
    }
  }

  /** For PM10 and NOx the gaps are a whole unit wide, and sensor counts
      land in them: raw PM10 545 (54.5) and raw NOx 535 (53.5) each give the
      sentinel although both lie inside their table's overall range. */
  lemma SensorCountsReachGaps()
    ensures CalculateAqi(545 as real / 10.0, Pm10) == NoBucket
    ensures CalculateAqi(535 as real / 10.0, Nox) == NoBucket
    ensures Pm10[0].concLo < 54.5 < Pm10[|Pm10| - 1].concHi
    ensures Nox[0].concLo < 53.5 < Nox[|Nox| - 1].concHi
  {
    Pm10Shape();
    NoxShape();
    InGap(Pm10, 0, 54.5);
    InGap(Nox, 0, 53.5);
  }
}
