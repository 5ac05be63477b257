/**
 * The polling loop of `app_main`, as a pure function of what the sensor
 * and the connectivity layer answered. One start call, then cycles of
 * ready check, read, conversion, index computation and a best-effort
 * publish, each cycle followed by the same fixed delay.
 */
module Acquisition {
  import opened Aqi
  import opened Units
  import opened AirQuality

  /** Delay after every cycle (`SENSOR_POLL_DELAY_MS`, main/main.c:17). */
  const PollDelayMs: nat := 10000

  /** Delay between a successful start and the first cycle (main/main.c:142). */
  const WarmupDelayMs: nat := 1000

  datatype Option<T> = None | Some(value: T)

  /** What `sen5x_read_measured_values` answered. */
  datatype ReadOutcome = ReadFailed | ReadOk(raw: RawValues)

  /** What one cycle saw: the ready check failed, reported "not ready", or
      reported "ready" and was followed by a read. */
  datatype CycleOutcome = ReadyCheckFailed | NotReady | Ready(read: ReadOutcome)

  /** The fields of the JSON record sent to the broker: the eight values in
      physical units and the overall index as an integer. */
  datatype Payload = Payload(values: Measurement, aqi: int)

  /** What one cycle did: the record it published, if any, and the delay
      it ended with. */
  datatype CycleLog = CycleLog(published: Option<Payload>, delayMs: nat)

  /** A run either stops at once because the measurement could not be
      started, or waits once and then goes through the cycles. */
  datatype RunLog = Aborted | Polled(warmupMs: nat, cycles: seq<CycleLog>)

  /** A cycle publishes exactly when the ready check succeeded and said
      ready, the read succeeded, and there is a client to publish with. */
  predicate ShouldPublish(o: CycleOutcome, clientPresent: bool) {
    o.Ready? && o.read.ReadOk? && clientPresent
  }

  /** The record a successful read yields. */
  function Record(raw: RawValues): (p: Payload)
    ensures p.values == ToPhysical(raw)
    ensures p.aqi == NoBucket || 0 <= p.aqi <= MaxIndex
    ensures p.aqi >= CalculateAqi(p.values.pm2_5, Breakpoints.Pm25)
    ensures p.aqi >= CalculateAqi(p.values.pm10, Breakpoints.Pm10)
    ensures p.aqi >= CalculateAqi(p.values.nox, Breakpoints.Nox)
    ensures || p.aqi == CalculateAqi(p.values.pm2_5, Breakpoints.Pm25)
            || p.aqi == CalculateAqi(p.values.pm10, Breakpoints.Pm10)
            || p.aqi == CalculateAqi(p.values.nox, Breakpoints.Nox)
  {
    var m := ToPhysical(raw);
    Payload(m, Assess(m).aqi)
  }

  /** One pass through the body of the polling loop. */
  function Cycle(o: CycleOutcome, clientPresent: bool): (c: CycleLog)
    ensures c.delayMs == PollDelayMs
    ensures c.published.Some? <==> ShouldPublish(o, clientPresent)
    ensures c.published.Some? ==> c.published.value == Record(o.read.raw)
  {
    var published :=
      match o
      case ReadyCheckFailed => None
      case NotReady => None
      case Ready(ReadFailed) => None
      case Ready(ReadOk(raw)) =>
        if clientPresent then Some(Record(raw)) else None;
    CycleLog(published, PollDelayMs)
  }

  /** `app_main` after network bring-up, over a finite prefix of the
      sensor's answers: a failed start ends the run before any cycle;
      otherwise every answer yields one cycle, in order. */
  method Run(startOk: bool, clientPresent: bool, trace: seq<CycleOutcome>) returns (log: RunLog)
    ensures log.Aborted? <==> !startOk
    ensures log.Polled? ==> log.warmupMs == WarmupDelayMs && |log.cycles| == |trace|
    ensures log.Polled? ==> forall i :: 0 <= i < |trace| ==> log.cycles[i].delayMs == PollDelayMs
    ensures log.Polled? ==> forall i :: 0 <= i < |trace| ==>
      (log.cycles[i].published.Some? <==> ShouldPublish(trace[i], clientPresent))
    ensures log.Polled? ==> forall i :: 0 <= i < |trace| && ShouldPublish(trace[i], clientPresent) ==>
      log.cycles[i].published.value == Record(trace[i].read.raw)
    ensures log.Polled? && !clientPresent ==> PublishCount(log.cycles) == 0
  {
    if !startOk {
      return Aborted;
    }
    var cycles: seq<CycleLog> := [];
    var i := 0;
    while i < |trace|
      invariant 0 <= i <= |trace|
      invariant |cycles| == i
      invariant forall k :: 0 <= k < i ==> cycles[k] == Cycle(trace[k], clientPresent)
    {
      cycles := cycles + [Cycle(trace[i], clientPresent)];
      i := i + 1;
    }
    if !clientPresent {
      NoClientNoPublish(trace, cycles);
    }
    return Polled(WarmupDelayMs, cycles);
  }

  /** The number of cycles that publish. */
  function PublishCount(cycles: seq<CycleLog>): nat {
    if |cycles| == 0 then 0
    else (if cycles[0].published.Some? then 1 else 0) + PublishCount(cycles[1..])
  }

  /** Without a client nothing is ever published, whatever the sensor says. */
  lemma NoClientNoPublish(trace: seq<CycleOutcome>, cycles: seq<CycleLog>)
    requires |cycles| == |trace|
    requires forall i :: 0 <= i < |trace| ==> cycles[i] == Cycle(trace[i], false)
    ensures PublishCount(cycles) == 0
  {
    if |cycles| > 0 {
      NoClientNoPublish(trace[1..], cycles[1..]);
    }
  }

  /** PM10 25.0 lies in the first bucket: 50 / 54 * 25 is about 23.15,
      which rounds to 23. */
  lemma Pm10At25()
    ensures CalculateAqi(25.0, Breakpoints.Pm10) == 23
  {
    Breakpoints.Pm10Shape();
    SubIndexInBucket(Breakpoints.Pm10, 25.0, 0);
    var b := Breakpoints.Pm10[0];
    assert Interpolate(b, 25.0) == 1250.0 / 54.0;
  }

  /** The end-to-end case: raw PM2.5 354 (35.4, index 100), raw PM10 250
      (25.0, index 23) and raw NOx 0 (index 0) publish the overall index 100. */
  lemma EndToEndExample(raw: RawValues)
    requires raw.pm2p5 == 354 && raw.pm10p0 == 250 && raw.noxIdx == 0
    ensures Assess(ToPhysical(raw)) == Assessment(100, 23, 0, 100)
    ensures Cycle(Ready(ReadOk(raw)), true).published == Some(Payload(ToPhysical(raw), 100))
  {
    var m := ToPhysical(raw);
    assert m.pm2_5 == 35.4 && m.pm10 == 25.0 && m.nox == 0.0;
    Pm25Examples();
    Pm10At25();
    Breakpoints.NoxShape();
    EndpointsExact(Breakpoints.Nox, 0);
    var a := Assess(m);
    assert a.aqi25 == 100 && a.aqi10 == 23 && a.aqiNox == 0;
  }

  /** When every channel is beyond its table, the cycle still publishes,
      with the sentinel as the overall index. */
  lemma SentinelPublished(raw: RawValues)
    requires raw.pm2p5 > 5004 && raw.pm10p0 > 6040 && raw.noxIdx > 20490
    ensures Cycle(Ready(ReadOk(raw)), true).published.Some?
    ensures Cycle(Ready(ReadOk(raw)), true).published.value.aqi == NoBucket
  {
    var m := ToPhysical(raw);
    Breakpoints.Pm25Shape();
    Breakpoints.Pm10Shape();
    Breakpoints.NoxShape();
    AboveLast(Breakpoints.Pm25, m.pm2_5);
    AboveLast(Breakpoints.Pm10, m.pm10);
    AboveLast(Breakpoints.Nox, m.nox);
  }
}
