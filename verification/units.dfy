/**
 * The raw counts the SEN5x sensor reports and their conversion to
 * physical units by fixed per-channel divisors.
 */
module Units {

  /** C's `uint16_t`. */
  newtype U16 = x: int | 0 <= x < 0x1_0000

  /** C's `int16_t`. */
  newtype I16 = x: int | -0x8000 <= x < 0x8000

  /** One set of values as `sen5x_read_measured_values` delivers them:
      particulate mass in tenths of a microgram per cubic metre, relative
      humidity in hundredths of a percent, temperature in 1/200 degree
      Celsius, VOC and NOx indices in tenths. */
  datatype RawValues = RawValues(
    pm1p0: U16, pm2p5: U16, pm4p0: U16, pm10p0: U16,
    hum: I16, tempRaw: I16, vocIdx: I16, noxIdx: I16)

  /** The same values in physical units. */
  datatype Measurement = Measurement(
    pm1: real, pm2_5: real, pm4: real, pm10: real,
    temp: real, rh: real, voc: real, nox: real)

  const TenthsDivisor: real := 10.0
  const HumidityDivisor: real := 100.0
  const TemperatureDivisor: real := 200.0

  /** The conversion at the top of each successful read: every channel is
      divided by its fixed divisor. */
  function ToPhysical(raw: RawValues): (m: Measurement)
    ensures m.pm1 * 10.0 == raw.pm1p0 as real && m.pm2_5 * 10.0 == raw.pm2p5 as real
    ensures m.pm4 * 10.0 == raw.pm4p0 as real && m.pm10 * 10.0 == raw.pm10p0 as real
    ensures m.voc * 10.0 == raw.vocIdx as real && m.nox * 10.0 == raw.noxIdx as real
    ensures m.rh * 100.0 == raw.hum as real
    ensures m.temp * 200.0 == raw.tempRaw as real
    ensures 0.0 <= m.pm2_5 <= 6553.5 && 0.0 <= m.pm10 <= 6553.5
    ensures -3276.8 <= m.nox <= 3276.7
  {
    Measurement(
      raw.pm1p0 as real / TenthsDivisor,
      raw.pm2p5 as real / TenthsDivisor,
      raw.pm4p0 as real / TenthsDivisor,
      raw.pm10p0 as real / TenthsDivisor,
      raw.tempRaw as real / TemperatureDivisor,
      raw.hum as real / HumidityDivisor,
      raw.vocIdx as real / TenthsDivisor,
      raw.noxIdx as real / TenthsDivisor)
  }

  /** Round half up, the way a count is recovered from a physical value. */
  function RoundToCount(x: real): int {
    (x + 0.5).Floor
  }

  predicate FitsU16(n: int) { 0 <= n < 0x1_0000 }
  predicate FitsI16(n: int) { -0x8000 <= n < 0x8000 }

  /** The physical values scale back to counts the sensor could have sent. */
  predicate Representable(m: Measurement) {
    && FitsU16(RoundToCount(m.pm1 * 10.0)) && FitsU16(RoundToCount(m.pm2_5 * 10.0))
    && FitsU16(RoundToCount(m.pm4 * 10.0)) && FitsU16(RoundToCount(m.pm10 * 10.0))
    && FitsI16(RoundToCount(m.rh * 100.0)) && FitsI16(RoundToCount(m.temp * 200.0))
    && FitsI16(RoundToCount(m.voc * 10.0)) && FitsI16(RoundToCount(m.nox * 10.0))
  }

  /** The inverse of the conversion: multiply back and round to a count. */
  function ToRaw(m: Measurement): RawValues
    requires Representable(m)
  {
    RawValues(
      RoundToCount(m.pm1 * 10.0) as U16, RoundToCount(m.pm2_5 * 10.0) as U16,
      RoundToCount(m.pm4 * 10.0) as U16, RoundToCount(m.pm10 * 10.0) as U16,
      RoundToCount(m.rh * 100.0) as I16, RoundToCount(m.temp * 200.0) as I16,
      RoundToCount(m.voc * 10.0) as I16, RoundToCount(m.nox * 10.0) as I16)
  }

  lemma RoundIntegral(n: int)
    ensures RoundToCount(n as real) == n
  {
  }

  /** Converting to physical units and back recovers every raw count. */
  lemma RoundTrip(raw: RawValues)
    ensures Representable(ToPhysical(raw))
    ensures ToRaw(ToPhysical(raw)) == raw
  {
    var m := ToPhysical(raw);
    RoundIntegral(raw.pm1p0 as int);
    RoundIntegral(raw.pm2p5 as int);
    RoundIntegral(raw.pm4p0 as int);
    RoundIntegral(raw.pm10p0 as int);
    RoundIntegral(raw.hum as int);
    RoundIntegral(raw.tempRaw as int);
    RoundIntegral(raw.vocIdx as int);
    RoundIntegral(raw.noxIdx as int);
  }
}
