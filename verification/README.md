# AQI engine and polling loop of the SEN5x air-quality firmware, in Dafny

The firmware polls a Sensirion SEN5x sensor every ten seconds. It converts the raw counts to physical units and computes three US EPA Air Quality Index sub-indices: PM2.5, PM10, and NO2 used as a proxy for NOx. The overall index is the largest of the three. The reading is then published to an MQTT broker as a JSON record.

This project models that core as pure Dafny functions over exact reals:

- `breakpoints.dfy` (module `Breakpoints`): the three constant breakpoint tables, and the shape every table has. Each bucket is non-empty, and the buckets strictly ascend in concentration and in index.
- `aqi.dfy` (module `Aqi`): `calculate_aqi`. It scans the buckets in order and takes the first one whose inclusive range holds the concentration. It applies Equation 1 of the EPA Technical Assistance Document for the Reporting of Daily Air Quality, adds 0.5 and truncates toward zero as C's `(int)` cast does. It returns -1 when no bucket matches.
- `units.dfy` (module `Units`): the raw counts as `uint16_t`/`int16_t` newtypes and their division by 10, 100 and 200.
- `airquality.dfy` (module `AirQuality`): the running maximum of the three sub-indices. It also holds facts about the concrete tables: exact end points, the [0, 500] scale, and which gaps sensor counts can reach.
- `acquisition.dfy` (module `Acquisition`): the loop of `app_main` as a function of a trace of sensor answers. The trace records whether the start succeeded and, for each cycle, a ready-check failure, "not ready", a read failure or a successful read. It also records whether an MQTT client exists.

Two behaviours of the tables as written are worth knowing; the model keeps both:

- The PM10 and NO2 tables (main/main.c:45-64) leave gaps one unit wide between neighbouring buckets, such as 54.0 to 55.0. The sensor reports tenths, so its counts land in these gaps: raw PM10 545 (54.5) gives -1 (`AirQuality.SensorCountsReachGaps`). The PM2.5 table (main/main.c:34-42) has gaps one tenth wide, and no sensor count reaches them (`AirQuality.Pm25SentinelOnlyAboveRange`).
- The running maximum (main/main.c:164-166) starts from the PM2.5 value even when that value is -1, and nothing checks the result before publishing. When all three sub-indices are -1, a record with `"aqi":-1` is published (`AirQuality.CompositeSentinel`, `Acquisition.SentinelPublished`).

## Model

| member | source | states |
|---|---|---|
| Breakpoints.Pm25Shape | main/main.c:34-42 | The PM2.5 table is well formed: each bucket has conc_lo < conc_hi and aqi_lo < aqi_hi, and every bucket lies strictly below every later one in concentration and index. It starts at 0.0 with index 0 and ends with index 500. |
| Breakpoints.Pm10Shape | main/main.c:45-53 | The same shape for the PM10 table. |
| Breakpoints.NoxShape | main/main.c:56-64 | The same shape for the NO2 table. |
| Breakpoints.ChainWellFormed | main/main.c:34-64 | Checking each bucket only against its neighbour is enough for every pair of buckets to be ordered and disjoint. |
| Aqi.Truncate | main/main.c:75 | The `(int)` cast truncates toward zero: for x >= 0 the result is the largest integer not above x, and for x < 0 the smallest integer not below x. |
| Aqi.BucketAqi | main/main.c:70-75 | Inside a matching bucket, interpolation plus rounding gives an index in [aqi_lo, aqi_hi]. It gives exactly aqi_lo at conc_lo and exactly aqi_hi at conc_hi. |
| Aqi.CalculateAqi | main/main.c:67-79 | The result is -1 exactly when no bucket's inclusive range holds the concentration. Otherwise it is the rounded interpolation in the first bucket that holds it. |
| Aqi.UniqueMatch | main/main.c:68-69 | In a well-formed table at most one bucket passes the range test, so the first-match scan is deterministic. |
| Aqi.SubIndexInBucket | main/main.c:68-76 | In a well-formed table, whichever bucket holds the concentration determines the result, and the result lies in that bucket's [aqi_lo, aqi_hi]. |
| Aqi.EndpointsExact | main/main.c:69-75 | For every bucket of a well-formed table, conc_lo gives exactly aqi_lo and conc_hi gives exactly aqi_hi. |
| Aqi.SubIndexRange | main/main.c:69-78 | A result is -1 or lies between the first bucket's aqi_lo and the last bucket's aqi_hi. |
| Aqi.BelowFirst | main/main.c:77-78 | A concentration below the first bucket gives -1. |
| Aqi.AboveLast | main/main.c:77-78 | A concentration above the last bucket gives -1. |
| Aqi.InGap | main/main.c:77-78 | A concentration strictly between two neighbouring buckets gives -1. |
| Aqi.BucketAqiMonotone | main/main.c:74-75 | Within one bucket the index never decreases as the concentration grows. |
| Aqi.CalculateAqiMonotone | main/main.c:67-79 | Over a well-formed table, if c1 <= c2 and each lies in some bucket (so neither gives -1), the index of c1 is at most the index of c2. |
| Units.ToPhysical | main/main.c:152-159 | Each converted value times its divisor gives back the raw count: 10 for particulates, VOC and NOx, 100 for humidity, 200 for temperature. PM values lie in [0, 6553.5]. |
| Units.RoundTrip | main/main.c:152-159 | Converting raw counts to physical units and back recovers every count exactly. |
| AirQuality.Composite | main/main.c:164-166 | The overall index is at least each sub-index and equals one of them: it is their maximum. |
| AirQuality.CompositeSentinel | main/main.c:164-166 | The overall index is -1 exactly when all three sub-indices are -1. A -1 never beats a valid sub-index. |
| AirQuality.InScale | main/main.c:34-78 | With any of the three tables, a sub-index is -1 or lies in [0, 500]. |
| AirQuality.Assess | main/main.c:161-166 | PM2.5 and PM10 are looked up in their own tables and NOx in the NO2 table. The overall index is their maximum, lies in {-1} or [0, 500], and is -1 exactly when no table has a bucket for its value. |
| AirQuality.Pm25Examples | main/main.c:34-42 | PM2.5 0.0 gives 0, 35.4 gives 100, 500.4 gives 500, and -1.0 and 500.5 give -1. |
| AirQuality.Pm10Examples | main/main.c:45-53 | PM10 54.0 gives 50 and 55.0 gives 51. The gap value 54.5 and 604.5, above the table, give -1. |
| AirQuality.NoxExamples | main/main.c:56-64 | NO2 100.0 gives 100. The gap value 100.5 and 2049.5, above the table, give -1. |
| AirQuality.TenthsCovered | main/main.c:34-42 | A table whose gaps are one tenth wide has a bucket for every whole number of tenths between its first and last bucket. |
| AirQuality.Pm25SentinelOnlyAboveRange | main/main.c:153-161 | For PM2.5, a raw count gives -1 exactly when it exceeds 5004. |
| AirQuality.SensorCountsReachGaps | main/main.c:155-163 | Raw PM10 545 and raw NOx 535 lie inside their tables' overall ranges yet give -1. |
| Acquisition.Record | main/main.c:152-177 | The published record carries the converted values. Its `aqi` field is at least each of the three sub-indices, equals one of them, and is -1 or in [0, 500]. |
| Acquisition.Cycle | main/main.c:144-186 | A cycle publishes exactly when the ready check succeeded, said ready, the read succeeded, and a client exists. It always ends with the 10000 ms delay. |
| Acquisition.Run | main/main.c:138-187 | A failed start gives no cycles. Otherwise there is a 1000 ms warm-up and one cycle per answer in order. Each cycle ends with the same delay, publishes under the same condition, and publishes that answer's record. Without a client, the run publishes nothing. |
| Acquisition.NoClientNoPublish | main/main.c:172-179 | Cycles computed without a client publish nothing; `Acquisition.Run` uses this for its no-client clause. |
| Acquisition.Pm10At25 | main/main.c:46 | PM10 25.0 gives 23. |
| Acquisition.SentinelPublished | main/main.c:161-178 | With raw PM2.5 above 5004, PM10 above 6040 and NOx above 20490, a ready cycle with a client still publishes, with `aqi` equal to -1. |
| Acquisition.EndToEndExample | main/main.c:152-178 | Raw PM2.5 354, PM10 250 and NOx 0 give sub-indices 100, 23 and 0 and overall index 100, and the published `aqi` field is 100. |

## Left out

- Wi-Fi and MQTT bring-up and their event handlers (main/main.c:82-130): ESP-IDF plumbing. The model keeps only whether `mqtt_client` is non-null, as a boolean fixed for the whole run, since the source assigns it once.
- The I2C and SEN5x driver calls: the model receives their outcomes as data, through `startOk` and the cycle trace.
- The `snprintf` rendering of the JSON payload and all `ESP_LOGx` output: float formatting and logging. The payload keeps the eight values and the integer `aqi` field.
- Single-precision float effects: the model uses exact reals. In the firmware, 12.1f is not exactly 12.1, and the interpolation rounds at each step. So the exact end points and the PM2.5 coverage fact hold for the reals, not necessarily for every float.
- `vTaskDelay` and real time: each delay is recorded as its length in milliseconds.
- Acquisition.Run: models a finite prefix of the endless `while (1)` loop, one cycle per element of the trace.
- Aqi.CalculateAqi: requires every bucket to have conc_lo < conc_hi and 0 <= aqi_lo <= aqi_hi, so it does not describe tables with inverted, negative or empty buckets. `calculate_aqi` is `static` and is called only with the three constant tables (main/main.c:161-163), which satisfy the requirement (`Breakpoints.Pm25Shape` and its siblings), so no call in the firmware is excluded. A bucket with conc_lo == conc_hi would also make the C code divide by zero and cast a NaN or infinity to `int`, which is undefined behaviour.
