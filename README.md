# vbus2influx: acquisition, extraction and delivery, modelled in Dafny

vbus2influx is a gateway between a solar-thermal controller's VBus serial
line and an InfluxDB time-series database. Its main loop repeats four steps.
It reads decoded bus frames until the controller's telemetry packet arrives.
It extracts 22 named channel values from that packet. It publishes the
reading as the shared "latest" snapshot. Then it appends the reading to an
in-memory retry buffer and sends the buffer to the database, oldest first,
stopping at the first refused write.

This project models that loop and proves its ordering, retry and
extraction properties.

- `wrappers.dfy`, `machine.dfy`: `Option`/`Result`, and the `u8`/`u16` widths of the bus fields.
- `telemetry.dfy` (`Telemetry`): a reading is a timestamp and exactly 22 channel values, in the order of a fixed schema of channel names. There is also a by-name view of a reading and the zeroed default reading.
- `link.dfy` (`Link`): the UART/GPIO/I/O error types, the UART-to-I/O error conversion, and the saturated minimum read length passed to the UART before each read.
- `frames.dfy` (`Frames`): bus frames and the reader as a finite sequence of read events. The reader's `None` is the end of that sequence. The scan loop of `read_data` is a method, proved against the pure `Scan`.
- `extraction.dfy` (`Extraction`): the 22 `fields.next()` calls of `read_data`, as a loop proved against the pure `Extracted`. `read_data` as a whole is `ReadData`.
- `delivery.dfy` (`Delivery`): the drain policy and the loop as values. `Drain` gives one cycle's outcome. `Run` and `DeliveredOver` give many cycles. The lemmas cover no loss, no duplication, capture order, retry-first, snapshot independence and eventual delivery.
- `gateway.dfy` (`Gateway`): the loop's state as a class `AcquisitionLoop`, with the snapshot slot and the retry buffer as fields. Its methods are proved against `Delivery`.

Modelling choices:
- Channel values are IEEE 754 bit patterns (`F64Bits`). The program only copies them, so no floating-point arithmetic is modelled. The zeroed value `0.0` is bit pattern 0.
- Wall-clock time is a `Timestamp` parameter.
- The database is an oracle: `sink(i)` says whether write attempt `i` of the current cycle succeeds.
- The decoder's field resolution for a data set (`fields_in_data_set`) is a function parameter `fieldsOf`. It comes from an external library whose field order is not visible.

Two facts about the code that the model keeps:
- The schema has 22 channels (src/main.rs:157-266): 11 temperatures (`temperature_01`..`09`, `_11`, `_12`), `irradiation_10`, 3 flow rates, 2 pressures and 5 relays.
- Frames before the terminal packet are dropped by the `_ => {}` arm. Only the terminal packet is added to the data set (src/main.rs:143-150).

## Model

| member | source | states |
|---|---|---|
| Telemetry.NamedChannels | src/main.rs:273-297 | each of the 22 field names of a reading maps to the value at its schema position, and no other name is present |
| Telemetry.SchemaShape | src/main.rs:157-266 | the schema has 22 pairwise distinct channel names |
| Telemetry.Zeroed | src/main.rs:300-326 | the default reading carries the given time and every named channel is `0.0` |
| Link.UartErrToIo | src/main.rs:111-118 | an invalid-value UART error becomes an `InvalidInput` I/O error; a non-I/O GPIO error becomes an `Other` error; only wrapped I/O errors pass through unwrapped |
| Link.UartErrToIoPassesThrough | src/main.rs:113-114 | an I/O error inside a UART or GPIO error is returned unchanged |
| Link.UartErrToIoWrapsLosslessly | src/main.rs:115-116 | every other UART error can be read back from the I/O error it becomes |
| Link.UartErrToIoMergesIoLevels | src/main.rs:113-114 | a UART-level and a GPIO-level I/O error convert to the same I/O error |
| Link.ReadModeMinLength | src/main.rs:105 | the read-mode length is the buffer length when that fits in a `u8`, and `u8::MAX` otherwise |
| Frames.FirstStop | src/main.rs:142-152 | the scan ends at the first read that fails or delivers a telemetry packet addressed to 0x0010; every read before it does neither |
| Frames.FirstStopAt | src/main.rs:142-145 | the scan stops at a read that ends it when no earlier read does |
| Frames.ScanForTerminal | src/main.rs:141-152 | the loop's data set, error and unconsumed reads are exactly those of `Scan` |
| Frames.ScanKeepsOnlyTerminal | src/main.rs:143-150 | the data set holds at most one frame, and only a terminal packet |
| Frames.ScanFindsTerminal | src/main.rs:142-149 | after any non-terminal frames, a terminal packet is the whole data set, and the reads after it are left for the next cycle |
| Frames.ScanRunsDry | src/main.rs:141-142 | a reader exhausted before any terminal packet leaves an empty data set |
| Frames.ScanFails | src/main.rs:142 | a read error before the terminal packet is the scan's result, and the frames before it are discarded |
| Extraction.FirstFailure | src/main.rs:157-266 | every channel before the returned position is present and numeric, and the channel at it is missing or non-numeric |
| Extraction.Extracted | src/main.rs:155-269 | success iff there are at least 22 fields and the first 22 are numeric; then the reading holds those values in schema order with the given time; otherwise the error names the first failing channel in schema order, as not set exactly when the fields ran out there |
| Extraction.ExtractedFailsAtFirstBadChannel | src/main.rs:157-266 | for any j, when channels before j are present and channel j is not, the error names channel j with the reason found there |
| Extraction.ExtractedIgnoresExtraFields | src/main.rs:154-267 | fields past the 22nd never change the outcome |
| Extraction.ExtractedFromNoFields | src/main.rs:157-159 | an empty field list fails on `temperature_01` as not set |
| Extraction.ExtractChannels | src/main.rs:154-269 | the 22 early-returning `next()` steps produce exactly `Extracted` |
| Extraction.ReadDataResult | src/main.rs:136-270 | a read error fails `read_data` with that error; a reading is returned only after a successful scan and extraction |
| Extraction.ReadData | src/main.rs:136-270 | `read_data` returns `ReadDataResult` and consumes the reader up to the read that ended the scan |
| Extraction.ReadDataOnTerminalPacket | src/main.rs:141-269 | a terminal packet whose fields start with 22 numeric values yields the reading of those values in schema order |
| Extraction.ReadDataOnBadTerminalPacket | src/main.rs:141-266 | a terminal packet whose fields fail first at channel j fails `read_data` with an error naming channel j, as not set exactly when the fields ran out there |
| Extraction.ReadDataOnExhaustedReader | src/main.rs:141-159 | a reader that runs dry hands an empty data set to the extraction |
| Delivery.AckedFrom | src/main.rs:85-95 | the count of consecutive successful sends: all attempts before it succeed, and the one at it fails unless the buffer is used up |
| Delivery.Drain | src/main.rs:85-96 | delivered readings then the remaining buffer equal the old buffer; each delivered reading was acknowledged; a remaining head was just refused; nothing behind it was sent |
| Delivery.DrainedByDetermines | src/main.rs:85-96 | the drain contract has exactly one outcome |
| Delivery.DrainAllAccepted | src/main.rs:85-96 | when every send succeeds, the whole buffer is delivered in order and the buffer is empty |
| Delivery.DrainStopsAtFirstFailure | src/main.rs:91-94 | when send k is the first refused, readings 0..k are sent, 0..k-1 delivered, and k onward stay queued with k at the front |
| Delivery.Initial | src/main.rs:57-78 | before the first cycle the buffer is empty and the snapshot is the zeroed reading |
| Delivery.RunConserves | src/main.rs:79-97 | over any cycles and sink answers, everything delivered then the final buffer equal the initial buffer then the captured readings in capture order |
| Delivery.RunSnapshot | src/main.rs:79-83 | after any cycles the snapshot is the last reading captured, whatever the sink answered |
| Delivery.RunDeliversAllOnHealthySink | src/main.rs:79-97 | once a cycle's sink accepts every write, every reading captured so far has been delivered in capture order and the buffer is empty |
| Delivery.RetriedFirstNextCycle | src/main.rs:85-94 | a reading left in the buffer was the refused last send of its cycle and is the first send of the next cycle, before any newer reading |
| Delivery.ThreeCycleRetryScenario | src/main.rs:79-97 | three readings with only the second attempt refused arrive in order, the second retried ahead of the third, and the snapshot ends as the third |
| Gateway.AcquisitionLoop.constructor | src/main.rs:57-78 | the loop starts with the zeroed snapshot and an empty buffer |
| Gateway.AcquisitionLoop.Enqueue | src/main.rs:83 | the new reading is appended behind all buffered ones; the snapshot is untouched |
| Gateway.AcquisitionLoop.Deliver | src/main.rs:85-96 | the pop/send/push-front loop leaves the buffer, and reports the sent and delivered readings, exactly as `Drain` does |
| Gateway.AcquisitionLoop.RunCycle | src/main.rs:82-96 | afterwards the snapshot is the new reading whatever the sink answered, and the buffer is the drain of the old buffer plus the reading; that the snapshot is written before the first send is the order of the body's statements, not a contract |
| Gateway.AcquisitionLoop.Iterate | src/main.rs:79-97 | a failed `read_data` is returned as fatal with the state unchanged; otherwise the state advances by one cycle on the extracted reading |

## Left out

- Configuration loading from `/etc/vbus2influx.toml` (src/main.rs:44-47): file I/O through an external library.
- InfluxDB client construction and the write query (src/main.rs:50-55, 87-89): network RPC. Each write is an oracle answer, and the serialisation of a reading into a query is not modelled.
- The HTTP query service and its task spawn (src/main.rs:59-64, 120-132): transport and concurrency. The handler only copies the snapshot.
- The mutex around the snapshot (src/main.rs:57, 82, 124): locking is concurrency. The snapshot is a plain field, overwritten once per cycle.
- UART and GPIO setup and the body of `UartWrapper::read` (src/main.rs:75-76, 102-109): hardware I/O. Only the saturated length of line 105 and the error conversion are modelled.
- Decoding of the bus specification file and `fields_in_data_set` (src/main.rs:67-72, 154): external library code whose field order is not visible. Its output is the parameter `fieldsOf`.
- The live reader's own framing and checksums: external library code. The reader is a finite sequence of already-decoded frames or read errors.
- `DataSet::add_data` is modelled as appending to an empty sequence. Its replace-same-frame behaviour never matters, because at most one frame is ever added.
- `Utc::now()` (src/main.rs:156, 302): wall clock. It is a timestamp parameter.
- f64 semantics: values are bit patterns and are only copied.
- The text of the error messages (`Field ... not set.`, `... can't be converted to f64.`) and the `eprintln!` log line: formatting. An error is the channel name plus a reason.
- Process exit on a fatal error (the `?` at src/main.rs:80): `Iterate` returns the error, and the model has no process.
- Extraction.ReadDataResult: its own contract covers only the error path and the preconditions for success. The success, channel-failure and exhaustion cases are stated by `ReadDataOnTerminalPacket`, `ReadDataOnBadTerminalPacket` and `ReadDataOnExhaustedReader`.
