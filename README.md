# Fan control and Modbus monitor — a Dafny model

The repository has two small desktop tools. This project models their core
logic and proves properties about it.

**Fan control** (`FanControl/fan_controller.py`) is a window that talks to a
fan controller over a serial line. The model covers these parts:

- the command lines it writes: `A`, `M` and `P=<n>`, each ended by a line feed;
- the clamp of a progress-bar click to 0..100;
- the classification of each incoming line. The tests run in a fixed order:
  `OK: AUTO MODE`, `OK: MANUAL MODE`, `OK: P=`, `STATUS: AUTO`, `STATUS: MANUAL`,
  `ERROR`, then `OK: Motor Direction ->`.
- what each kind of line does to the mode label, the highlighted button, the
  temperature label, the bar, its percentage label, `pwm_value`, the click
  binding, the log and the pop-ups;
- the read loop that fills the queue;
- the queue drain;
- connecting, disconnecting and the control reset;
- sending commands, the two mode buttons and a click on the bar.

**Modbus monitor** (`ModBus/master_reader.py`) is a window that polls a list of
Modbus TCP slaves. The model covers these parts:

- loading `config.ini`, falling back to all-default settings on any error;
- building one panel per address;
- the poll cycle. For each device it retries the connection within a 10-unit
  budget, with a 0.2 back-off. It writes the secret key to holding register 99.
  It reads two registers (device 0), one (device 1) or none (the rest). It sets
  the status for each outcome and always closes the client. One device's
  failure never touches another panel, and the next cycle is scheduled only
  while the monitor runs.
- `clean_up`.

The module layout follows the source files:

- `strings.dfy` (`Strings`): `str.strip`, `str.split`, joining, `int()`
  parsing and decimal printing, as the two programs use them.
- `fan_protocol.dfy` (`FanProtocol`): command encoding, the click clamp, the
  message classifier and the field extraction of each branch.
- `fan_control.dfy` (`FanControl`): the display state as a value (`FanView`) with the
  effect of each message (`Apply`), the read loop and drain as functions
  on sequences, and the class `FanController` whose methods update the
  window's fields in place and are proved against those functions.
- `modbus_config.dfy` (`ModbusConfig`): the settings and their defaults.
- `modbus_poll.dfy` (`ModbusPoll`): the retry loop, one device's turn
  (its label changes and its client calls) and the whole cycle as functions.
- `modbus_monitor.dfy` (`ModbusApp`): the class `ModbusMonitor`, whose
  methods run the retry loop, the session and the cycle on its fields
  and are proved against `ModbusPoll`.

The outside world is passed in as parameters:

- whether a port opens;
- whether each write succeeds;
- the run of `readline()` outcomes;
- for each device, what each `connect()` returns and how long it takes, what
  the key write does, whether the `close()` after a rejected key raises, and what the register read returns.

## Model

| member | source | states |
|---|---|---|
| Strings.StripSpec | ModBus/master_reader.py:14 | `strip` leaves no white space at either end, is a substring of its input, and is empty exactly when the input is all white space |
| Strings.StripIdempotent | FanControl/fan_controller.py:156 | stripping twice is stripping once |
| Strings.IndexOfSpec | FanControl/fan_controller.py:185 | the search finds the first occurrence, or reports that there is none |
| Strings.SplitSpec | ModBus/master_reader.py:14 | the pieces of `split` joined back with the separator give the input; no piece contains the separator; there are two or more pieces exactly when the input contains it; the first piece ends at the first occurrence |
| Strings.Split | ModBus/master_reader.py:14 | Python's `str.split(sep)`: at least one piece (properties: `SplitSpec`, `SplitFirst`, `SplitWhole`, `SplitJoin`) |
| Strings.SplitFirst | FanControl/fan_controller.py:196-198 | text whose first occurrence of the separator follows `a` splits into `a` and the pieces of the rest |
| Strings.SplitWhole | FanControl/fan_controller.py:196-198 | text without the separator's first character is a single piece |
| Strings.NoCharNoPattern | FanControl/fan_controller.py:175-185 | text lacking one character of a pattern does not contain the pattern |
| Strings.Strip | ModBus/master_reader.py:14 | Python's `str.strip()`: never longer than its input (properties: `StripSpec`, `StripExact`, `StripIdempotent`) |
| Strings.IntToString | FanControl/fan_controller.py:274 | Python's `str(n)`: never empty (properties: `IntToStringChars`, `IntToStringRoundTrip`) |
| Strings.IntToStringChars | FanControl/fan_controller.py:274 | `str(n)` holds only digits and a leading minus sign |
| Strings.RemoveAllSpec | FanControl/fan_controller.py:197 | `replace(p, "")` leaves text without `p` unchanged and never lengthens the text |
| Strings.SplitJoin | ModBus/master_reader.py:14 | splitting a join of separator-free pieces at a one-character separator gives the pieces back |
| Strings.ParseIntSpec | FanControl/fan_controller.py:187-188 | `int()` accepts exactly an optionally signed run of digits surrounded by the white space `int()` skips (`IsIntSpace`: `str.isspace` less U+001C..U+001F); it rejects text without digits, and on text without U+001C..U+001F stripping first changes nothing; there is no 4300-digit limit (see "Left out") |
| Strings.ParseInt | FanControl/fan_controller.py:187-188 | Python's `int()` on text: a U+001C..U+001F character anywhere rejects the text; otherwise the stripped text must be an optionally signed run of digits (properties: `ParseIntSpec`, `IntToStringRoundTrip`) |
| Strings.StripExact | ModBus/master_reader.py:14 | when `s[i..j]` starts and ends with non-space characters and only white space surrounds it, `strip` gives exactly `s[i..j]` |
| Strings.ParseIntAccepts | FanControl/fan_controller.py:187-188 | an optionally signed run of digits surrounded by `int()` white space is accepted |
| Strings.IntToStringRoundTrip | FanControl/fan_controller.py:274 | `int(str(n)) == n` for every integer; CPython's 4300-digit limit is not modelled (see "Left out") |
| Strings.NatToStringValue | FanControl/fan_controller.py:274 | the decimal text of a natural number denotes that number |
| FanProtocol.EncodeLine | FanControl/fan_controller.py:238 | a written line is the command text, which holds no line feed, and then one line feed |
| FanProtocol.EncodeRoundTrip | FanControl/fan_controller.py:234-250 | the command can be read back from every written line (`A`, `M`, `P=<n>`) |
| FanProtocol.Clamp | FanControl/fan_controller.py:264-268 | a click value is kept when in 0..100, becomes 0 below and 100 above |
| FanProtocol.ClickCommandInRange | FanControl/fan_controller.py:264-274 | the `P=` line sent for any click reads back as a percentage in 0..100 |
| FanProtocol.ClassifyFirstMatch | FanControl/fan_controller.py:175-226 | a line takes the first branch of the handler's if/elif chain whose test it passes |
| FanProtocol.ClassifyIs | FanControl/fan_controller.py:175-226 | a line whose test for a branch holds, while no earlier branch's test does, takes that branch |
| FanProtocol.ClassifyFromSpec | FanControl/fan_controller.py:175-226 | the chain searched from any position gives the first test that holds from there |
| FanProtocol.PercentTextSpec | FanControl/fan_controller.py:185-187 | an `OK: P=` line always yields a percentage text, with no comma in it |
| FanProtocol.AutoStatusFieldsSpec | FanControl/fan_controller.py:196-198 | the `STATUS: AUTO` fields exist exactly when the line has three `", "` parts and the second and third contain `=`; this is the IndexError condition otherwise |
| FanProtocol.ManualStatusFieldSpec | FanControl/fan_controller.py:212-213 | the `STATUS: MANUAL` field exists exactly when the second `", "` part contains `=` |
| FanProtocol.EchoPercentText | FanControl/fan_controller.py:185-188 | the echo `OK: P=<n>` (optionally followed by a comma) yields exactly the value `n` |
| FanProtocol.NoTagInNumber | FanControl/fan_controller.py:186 | a number's text followed by a comma contains no `OK: P=` |
| FanProtocol.AutoStatusDecode | FanControl/fan_controller.py:196-198 | `STATUS: AUTO, TEMP=<t> C, P=<n>`, for a temperature text with no comma, `=` or `" C"`, decodes to exactly `t` and the text of `n` |
| FanProtocol.AutoStatusPieces | FanControl/fan_controller.py:196 | that line splits at `", "` into the tag, `TEMP=<t> C` and `P=<n>` |
| FanProtocol.TemperatureFieldSplit | FanControl/fan_controller.py:197 | `TEMP=<t> C` splits at `=` into `TEMP` and `<t> C` |
| FanProtocol.RemoveUnit | FanControl/fan_controller.py:197 | removing `" C"` from `<t> C` gives `t` back |
| FanProtocol.PercentFieldSplit | FanControl/fan_controller.py:198 | `P=<n>` splits at `=` into `P` and the text of `n` |
| FanProtocol.ManualStatusDecode | FanControl/fan_controller.py:212-213 | `STATUS: MANUAL, P=<n>` decodes to exactly the text of `n` |
| FanProtocol.TwoFieldsSplit | FanControl/fan_controller.py:212 | two comma-free fields joined by `", "` split back into them |
| FanProtocol.ThreeFieldsSplit | FanControl/fan_controller.py:196 | three comma-free fields joined by `", "` split back into them |
| FanProtocol.NumberChars | FanControl/fan_controller.py:274 | the text of a number holds no comma, `=` or `K` |
| FanProtocol.NoAcknowledgement | FanControl/fan_controller.py:175-185 | a line without `K` passes none of the three `OK:` tests |
| FanProtocol.AutoStatusLineKind | FanControl/fan_controller.py:175-194 | a well-formed `STATUS: AUTO` line takes the `STATUS: AUTO` branch |
| FanProtocol.ManualStatusLineKind | FanControl/fan_controller.py:175-210 | a `STATUS: MANUAL` line takes the `STATUS: MANUAL` branch |
| FanProtocol.Encode | FanControl/fan_controller.py:238 | the bytes written for a command: its text and a line feed (properties: `EncodeLine`, `EncodeRoundTrip`) |
| FanProtocol.Classify | FanControl/fan_controller.py:175-226 | the branch of the handler's if/elif chain a line takes (properties: `ClassifyFirstMatch`, `ClassifyIs`) |
| FanProtocol.PercentText | FanControl/fan_controller.py:185-187 | the text between `OK: P=` and the next comma (properties: `PercentTextSpec`, `EchoPercentText`) |
| FanProtocol.AutoStatusFields | FanControl/fan_controller.py:196-198 | the temperature and percentage texts of a `STATUS: AUTO` line, or the IndexError (properties: `AutoStatusFieldsSpec`, `AutoStatusDecode`) |
| FanProtocol.ManualStatusField | FanControl/fan_controller.py:212-213 | the percentage text of a `STATUS: MANUAL` line, or the IndexError (properties: `ManualStatusFieldSpec`, `ManualStatusDecode`) |
| FanProtocol.TagPiece | FanControl/fan_controller.py:186 | the second `OK: P=` piece of an echo cuts at its comma to the number's text |
| FanControl.ResetDisplayShows | FanControl/fan_controller.py:139-146 | the reset shows no connection, `--`, 0 % with a readable label and no click binding, and keeps `pwm_value` |
| FanControl.ApplyKeepsDisplayConsistent | FanControl/fan_controller.py:174-226 | handling any line keeps the percentage label readable as the bar's value |
| FanControl.ReportedPercentConsistent | FanControl/fan_controller.py:200-220 | the shared tail of the two status branches keeps that invariant |
| FanControl.ApplyModeTransitions | FanControl/fan_controller.py:174-226 | only the two acknowledgements and the two status reports move the mode label, to Automatic or Manual; the bar and `pwm_value` move together |
| FanControl.ApplyQuietKinds | FanControl/fan_controller.py:223-226 | `ERROR` only adds a pop-up with the line; a motor-direction line or an unmatched line changes nothing |
| FanControl.ApplyPercentAck | FanControl/fan_controller.py:185-193 | an integer after `OK: P=` becomes the bar value and `pwm_value`, with no range check; otherwise only an error is logged |
| FanControl.ApplyEcho | FanControl/fan_controller.py:185-191 | the device's echo of a percentage sets both to that number and keeps the mode |
| FanControl.ApplyAutoStatus | FanControl/fan_controller.py:194-209 | `STATUS: AUTO` covers three cases: a malformed line only logs; a good line sets Automatic, the temperature, the percentage and unbinds clicks; a bad number keeps the new mode and temperature but not the rest |
| FanControl.ApplyManualStatus | FanControl/fan_controller.py:210-222 | `STATUS: MANUAL` covers three cases: a malformed line only logs; a good line sets Manual and the percentage and binds clicks; a bad number changes only the mode and the log |
| FanControl.ApplyAutoStatusLine | FanControl/fan_controller.py:194-207 | a well-formed `STATUS: AUTO` line shows Automatic, the temperature text and `n` on the bar, its label and `pwm_value`, highlights the auto button and unbinds clicks, and changes nothing else |
| FanControl.ApplyManualStatusLine | FanControl/fan_controller.py:210-220 | a `STATUS: MANUAL, P=<n>` line shows Manual and `n` on the bar, its label and `pwm_value`, highlights the manual button and binds clicks, and changes nothing else |
| FanControl.ResetDisplay | FanControl/fan_controller.py:139-146 | the display `update_ui_on_connect(False)` leaves (properties: `ResetDisplayShows`) |
| FanControl.Apply | FanControl/fan_controller.py:174-226 | the effect of one line on the display (properties: the `Apply…` lemmas) |
| FanControl.ApplyAll | FanControl/fan_controller.py:167-172 | the effect of draining a queue, oldest first (properties: `ApplyAllAppend`, `ApplyAllKeepsDisplayConsistent`) |
| FanControl.Enqueued | FanControl/fan_controller.py:153-165 | the entries the read loop queues for a run of read outcomes (properties: `EnqueuedEntries`, `EnqueuedStops`, `EnqueuedStep`) |
| FanControl.ApplyAllAppend | FanControl/fan_controller.py:167-172 | draining two batches one after another is draining their concatenation |
| FanControl.ApplyAllKeepsDisplayConsistent | FanControl/fan_controller.py:167-172 | a whole drain keeps the percentage label readable as the bar's value |
| FanControl.EnqueuedEntries | FanControl/fan_controller.py:153-160 | every queued entry is non-empty; before a failure, each is a stripped line |
| FanControl.EnqueuedStops | FanControl/fan_controller.py:161-165 | after the first failed read, nothing more is queued |
| FanControl.EnqueuedStep | FanControl/fan_controller.py:153-165 | one more read extends the queue by its own contribution unless an earlier read failed |
| FanControl.AnyFailedStep | FanControl/fan_controller.py:161-165 | the loop has stopped after a prefix exactly when a read in it failed |
| FanControl.EncodeAllAppend | FanControl/fan_controller.py:238 | the written stream grows by one encoded line per sent command |
| FanControl.EncodeAllJoin | FanControl/fan_controller.py:238 | the written stream is the command texts, each ended by a line feed |
| FanControl.WireFraming | FanControl/fan_controller.py:234-244 | the written stream, split at line feeds, gives back the sent commands in order |
| FanControl.FanController.constructor | FanControl/fan_controller.py:11-21 | the window starts with no port, no reader, an empty queue and `pwm_value` 0 |
| FanControl.FanController.ProcessIncomingMessage | FanControl/fan_controller.py:174-226 | the window's fields change as `Apply` says, and the serial session is untouched |
| FanControl.FanController.HandlePercentAck | FanControl/fan_controller.py:185-193 | the `OK: P=` branch, in place |
| FanControl.FanController.HandleAutoStatus | FanControl/fan_controller.py:194-209 | the `STATUS: AUTO` branch, in place, mode and temperature first |
| FanControl.FanController.HandleManualStatus | FanControl/fan_controller.py:210-222 | the `STATUS: MANUAL` branch, in place, mode first |
| FanControl.FanController.ShowReportedPercent | FanControl/fan_controller.py:200-220 | the shared tail of the two status branches, in place |
| FanControl.FanController.ProcessSerialQueue | FanControl/fan_controller.py:167-172 | the queue ends empty and the display is the drain of the old queue, oldest first |
| FanControl.FanController.ReadFromSerial | FanControl/fan_controller.py:153-165 | while running with the port open, the queue grows by exactly `Enqueued(outcomes)`; the flag clears exactly when a read fails; nothing else changes |
| FanControl.FanController.UpdateUiOnConnect | FanControl/fan_controller.py:133-146 | the controls follow the flag; on false the display is reset |
| FanControl.FanController.Disconnect | FanControl/fan_controller.py:124-131 | with an open port: stop reading, close, log and reset; otherwise nothing changes |
| FanControl.FanController.SendCommand | FanControl/fan_controller.py:234-244 | three cases: with an open port the line is logged and written; a failed write logs and disconnects; without a port only a pop-up appears |
| FanControl.FanController.SetAutoMode | FanControl/fan_controller.py:246-247 | sends `A` as `send_command_to_mcu` does, in each of its three cases (logged and written; logged, failed, disconnected and reset; a "not connected" pop-up), and does not change the mode label itself |
| FanControl.FanController.SetManualMode | FanControl/fan_controller.py:249-250 | sends `M` as `send_command_to_mcu` does, in each of its three cases (logged and written; logged, failed, disconnected and reset; a "not connected" pop-up), and does not change the mode label itself |
| FanControl.FanController.Connect | FanControl/fan_controller.py:108-122 | a real port name that opens logs the connection, enables the controls, shows the starting-manual mode, starts reading and sends `M`, with every other field kept; a failed `M` write then logs, disconnects and resets; a failed open pops up an error and resets; an empty name or `Port Yok` only pops up |
| FanControl.FanController.Click | FanControl/fan_controller.py:257-274 | a bound click shows the clamped value on the bar, its label and `pwm_value`, then: with the port open logs and sends `P=<p>`; on a failed write also logs, disconnects and resets; without a port pops up "not connected"; every other field is kept; an unbound click changes nothing |
| ModbusConfig.SplitIps | ModBus/master_reader.py:14 | the comma-split, stripped address list: never empty (properties: `SplitIpsClean`, `SplitIpsJoin`) |
| ModbusConfig.LoadConfig | ModBus/master_reader.py:9-35 | the settings read from `config.ini`, or all defaults (properties: `LoadConfigCases`, `LoadConfigIps`, `LoadRenderRoundTrip`) |
| ModbusConfig.SplitIpsClean | ModBus/master_reader.py:14 | the address list is never empty, and each address is stripped and comma-free |
| ModbusConfig.SplitIpsJoin | ModBus/master_reader.py:14 | the comma-joined text of clean addresses parses back to them |
| ModbusConfig.LoadConfigCases | ModBus/master_reader.py:9-35 | the settings are all-or-nothing: an unreadable file, a missing key or a non-integer number gives exactly the defaults (one address `192.168.220.179`, port 502, 2000 ms, key 12345); otherwise every setting comes from the file |
| ModbusConfig.LoadConfigIps | ModBus/master_reader.py:14-35 | whatever happens, at least one clean address is polled |
| ModbusConfig.LoadRenderRoundTrip | ModBus/master_reader.py:9-19 | a `config.ini` written from settings loads back to those settings |
| ModbusConfig.StripKeepsOut | ModBus/master_reader.py:14 | stripping adds no character |
| ModbusPoll.Retry | ModBus/master_reader.py:130-145 | the retry loop from attempt `k` after `elapsed` ms (properties: `RetryBound`, `RetryFirst`, `ConnectSpec`) |
| ModbusPoll.Connect | ModBus/master_reader.py:130-145 | the retry loop from its start (properties: `ConnectSpec`) |
| ModbusPoll.ReadLabels | ModBus/master_reader.py:167-196 | the labels after the device-specific read (properties: `PollFirstDevice`, `PollSecondDevice`, `PollOtherDevice`) |
| ModbusPoll.ReadOps | ModBus/master_reader.py:167-196 | the register reads of a device by index (properties: `PollDeviceFrame`) |
| ModbusPoll.SessionLabels | ModBus/master_reader.py:158-202 | the labels after the key write and the read (properties: `PollDeviceAuthError`, `PollDeviceRaise`) |
| ModbusPoll.SessionOps | ModBus/master_reader.py:158-207 | the client calls after connecting (properties: `PollDeviceFrame`) |
| ModbusPoll.PollLabels | ModBus/master_reader.py:128-207 | the labels after one device's turn (properties: `PollDeviceOutage` and the lemmas after it) |
| ModbusPoll.PollOps | ModBus/master_reader.py:128-207 | the client calls of one device's turn (properties: `PollDeviceFrame`, `PollDeviceOneClient`) |
| ModbusPoll.RetryBound | ModBus/master_reader.py:130-145 | each failed attempt costs at least the 0.2 back-off, so at most 50 attempts fit in the 10 budget |
| ModbusPoll.RetryFirst | ModBus/master_reader.py:132-145 | the loop connects on the first accepted attempt that starts within the budget |
| ModbusPoll.StartTimeMonotone | ModBus/master_reader.py:130-145 | attempt start times never decrease |
| ModbusPoll.ConnectSpec | ModBus/master_reader.py:130-145 | there are 1 to 50 attempts; the loop connects exactly when some attempt that starts within the budget is accepted; every attempt before the last is refused, and when connected the last one is accepted |
| ModbusPoll.ConnectCallsAll | ModBus/master_reader.py:134-136 | the retry loop's calls are all `connect()` calls |
| ModbusPoll.Mark | ModBus/master_reader.py:148-150 | a label is written only when the panel has it |
| ModbusPoll.PollKeepsShape | ModBus/master_reader.py:146-207 | a turn never adds or removes a data label |
| ModbusPoll.PollDeviceFrame | ModBus/master_reader.py:128-207 | a turn creates a client first and closes last; the retry loop's calls come right after creation; every register read comes right after writing the key to register 99 |
| ModbusPoll.PollDeviceOneClient | ModBus/master_reader.py:128-207 | a turn creates exactly one client |
| ModbusPoll.PollDeviceOutage | ModBus/master_reader.py:146-156 | with no accepted attempt, every present label and the status show the outage, and nothing is written or read |
| ModbusPoll.PollDeviceAuthError | ModBus/master_reader.py:158-165 | a rejected key write sets only the status, keeps the data labels, and reads nothing |
| ModbusPoll.PollFirstDevice | ModBus/master_reader.py:169-182 | device 0 reads two registers from address 0 and shows humidity and temperature, or a read error |
| ModbusPoll.PollSecondDevice | ModBus/master_reader.py:184-194 | device 1 reads one register and shows the DS18B20 temperature, or a read error |
| ModbusPoll.PollOtherDevice | ModBus/master_reader.py:167-196 | devices from index 2 on are not read: the status stays "reading" and the data labels keep their text |
| ModbusPoll.PollDeviceRaise | ModBus/master_reader.py:158-202 | a raise after connecting, by the key write, by the `close()` after a rejected key or by the read, marks every present label and the status as a network error carrying that exception |
| ModbusPoll.PollDeviceMissing | ModBus/master_reader.py:169-202 | a short register list or a missing label raises into that same network-error branch |
| ModbusPoll.CycleLabels | ModBus/master_reader.py:120-126 | a cycle keeps the set of panels |
| ModbusPoll.LabelsFrom | ModBus/master_reader.py:120-126 | the remaining turns keep the set of panels |
| ModbusPoll.LabelsFromCycle | ModBus/master_reader.py:120-207 | running the remaining turns after the first `k` completes the cycle |
| ModbusPoll.TraceFromCycle | ModBus/master_reader.py:120-207 | the client calls of the remaining turns, appended, give the cycle's calls |
| ModbusPoll.CycleIsolation | ModBus/master_reader.py:120-126 | a panel whose address was not polled is untouched |
| ModbusPoll.CycleIndependent | ModBus/master_reader.py:120-207 | with distinct addresses, each panel is the result of its own device's turn alone; one device's failure does not affect another |
| ModbusPoll.ClosedBeforeNewAppend | ModBus/master_reader.py:203-207 | call sequences that close before each new client compose |
| ModbusPoll.CycleCloses | ModBus/master_reader.py:128-207 | over a whole cycle, every client but the first is created only after the previous one was closed, and the cycle ends with a close |
| ModbusApp.Panels | ModBus/master_reader.py:74-111 | every address has a panel and there is no other |
| ModbusApp.BuildPanels | ModBus/master_reader.py:74-111 | the constructor's loop builds exactly those panels |
| ModbusApp.PanelsDistinct | ModBus/master_reader.py:74-111 | an address that is not repeated later gets the panel for its own index (humidity and temperature for 0, DS18B20 for 1, none after) |
| ModbusApp.PanelsWaiting | ModBus/master_reader.py:80-108 | every panel starts with status "waiting" and its data labels loading |
| ModbusApp.PollIgnoresStatus | ModBus/master_reader.py:140-202 | the "connecting" status never survives a turn, because every outcome sets its own |
| ModbusApp.ReadRegisters | ModBus/master_reader.py:169-196 | the device-specific read, label by label, equals `ReadLabels` and keeps the panel's shape |
| ModbusApp.ModbusMonitor.constructor | ModBus/master_reader.py:40-113 | the settings come from the config; the panels are built and polled once; the monitor runs; exactly one next cycle is scheduled |
| ModbusApp.ModbusMonitor.RetryConnect | ModBus/master_reader.py:130-145 | the loop returns `Connect`'s result and records one `connect()` call per attempt; the status shows retry or error as the last failure left it |
| ModbusApp.ModbusMonitor.RunSession | ModBus/master_reader.py:158-207 | the session after a connection changes only its own panel, as `SessionLabels` says, and records `SessionOps` |
| ModbusApp.ModbusMonitor.PollDeviceAt | ModBus/master_reader.py:120-207 | one device's turn changes only its own panel, as `PollLabels` says, and records `PollOps` |
| ModbusApp.ModbusMonitor.UpdateData | ModBus/master_reader.py:115-210 | while running: the whole cycle runs and exactly one next cycle is scheduled; after `clean_up` nothing happens |
| ModbusApp.ModbusMonitor.PollAll | ModBus/master_reader.py:120-207 | the loop over the devices gives `CycleLabels` and `CycleOps` |
| ModbusApp.ModbusMonitor.CleanUp | ModBus/master_reader.py:212-217 | the monitor stops and the window closes; panels, calls and schedule are untouched |

## Left out

- Widget layout, styles, colours, fonts and the window geometry. These include the height computed from the device count (`master_reader.py` lines 43-54), which has no effect on behaviour.
- The exact wording of log lines, status texts and pop-ups, including the Turkish texts and the exception messages. They are modelled as abstract values: `LogEntry`, `Alert`, `StatusText` and `DataText`.
- Port enumeration (`refresh_ports`). Only its `Port Yok` entry is kept, as the name `Connect` refuses.
- pyserial, pymodbus, the baud rate and the timeouts. These libraries are outside the model. Each call's outcome is a parameter, such as `openOk`, `writeOk`, `ReadOutcome` or `DeviceIO`.
- Threads, `queue.Queue`, `join(timeout=1)` and the daemon flag. `ReadFromSerial` runs over a finite run of read outcomes, with no other thread interleaved.
- The `after` scheduler. Scheduled callbacks are recorded in `timers` and are not run. The fan window's first `after(100, process_serial_queue)` and its re-arming are not modelled.
- Clocks and `time.sleep`. Each connection attempt carries its own duration as a parameter. Durations are integers in milliseconds: the budget is 10000 and the back-off 200.
- The float division of a click position by the bar width. `Click` takes the integer that `int()` produced.
- `int()` accepting underscores between digits and non-ASCII digits. Only an ASCII optional sign and ASCII digits are modelled. White space follows `int()`: the ASCII space, tab, line feed, vertical tab, form feed and carriage return and the non-ASCII `str.isspace` characters are skipped; U+001C..U+001F, which `str.isspace` accepts, make `int()` fail.
- Strings.ParseInt and Strings.IntToString: CPython limits decimal conversion to 4300 digits (`sys.get_int_max_str_digits`); beyond it `int()` and `str()` raise `ValueError`. The model has no such limit: a longer number is accepted, so `PercentAckEffect` moves the bar and `LoadConfig` keeps the setting where the source would log an error or fall back to the defaults. `ParseIntSpec` and `IntToStringRoundTrip` hold for numbers of any length.
- The `configparser` file syntax, interpolation and the DEFAULT section. A parsed file is modelled as a map of sections; an unreadable file is `None`.
- `print` calls. `sys.exit` and `master.destroy` are modelled by `windowOpen := false`.
- Exceptions raised by `client.close()` in the `finally` block and after an outage. The source swallows them, so they change nothing. The `close()` after a rejected key write is inside the `try` and is modelled (`CloseOutcome`).
- The Modbus status label's grid position for devices from index 2 on.
- Connection attempts are modelled as a total function from attempt number to outcome. Only the attempts the loop makes are consulted.
- ModbusApp.ModbusMonitor.RetryConnect: the contract ties the result and the recorded calls to `Connect`. It states the status label only as a function of the number of failures.
