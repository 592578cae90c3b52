# Huawei USB modem tools — a Dafny model

This project models the core of two command-line tools for Huawei USB modems. Both talk to the
device through libusb.

- **huawei_modeswitch** finds a stick that shows up in its storage ("ZeroCD") mode. It looks for a
  bulk OUT endpoint (mass-storage interfaces first, then any class) and detaches the kernel drivers.
  It claims the interface and sends two vendor switch messages and a SCSI eject, each wrapped in a
  USB mass-storage Command Block Wrapper (CBW). When no bulk OUT endpoint is known, it probes
  endpoints 0x01 to 0x05 instead. It ends with a SET_FEATURE / SET_CONFIGURATION / reset control
  step. Afterwards it re-scans the bus and reports whether the stick now shows a modem product
  identifier.
- **huawei_at** opens the first supported modem and picks a bulk IN/OUT pair. It sends one AT
  command framed with a carriage return. It then polls for the reply until a final result marker
  (`OK`, `ERROR`, `+CME ERROR:`, `+CMS ERROR:`) appears, the buffer fills, a transfer fails, or five
  polls in a row bring nothing. Finally it prints the reply, minus the modem's echo of the command.

How the model is built:

- The product-identifier tables are zero-terminated sequences, read the way the C loops read them.
- Descriptors are values. Alternate settings are visited in the order the nested loops visit them.
- libusb is an oracle recorded in an operation log:
  - `ModeSwitchSequencer.Handle` holds the device configuration, which interfaces have a kernel
    driver, which claims succeed, and the outcomes of the bulk transfers still to come.
  - `AtSession.Port` holds whether the send succeeds and the results of the bulk IN polls still
    to come.
- Methods that change the log, the response buffer or the resolved endpoints are proved against
  specification functions: `SwitchTrace`, the read-loop state machine `StateAfter`/`PollCount`/`Final`,
  `Resolve` and `BulkOutTarget`. Lemmas then prove what the tools promise about those functions.

Modules:

- `Basics`: `Option`, byte and 16-bit types.
- `UsbDescriptors`: descriptor tree and visit order.
- `PidTables`: sentinel-terminated tables.
- `ModeSwitchCatalog`, `ModeSwitchEndpoint`, `ModeSwitchPayloads`, `ModeSwitchSequencer`: the mode
  switch.
- `AtCatalog`, `AtEndpoints`, `AtSession`, `AtExchange`, `AtOutput`: the AT tool.

## Model

| member | source | states |
|---|---|---|
| PidTables.Entries | huawei_modeswitch.c:168-173 | The entries a sentinel loop visits are the prefix before the first 0. They contain no 0, and the 0 follows them. |
| PidTables.TableContains | huawei_modeswitch.c:168-173 | The loop answers true exactly when the identifier is among the table's entries before the sentinel. |
| PidTables.FindFirstPresent | huawei_modeswitch.c:327-336 | The loop returns the first entry, in table order, that opens; it returns none when no entry opens. |
| PidTables.FirstPresent | huawei_at.c:212-220 | None exactly when no element opens; otherwise an element that opens, with no earlier element opening. |
| ModeSwitchCatalog.TableEntries | huawei_modeswitch.c:16-80 | The storage-mode table has 19 entries and the modem table 26; each ends in its sentinel. |
| ModeSwitchCatalog.ZeroCdTableDistinct | huawei_modeswitch.c:16-42 | No identifier is listed twice in the storage-mode table. |
| ModeSwitchCatalog.ModemTableDistinct | huawei_modeswitch.c:45-80 | No identifier is listed twice in the modem table. |
| ModeSwitchCatalog.TablesDisjoint | huawei_modeswitch.c:16-80 | No identifier is in both tables. |
| ModeSwitchCatalog.TableGroups | huawei_modeswitch.c:16-80 | Table membership is membership in one of the commented groups of the table. |
| ModeSwitchCatalog.MembershipExclusive | huawei_modeswitch.c:168-180 | 0 is in neither table, and no identifier is classified as both storage mode and modem. |
| ModeSwitchCatalog.LabelledExactlyTheTables | huawei_modeswitch.c:115-166 | `get_pid_name` gives a known label exactly to the identifiers of the two tables. |
| ModeSwitchCatalog.LabelScenarios | huawei_modeswitch.c:115-166 | Labels of E303 (0x1506), E1550 storage mode (0x1446) and 0x1c1b, and "Unknown" for an unlisted identifier. |
| ModeSwitchCatalog.E303IsModem | huawei_modeswitch.c:175-180 | 0x1506 is classified as modem mode and not as storage mode. |
| ModeSwitchCatalog.E1550IsZeroCd | huawei_modeswitch.c:168-173 | 0x1446 is classified as storage mode and not as modem mode. |
| ModeSwitchCatalog.E3531IsZeroCd | huawei_modeswitch.c:16-42 | 0x1c1b is classified as storage mode (it is in that table although its label says "Modem"). |
| ModeSwitchCatalog.IsZeroCdPid | huawei_modeswitch.c:168-173 | True exactly for a non-zero identifier listed in the storage-mode table. |
| ModeSwitchCatalog.IsModemPid | huawei_modeswitch.c:175-180 | True exactly for a non-zero identifier listed in the modem table. |
| ModeSwitchCatalog.FindZeroCdDevice | huawei_modeswitch.c:327-336 | None exactly when no storage-mode identifier opens; otherwise the first one in table order that opens. |
| ModeSwitchCatalog.SelectDevice | huawei_modeswitch.c:481-488 | A forced identifier is the only one tried. Without one, the first storage-mode identifier that opens is chosen. |
| ModeSwitchCatalog.ScanHuaweiDevices | huawei_modeswitch.c:293-325 | The two counters are the numbers of listed Huawei devices classified as storage mode and as modem mode. |
| ModeSwitchCatalog.PidName | huawei_modeswitch.c:115-166 | One label per `case` of the C switch and "Unknown" otherwise. `LabelledExactlyTheTables` proves it labels exactly the two tables. |
| ModeSwitchCatalog.RoleOf | huawei_modeswitch.c:305-314 | A non-Huawei device has no role. Storage mode is tested before modem mode; other Huawei identifiers are unlisted. |
| ModeSwitchCatalog.CountRole | huawei_modeswitch.c:303-318 | The number of devices of a role, counted in list order; `ScanHuaweiDevices` is proved to compute it. |
| ModeSwitchCatalog.CountsByTable | huawei_modeswitch.c:306-314 | Because storage mode wins the tie, each count is the number of Huawei devices in its table. Together they never exceed the Huawei devices listed. |
| ModeSwitchEndpoint.FirstBulkOut | huawei_modeswitch.c:205-214 | The index of the first bulk OUT endpoint of a setting: every earlier endpoint is not bulk OUT. |
| ModeSwitchEndpoint.FirstCandidate | huawei_modeswitch.c:198-237 | The index of the first setting, in visit order, that the pass accepts; no earlier setting is accepted. |
| ModeSwitchEndpoint.PassResultAt | huawei_modeswitch.c:198-217 | A qualifying setting that follows only non-qualifying ones gives the pass its result. |
| ModeSwitchEndpoint.SearchPass | huawei_modeswitch.c:198-237 | Each nested-loop pass returns the first bulk OUT of the first qualifying setting, or (-1, unchanged interface 0). |
| ModeSwitchEndpoint.SearchInterface | huawei_modeswitch.c:201-216 | One interface's alternate settings either yield the pass result or leave no qualifying setting behind. |
| ModeSwitchEndpoint.FirstBulkOutAddress | huawei_modeswitch.c:205-214 | The endpoint loop returns the address of the first bulk OUT endpoint, or -1. |
| ModeSwitchEndpoint.BulkOutTarget | huawei_modeswitch.c:198-241 | The search on a readable configuration: the mass-storage pass, then the any-class pass, then (-1, 0). `BulkOutTargetSound` proves what it finds. |
| ModeSwitchEndpoint.FindBulkOutEndpoint | huawei_modeswitch.c:190-241 | A failed descriptor fetch gives -1 with the interface untouched. Otherwise the result is the mass-storage pass, then the any-class pass. |
| ModeSwitchEndpoint.BulkOutTargetSound | huawei_modeswitch.c:190-241 | None is found exactly when no setting has a bulk OUT endpoint. A result is an OUT-direction bulk endpoint of some setting, with that setting's interface number. |
| ModeSwitchEndpoint.MassStoragePreferred | huawei_modeswitch.c:198-217 | The first mass-storage setting with a bulk OUT endpoint wins over all others. |
| ModeSwitchEndpoint.AnyClassFallback | huawei_modeswitch.c:219-237 | Without a qualifying mass-storage setting, the first setting of any class with a bulk OUT endpoint is used. |
| ModeSwitchPayloads.PayloadsAreCbws | huawei_modeswitch.c:83-113 | Each of the three messages is a 31-byte CBW with signature "USBC", no data stage, flags 0 and LUN 0. |
| ModeSwitchPayloads.TagsDistinct | huawei_modeswitch.c:83-113 | The tags are 0x78563412, 0x79563412 and 0x7A563412, pairwise different. |
| ModeSwitchPayloads.EjectIsStartStopUnit | huawei_modeswitch.c:106-113 | The eject message carries a 6-byte SCSI START STOP UNIT with LoEj set, zero-padded. |
| ModeSwitchPayloads.VendorCommandLengthExceedsField | huawei_modeswitch.c:83-104 | Both vendor messages declare a 0x11-byte command block, more than its 16-byte field holds. |
| ModeSwitchSequencer.Handle.KernelDriverActive | huawei_modeswitch.c:386 | The query reports a driver exactly for the oracle's active interfaces and logs itself. |
| ModeSwitchSequencer.Handle.DetachKernelDriver | huawei_modeswitch.c:389 | The detach logs itself and consumes no bulk outcome. |
| ModeSwitchSequencer.Handle.ClaimInterface | huawei_modeswitch.c:395 | The claim succeeds exactly for the oracle's claimable interfaces and logs itself. |
| ModeSwitchSequencer.Handle.BulkTransfer | huawei_modeswitch.c:415-416 | The transfer succeeds as the next scripted outcome says (failure once none are left). It consumes that outcome and logs itself. |
| ModeSwitchSequencer.Handle.ReleaseInterface | huawei_modeswitch.c:424 | The release logs itself and consumes no bulk outcome. |
| ModeSwitchSequencer.Handle.ControlTransfer | huawei_modeswitch.c:267-273 | The control transfer logs its request type, request, value, index, length and timeout, and consumes no bulk outcome. |
| ModeSwitchSequencer.Handle.SetConfiguration | huawei_modeswitch.c:278 | The configuration change logs itself and consumes no bulk outcome. |
| ModeSwitchSequencer.Handle.ResetDevice | huawei_modeswitch.c:283 | The reset returns the oracle's code and logs itself. |
| ModeSwitchSequencer.ProbeCount | huawei_modeswitch.c:413-421 | The probe makes 1 to 5 transfers. Every one but the last fails, and fewer than 5 means the last one succeeded. |
| ModeSwitchSequencer.ProbeCommonEndpoints | huawei_modeswitch.c:410-421 | The log grows by the probe transfers on 0x01, 0x02, ... up to the first success, and exactly those outcomes are consumed. |
| ModeSwitchSequencer.TryControlTransfer | huawei_modeswitch.c:260-291 | SET_FEATURE, SET_CONFIGURATION(1) and reset are logged in order. The result is 1 exactly when the reset reports "not found". |
| ModeSwitchSequencer.DetachKernelDrivers | huawei_modeswitch.c:383-391 | Interfaces 0 to 7 are queried in order, and each active one is detached right after its query. |
| ModeSwitchSequencer.DetachTraceContents | huawei_modeswitch.c:385-391 | The detach phase queries exactly the interfaces 0..7 and detaches exactly the active ones among them. |
| ModeSwitchSequencer.ClaimAndTransfer | huawei_modeswitch.c:393-425 | After the claim, the transfers and the release happen only when the claim succeeded. The outcomes consumed are those transfers'. |
| ModeSwitchSequencer.SwitchTrace | huawei_modeswitch.c:378-428 | The operations of a switch, in order: the detach phase, the claim, the transfers and release when the claim succeeds, then the control step. The lemmas below prove its properties. |
| ModeSwitchSequencer.SwitchDevice | huawei_modeswitch.c:338-429 | The whole operation log and the consumed outcomes equal the specification trace. The result reports the reset's "not found". |
| ModeSwitchSequencer.SwitchTraceParts | huawei_modeswitch.c:378-428 | Composing the detach, claim/transfer and control phases gives the specification trace and its outcome count. |
| ModeSwitchSequencer.BulkOpsMembers | huawei_modeswitch.c:402-421 | The bulk part of a trace holds exactly its bulk transfers. |
| ModeSwitchSequencer.BulkOpsAppend | huawei_modeswitch.c:402-421 | The bulk part of a concatenation is the concatenation of the bulk parts. |
| ModeSwitchSequencer.SwitchBulkOps | huawei_modeswitch.c:393-425 | The bulk transfers of a switch are the chosen transfer phase when the claim succeeds, and none otherwise. |
| ModeSwitchSequencer.ThreeSendsWhenClaimed | huawei_modeswitch.c:402-408 | With the interface claimed and an endpoint known, exactly message 1, message 2 and the eject go to that endpoint, whatever their results. |
| ModeSwitchSequencer.NoSendsWithoutClaim | huawei_modeswitch.c:395-399 | A failed claim means no bulk transfer at all. |
| ModeSwitchSequencer.ProbeWhenNoEndpoint | huawei_modeswitch.c:410-421 | Without a known endpoint, message 1 goes to 0x01, 0x02, ... with a 1000 ms timeout. At most 5 attempts; it stops at the first success. |
| ModeSwitchSequencer.ReleasedIffClaimed | huawei_modeswitch.c:393-425 | An interface is released exactly when the claim succeeded, and it is the claimed interface. |
| ModeSwitchSequencer.EndsWithControlStep | huawei_modeswitch.c:427-428 | Whatever happened before, the trace ends with SET_FEATURE, SET_CONFIGURATION(1) and the reset. |
| ModeSwitchSequencer.Classify | huawei_modeswitch.c:490-519 | Exit 1 exactly when no device opens. Success exactly when a device was switched and a modem is listed afterwards. The not-found messages follow the forced identifier and the first scan. |
| ModeSwitchSequencer.ExitCode | huawei_modeswitch.c:476-528 | Exit 1 for the three not-found verdicts, and 0 for list mode and every verdict after a switch. |
| ModeSwitchSequencer.DeviceOpens | huawei_modeswitch.c:481-490 | A device opens when the forced identifier opens or, without one, some storage-mode identifier opens. |
| ModeSwitchSequencer.RunModeSwitch | huawei_modeswitch.c:444-529 | List mode only scans. Otherwise the verdict and exit code follow the scans and the device choice, The handle sees the switch trace, and its remaining outcomes are consumed accordingly, only when a device opens. |
| AtCatalog.PidName | huawei_at.c:79-125 | One label per `case` of the C switch and "Unknown" otherwise. `LabelledExactlyTheSupported` proves it labels exactly the supported table. |
| AtCatalog.SupportedTableEntries | huawei_at.c:22-72 | The supported table has 37 entries and ends in its sentinel. |
| AtCatalog.SupportedTableDistinct | huawei_at.c:22-72 | No identifier is listed twice in the supported table. |
| AtCatalog.SupportedGroups | huawei_at.c:22-72 | Being supported is being in one of the table's groups, and 0 is not supported. |
| AtCatalog.LabelledExactlyTheSupported | huawei_at.c:79-125 | `get_pid_name` gives a known label exactly to the supported identifiers. |
| AtCatalog.ModemPidsNotSupported | huawei_at.c:22-72 | The only modem-mode identifiers of the mode switch that the AT tool does not try are 0x1573 and 0x1576. |
| AtCatalog.FindHuaweiModem | huawei_at.c:199-222 | A forced identifier is the only one tried. Otherwise the first supported identifier that opens is chosen, or none when no supported identifier opens. |
| AtEndpoints.LastBulk | huawei_at.c:147-156 | The endpoint loop keeps the LAST bulk endpoint of the wanted direction (-1 when there is none). No later endpoint qualifies. |
| AtEndpoints.FirstPreferredPair | huawei_at.c:132-166 | The index of the first setting of a preferred class (CDC data, vendor-specific, communications) with a bulk pair. |
| AtEndpoints.FirstPair | huawei_at.c:168-193 | The index of the first setting with a bulk pair. |
| AtEndpoints.PairDirections | huawei_at.c:147-156 | A recorded pair has an IN address (>= 0x80) and an OUT address (< 0x80). |
| AtEndpoints.SecondPassFirstWins | huawei_at.c:168-193 | With no IN endpoint recorded yet, the second pass keeps the first setting with a pair. Later ones do not overwrite it. |
| AtEndpoints.SecondPassKeeps | huawei_at.c:187 | Once an IN endpoint is recorded, the second pass changes nothing. |
| AtEndpoints.SecondPass | huawei_at.c:168-193 | The any-class pass: each setting with a pair is recorded while no IN endpoint is. `SecondPassFirstWins` and `SecondPassKeeps` prove what it keeps. |
| AtEndpoints.Resolve | huawei_at.c:127-197 | The search on a readable configuration: the first preferred-class pair, else the second pass and its return code. `ResolveSound` proves what it finds. |
| AtEndpoints.ResolveSound | huawei_at.c:127-197 | From the initial globals, success exactly when some setting has a bulk pair, and then the globals are that setting's pair. On failure the code is -1 and the globals stay unresolved. |
| AtEndpoints.PreferredClassWins | huawei_at.c:133-166 | The first preferred-class setting with a pair is chosen, whatever the globals held. |
| AtEndpoints.AnyClassFallback | huawei_at.c:168-196 | With no preferred-class pair, the first setting of any class with a pair is chosen. |
| AtEndpoints.ResolveIdempotent | huawei_at.c:127-197 | Running the search again on its own result gives the same code and globals. |
| AtEndpoints.FirstPreferredPairAt | huawei_at.c:158-164 | A preferred setting with a pair, after non-qualifying ones, is the first such setting. |
| AtSession.ScanSetting | huawei_at.c:145-156 | The inner endpoint loop returns the last bulk IN and the last bulk OUT address. |
| AtSession.SecondPassThen | huawei_at.c:168-193 | Scanning more settings continues the second pass from where it stood. |
| AtSession.Session.PreferredPass | huawei_at.c:133-166 | The first pass finds a pair exactly when a preferred-class setting has one. It then sets the globals to the first such pair and otherwise leaves them alone. |
| AtSession.Session.PreferredInInterface | huawei_at.c:135-165 | One interface's settings either give the first preferred pair or add no preferred pair. |
| AtSession.Session.AnyClassPass | huawei_at.c:168-193 | The second pass leaves the globals as the specification of the pass says. |
| AtSession.Session.AnyClassInInterface | huawei_at.c:171-192 | One interface's settings continue the second pass. |
| AtSession.Session.FindEndpoints | huawei_at.c:127-197 | A failed descriptor fetch returns its error and leaves the globals alone. Otherwise the code and the globals are those of the specification `Resolve`. |
| AtSession.AppendChunk | huawei_at.c:282-289 | A chunk is appended up to the capacity and NUL-terminated. Nothing beyond the terminator changes. |
| AtSession.PollOnce | huawei_at.c:269-302 | One iteration advances the buffer exactly as one step of the read state machine, and logs one poll. |
| AtSession.ReadResponse | huawei_at.c:264-305 | The buffer holds the final accumulated text, NUL-terminated, and the count is its length. Exactly the specification's number of polls is logged and consumed. |
| AtSession.Port.BulkOut | huawei_at.c:258 | The send succeeds as the oracle says, logs the framed data, and consumes no poll result. |
| AtSession.Port.BulkIn | huawei_at.c:269 | The poll gives the next scripted result, or a timeout once none are left. A chunk longer than requested becomes an error. It consumes that result and logs itself. |
| AtSession.Session.SendCommand | huawei_at.c:247-306 | A failed send returns -1 with the buffer untouched. Otherwise the framed command is sent, then the read loop runs; the result is the accumulated length. |
| AtExchange.CStrLength | huawei_at.c:432 | `strlen`: the length of the prefix before the first NUL. |
| AtExchange.Frame | huawei_at.c:255 | The framed command fits the 256-byte buffer with its NUL and is a prefix of the command followed by CR. |
| AtExchange.FrameTruncation | huawei_at.c:255 | The framed command is the command plus CR when it has at most 254 characters. A longer one is cut to 255 characters and loses the CR. |
| AtExchange.ReadTrace | huawei_at.c:269 | n polls are n bulk IN requests of 511 bytes with the 500 ms timeout. |
| AtExchange.Contains | huawei_at.c:292-295 | `strstr` finds the marker exactly when it occurs somewhere in the text. |
| AtExchange.Step | huawei_at.c:269-302 | One iteration: a timeout or empty chunk counts an empty read, an error stops, and a chunk is appended up to the cap. A marker then stops the loop; without one the count resets. |
| AtExchange.StateAfter | huawei_at.c:268-303 | The loop state after k polls. It never exceeds the cap, and a state that no longer continues stays final. |
| AtExchange.Final | huawei_at.c:268-305 | The state the loop ends in, after `PollCount` polls. `StopReasons` proves why it ended. |
| AtExchange.PollCount | huawei_at.c:268-303 | The loop ends after the first poll whose state no longer continues, and every earlier state continues. |
| AtExchange.StepProgress | huawei_at.c:268-303 | Every iteration of a running loop makes the buffer longer, counts one more empty poll, or stops. |
| AtExchange.AccumulatedIsReceived | huawei_at.c:281-287 | While the loop runs, the buffer is every chunk received so far, concatenated and cut to the capacity. |
| AtExchange.EmptyReadsAreTrailing | huawei_at.c:271-301 | The empty-read counter is the number of empty polls at the end, in a row. Any chunk resets it. |
| AtExchange.NoMarkerWhileRunning | huawei_at.c:292-297 | While the loop runs, the buffer holds no final result marker. |
| AtExchange.StopsAtMarker | huawei_at.c:292-297 | Once the received text holds a marker, the loop has stopped by then. |
| AtExchange.TrailingEmptyPolls | huawei_at.c:271-301 | A trailing-empty count of t means the last t polls were timeouts or empty. |
| AtExchange.StopReasons | huawei_at.c:268-303 | The loop stops only on a transfer error, a chunk that completes a marker, a full buffer, or five empty polls in a row. |
| AtExchange.PollCountIs | huawei_at.c:268-303 | The loop stops at the first state that no longer continues. |
| AtExchange.CpinExchange | huawei_at.c:268-303 | The echo "AT+CPIN?\r\r\n" followed by "+CPIN: READY\r\n\r\nOK\r\n" ends the loop after two polls with both chunks, 31 characters. |
| AtExchange.FiveEmptyPolls | huawei_at.c:268-303 | Five empty polls end the exchange with nothing received. |
| AtOutput.Find | huawei_at.c:425 | `strstr` gives the first index at which the text occurs, and none exactly when it occurs nowhere. |
| AtOutput.FindIsFirst | huawei_at.c:425 | An occurrence with none before it is what `strstr` finds. |
| AtOutput.StripEcho | huawei_at.c:422-427 | The text shown in normal mode is a suffix of the response. `StripEchoSound` proves exactly when it is shorter. |
| AtOutput.WithNewline | huawei_at.c:430-435 | The shown text, unchanged, followed by at most one added character. Non-empty output ends in a line feed. |
| AtOutput.Output | huawei_at.c:417-439 | What the tool prints after `send_command`: its cases are proved in `OutputCases`, `OutputEndsLine` and `CpinOutput`. |
| AtOutput.StripEchoSound | huawei_at.c:423-427 | The text shown is a suffix of the response. It is shorter exactly when a CRLF starts within strlen(cmd)+2; what is dropped then ends in the first CRLF. |
| AtOutput.EchoIsStripped | huawei_at.c:423-427 | An echo with no line feed, no longer than the command plus two, followed by CRLF, is skipped whole. |
| AtOutput.OutputCases | huawei_at.c:417-438 | No response means nothing on standard output and "No response" on standard error. Raw mode prints the buffer's C string unchanged. |
| AtOutput.OutputEndsLine | huawei_at.c:430-435 | In normal mode, anything shown ends in a line feed and is a suffix of the response, perhaps followed by the added line feed. |
| AtOutput.NewlineAddedIff | huawei_at.c:432-435 | A newline is added exactly when the shown text is non-empty and does not end in one. The shown text is kept unchanged before it. |
| AtOutput.CpinOutput | huawei_at.c:417-436 | The AT+CPIN? exchange prints just "+CPIN: READY\r\n\r\nOK\r\n". |

## Left out

- libusb itself (init/exit, device lists, open, close, descriptor fetches, transfers) is replaced by oracles. Transfer timeouts are recorded as values in the log; nothing waits.
- `usleep`/`sleep` pacing (500 ms between switch messages, 3 s before the re-scan) does not affect any result, so it is not modelled.
- Everything the tools print is not modelled: progress messages, the descriptor dump at huawei_modeswitch.c:345-375, `print_hex`, device listings and usage text. The only exception is the AT response output, modelled by `AtOutput.Output`.
- Argument parsing (`strcmp`, `strtol` in base 16, `-h` usage) is not modelled. The parsed flags and forced identifier are parameters.
- The `pid` parameter of `switch_device` is only printed, so `SwitchDevice` does not take it.
- The AT scan at huawei_at.c:224-245 only prints a listing with labels. Its labels are covered by `AtCatalog.LabelledExactlyTheSupported`.
- The AT entry point's composition is not modelled as one method: the driver detach and claim at huawei_at.c:402-412 (claim failure only warns), the release and close, and the exit codes at huawei_at.c:366-395. Its parts are modelled: `FindHuaweiModem`, `FindEndpoints`, `SendCommand` and `Output`.
- The AT entry point returns 0 when there is no response; only "No response" goes to standard error (huawei_at.c:437-446).
- The AT endpoint scan records the LAST bulk IN and the last bulk OUT of a setting, not the first. The model follows the code line by line (`AtEndpoints.LastBulk`).
- The mode-switch endpoint search has only mass-storage preference and any-class fallback. Its first bulk OUT is taken, with no IN endpoint. It is modelled as its own function, apart from the AT tool's two-pass pair search.
- Identifier 0x1c1b is labelled "E3531 Modem" but sits in the storage-mode table, so it is classified as storage mode. The model keeps both facts.
- C strings are modelled as the prefix before the first NUL (`CStr`). The command comes from the command line and holds no NUL. Bytes after a NUL inside a received chunk are copied but neither searched nor shown, as in the code.
- A device that answers a poll with more bytes than requested is modelled as a transfer error (libusb's overflow).
- `ModeSwitchSequencer.SwitchDevice`: the unchecked descriptor fetch of the dump at huawei_modeswitch.c:351 is not modelled; only the fetch inside `find_bulk_out_endpoint` is.
- `ModeSwitchSequencer.RunModeSwitch`: it does not model closing the handle when the switch returns 0 (huawei_modeswitch.c:505-507), nor the devices re-enumerating, which the second scan's list stands for.
