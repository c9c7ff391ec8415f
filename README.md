# Speaker-Controller in Dafny

This is a model of the three pieces of logic behind the speaker switch. The switch is an Arduino
Leonardo on a serial line. It understands three one-byte messages: `'1'` (speakers
on), `'0'` (speakers off) and `'2'` (heartbeat).

- `SerialLink` (`serial.dfy`) models the desktop app's `Serial` class (`app/src/serial.ts`). It is
  a class whose fields are the static members. Each method is proved against a pure transition
  function over the `Link` snapshot. Around that sit:
  - the single pending-command slot;
  - the heartbeat interval, at most one ever armed;
  - the fail-safe `'0'` on disconnect;
  - the connect, disconnect and error events;
  - the compatible-device filter.
- `Controller` (`controller.dfy`) models the tray controller (`controller/index.js`):
  - per-group priority levels, folded with `Math.max`;
  - the `active > inactive` decision;
  - the change-only send and the tray override;
  - polling for the switch;
  - the `{guid}` extraction and active/inactive classification of the audio devices.
- `LegacyController` (`legacy_controller.dfy`) models the first controller (`controller.js`). It
  compares two fixed devices, and its baseline starts at `false`.
- `Host` (`host.dfy`) holds what the controllers receive from the processes they start:
  - `exec` replies;
  - the `0x` field of a `reg query` line;
  - `serialport-list` records and the first Leonardo among them.
- `JsNumber` (`jsnumber.dfy`) holds the JavaScript number semantics involved:
  - `parseInt(_, 16)` including `NaN`;
  - `Math.max`;
  - `>`.
- `Text` (`text.dfy`) holds the string operations involved: `includes`, `indexOf`, `split`,
  `padStart` and case-insensitive prefixes.
- `Common` (`common.dfy`) holds `Option` and `filter(Boolean)`.

The environment is abstract. For the serial link, an oracle `io(n)` decides whether the n-th
transport operation (an `open`, a `write` or a `close`) resolves; the bytes of the writes that
resolve are appended to `written`. For the controllers, each `exec` result is an input:
- a `Reply(error, stdout)`;
- a `Listing` (failed, empty output, or parsed port records).

Timer firings are explicit calls, one atomic step each. A polling loop that never finds the switch
is reported as `found == false` / `blocked == true` with the state unchanged. The source blocks
there forever.

Three facts about the code shape the serial link:
- `disconnect` has no idempotence guard. A second call issues `write('0')` and `close()` again;
  if the transport accepts both on the closed port, the event fires a second time (`DisconnectTwice`).
- `Serial` never reconnects by itself.
- Each event has a single callback slot, and registering a callback replaces the previous one.

Two consequences of the code as written are captured by the model:
- When `connect` fails to open a new port while a heartbeat is running, the old interval stays
  armed and keeps writing to the new, unopened port object.
- When a heartbeat write fails and the fail-safe `'0'` of the ensuing disconnect also fails, the
  error event fires but the disconnect event does not.

## Model

| member | source | states |
|---|---|---|
| Common.Somes | controller/index.js:51 | the present values only; no more of them than entries, and a value is kept exactly when it was present |
| Common.SomesAppend | controller/index.js:51 | `filter(Boolean)` keeps order and repeats: filtering a concatenation concatenates the filtered parts |
| Common.FirstSome | controller/index.js:97-105 | nothing exactly when every entry is absent; otherwise an entry that is present with every entry before it absent |
| Common.FirstSomeAt | controller/index.js:97-105 | a present entry with nothing present before it is the one the search settles on |
| Text.Contains | controller/index.js:59 | `includes`: some index where the needle occurs; `ContainsIndexOf` ties it to `indexOf` |
| Text.IndexOf | controller/index.js:132 | the first index at or after `from` where the needle occurs; none exactly when there is no occurrence from there on |
| Text.ContainsIndexOf | controller/index.js:132 | `includes` holds exactly when `indexOf` finds something |
| Text.LowerAscii | app/src/serial.ts:35 | each ASCII capital folds to the lower-case letter at the same place in the alphabet; every other character is unchanged |
| Text.SplitOn | controller/index.js:48 | at least one part, and no part contains the separator |
| Text.JoinSplitOn | controller/index.js:48 | splitting on a character loses nothing: joining the parts back gives the original text |
| Text.PadStart | controller/index.js:132 | the padded text has length max(len, n), ends with the original text and starts with fill characters only |
| JsNumber.Max | controller/index.js:135 | `NaN` exactly when an argument is `NaN`; otherwise at least both arguments and equal to one of them |
| JsNumber.Greater | controller/index.js:148 | `>` on numbers, false when either side is `NaN`; `Preferred` states what it decides |
| JsNumber.HexPrefix | controller/index.js:132 | the longest run of hexadecimal digits that starts the text |
| JsNumber.TrimStart | controller/index.js:132 | `trimStart`: a suffix of the input that does not start with JavaScript white space, everything dropped before it being white space |
| JsNumber.ParseIntHex | controller/index.js:132 | `parseInt(_, 16)`: skip white space, an optional sign and an optional `0x`/`0X`, then read the leading hex digits, `NaN` when there are none; its meaning on a digit-led text is `PlainHexReadsDigitRun` |
| JsNumber.HexValueLeadingZeros | controller/index.js:132 | leading zero digits do not change a hexadecimal value |
| JsNumber.HexPrefixLeadingZeros | controller/index.js:132 | the digit run of a zero-padded text is the padding followed by the digit run of the text |
| JsNumber.PlainHexReadsDigitRun | controller/index.js:132 | on a text starting with a digit and not with `0x`/`0X`, `parseInt(_, 16)` is the value of its leading digit run |
| JsNumber.HexDigitIsNotSpace | controller/index.js:132 | a hexadecimal digit is neither white space nor a sign, so `parseInt` starts reading at it |
| JsNumber.PadStartKeepsHexValue | controller/index.js:132 | zero-padding such a text does not change what `parseInt(_, 16)` reads |
| Host.StateByte | controller/index.js:110 | `String(Number(state))`, shared by both controllers; specified by `StateByteDistinct` |
| Host.StateByteDistinct | controller.js:56 | the byte is `'1'` or `'0'`, and equal bytes mean equal states, so a change of state is a change of byte |
| Host.Readable | controller/index.js:131 | the reply did not fail and its output is not empty |
| Host.IsSwitch | controller/index.js:89 | `friendlyName?.includes('Arduino Leonardo')` |
| Host.FieldAfter0x | controller/index.js:132 | `split('0x')[1]`; specified by `FieldAfter0xIsSecondPiece` |
| Host.FieldAfter0xIsSecondPiece | controller/index.js:132 | `split('0x')[1]` is the text between the first `0x` and the next one (or the end), and contains no `0x` |
| Host.SliceAvoids0x | controller/index.js:132 | a slice in which no `0x` of the whole text starts contains no `0x` |
| Host.RegistryLevel | controller.js:50-51 | `parseInt(field.padStart(6, '0'), 16)` of the field after the first `0x`; specified by `RegistryLevelIsLeadingDigits` |
| Host.RegistryLevelIsLeadingDigits | controller/index.js:132 | when the field after the first `0x` starts with a hex digit and not with `0X`, the level is the value of its leading hex digits and padding to six changes nothing |
| Host.PadStartKeepsParse | controller.js:50-51 | for a field `f` that starts with a hex digit and not with `0x` or `0X`: `parseInt(f.padStart(6, '0'), 16) == parseInt(f, 16)`, which is the value of the leading digits of `f` |
| Host.FirstSwitch | controller.js:18 | `ports.find(...)` over the Leonardo test; specified by `FirstSwitchIsFirst` |
| Host.FirstSwitchIsFirst | controller/index.js:89 | `find` on "friendlyName includes Arduino Leonardo": none exactly when no port matches, otherwise the first matching port |
| SerialLink.IsCompatiblePath | app/src/serial.ts:35 | the path pattern: starts with `com`, or with `/dev/cu` followed by one character that is not a line terminator, letters in any case; used by `IsCompatible` |
| SerialLink.IsCompatible | app/src/serial.ts:32-35 | the filter's test: USB, Arduino, Leonardo, a `com` or `/dev/cu?` path; `CompatibleDevices` states what it keeps |
| SerialLink.CompatibleDevices | app/src/serial.ts:31-36 | a device is kept exactly when it is listed and is USB, made by Arduino, a Leonardo, and on a `com` or `/dev/cu?` path |
| SerialLink.CompatibleDevicesAppend | app/src/serial.ts:31-36 | the filter preserves order: filtering a concatenation concatenates the filtered parts |
| SerialLink.DevicesOf | app/src/serial.ts:17-18 | `{ ...value, port }` for each entry, in order; `EntriesToDevices` computes it |
| SerialLink.EntriesToDevices | app/src/serial.ts:15-20 | one device per entry, in entry order, made of the entry's key and record |
| SerialLink.AtMostOneTimer | app/src/serial.ts:66-70 | under the link invariant at most one interval is armed, and one is armed exactly when the heartbeat runs |
| SerialLink.Pending | app/src/serial.ts:74 | the pending command byte, or the heartbeat byte `'2'` when none is pending |
| SerialLink.Write | app/src/serial.ts:74 | `serialPort?.write(b)` against the oracle; `Serial.WritePort` is its imperative form |
| SerialLink.Open | app/src/serial.ts:50 | `serialPort.open()` against the oracle; `Serial.OpenPort` is its imperative form |
| SerialLink.Close | app/src/serial.ts:62 | `serialPort?.close()` against the oracle; `Serial.ClosePort` is its imperative form |
| SerialLink.DisconnectStep | app/src/serial.ts:59-64 | `disconnect` as a transition of the link; specified by `DisconnectOutcome` |
| SerialLink.DisconnectOutcome | app/src/serial.ts:59-64 | the interval is cleared and the heartbeat stops; `'0'` is written before the close; the event fires only when both resolve; a rejected write skips the close and the event; a missing port only fires the event; the slot and the other counters are untouched |
| SerialLink.SendHeartbeatStep | app/src/serial.ts:72-82 | `sendHeartbeat` as a transition; specified by `SendHeartbeatOutcome` and `PendingSentOnce` |
| SerialLink.SendHeartbeatOutcome | app/src/serial.ts:72-82 | the slot is empty afterwards; exactly the pending byte or `'2'` is written on success; a rejected write disconnects, stops the heartbeat and fires the error event |
| SerialLink.Running | app/src/serial.ts:66-69 | the interval whose id `heartbeatInterval` holds is armed |
| SerialLink.StartHeartbeatStep | app/src/serial.ts:66-70 | `startHeartbeat` as a transition; specified by `StartHeartbeatOutcome` |
| SerialLink.StartHeartbeatOutcome | app/src/serial.ts:66-70 | the old interval is cleared, a single new one is armed and one heartbeat is sent at once; a failing first heartbeat leaves none running |
| SerialLink.ConnectStep | app/src/serial.ts:44-57 | `connect` as a transition; specified by `ConnectOutcome` |
| SerialLink.ConnectOutcome | app/src/serial.ts:44-57 | a new 9600-baud port on the path; if it opens, the connect event fires, and when the first heartbeat also goes through the heartbeat runs; if open fails, only the error event fires and nothing else changes |
| SerialLink.TickStep | app/src/serial.ts:69 | one firing of the interval: a heartbeat while it is armed, nothing otherwise; `StoppedStaysSilent` and `FailedWriteEndsHeartbeat` rest on it |
| SerialLink.CommandStep | app/src/serial.ts:84-102 | `enable` puts `'1'` in the slot, `disable` puts `'0'`; nothing else changes and nothing is written |
| SerialLink.LastCommandWins | app/src/serial.ts:84-102 | of several commands before a heartbeat, only the last one is kept in the slot |
| SerialLink.PendingSentOnce | app/src/serial.ts:72-82 | while writes resolve, n heartbeats write the pending command once and then only `'2'` |
| SerialLink.StoppedStaysSilent | app/src/serial.ts:60 | once the interval is cleared, further firings change nothing |
| SerialLink.FailedWriteEndsHeartbeat | app/src/serial.ts:76-80 | after a rejected heartbeat write the heartbeat is stopped and no later firing writes anything |
| SerialLink.DisconnectTwice | app/src/serial.ts:59-64 | with no guard, two disconnects whose four transport operations all resolve write `'0'` twice and fire the event twice |
| SerialLink.ApplyKeepsValid | app/src/serial.ts:66-70 | no single call or firing arms a second interval |
| SerialLink.RunKeepsOneTimer | app/src/serial.ts:66-70 | over any sequence of calls and firings, whatever the transport does, at most one heartbeat interval is armed |
| SerialLink.CallbackSlotOverwritten | app/src/serial.ts:104-114 | registering a second callback replaces the first, for each of the three events |
| SerialLink.Serial.constructor | app/src/serial.ts:6-11 | nothing pending, no interval (`-1`), no port and no callbacks; the one-interval invariant holds |
| SerialLink.Serial.WritePort | app/src/serial.ts:74 | no port means no operation; otherwise one operation whose outcome decides whether the byte is recorded in `written` |
| SerialLink.Serial.OpenPort | app/src/serial.ts:50 | no port means no operation; otherwise one operation that opens the port when it resolves |
| SerialLink.Serial.ClosePort | app/src/serial.ts:62 | no port means no operation; otherwise one operation that closes the port when it resolves |
| SerialLink.Serial.Disconnect | app/src/serial.ts:59-64 | the new state is `DisconnectStep` of the old one; the one-interval invariant is kept |
| SerialLink.Serial.SendHeartbeat | app/src/serial.ts:72-82 | the new state is `SendHeartbeatStep` of the old one; the one-interval invariant is kept |
| SerialLink.Serial.StartHeartbeat | app/src/serial.ts:66-70 | the new state is `StartHeartbeatStep` of the old one; the one-interval invariant is kept |
| SerialLink.Serial.Connect | app/src/serial.ts:44-57 | the new state is `ConnectStep` of the old one; the one-interval invariant is kept |
| SerialLink.Serial.HeartbeatTick | app/src/serial.ts:69 | the new state is `TickStep` of the old one: one heartbeat while the interval is armed, nothing otherwise; the one-interval invariant is kept |
| SerialLink.Serial.Enable | app/src/serial.ts:94-102 | the slot holds `'1'`; nothing else changes |
| SerialLink.Serial.Disable | app/src/serial.ts:84-92 | the slot holds `'0'`; nothing else changes |
| SerialLink.Serial.OnConnect | app/src/serial.ts:104-106 | the connect slot holds the new callback; nothing else changes |
| SerialLink.Serial.OnDisconnect | app/src/serial.ts:108-110 | the disconnect slot holds the new callback; nothing else changes |
| SerialLink.Serial.OnError | app/src/serial.ts:112-114 | the error slot holds the new callback; nothing else changes |
| SerialLink.Serial.ListAllDevices | app/src/serial.ts:13-26 | one device per listed entry; if the listing throws, the error event fires and the result is empty |
| SerialLink.Serial.GetCompatibleDevices | app/src/serial.ts:28-42 | exactly the compatible listed devices, in order; empty, with the error event, when the listing throws |
| Controller.DeviceLevel | controller/index.js:129-133 | the level one query resolves to; specified by `DeviceLevelMeaning` |
| Controller.DeviceLevelMeaning | controller/index.js:129-133 | a failed or empty query counts as level 0; a readable reply whose field starts with a hex digit and not with `0X` counts as the value of that field's leading hex digits |
| Controller.MaxLevel | controller/index.js:127-136 | the `Math.max` fold from 0; specified by `MaxLevelNaN` and `MaxLevelIsMaximum` |
| Controller.GroupLevel | controller/index.js:127-147 | the level of one group; specified by `GroupLevelNaN`, `GroupLevelIsMaximum` and `UnreadableGroupIsZero` |
| Controller.MaxLevelNaN | controller/index.js:127-136 | the running maximum is `NaN` exactly when some level is `NaN` |
| Controller.MaxLevelIsMaximum | controller/index.js:127-136 | without `NaN`, the running maximum from 0 is at least 0, at least each level, and either 0 or one of the levels |
| Controller.GroupLevelNaN | controller/index.js:127-147 | a group's level is `NaN` exactly when one of its devices' levels is |
| Controller.GroupLevelIsMaximum | controller/index.js:127-147 | without `NaN`, a group level is the maximum of 0 and its devices' levels, so an empty group gives 0 |
| Controller.UnreadableGroupIsZero | controller/index.js:127-147 | a group whose every query fails or prints nothing, an empty group included, has level 0 |
| Controller.SampleGroup | controller/index.js:127-136 | the loop's result is the group level |
| Controller.Preferred | controller/index.js:148 | true exactly when both levels are numbers and active is strictly greater; ties and `NaN` give false |
| Controller.SetSwitchStateStep | controller/index.js:109-111 | the state's byte is written and becomes the baseline; nothing else changes |
| Controller.EvaluateStep | controller/index.js:150-153 | a byte is written exactly when the new state differs from the baseline, and the baseline becomes the new state |
| Controller.FirstEvaluationSends | controller/index.js:11 | while the baseline is `undefined`, the first evaluation always writes its byte |
| Controller.ManualOverrideSticky | controller/index.js:25-34 | right after a tray toggle, an evaluation computing the same state writes nothing |
| Controller.ManualOverrideYields | controller/index.js:150-153 | an evaluation computing the other state overrides a tray toggle with one byte |
| Controller.EvaluationsNeverRepeat | controller/index.js:150-153 | over any run of evaluations no byte repeats the one before it, at most one byte is sent per evaluation, and the baseline keeps matching the last byte |
| Controller.RepeatedEvaluationSendsOnce | controller/index.js:150-153 | two evaluations of the same state write at most one byte between them |
| Controller.GetSwitchDevice | controller/index.js:84-92 | `getSwitchDevice`; specified by `SwitchDeviceFound` |
| Controller.SwitchDeviceFound | controller/index.js:84-92 | nothing on a failed or empty listing; otherwise the first listed Leonardo, found whenever one is listed |
| Host.HasPath | controller/index.js:99 | `arduino.path` is truthy: present and not empty |
| Controller.ConnectablePath | controller/index.js:98-99 | one poll of `connect`; specified by `ConnectablePathIsSwitchPath` |
| Controller.ConnectablePathIsSwitchPath | controller/index.js:98-99 | a poll settles on a non-empty path of the found switch, or on nothing when there is no switch or it has no path |
| Controller.FirstConnectable | controller/index.js:94-107 | the path `connect` settles on; specified by `FirstConnectableIsFirstHit` |
| Controller.FirstConnectableIsFirstHit | controller/index.js:94-107 | the path of the first poll that found a switch with a path; nothing exactly when no poll did |
| Controller.PollForSwitch | controller/index.js:97-105 | the polling loop settles on `FirstConnectable` |
| Controller.GuidRun | controller/index.js:49 | the maximal run of `[a-z0-9-]` characters (any case) from an index |
| Controller.GuidAt | controller/index.js:49 | a returned token is a match of `{[a-z0-9-]+}` at that index |
| Controller.GuidAtComplete | controller/index.js:49 | every match starting at an index is the one `GuidAt` returns |
| Controller.FirstGuidFromIsLeftmost | controller/index.js:49 | the leftmost match at or after an index; none exactly when no match starts there or later |
| Controller.FirstGuid | controller/index.js:49 | `/{[a-z0-9-]+}/i.exec(line)?.[0]`; specified by `FirstGuidIsLeftmost` |
| Controller.FirstGuidIsLeftmost | controller/index.js:49 | `exec(line)?.[0]`: a token at a position with no match starting earlier; none exactly when the line has no match |
| Controller.DeviceKeysOf | controller/index.js:44-53 | the keys of the first `reg query`; `DeviceKeys` computes them and states what they are |
| Controller.DeviceKeys | controller/index.js:44-53 | the keys are the first matches of the output lines, in order, lines without a match dropped; none on a failed or empty query; each key is a `{...}` token |
| Controller.AnyContained | controller/index.js:58-67 | one loop over the configured names; specified by `AnyContainedIsSome` |
| Controller.AnyContainedIsSome | controller/index.js:58-67 | true exactly when some configured name occurs in the text |
| Controller.Classify | controller/index.js:55-70 | the kind one properties query resolves to; specified by `ClassifyIsFirstMatch` |
| Controller.ClassifyIsFirstMatch | controller/index.js:55-70 | active exactly when an active name occurs; inactive exactly when no active name but an inactive name occurs; a failed or empty query is ignored |
| Controller.KeysOfKind | controller/index.js:71-75 | the keys pushed onto one list; specified by `KeysOfKindSnoc`, `KeysOfKindMembers` and `KindsPartitionKeys` |
| Controller.KeysOfKindSnoc | controller/index.js:71-75 | one more key appends that key to the keys of its own kind and leaves the other kinds as they were |
| Controller.KeysOfKindMembers | controller/index.js:54-76 | a key is in the list of a kind exactly when it was listed and its properties put it in that kind |
| Controller.KindsPartitionKeys | controller/index.js:71-75 | each key lands in exactly one of active, inactive or ignored |
| Controller.Controller.constructor | controller/index.js:7 | empty device lists, no port, baseline `undefined`, nothing written |
| Controller.Controller.LoadAudioDevices | controller/index.js:42-76 | the active and inactive keys, in order, are appended to the two lists; nothing else changes |
| Controller.Controller.Connect | controller/index.js:94-107 | the port is opened on `FirstConnectable` when a poll finds one; otherwise nothing changes |
| Controller.Controller.SetSwitchState | controller/index.js:109-119 | the new state is `SetSwitchStateStep` of the old one |
| Controller.Controller.TrayClick | controller/index.js:25-40 | entry 0 sets the state on, entry 1 off, any other entry changes nothing |
| Controller.Controller.Update | controller/index.js:121-155 | reconnect if the probe misses the switch, then the change-only send of `Preferred` of the two group levels; blocked exactly when the reconnect never succeeds |
| LegacyController.GetDevice | controller.js:13-21 | `getDevice`; specified by `GetDeviceFindsSwitch` |
| LegacyController.GetDeviceFindsSwitch | controller.js:13-21 | nothing when `exec` fails; otherwise the first listed Leonardo, found whenever one is listed |
| LegacyController.PortPath | controller.js:27-30 | one firing of the `createPort` interval; specified by `PortPathIsSwitchPath` |
| LegacyController.PortPathIsSwitchPath | controller.js:27-30 | a non-empty path of the found switch, or nothing when there is no switch or it has no path |
| LegacyController.FirstPath | controller.js:23-36 | the path `createPort` settles on; specified by `FirstPathIsFirstHit` |
| LegacyController.FirstPathIsFirstHit | controller.js:23-36 | the path of the first firing that found a switch with a path, no firing before it having met an empty listing; nothing exactly when no firing did |
| LegacyController.NoEmptyBeforeHit | controller.js:23-36 | while no path has been found, no firing meets an empty listing (the condition under which `JSON.parse` does not throw) |
| LegacyController.SearchForSwitch | controller.js:26-34 | the interval settles on `FirstPath` |
| LegacyController.SpeakersPreferred | controller.js:50-52 | true exactly when both levels are numbers and the speakers' is strictly greater; ties give false |
| LegacyController.EvaluateStep | controller.js:44-58 | a failed query changes nothing; otherwise the baseline becomes the comparison, and one byte is written exactly when it changed |
| LegacyController.InitialToggles | controller.js:9 | the starting state satisfies the alternation invariant |
| LegacyController.FlipToggles | controller.js:54-58 | sending the other byte keeps the alternation |
| LegacyController.EvaluateKeepsToggles | controller.js:54-58 | every update keeps the wire alternating from `'1'`, at most one byte per update |
| LegacyController.HeadsetFirstSendsNothing | controller.js:9 | with the baseline `false`, a first comparison favouring the headset writes nothing |
| LegacyController.FirstSendOnlyIfSpeakers | controller.js:54-58 | from the start, the first update writes `'1'` when the speakers win and nothing otherwise |
| LegacyController.RunToggles | controller.js:38-62 | from the start, any run of updates writes `'1'`, `'0'`, `'1'`, ... with at most one byte per update |
| LegacyController.LegacyController.constructor | controller.js:9-10 | baseline `false`, no port, nothing written |
| LegacyController.LegacyController.CreatePort | controller.js:23-36 | the port is opened on `FirstPath` when a poll finds one; otherwise nothing changes |
| LegacyController.LegacyController.Compare | controller.js:44-60 | the new state is `EvaluateStep` of the old one |
| LegacyController.LegacyController.Update | controller.js:38-62 | reconnect if the probe misses the switch, then compare and send on change; blocked exactly when the reconnect never succeeds |

## Left out

- Processes: `exec`, `reg query`, `serialport-list` and `JSON.parse` are not modelled. Their results are inputs.
- Transport internals: the `SerialPort` classes of the `serialport` package and of the tauri serial plugin are reduced to the success oracle `io` and the `written` sequence.
- Controller writes: the controllers' `port.write`, and the automatic open of `new SerialPort`, are modelled as always succeeding. A failure there is reported as an `'error'` event that has no listener in this code, so Node ends the controller process; that crash is not modelled.
- Timing: the 250 ms cadence of `setInterval`/`setTimeout` is not modelled; firings and updates are explicit calls.
- Concurrency: overlapping asynchronous runs are not modelled, each callback being one atomic step. Examples are a tick while a write is in flight, an `enable` during such a write (the command would be cleared unsent), and the ordering inside the fire-and-forget `void Serial.disconnect()`.
- The user interface: the systray (menu, icons, `kill` on entry 2), console logging and `config.js` loading. The configured device names are parameters.
- Callbacks: only the slot contents and, per event, the number of times its `callback?.()` call is reached are kept. The count goes up even when the slot is empty and nothing is called. The callbacks' own effects are not modelled.
- The crash on a registry reply without `0x` (`split('0x')[1]` is `undefined`) is a precondition (`Parsable`, `AllParsable`), not a modelled exception.
- The crash of `JSON.parse('')` in `controller.js` is a precondition (`Pollable`, and `!probe.ListEmpty?`) on the polls actually consumed. A malformed non-empty listing is not modelled.
- A tray click before the first port exists is a precondition (`port.Some?`), because `port.write` on `undefined` throws there.
- Connecting in `controller/index.js`: the previous `SerialPort` object is not closed when a new one is created, and the model only records the path.
- Connecting in `app/src/serial.ts`: `connect` replaces the stored port object without closing the previous one, so an open previous port stays open next to the new handle. The model keeps only the new port and does not record the leaked one.
- The oracle `io` does not depend on `isOpen`: a write to a closed or never-opened port may resolve, and its byte is then recorded in `written`. What the serial plugin does on such a port is not part of this model.
- Strings are sequences of Unicode scalar values, while `padStart`, `includes` and `indexOf` count UTF-16 code units. The two agree on the ASCII text of registry replies and device names.
- The `catch` blocks of `enable`, `disable` and `getCompatibleDevices` are not modelled. An assignment does not throw, and the filter does not throw as long as every port record carries string fields, which the model assumes.
- Numbers: `parseInt` results beyond 2^53, which lose precision in floating point, are exact integers here, and `-0` is 0.
