# house-audio-core in Dafny

The project models house-audio-core, the controller of an AE6MC six-zone,
seven-input audio amplifier. A web API puts it on the network, and the
amplifier is driven over an RS-232 serial line. The model is in Dafny
and covers these parts:

- **The serial channel** (`Amplifier.Communication`) records the lines
  written and the reply lines the device has queued.
- **The AE6MC driver** (`Amplifier.ControlAE6MC`) turns every amplifier
  operation into one ASCII command line. Examples are `(3vl43)`, `(1on)`,
  `(2sl5)` and `(vr?)`. It reads replies as decimal or base-16 ints. Zone
  and input ids go from 0 up; the device index is the id plus one, in
  32-bit C# arithmetic. The driver keeps a ghost log of the calls it made.
  Its invariant states that the channel holds exactly the command lines of
  those calls.
- **The command language** (`Protocol`) defines the device commands, their
  text, and a decoder. The lemmas prove that every line decodes back to its
  command, so no two commands share a line. They also prove the volume
  scaling between the API's 0..100 and the device's 0..87, lossy round trip
  included.
- **The number text** (`NumText`, `Int32`) models C# `int.ToString()`,
  `ToString("D2")`, `ToString("X")`, `int.TryParse`, `Convert.ToInt32(s, 16)`,
  and the C# wrap-around and truncating division of `int`.
- **The database** (`Models.AudioContext`) holds the tables of zones
  (outputs), inputs, templates and template entries as sequences. A
  lookup is `FirstOrDefault`: the first record with the key.
- **The controllers** (`Outputs`, `Inputs`, `Templates`) do these jobs:
  - check ids against the amplifier's amounts;
  - get or create records;
  - set stored fields, telling the amplifier first where the setting is
    audible;
  - move the global volume up and down, bounded by 0 and 100;
  - create and delete templates and their entries, cascading to the
    entries;
  - apply a template. Applying sends, and stores, only the settings that
    differ from the stored ones.
- **The replay** (`Reset.ResetService`) sends every stored zone's settings
  again after the amplifier came back.
- **The liveness checker** (`Checker.AmplifierCheckerService`) runs a tick.
  Each tick probes the amplifier and moves between alive and dead. The
  checker replays when the amplifier comes back, and only a replay that
  succeeds makes it alive again. Properties over whole runs of ticks are
  proved as lemmas.

Each controller method's `ensures` gives its HTTP status, its new tables
and the amplifier calls it made, in order. It gives them as functions of
the old state (`EditOutput`, `AdjustAll`, `ApplyEntries`, `TemplateCalls`,
`ReplayCalls`). The lemmas next to those functions prove what the program
promises, for example:

- an edit changes one record and no other lookup;
- the volume stays in 0..100;
- applying a template twice makes no calls the second time;
- deleting a template leaves no entry of it and keeps every other
  template's entries;
- the replay never resets the device.

## Model

| member | source | states |
|---|---|---|
| Amplifier.Communication.WriteAsync | AudioCoreSerial/C/RS232.cs:93-103 | the line is appended to what was written; the device's queued replies are untouched |
| Amplifier.Communication.ReadAsync | AudioCoreSerial/C/RS232.cs:109-116 | the first queued reply is returned and consumed; with nothing queued the read times out (None) and nothing changes |
| Amplifier.Communication.ReadUntilTimeoutAsync | AudioCoreSerial/C/RS232.cs:122-143 | every queued reply is consumed and returned collected, each followed by the line terminator; nothing is written |
| Amplifier.JoinedEmpty | AudioCoreSerial/C/RS232.cs:122-143 | the collected text is non-empty exactly when at least one line arrived |
| Amplifier.JoinedAppend | AudioCoreSerial/C/RS232.cs:133 | collecting one more line appends that line and the terminator |
| Amplifier.ControlAE6MC.constructor | AudioCoreSerial/C/ControlAE6MC.cs:31-34 | the driver uses the given channel, has made no calls, and its invariant holds |
| Amplifier.ControlAE6MC.GetVersionAsync | AudioCoreSerial/C/ControlAE6MC.cs:40-44 | writes exactly `(vr?)`, logs the call, returns the first reply line or Timeout |
| Amplifier.ControlAE6MC.ResetAsync | AudioCoreSerial/C/ControlAE6MC.cs:50-53 | writes exactly `(rx)` and logs the call; no reply is read |
| Amplifier.ControlAE6MC.SetOnStateAsync | AudioCoreSerial/C/ControlAE6MC.cs:61-67 | writes `(<id+1>on)` or `(<id+1>of)` according to the flag, and logs the call |
| Amplifier.ControlAE6MC.SetMuteStateAsync | AudioCoreSerial/C/ControlAE6MC.cs:75-81 | writes `(<id+1>mu)` or `(<id+1>um)` according to the flag, and logs the call |
| Amplifier.ControlAE6MC.MuteAll | AudioCoreSerial/C/ControlAE6MC.cs:88-93 | writes `(amu)` or `(aum)` according to the flag, and logs the call |
| Amplifier.ControlAE6MC.GetVolumeAsync | AudioCoreSerial/C/ControlAE6MC.cs:100-112 | writes `(<id+1>vl?)`; the result is the reply's decoded volume (-1 on a reply that is not an int), or Timeout |
| Amplifier.ControlAE6MC.SetVolumeAsync | AudioCoreSerial/C/ControlAE6MC.cs:120-125 | writes `(<id+1>vl<D2 of value*87/100>)` and logs the call |
| Amplifier.ControlAE6MC.GetBassAsync | AudioCoreSerial/C/ControlAE6MC.cs:132-137 | writes `(<id+1>b?)`; the reply is read as a base-16 int, BadReply when it is not one, Timeout when there is none |
| Amplifier.ControlAE6MC.SetBassAsync | AudioCoreSerial/C/ControlAE6MC.cs:145-149 | writes `(<id+1>b<value in upper-case hex>)` and logs the call |
| Amplifier.ControlAE6MC.GetTrebleAsync | AudioCoreSerial/C/ControlAE6MC.cs:156-161 | writes `(<id+1>t?)`; the reply is read as a base-16 int, BadReply when it is not one, Timeout when there is none |
| Amplifier.ControlAE6MC.SetTrebleAsync | AudioCoreSerial/C/ControlAE6MC.cs:169-173 | writes `(<id+1>t<value in upper-case hex>)` and logs the call |
| Amplifier.ControlAE6MC.LinkAsync | AudioCoreSerial/C/ControlAE6MC.cs:181-186 | writes `(<output+1>sl<input+1>)`: zone index first, input index second |
| Amplifier.ControlAE6MC.GetOutputAmount | AudioCoreSerial/C/ControlAE6MC.cs:188-191 | returns 6, the number of zones |
| Amplifier.ControlAE6MC.GetInputAmount | AudioCoreSerial/C/ControlAE6MC.cs:193-196 | returns 7, the number of inputs |
| Amplifier.ControlAE6MC.GetMuteAsync | AudioCoreSerial/C/ControlAE6MC.cs:198-201 | always fails with NotImplemented |
| Amplifier.ControlAE6MC.GetOnStateAsync | AudioCoreSerial/C/ControlAE6MC.cs:203-206 | always fails with NotImplemented |
| Amplifier.HexReply | AudioCoreSerial/C/ControlAE6MC.cs:136 | a reply succeeds exactly when it parses as base 16, else it is BadReply |
| Amplifier.ToneEcho | AudioCoreSerial/C/ControlAE6MC.cs:145-161 | the hex text SetBass/SetTreble writes reads back through GetBass/GetTreble's parse as the same value, for every int |
| Amplifier.AppendedWrites | AudioCoreSerial/C/ControlAE6MC.cs:40-186 | when the driver made exactly some new calls, the channel gained exactly their command lines |
| Amplifier.ControlAE6MC.Send | AudioCoreSerial/C/ControlAE6MC.cs:42 | one call's command line is appended to the channel and the call to the log, keeping the driver's invariant; the queued replies are untouched |
| Protocol.IndexFromId | AudioCoreSerial/C/ControlAE6MC.cs:208-211 | the device index is id + 1 below the int maximum (wrapping at it) |
| Protocol.IndexesOfZonesAndInputs | AudioCoreSerial/C/ControlAE6MC.cs:15-20 | every valid zone and input id maps to a device index in 1..amount |
| Protocol.DeviceVolume | AudioCoreSerial/C/ControlAE6MC.cs:124 | a volume in 0..100 becomes a device level in 0..87, namely value*87/100 |
| Protocol.DecodeVolume | AudioCoreSerial/C/ControlAE6MC.cs:104-111 | a reply that does not parse as an int gives -1 |
| Protocol.DecodeDeviceVolume | AudioCoreSerial/C/ControlAE6MC.cs:104-111 | a reply holding level n in 0..87 gives n*100/87, a volume in 0..100 |
| Protocol.VolumeRoundTrip | AudioCoreSerial/C/ControlAE6MC.cs:100-125 | reading back the level written for volume v gives (v*87/100)*100/87, never more than v |
| Protocol.VolumeRoundTripIsLossy | AudioCoreSerial/C/ControlAE6MC.cs:111-124 | volume 1 is written as level 00 and read back as 0 |
| Protocol.SetVolumeLine | AudioCoreSerial/C/ControlAE6MC.cs:120-125 | for a valid zone and volume the line is `(<z+1>vl` + two decimal digits + `)` |
| Protocol.DecodeEncode | AudioCoreSerial/C/ControlAE6MC.cs:40-186 | every well-formed device command's line decodes to that command |
| Protocol.CommandLineRoundTrip | AudioCoreSerial/C/ControlAE6MC.cs:40-186 | the line of every driver call decodes to the command the call stands for |
| Protocol.OnlyResetIsResetAll | AudioCoreSerial/C/ControlAE6MC.cs:50-53 | the Reset call, and only it, is the device reset |
| Protocol.OnlyResetWritesRx | AudioCoreSerial/C/ControlAE6MC.cs:50-53 | `(rx)` is written by the Reset call and by no other call |
| NumText.IntToDec | AudioCoreSerial/C/ControlAE6MC.cs:63-66 | the decimal text of an int is non-empty and starts with '-' exactly when the int is negative (read back by TryParseIntToDec) |
| NumText.D2 | AudioCoreSerial/C/ControlAE6MC.cs:124 | `ToString("D2")` has at least two characters and starts with '-' exactly for a negative value |
| NumText.Hex32 | AudioCoreSerial/C/ControlAE6MC.cs:148 | `ToString("X")` is non-empty hex digits with no leading zero except for 0 |
| NumText.TryParseInt32 | AudioCoreSerial/C/ControlAE6MC.cs:106 | TryParse succeeds only on text holding a decimal digit |
| NumText.ParseHex32 | AudioCoreSerial/C/ControlAE6MC.cs:136 | `Convert.ToInt32(_, 16)` succeeds only on text ending in a hex digit, and refuses a leading minus sign |
| NumText.HexPlusSign | AudioCoreSerial/C/ControlAE6MC.cs:136 | one leading '+' is skipped by `Convert.ToInt32(_, 16)` |
| NumText.Numeral | AudioCoreSerial/C/ControlAE6MC.cs:148 | the numeral of n is non-empty, all digits, starts with 0 only for 0, one digit exactly below the base |
| NumText.NumeralRoundTrip | AudioCoreSerial/C/ControlAE6MC.cs:63-65 | the value of the numeral of n is n, in every base 2..16 |
| NumText.D2TwoDigits | AudioCoreSerial/C/ControlAE6MC.cs:124 | `ToString("D2")` of 0..99 is two decimal digits whose value is the number |
| NumText.TryParseIntToDec | AudioCoreSerial/C/ControlAE6MC.cs:106 | TryParse reads back the decimal text of every int |
| NumText.TryParseD2 | AudioCoreSerial/C/ControlAE6MC.cs:106-124 | TryParse reads back the `D2` text of every int |
| NumText.TryParseIgnoresCarriageReturn | AudioCoreSerial/C/ControlAE6MC.cs:104-106 | a trailing carriage return on a reply line does not change what TryParse reads |
| NumText.NoDigitNoNumber | AudioCoreSerial/C/ControlAE6MC.cs:106-108 | a reply without a single decimal digit does not parse |
| NumText.HexRoundTrip | AudioCoreSerial/C/ControlAE6MC.cs:136-148 | `Convert.ToInt32(_, 16)` reads back `ToString("X")` of every int, negative ones included |
| NumText.TrimNothing | AudioCoreSerial/C/ControlAE6MC.cs:106 | text without surrounding white space is unchanged by TryParse's trimming |
| Int32.Wrap32 | AudioCoreSerial/C/ControlAE6MC.cs:111 | the wrapped value equals the exact one when in range and differs from it by a multiple of 2^32 |
| Int32.TruncDiv | AudioCoreSerial/C/ControlAE6MC.cs:111 | C# division rounds toward zero: q*b <= a < q*b + b for a >= 0 and q*b - b < a <= q*b for a < 0, with the quotient between 0 and the dividend |
| Models.Input.Equals | AudioCoreApi/Models/Input.cs:36-53 | true exactly when the other object is an input with the same id |
| Models.Input.GetHashCode | AudioCoreApi/Models/Input.cs:59-62 | the hash of an input is its id (the hash of an int) |
| Models.EqualsNull | AudioCoreApi/Models/Input.cs:39-42 | an input never equals null |
| Models.EqualsOtherClass | AudioCoreApi/Models/Input.cs:45-49 | an input never equals an object that is not an input |
| Models.EqualsById | AudioCoreApi/Models/Input.cs:52 | two inputs are equal exactly when their ids are, whatever name, order and hidden flag |
| Models.EqualsIsEquivalence | AudioCoreApi/Models/Input.cs:36-53 | equality on inputs is reflexive, symmetric and transitive |
| Models.EqualsHashCode | AudioCoreApi/Models/Input.cs:59-62 | equal inputs have equal hash codes |
| Models.FirstIndex | AudioCoreApi/Controllers/OutputsController.cs:437 | the result is the first position of the key; None exactly when the key is absent |
| Models.FindOutput | AudioCoreApi/Controllers/OutputsController.cs:437 | a zone is found exactly when one with the id is stored, and the found record has that id |
| Models.FindInput | AudioCoreApi/Controllers/InputsController.cs:174 | an input is found exactly when one with the id is stored, and the found record has that id |
| Models.GetOrCreateOutput | AudioCoreApi/Controllers/OutputsController.cs:435-451 | afterwards the id finds the stored zone or its default record; no other lookup changes; the table only grows, by at most one |
| Models.GetOrCreateInput | AudioCoreApi/Controllers/InputsController.cs:172-188 | afterwards the id finds the stored input or its default record; no other lookup changes; the table only grows, by at most one |
| Models.GetOrCreateIdempotent | AudioCoreApi/Controllers/OutputsController.cs:435-451 | a second get-or-create of the same id adds nothing |
| Models.PutOutput | AudioCoreApi/Controllers/OutputsController.cs:86-88 | assigning the fetched zone makes its id find the new record, keeps every other lookup and the ids of the get-or-create |
| Models.PutInput | AudioCoreApi/Controllers/InputsController.cs:84-86 | assigning the fetched input makes its id find the new record, keeps every other lookup and the ids of the get-or-create |
| Outputs.EditedChangesOneField | AudioCoreApi/Controllers/OutputsController.cs:77-433 | each setter's edit sets its own field and leaves id, mute and every other field as they were |
| Outputs.EditOutput | AudioCoreApi/Controllers/OutputsController.cs:86-88 | after the edit the id finds the stored-or-default zone with the field changed; no other lookup changes |
| Outputs.CreatedBelow | AudioCoreApi/Controllers/OutputsController.cs:44-54 | the get-or-create pass over the ids below n only appends to the table |
| Outputs.CreatedBelowLookups | AudioCoreApi/Controllers/OutputsController.cs:44-54 | after the pass every id below n finds its stored-or-default zone; every other lookup is unchanged |
| Outputs.CreatedBelowStep | AudioCoreApi/Controllers/OutputsController.cs:48-51 | one more id is one more get-or-create, and that id is still looked up as originally stored |
| Outputs.Listed | AudioCoreApi/Controllers/OutputsController.cs:44-54 | the listing of the ids below n has n items |
| Outputs.ListedAt | AudioCoreApi/Controllers/OutputsController.cs:44-54 | item k of the listing is the stored-or-default zone k, whose id is k |
| Outputs.Adjusted | AudioCoreApi/Controllers/OutputsController.cs:349 | raising caps the volume at 100, lowering floors it at 0, and from 0..100 by a non-negative change that does not overflow it stays in 0..100 |
| Outputs.VolumeUpBounds | AudioCoreApi/Controllers/OutputsController.cs:349 | raising never gives more than 100, and from 0..100 without overflow never lowers the volume |
| Outputs.VolumeDownBounds | AudioCoreApi/Controllers/OutputsController.cs:382 | lowering never gives less than 0, and from 0..100 by a non-negative change never raises it |
| Outputs.VolumeUpWraps | AudioCoreApi/Controllers/OutputsController.cs:349 | a change near the int maximum wraps the sum to a negative volume |
| Outputs.AdjustAll | AudioCoreApi/Controllers/OutputsController.cs:347-351 | every stored zone keeps its place and all its fields but the volume, which is moved |
| Outputs.AdjustAllKeepsZones | AudioCoreApi/Controllers/OutputsController.cs:347-351 | moving the volume creates, removes and reorders no zone |
| Outputs.AdjustAllInRange | AudioCoreApi/Controllers/OutputsController.cs:344-389 | with volumes in 0..100 and a non-negative change below the overflow bound, every volume stays in 0..100 |
| Outputs.VolumeCalls | AudioCoreApi/Controllers/OutputsController.cs:350 | one call per zone |
| Outputs.VolumeCallsAt | AudioCoreApi/Controllers/OutputsController.cs:350 | call i is SetVolume of zone i of the table, with that zone's volume |
| Outputs.OutputsController.CheckId | AudioCoreApi/Controllers/OutputsController.cs:453-459 | an id is accepted exactly when it is in 0..5 |
| Outputs.OutputsController.GetAmount | AudioCoreApi/Controllers/OutputsController.cs:34-37 | returns the amplifier's zone amount, 6 |
| Outputs.OutputsController.GetOutputAsync | AudioCoreApi/Controllers/OutputsController.cs:435-451 | returns the stored zone; when missing and asked to, creates and returns its default record |
| Outputs.OutputsController.EditAsync | AudioCoreApi/Controllers/OutputsController.cs:86-88 | the zone table becomes EditOutput of the old one |
| Outputs.OutputsController.List | AudioCoreApi/Controllers/OutputsController.cs:44-54 | returns the listing of ids 0..5 (stored or default zones, in id order) and the table becomes the get-or-create pass over them |
| Outputs.OutputsController.Get | AudioCoreApi/Controllers/OutputsController.cs:62-68 | an id out of range is the inexistent-resource error with no change; otherwise the stored-or-created zone |
| Outputs.OutputsController.PostName | AudioCoreApi/Controllers/OutputsController.cs:77-90 | status Inexistent, BadRequest (no body) or NoContent; only NoContent changes the table, setting the name |
| Outputs.OutputsController.PostOrder | AudioCoreApi/Controllers/OutputsController.cs:113-126 | status Inexistent, BadRequest (no body) or NoContent; only NoContent changes the table, setting the order |
| Outputs.OutputsController.Hide | AudioCoreApi/Controllers/OutputsController.cs:148-156 | Inexistent out of range; else NoContent and the zone is stored hidden |
| Outputs.OutputsController.Unhide | AudioCoreApi/Controllers/OutputsController.cs:164-172 | Inexistent out of range; else NoContent and the zone is stored not hidden |
| Outputs.OutputsController.PostOn | AudioCoreApi/Controllers/OutputsController.cs:194-204 | out of range: no call, no change; else exactly one SetOnState(id, true) call and the zone stored on |
| Outputs.OutputsController.PostOff | AudioCoreApi/Controllers/OutputsController.cs:212-222 | out of range: no call, no change; else exactly one SetOnState(id, false) call and the zone stored off |
| Outputs.OutputsController.PostTreble | AudioCoreApi/Controllers/OutputsController.cs:245-260 | error statuses make no call and no change; else one SetTreble call and the treble stored |
| Outputs.OutputsController.PostBass | AudioCoreApi/Controllers/OutputsController.cs:283-298 | error statuses make no call and no change; else one SetBass call and the bass stored |
| Outputs.OutputsController.PostVolume | AudioCoreApi/Controllers/OutputsController.cs:321-336 | error statuses make no call and no change; else one SetVolume call and the volume stored |
| Outputs.OutputsController.PostLink | AudioCoreApi/Controllers/OutputsController.cs:425-433 | out of range: no call, no change; else one Link(input, id) call and the link stored; status Ok |
| Outputs.OutputsController.AdjustOne | AudioCoreApi/Controllers/OutputsController.cs:349-350 | one step of the pass: zone i's moved record replaces it in the table, and exactly its SetVolume call is appended to the calls |
| Outputs.OutputsController.Adjust | AudioCoreApi/Controllers/OutputsController.cs:347-351 | the table becomes AdjustAll of the old one and the calls are the new volumes, zone by zone in table order |
| Outputs.OutputsController.VolumeUp | AudioCoreApi/Controllers/OutputsController.cs:344-356 | every stored zone raised by the body's change, 20 without a body; one volume call per zone; NoContent |
| Outputs.OutputsController.VolumeUpGet | AudioCoreApi/Controllers/OutputsController.cs:363-369 | every stored zone raised by 10; one volume call per zone; NoContent |
| Outputs.OutputsController.VolumeDown | AudioCoreApi/Controllers/OutputsController.cs:377-389 | every stored zone lowered by the body's change, 20 without a body; one volume call per zone; NoContent |
| Outputs.OutputsController.VolumeDownGet | AudioCoreApi/Controllers/OutputsController.cs:396-402 | every stored zone lowered by 10; one volume call per zone; NoContent |
| Inputs.EditedChangesOneField | AudioCoreApi/Controllers/InputsController.cs:75-156 | each setter's edit sets its own field and leaves id and the other fields as they were |
| Inputs.EditedEqualsOriginal | AudioCoreApi/Models/Input.cs:36-53 | an edited input still equals the original, both ways |
| Inputs.EditInput | AudioCoreApi/Controllers/InputsController.cs:84-86 | after the edit the id finds the stored-or-default input with the field changed; no other lookup changes |
| Inputs.CreatedBelow | AudioCoreApi/Controllers/InputsController.cs:42-52 | the get-or-create pass over the ids below n only appends to the table |
| Inputs.CreatedBelowLookups | AudioCoreApi/Controllers/InputsController.cs:42-52 | after the pass every id below n finds its stored-or-default input; every other lookup is unchanged |
| Inputs.CreatedBelowStep | AudioCoreApi/Controllers/InputsController.cs:46-49 | one more id is one more get-or-create, and that id is still looked up as originally stored |
| Inputs.Listed | AudioCoreApi/Controllers/InputsController.cs:42-52 | the listing of the ids below n has n items |
| Inputs.ListedAt | AudioCoreApi/Controllers/InputsController.cs:42-52 | item k of the listing is the stored-or-default input k, whose id is k |
| Inputs.InputsController.CheckId | AudioCoreApi/Controllers/InputsController.cs:190-196 | an id is accepted exactly when it is in 0..6 |
| Inputs.InputsController.GetAmount | AudioCoreApi/Controllers/InputsController.cs:32-35 | returns the amplifier's input amount, 7 |
| Inputs.InputsController.GetInputAsync | AudioCoreApi/Controllers/InputsController.cs:172-188 | returns the stored input; when missing and asked to, creates and returns its default record |
| Inputs.InputsController.EditAsync | AudioCoreApi/Controllers/InputsController.cs:84-86 | the input table becomes EditInput of the old one |
| Inputs.InputsController.List | AudioCoreApi/Controllers/InputsController.cs:42-52 | returns the listing of ids 0..6 (stored or default inputs, in id order) and the table becomes the get-or-create pass over them |
| Inputs.InputsController.Get | AudioCoreApi/Controllers/InputsController.cs:60-66 | an id out of range is the inexistent-resource error with no change; otherwise the stored-or-created input |
| Inputs.InputsController.PostName | AudioCoreApi/Controllers/InputsController.cs:75-88 | status Inexistent, BadRequest (no body) or NoContent; only NoContent changes the table, setting the name |
| Inputs.InputsController.PostOrder | AudioCoreApi/Controllers/InputsController.cs:111-124 | status Inexistent, BadRequest (no body) or NoContent; only NoContent changes the table, setting the order |
| Inputs.InputsController.Hide | AudioCoreApi/Controllers/InputsController.cs:132-140 | Inexistent out of range; else NoContent and the input is stored hidden |
| Inputs.InputsController.Unhide | AudioCoreApi/Controllers/InputsController.cs:148-156 | Inexistent out of range; else NoContent and the input is stored not hidden |
| Reset.ReplayCalls | AudioCoreApi/Services/ResetService.cs:28-39 | between four and five calls per stored zone |
| Reset.OutputReplay | AudioCoreApi/Services/ResetService.cs:30-38 | four calls per zone, five when it has a linked input |
| Reset.ReplayLength | AudioCoreApi/Services/ResetService.cs:27-39 | the replay makes 4 calls per stored zone plus one per linked zone |
| Reset.ReplayConcat | AudioCoreApi/Services/ResetService.cs:28-39 | replaying a table is replaying its parts one after the other: zones go in table order |
| Reset.ReplayFromStored | AudioCoreApi/Services/ResetService.cs:30-37 | every replayed call restores a setting of a stored zone |
| Reset.ReplayHasNoReset | AudioCoreApi/Services/ResetService.cs:25-40 | the replay never issues the Reset call |
| Reset.ReplayNeverResets | AudioCoreApi/Services/ResetService.cs:25-40 | no `(rx)` line is written by the replay |
| Reset.ResetService.ReplayOutput | AudioCoreApi/Services/ResetService.cs:30-38 | the calls made are bass, treble, volume, power, then link when linked, for that zone |
| Reset.ResetService.ResetAsync | AudioCoreApi/Services/ResetService.cs:25-40 | the calls made are exactly the replay of the zone table, which is not changed; no reply is read |
| Checker.Step | AudioCoreApi/Services/AmplifierCheckerService.cs:67-90 | a tick replays exactly when dead and responding; after a replay it is alive exactly when the replay succeeded; otherwise it is alive exactly when it was alive and heard the amplifier |
| Checker.Run | AudioCoreApi/Services/AmplifierCheckerService.cs:67-90 | after a run the checker is alive only if the last tick heard the amplifier, and surely when that tick also had a replay that would succeed; an empty run keeps the start state |
| Checker.StepReplay | AudioCoreApi/Services/AmplifierCheckerService.cs:67-85 | a replay happens exactly when a dead checker hears the amplifier, and then it is alive exactly when the replay succeeded |
| Checker.StepOtherwise | AudioCoreApi/Services/AmplifierCheckerService.cs:86-90 | alive and silent goes dead without replay; the other cases keep the state |
| Checker.DeathsAndRecoveries | AudioCoreApi/Services/AmplifierCheckerService.cs:21 | from the alive start, deaths exceed recoveries by one exactly when the run ends dead |
| Checker.RecoveriesAreReplays | AudioCoreApi/Services/AmplifierCheckerService.cs:67-85 | every recovery is a tick that replayed, and its replay succeeded |
| Checker.AlwaysRespondingNeverReplays | AudioCoreApi/Services/AmplifierCheckerService.cs:60-92 | an amplifier that always answers keeps the checker alive with no replay |
| Checker.SilenceKeepsDead | AudioCoreApi/Services/AmplifierCheckerService.cs:86-115 | once dead, silent ticks keep it dead and replay nothing |
| Checker.AmplifierCheckerService.constructor | AudioCoreApi/Services/AmplifierCheckerService.cs:21-34 | the checker starts alive with no tick observed |
| Checker.AmplifierCheckerService.IsAmplifierRespondingAsync | AudioCoreApi/Services/AmplifierCheckerService.cs:94-119 | alive: one `(vr?)` and responding means a non-empty first reply; dead: nothing written, all queued lines read, responding means one arrived |
| Checker.AmplifierCheckerService.Execute | AudioCoreApi/Services/AmplifierCheckerService.cs:60-92 | one tick: the probe above, then the state and replay log move by Step, keeping the run invariant; the checker's own driver makes only the probe's call, and a dead tick that hears nothing writes nothing; an alive tick consumes one queued reply and a dead tick all of them |
| Templates.FindTemplate | AudioCoreApi/Controllers/TemplatesController.cs:48-50 | a template is found exactly when one with the id is stored, and it has that id |
| Templates.EntriesOf | AudioCoreApi/Controllers/TemplatesController.cs:33-35 | exactly the entries of the template, no more |
| Templates.EntriesNotOf | AudioCoreApi/Controllers/TemplatesController.cs:71 | exactly the entries of the other templates |
| Templates.RemoveAt | AudioCoreApi/Controllers/TemplatesController.cs:71 | removes one element: the rest in order, the multiset less that one |
| Templates.EntriesPartition | AudioCoreApi/Controllers/TemplatesController.cs:66-76 | the entries of a template and those of the others together are the whole table |
| Templates.CascadeLeavesNone | AudioCoreApi/Controllers/TemplatesController.cs:66-76 | after the cascade no entry of the deleted template remains |
| Templates.CascadeKeepsOthers | AudioCoreApi/Controllers/TemplatesController.cs:66-76 | the cascade keeps every other template's entries, in order |
| Templates.RemoveEntryKeepsOthers | AudioCoreApi/Controllers/TemplatesController.cs:98-108 | removing an entry of one template keeps every other template's entries |
| Templates.RemoveTemplateKeepsOthers | AudioCoreApi/Controllers/TemplatesController.cs:66-76 | removing a template keeps the lookup of every other id |
| Templates.DeletedTemplateIsGone | AudioCoreApi/Controllers/TemplatesController.cs:66-76 | with unique ids, the deleted template is no longer found |
| Templates.ApplyToOutput | AudioCoreApi/Controllers/TemplatesController.cs:159-202 | applying an entry keeps id, name, order, mute and hidden |
| Templates.EntryCalls | AudioCoreApi/Controllers/TemplatesController.cs:159-202 | one entry makes at most five calls |
| Templates.EntryCallsIn | AudioCoreApi/Controllers/TemplatesController.cs:153-202 | one entry makes at most five calls against a table |
| Templates.NoCallsIffMatches | AudioCoreApi/Controllers/TemplatesController.cs:150-202 | an entry calls the amplifier exactly when the zone does not already agree with it |
| Templates.ApplyToOutputMatches | AudioCoreApi/Controllers/TemplatesController.cs:159-202 | afterwards the zone agrees with the entry; settings without a value are untouched |
| Templates.MatchingIsUnchanged | AudioCoreApi/Controllers/TemplatesController.cs:150-202 | a zone that already agrees is left as it is |
| Templates.EntryCallsJustified | AudioCoreApi/Controllers/TemplatesController.cs:159-202 | every call names the entry's zone and a value of the entry that differs from the stored one |
| Templates.EntryCallsInOrder | AudioCoreApi/Controllers/TemplatesController.cs:159-202 | within one entry the calls go bass, treble, volume, power, link, each at most once |
| Templates.ApplyEntry | AudioCoreApi/Controllers/TemplatesController.cs:153-202 | applying one entry keeps the table's ids and every other zone's lookup |
| Templates.ApplyEntries | AudioCoreApi/Controllers/TemplatesController.cs:151-203 | applying the entries in order keeps the number of zones in the table (that each zone keeps its id and place is ApplyKeepsZones) |
| Templates.TemplateCalls | AudioCoreApi/Controllers/TemplatesController.cs:151-203 | a template makes at most five calls per entry |
| Templates.ApplyKeepsZones | AudioCoreApi/Controllers/TemplatesController.cs:151-203 | applying a template creates and removes no zone and leaves zones no entry names alone |
| Templates.MatchingTemplateIsNoop | AudioCoreApi/Controllers/TemplatesController.cs:150-203 | a template that already agrees with the table changes nothing and makes no call |
| Templates.AppliedTemplateMatches | AudioCoreApi/Controllers/TemplatesController.cs:151-203 | after a template whose entries name distinct zones, every entry agrees with the table |
| Templates.ApplyTwice | AudioCoreApi/Controllers/TemplatesController.cs:140-208 | applying such a template a second time changes nothing and makes no call |
| Templates.TemplatesController.GetAll | AudioCoreApi/Controllers/TemplatesController.cs:31-38 | every template in table order, each with exactly its entries |
| Templates.TemplatesController.Get | AudioCoreApi/Controllers/TemplatesController.cs:46-58 | NotFound exactly when the id is not stored; else that template with its entries |
| Templates.TemplatesController.Delete | AudioCoreApi/Controllers/TemplatesController.cs:66-76 | NoContent; a missing template changes nothing; else the first such template and all its entries are removed |
| Templates.TemplatesController.Create | AudioCoreApi/Controllers/TemplatesController.cs:84-89 | the template is appended, with the generated id when its id is 0, and returned |
| Templates.TemplatesController.DeleteTemplateEntry | AudioCoreApi/Controllers/TemplatesController.cs:98-108 | NoContent; removes the first entry matching both the template and the entry id, else nothing |
| Templates.TemplatesController.CreateTemplateEntry | AudioCoreApi/Controllers/TemplatesController.cs:117-131 | NotFound with no change exactly when the template is missing; else the entry is appended to that template |
| Templates.TemplatesController.ApplyBass | AudioCoreApi/Controllers/TemplatesController.cs:159-166 | sends and stores the entry's bass only when it is given and differs |
| Templates.TemplatesController.ApplyTreble | AudioCoreApi/Controllers/TemplatesController.cs:168-175 | sends and stores the entry's treble only when it is given and differs |
| Templates.TemplatesController.ApplyVolume | AudioCoreApi/Controllers/TemplatesController.cs:177-184 | sends and stores the entry's volume only when it is given and differs |
| Templates.TemplatesController.ApplyOnState | AudioCoreApi/Controllers/TemplatesController.cs:186-193 | sends and stores the entry's power state only when it is given and differs |
| Templates.TemplatesController.ApplyLink | AudioCoreApi/Controllers/TemplatesController.cs:195-202 | sends and stores the entry's input only when it is given and the zone has none or another |
| Templates.TemplatesController.ApplyLevels | AudioCoreApi/Controllers/TemplatesController.cs:159-184 | bass, treble and volume as above, in that order |
| Templates.TemplatesController.ApplyPowerAndLink | AudioCoreApi/Controllers/TemplatesController.cs:186-202 | power and link as above, in that order |
| Templates.TemplatesController.ApplyToOutputAsync | AudioCoreApi/Controllers/TemplatesController.cs:159-202 | the zone becomes ApplyToOutput of it and the calls are exactly EntryCalls |
| Templates.TemplatesController.ApplyEntryAsync | AudioCoreApi/Controllers/TemplatesController.cs:153-202 | an entry naming no stored zone is skipped; else the zone table becomes ApplyEntry of it |
| Templates.TemplatesController.ApplyTemplate | AudioCoreApi/Controllers/TemplatesController.cs:140-208 | NotFound with no call and no change when missing; else the entries applied in order, with exactly TemplateCalls made |

## Left out

- The serial port itself is not modelled: connecting, the lock, the write
  delay and the settings of the port (RS232.cs). A write records one line;
  a read takes the next queued reply line or times out.
- The line terminator `StringBuilder.AppendLine` adds is the platform's;
  `Joined` uses `"\n"`.
- Write failures and `SerialPortException`, and its mapping to status 503,
  are left out. Every amplifier write succeeds.
- Exceptions the amplifier throws inside a controller action are left out.
  In the model an action always completes.
- Concurrency, the 15-second timer, `StartAsync`, `StopAsync`, `Dispose`
  and all logging are left out.
- Checker.AmplifierCheckerService.Execute: the replay's outcome is a
  parameter. The replay itself is `Reset.ResetService.ResetAsync`; an
  exception from it stands for `replaySucceeds == false`. The replay runs
  on its own driver over the same serial channel, so the lines it writes
  go on that channel too; they are not part of the tick, and `Execute`
  says nothing about the lines written in a tick that replays. The replay
  reads nothing, so the replies still queued after a tick are stated in
  every case.
- `Convert.ToInt32(_, 16)`'s distinct exceptions (format, overflow,
  out of range for the empty string) are merged into `BadReply`. Replies
  are never null, so the null case, which returns 0, is not modelled.
- A read timeout in a getter is `Timeout`, where the source raises
  `TimeoutException`.
- `int.TryParse` is modelled with the invariant culture: ASCII white
  space, an optional sign and decimal digits. Trailing `'\0'` characters
  and culture-specific signs are not modelled.
- AudioContext.cs: Entity Framework plumbing is not modelled. This covers
  `SaveChangesAsync`, change tracking, `Include`, and SQLite.
  In particular, `Create` (TemplatesController.cs:84-89) and
  `CreateTemplateEntry` (TemplatesController.cs:117-131) fail in
  `SaveChangesAsync` on the SQLite primary key when the body carries a
  non-zero `Id` that is already stored. The model appends a second record
  with that id instead.
- Tables are sequences in table order. The order in which `HashSet`
  delivers a template's entries is taken to be table order.
- Deleting a template removes its entries. This is Entity Framework's
  default cascade for the required `TemplateId`; the model performs it
  explicitly.
- Ids the database generates are parameters (`newId`) of
  Templates.TemplatesController.Create and CreateTemplateEntry. Entries
  nested in a created template's body are not stored.
- Null strings (a name set to null) are not modelled: names are strings.
- The exception filter turns the inexistent-resource exception into a 400
  problem response. The model gives it as the status `Inexistent`.
- The plain field getters are not modelled. They only read a field after a
  get-or-create, which `GetOutputAsync` and `GetInputAsync` model. On the
  outputs controller these are GetName, GetOrder, GetOn, GetTreble,
  GetBass, GetVolume and GetLink. On the inputs controller they are
  GetName and GetOrder.
- Templates.DeletedTemplateIsGone assumes unique template ids. With
  duplicates, `Delete` removes only the first, as `FirstOrDefault` does.
- Outputs.AdjustAllInRange: the change must be at most the int maximum
  less 100. `Outputs.VolumeUpWraps` shows the C# overflow beyond that
  bound.
- ICommunication.cs declares only `WriteAsync` and `ReadAsync`, but the
  checker calls `ReadUntilTimeoutAsync`. Both are modelled on the one
  `Communication` class.
- AmplifierController, DefaultController, Startup and the `IAmplifier`
  interface are wiring only and are not part of this model.
