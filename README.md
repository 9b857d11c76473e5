# Study-together Pomodoro room: a Dafny model of the shared timer

The web client in `script.js` runs a shared Pomodoro timer for a room. One
participant, the host, counts the timer down once a second. It switches between
work and break phases. It advances a 0..3 cycle counter after each break and writes
the timer to the room. Every participant listens to the room's `timer` record.
Guests copy the countdown, pause flag and cycle from it. Everyone copies the phase.
A change from work to break starts an audio call with the other participants. A
change back to work ends the call. Each client keeps a table of its open calls,
keyed by remote peer identity, and fills it from the room's participant roster.

The model has these parts:

- `JsNumber` (`js_number.dfy`): JavaScript's truncating `%`, which the clock and
  the cycle counter use.
- `Clock` (`clock.dfy`): `formatTime` as a string function, with the proof that
  it reads back as `mm:ss` denoting its input. `toString` and `padStart` are
  written out.
- `RoomCode` (`room_code.dfy`): `generateId`. The random indices are passed in
  as a parameter.
- `CycleIndicator` (`cycle_indicator.dfy`): the classes of the four cycle dots.
- `TimerModel` (`timer_model.dfy`): the timer as a value. It has the phase switch,
  the running tick and runs of ticks, the snapshot the host writes, the
  observer's update and its call edge, the settings check and the room record a
  host creates. It also has the lemmas about all of these.
- `Connections` (`connections.dfy`): the roster refill and the dialling of new
  participants, as functions on maps.
- `Room` (`session.dfy`): class `Session`. It holds the fields of the global
  `state` and `CONFIG` objects. Each callback in the source is a method that
  changes those fields in place. Its contract ties the new state to the functions
  above. The store, the interval timer and the peer transport call these methods.
  What the store delivers is a parameter. What the client writes to the store is
  a return value. Calls to `startCall` and `endCall` are recorded in a ghost call
  log.

Where the code differs from the system's wider design, the model follows the code.
`script.js` has no anchored or drift-compensated countdown. It has no skip-complete
token, no work-time accounting and no reconnection record. None of these are
modelled. Its timer observer does not skip the first snapshot: the local phase
starts as work (script.js:18). So a client that joins during a break sees a
work-to-break edge and starts the call.

## Model

| member | source | states |
|---|---|---|
| `JsNumber.JsRem` | script.js:52 | JavaScript's remainder (also used for the cycle at script.js:430) lies strictly between -b and b, agrees with the mathematical remainder for a non-negative dividend, and for a negative one is <= 0 and differs from the dividend by a multiple of b |
| `Clock.NatToString` | script.js:53 | `toString` of a non-negative number is a non-empty run of decimal digits with no leading zero, one digit exactly below 10 and at most two below 100 |
| `Clock.IntToString` | script.js:53 | `toString` starts with '-' exactly for a negative number, followed by digits; a non-negative number gives digits only |
| `Clock.PadStart` | script.js:53 | the padded text has at least the requested width, ends with the original text, and every added character is the fill character |
| `Clock.Padded` | script.js:53 | the two-place padding has at least two characters, exactly two for 0..99, and starts with '-' exactly for a negative number |
| `Clock.FormatTime` | script.js:50-54 | the text has at least five characters, ':' three from the end for a non-negative count, and a leading '-' exactly when the count is negative |
| `Clock.NatToStringValue` | script.js:53 | reading back the decimal digits `toString` produces gives the number again |
| `Clock.FormatTimeDenotes` | script.js:50-54 | for every count of seconds >= 0 the text is `mm:ss` with at least two minute digits and exactly two second digits below 60, and `mm * 60 + ss` equals the input |
| `Clock.FormatTimeFiveChars` | script.js:50-54 | below 6000 seconds the text has exactly five characters with ':' at index 2 |
| `RoomCode.GenerateId` | script.js:45-48 | the code has the requested length and each character is the alphabet letter at the drawn index |
| `RoomCode.NewRoomId` | script.js:239 | a room code has six characters, each from the alphabet |
| `RoomCode.NewPeerId` | script.js:240 | a peer identity (also drawn at script.js:268) has ten characters, each from the alphabet |
| `RoomCode.NoLookalikes` | script.js:46 | no generated code contains I, O, 0 or 1 |
| `CycleIndicator.Dots` | script.js:183-189 | there are n dots; dot i is completed exactly when i is below the cycle and current exactly when i is the cycle |
| `CycleIndicator.CycleDots` | script.js:181-189 | there are four dots; those before the cycle are completed, the one at the cycle is current, and none is both |
| `CycleIndicator.DotsCounts` | script.js:183-189 | of n dots, the number marked completed is the cycle clamped to 0..n, and one dot is current exactly when the cycle is in 0..n-1 |
| `CycleIndicator.CycleDotsCounts` | script.js:183-189 | for a cycle c in 0..3, exactly c of the four dots are completed, exactly one is current, and none is both |
| `TimerModel.Switched` | script.js:424-431 | the phase flips, the countdown becomes the full length of the new phase (at least 60 s when the settings are positive); when a break ends the cycle becomes JavaScript's `(cycle + 1) % 4`, otherwise it stays; it changes if and only if a break ends; a cycle in 0..3 stays in 0..3 |
| `TimerModel.Ticked` | script.js:405-409 | the phase switches exactly when the countdown was at 1 or below; otherwise the countdown drops by exactly 1 and the cycle stays; with positive settings the result is always >= 1; the host invariant (positive settings, countdown >= 1, cycle in 0..3) is kept |
| `TimerModel.Run` | script.js:402-409 | any number of running ticks keeps the pause flag, and a host that starts with positive settings, a countdown >= 1 and a cycle in 0..3 keeps all three |
| `TimerModel.RunCountsDown` | script.js:402-409 | before the countdown runs out, n ticks take exactly n seconds off and change nothing else |
| `TimerModel.RunEndsPhase` | script.js:402-431 | a phase with r seconds left ends after exactly r ticks, in the state the phase switch produces |
| `TimerModel.RunFullCycle` | script.js:402-431 | a full work phase plus the following break returns the timer to a fresh work phase one cycle further on |
| `TimerModel.RunFourCycles` | script.js:429-431 | four full work-and-break cycles return the timer exactly to its starting state |
| `TimerModel.DefaultWorkPhaseEnds` | script.js:402-431 | with the load-time settings, 1200 ticks from 20:00 of work give a 5:00 break still in cycle 0 |
| `TimerModel.Published` | script.js:412-418 | the snapshot the host writes always carries the cycle |
| `TimerModel.Observed` | script.js:362-372 | everyone adopts the snapshot's phase; a host keeps everything else; a guest takes the countdown and pause flag, and cycle 0 when the snapshot has none |
| `TimerModel.Edge` | script.js:379-385 | `startCall` fires if and only if the phase goes from work to break, `endCall` if and only if from break to work, and nothing fires if and only if the phase is unchanged |
| `TimerModel.ObserveTwice` | script.js:359-386 | delivering the same snapshot a second time leaves the state unchanged and fires no call |
| `TimerModel.GuestMirrorsHost` | script.js:365-372 | a guest that observes the host's published snapshot holds exactly the host's timer |
| `TimerModel.HostSeesOwnTick` | script.js:362-385 | the host's own snapshot, delivered back to the host, changes nothing and fires no call |
| `TimerModel.EdgeKeepsLog` | script.js:379-385 | after an observer edge the call log still alternates start, end, start, ... and is open exactly in a break |
| `TimerModel.SwitchKeepsLog` | script.js:437-443 | the call that a phase switch makes keeps the call log alternating and open exactly in a break |
| `TimerModel.ObserveAll` | script.js:359-386 | after a run of snapshots the phase is the last snapshot's (unchanged for none), and no more calls fire than there are snapshots |
| `TimerModel.ObserveAllAlternates` | script.js:359-386 | for any run of snapshots, repeated or not, the calls fired alternate start/end, and a call is open at the end exactly when the last phase is a break |
| `TimerModel.ParsedSettings` | script.js:653-656 | settings are accepted if and only if both values parsed and are above zero, and then exactly those values are taken |
| `TimerModel.Restarted` | script.js:667 | after new settings, the host's countdown is the new full length of the current phase; phase, pause and cycle are kept, and so is the host invariant |
| `TimerModel.InitialRoom` | script.js:278-292 | a new room's timer is a fresh, running work phase of full length in cycle 0, and its settings are the creator's `CONFIG` |
| `TimerModel.AdoptSettings` | script.js:295-300 | a joining client takes both stored phase lengths, and keeps its own `CONFIG` when no settings record exists |
| `TimerModel.JoinMatchesHost` | script.js:278-300 | a client joining a new room takes the creator's settings; after the first snapshot it holds the creator's timer with no call event |
| `Connections.RosterMapKeys` | script.js:346-349 | after the refill, the roster holds exactly the keys of the snapshot's children |
| `Connections.RosterMapLastWins` | script.js:346-349 | each roster key holds the record of its last occurrence in the snapshot |
| `Connections.Dialled` | script.js:495-511 | filing calls under their remote peer keeps every entry keyed by its own call's peer |
| `Connections.DialledMeaning` | script.js:495-507 | afterwards every roster participant other than this client has an entry, unless `peer.call` returned nothing for it; existing entries are not replaced; new entries are outbound calls to roster members; this client never calls itself |
| `Connections.DialledStep` | script.js:496-505 | adding one participant to those already visited adds an outbound call for it exactly when it is not this client, has no entry yet and was not refused, and changes nothing else |
| `Room.Session.constructor` | script.js:4-31 | the load-time state: default settings, a 20:00 work phase in cycle 0 that is not paused, no room, empty roster and call table, no stream, the chosen identity and role |
| `Room.Session.InitializeRoom` | script.js:274-301 | the room is set; a host returns the initial room record for its settings, and a guest adopts the stored settings |
| `Room.Session.StartCall` | script.js:474-477 | a call start is recorded; the stream arrives later |
| `Room.Session.EndCall` | script.js:546-554 | the local stream is dropped, the call table is emptied and the call end is recorded |
| `Room.Session.SwitchPhase` | script.js:424-444 | the timer becomes the switched timer, so the cycle advances by JavaScript's `(cycle + 1) % 4` exactly when a break ends; the call starts when a break begins; the call ends, with an empty table and no stream, when work begins |
| `Room.Session.Tick` | script.js:402-421 | when paused, not host or without a room, nothing changes and nothing is written; otherwise the timer becomes the ticked timer, the written snapshot equals the new local timer with a countdown >= 1, and the call fires on the phase edge |
| `Room.Session.OnTimerValue` | script.js:359-387 | a missing record changes nothing; otherwise the timer becomes the observed timer, and `startCall`/`endCall` fire only on the phase edge; the call log stays alternating |
| `Room.Session.SaveSettings` | script.js:652-671 | invalid input changes nothing; valid input sets `CONFIG`; only a host in a room restarts the countdown at the new length of the current phase and writes both records; a guest's countdown is untouched |
| `Room.Session.HandleStream` | script.js:509-511 | the call is filed under its remote peer, replacing any earlier entry for that peer |
| `Room.Session.CallIfNew` | script.js:497-504 | for one roster entry, an outbound call is filed exactly when there is a local stream, the entry is not this client, has no call yet and `peer.call` yielded a call; otherwise the table is unchanged |
| `Room.Session.ConnectToNewParticipants` | script.js:495-507 | with a local stream the table becomes the dialled table for the current roster; without a stream it is unchanged |
| `Room.Session.OnParticipantsValue` | script.js:345-356 | the roster becomes the refill of the snapshot's children; during a break with a stream the new participants are dialled |
| `Room.Session.OnIncomingCall` | script.js:460-465 | an incoming call is filed only during a break with a local stream |
| `Room.Session.CleanupConnection` | script.js:537-544 | only that peer's entry leaves the table |
| `Room.Session.StartCallResolved` | script.js:476-486 | a granted microphone keeps the stream and dials the roster; a denied one changes nothing |

## Left out

- The store is left out: reads, writes, listener registration, `onDisconnect`, the
  five-second `lastSeen` heartbeat (script.js:304-320) and the room-deleted
  listener with its delayed `leaveRoom` (script.js:389-395, 634-642). Writes appear
  only as return values. `lastUpdate`, `createdAt`, `joinedAt` and `lastSeen` are
  server timestamps and are left out too.
- The peer transport is left out: `initializePeer`, `call.answer`, the `stream`
  event that creates audio elements, `getUserMedia`, closing a call and stopping
  tracks (script.js:449-493, 513-535, 547-548, 553). The transport's answers are
  parameters: whether the microphone was granted, and the peers for which
  `peer.call` returned nothing.
- DOM rendering, notifications, the progress ring and the audio visualizer are
  left out (script.js:158-177, 192-226, 591-621). They are display code and
  floating-point arithmetic.
- Mute handling (`toggleMute`, `setMute`, script.js:566-586) is left out because
  it touches only audio tracks. The clipboard and the settings modal are left out
  too.
- Firebase configuration parsing and `localStorage` (script.js:67-153) are left
  out. They depend on a foreign library's behaviour.
- The input checks in `createRoom` and `joinRoom` (empty nickname, unknown room,
  script.js:231-272) are left out. They are form validation before any timer
  state exists. The constructor takes the identity and role they pick.
- `Room.Session.ConnectToNewParticipants`: the order in which the source's
  `forEach` visits the roster is not modelled. Each peer's check and insertion
  involve only that peer's key, so every order gives the same table.
- `leaveRoom` calls `endCall` and then reloads the page. It is not modelled, so
  the call-log invariant covers a session up to leaving.
- Store values are typed, and a snapshot's countdown, phase and pause flag are
  always present. The host's tick writes all four timer fields (script.js:412-418).
  `saveSettings` writes only `remainingSeconds` (script.js:668-670), and the
  store's `update` merges it into the stored record, so the other fields keep their
  values. `currentCycle` is always written in practice. Its `Option` mirrors the
  `|| 0` fallback of script.js:368. `parseInt` results are `Option<int>`, with
  `None` for `NaN`.
- `TimerModel.Ticked`: JavaScript numbers are doubles, and the model's integers
  are unbounded. A value above 2^53, which `parseInt` can produce from a long
  settings field, makes `remainingSeconds--` leave the countdown unchanged. The
  model always subtracts exactly 1. Fractions cannot arise, because `parseInt`
  yields whole numbers.
- `Clock.FormatTime`: the same difference applies to the clock text. Above 2^53,
  `Math.floor(seconds / 60)` works on a rounded quotient. From 1e21 on, `toString`
  switches to exponent notation. So `Clock.FormatTimeDenotes` describes the
  source only for counts up to 2^53.
