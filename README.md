# crossfade-ws core model

A Dafny model of the logic of `midi_controller.py`, a monitor that reads a MIDI
controller (typically a DJ crossfader), turns one control's raw 7-bit value into a
percentage and pushes `{"crossfader": value}` over websockets to every connected
client. The model covers:

- **Value scaler** (`Scaler`): `scale_value` with its full parameter list, computed as
  Python's `round()` (half to even) of the exact quotient, with the division-by-zero
  error for an empty input range; and the default-range form `(200 * v + 127) / 254`
  used by the monitor, proved equal to it for every integer.
- **Learn mode** (`Learn`): the bounded observation window folding control-change
  messages into a map from control number to `{min, max, changes}`, the significance
  filter (`max - min > 20` and `changes > 5`), the failure on an empty result, the
  short-circuit through a saved control number, and the operator's selection restricted
  to the significant controls.
- **Live tracker** (`Tracker`, and `Server.Hub.Monitor`): the monitor loop that scales
  the watched control's values into `current_value` and broadcasts only when the value
  differs from `previous_value`.
- **Client set** (`Server`): `broadcast_value` (try every client, collect the failed
  ones, remove them in one batch) and the register / unregister steps of
  `websocket_handler`, on a class `Hub` holding the process-wide `current_value`,
  `previous_value` and `clients`, with ghost logs of the broadcast values and of every
  attempted send.

Input from the device is a sequence of messages (`Midi.Message`); the learn window
reads poll ticks, each a batch of drained messages. The outcome of each websocket send
is an input: the set of handles whose send fails. The saved control number and the
operator's answers are inputs too.

`midi_monitor` assigns `current_value` unconditionally and compares it with
`previous_value`. Both start at 0 and stay equal between messages
(`Tracker.RunKeepsInSync`), so this is the same as comparing with the current value.

## Model

| member | source | states |
|---|---|---|
| `Scaler.RoundHalfEven` | midi_controller.py:181 | the result is the integer nearest to num/den, and the even one when num/den is exactly half-way (Python's `round`) |
| `Scaler.RoundHalfEvenUnique` | midi_controller.py:181 | at most one integer is the half-even rounding of a quotient, so the rounding is well defined |
| `Scaler.ScaleValue` | midi_controller.py:179-181 | an empty input range is a division-by-zero error and nothing else is; otherwise the result is the half-even rounding of the linearly mapped value, for either orientation of the input range |
| `Scaler.ScaleValueEndpoints` | midi_controller.py:179-181 | any non-degenerate scaling maps in_min to out_min and in_max to out_max exactly |
| `Scaler.Scale` | midi_controller.py:179-181 | with the default ranges every raw value in 0..127 lands in 0..100, 0 maps to 0 and 127 to 100 |
| `Scaler.ScaleIsRoundedQuotient` | midi_controller.py:179-181 | for every integer v the integer form equals the half-even rounding of the exact quotient 100v/127, which is `ScaleValue` with the default arguments; on 0..127, the MIDI range of the call at line 113, Python's float computation gives the same result |
| `Scaler.ScaleMonotonic` | midi_controller.py:181 | scaling is monotonic non-decreasing |
| `Learn.Observe` | midi_controller.py:227-240 | one message: anything but a control change leaves the map alone; a control change adds its control if new, widens its [min, max] to include the value, adds one to its change count, and leaves every other control's entry unchanged |
| `Learn.Aggregate` | midi_controller.py:225-240 | the map after folding the messages in arrival order; every entry has min <= max and at least one change |
| `Learn.AggregateExact` | midi_controller.py:225-240 | after the fold a control is in the map exactly when it sent a control change, and its entry is the minimum, the maximum and the count (repeats included) of its values |
| `Learn.ObservationInvariants` | midi_controller.py:231-240 | every entry has min <= max and changes >= 1, min and max are values actually seen, and every value of that control lies between them |
| `Learn.ChangesAtLeastDistinct` | midi_controller.py:231-240 | an entry's change count is at least the number of distinct values the control reported |
| `Learn.OtherMessagesIgnored` | midi_controller.py:227 | a message that is not a control change leaves the detected-controls map unchanged |
| `Learn.Significant` | midi_controller.py:249-252 | the filtered map holds exactly the detected controls whose entry is significant, with their data copied unchanged |
| `Learn.SignificantIffSweep` | midi_controller.py:249-252 | a control survives the filter exactly when it reported more than 5 values of which two lie more than 20 apart, and its data is the detected entry |
| `Learn.ObserveWindow` | midi_controller.py:218-246 | the nested polling loop builds exactly the fold of the messages of the first min(ticks, 500) ticks |
| `Learn.SelectControl` | midi_controller.py:275-287 | the prompt returns the first answer that is one of the candidates, and returns one exactly when some answer is a candidate |
| `Learn.LearnControl` | midi_controller.py:202-291 | a confirmed saved control is returned unchanged without observing; otherwise a returned control is the first answer that names a significant control, and None is returned exactly when no answer names a significant control (in particular when none is significant) |
| `Tracker.Step` | midi_controller.py:112-118 | one message: the current value becomes the scaled value exactly for a control change of the watched control; the previous value moves, to that scaled value, exactly when the message triggers a broadcast |
| `Tracker.Run` | midi_controller.py:110-119 | the tracker state after a sequence of messages: unchanged, or with current and previous equal |
| `Tracker.Broadcasts` | midi_controller.py:110-119 | the values broadcast over a sequence of messages, at most one per message |
| `Tracker.RunKeepsInSync` | midi_controller.py:110-118 | when current and previous start equal (both 0 at start-up) they are equal after every message |
| `Tracker.RunFollowsLastWatched` | midi_controller.py:110-118 | the tracked value ends as the scaled value of the last watched control change, or unchanged when none was watched |
| `Tracker.PreviousIsLastBroadcast` | midi_controller.py:114-118 | previous always equals the last value broadcast (or its start value when nothing was broadcast) |
| `Tracker.BroadcastsNeverRepeat` | midi_controller.py:114-118 | the first broadcast differs from the starting previous value and every later broadcast from the one before it |
| `Tracker.BroadcastsComeFromWatched` | midi_controller.py:111-117 | every broadcast value is the scaled value of some control change of the watched control |
| `Tracker.SameValueAtMostOnce` | midi_controller.py:111-118 | watched messages that all scale to x cause at most one broadcast, of x, and none when previous already was x (a first value of 0 after start-up is silent) |
| `Tracker.OthersIgnored` | midi_controller.py:112 | the state and the broadcasts are those of the watched control changes alone: other controls and other message kinds are ignored |
| `Server.AfterBroadcast` | midi_controller.py:159-177 | an empty client set stays empty; otherwise a client stays exactly when its send did not fail, and no client is added |
| `Server.ClientsAfter` | midi_controller.py:110-119 | the client set over a monitor run, each broadcast applying the removal of line 177; it never gains a client |
| `Server.ExpectedSendsFromBroadcasts` | midi_controller.py:110-119 | every send of a monitor run carries one of the run's broadcast values and goes to a client connected when the run began |
| `Server.SendAll` | midi_controller.py:164-174 | every client is attempted exactly once with the same value (the sends are, as a multiset, one per client), and the collected set is exactly the clients whose send failed |
| `Server.ClientsDroppedOnlyOnFailure` | midi_controller.py:110-119 | while monitoring, clients only leave the set, and a client leaves exactly when its send failed in one of the broadcasts |
| `Server.RemoveAsWritten` | midi_controller.py:157 | `set.remove` fails exactly when the handle is absent, and otherwise removes just that handle |
| `Server.CleanupAfterFailedSendRaises` | midi_controller.py:157 | a client removed by a broadcast after a failed send makes the handler's cleanup as written fail |
| `Server.Unregister` | midi_controller.py:157 | the intended cleanup always leaves the handle out and every other client's membership unchanged |
| `Server.CleanupCommutesWithBroadcast` | midi_controller.py:157 | with the intended cleanup the broadcast's removal and the handler's removal commute and the handle is gone either way |
| `Server.Hub.constructor` | midi_controller.py:27-29 | start-up state: current and previous value 0, no clients, nothing sent |
| `Server.Hub.Broadcast` | midi_controller.py:159-177 | the client set becomes `AfterBroadcast` of the old one, the sends appended to the log are exactly one of the current value to each old client, nothing is sent to an empty set, the values are unchanged |
| `Server.Hub.Connect` | midi_controller.py:127-132 | the handle joins the client set and is sent the current value at once |
| `Server.Hub.Disconnect` | midi_controller.py:156-157 | the handle leaves the client set, with the intended discard semantics |
| `Server.Hub.HandleMessage` | midi_controller.py:112-118 | one message: the state moves by `Tracker.Step`; when the message fires, the scaled value is broadcast to every client and the failed ones are dropped, otherwise nothing is sent and the clients are unchanged; earlier sends are kept |
| `Server.Hub.Monitor` | midi_controller.py:110-119 | the loop ends in the state `Tracker.Run` gives, notifies exactly the values `Tracker.Broadcasts` gives, leaves the client set `ClientsAfter` gives, keeps the earlier send log as a prefix and appends exactly the sends `ExpectedSends` gives: each broadcast value once to each client in the set at that broadcast |

## Left out

- MIDI device access (opening the port, draining pending messages, listing devices): the messages are an input sequence; a device error ending the monitor (midi_controller.py:121-122) or the learn window (midi_controller.py:289-291) is not modelled.
- The keepalive loop of `websocket_handler` (receive with a 1-second timeout, ping, wait 1 second for the pong, midi_controller.py:135-150): network I/O and timing; only its entry (`Connect`) and its cleanup (`Disconnect`) are modelled, and the outcome of each send is an input.
- asyncio scheduling, sleeping and the server start-up in `main` (midi_controller.py:313-346). In particular the interleaving of connection handlers with the awaits inside `broadcast_value` is not modelled: a client registering while the broadcast iterates would change the set under iteration.
- Saving and loading the device name and the control number (midi_controller.py:184-200, 294-311): file I/O; the loaded control number is an `Option` input and saving the selection is not modelled.
- Console output, tables, prompts and the interactive device selection (`display_header`, `display_devices_table`, `select_midi_device`): user interface only. The confirmation of a saved control is a boolean input and the selection prompt's answers a sequence of integers.
- Learn.SelectControl: the prompt in the code asks again forever while no answer is a candidate; the model, given finitely many answers, returns None when they run out. The `ValueError` branch after `int(selection)` cannot be reached, because the accepted answers are the decimal forms of the candidates.
- The Ctrl+C early exit of the learn window (midi_controller.py:245-246): modelled as fewer poll ticks.
- Scaler.ScaleValue: computes the quotient exactly and does not model floating point. Python's result can differ when float division rounds a quotient that is not a tie across a half-way point, or when operands above 2^53 lose integer precision. For the default ranges and raw values in 0..127, the only inputs the monitor passes, every quotient is exact to well within the float spacing and none is a tie, so the exact and the float results agree.
- Server.Hub.Monitor: handles a flat sequence of messages; the grouping into 10 ms poll ticks does not affect what it does. The sends of a run are stated as a multiset, so the contract does not say in which order they were made, nor which broadcast a send belongs to when the same value is broadcast more than once in a run.

## Findings

| source | as written | input that shows it | evidently intended | confidence | as-written member | corrected member |
|---|---|---|---|---|---|---|
| midi_controller.py:157 | the handler's cleanup uses `clients.remove(websocket)`, which raises `KeyError` when the handle is already gone | a client connects, its send fails in a broadcast so `broadcast_value` drops it (line 177), then its handler exits and the cleanup raises | `clients.discard(websocket)`: remove if present, so the two cleanups commute | medium, not executed | `Server.CleanupAfterFailedSendRaises` | `Server.CleanupCommutesWithBroadcast` |
