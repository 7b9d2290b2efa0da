# Jukebox credit and selection dispatcher, in Dafny

This project models the credit-gated playback dispatcher of a coin-operated
jukebox controller (`main.py`). A coin-slot interrupt adds one credit. A
keypad delivers selection codes into a FIFO queue. A single dispatcher loop
does the rest. When there is no credit, it turns the credit light off and
does nothing else. When there is credit, it turns the light on and takes the
next selection. It then looks the code up in a fixed catalog and checks that
the MP3 file exists. Only then does it play the file (`/home/pi/music/` + the
catalog's file name) and take exactly one credit. An unknown code or a
missing file is logged and costs nothing.

The model is functional. State is an immutable record: credits, the selection
queue, the light and the history of played paths. The coin callback, a keypad
entry and one loop iteration are pure transitions. Interrupt concurrency is
modelled as arbitrary interleavings of these events in a trace. All safety
and accounting properties are proved for every trace.

Modules:

- `Catalog` (`catalog.dfy`): `MP3_PATH`, the `keypad_to_mp3` catalog, two-component
  POSIX `os.path.join`, and resolution of a code to unknown / missing file / playable path.
  The file-existence check is a parameter `onDisk: string -> bool`.
- `Dispatcher` (`dispatcher.dfy`): the state record and its transitions. `Coin` is the coin
  callback. `Enqueue` is a keypad entry. A loop iteration is split in two. `Begin` covers
  the check, the light, the dequeue, the lookup and the start of playback. `Charge` is
  the decrement once the track has finished. `Step` is the two composed.
- `Trace` (`trace.dfy`): events (`CoinEdge`, `Selection(code)`, `Iteration(onDisk)`) and
  `Run`, which gives the states and outcome log of any trace. It also holds the trace
  theorems: credits are never negative, credit accounting, FIFO order, every play
  justified, and the credit gate.
- `Interleaving` (`interleaving.dfy`): the loop body with its real gap made explicit. In
  the source, the credit check (line 63) and the decrement (line 77) are separated by a
  blocking `play_mp3`, and coin interrupts can land in between. This module shows three
  things. Credit stays at least one throughout playback. It never goes negative. Every
  such execution refines an execution of the atomic `Step`.
- `Scenarios` (`scenarios.dfy`): small concrete runs. Two selections play in order, an
  invalid code is free, a missing file is free, and a selection waits for credit.

Points where the behaviour is easy to misread:

- The credit is taken after the track, not before. The loop checks `credits >= 1`,
  plays the whole track, and only then decrements, with no failure path in between.
  `Begin`/`Charge` and the `Interleaving` module model that order. They show it is
  safe, because only the dispatcher ever lowers credits.
- The 200 ms coin debounce is only a setting passed to the GPIO library
  (`bouncetime=200`). There is no debounce logic in the dispatcher to model.

With credit but an empty queue, the source suspends in `await queue.get()`. The
model's iteration then only turns the light on (`Awaiting`). The next iteration
re-checks and takes the selection. This is equivalent to the source, because
nothing but the dispatcher lowers credits, so the check cannot change its
answer while the loop waits.

## Model

| member | source | states |
|---|---|---|
| Catalog.Join | main.py:72 | An absolute file name replaces the directory. A relative file name is joined after the directory, with the directory as a prefix and the file as a suffix, and they do not overlap. A single `/` is inserted between them exactly when the directory is non-empty and lacks a trailing `/`. |
| Catalog.JoinUnderDirectory | main.py:72 | For a directory ending in `/` and a relative file name, the joined path is plain concatenation. |
| Catalog.PathOfIsUnderMp3Path | main.py:27-36 | Every catalog code's path is `MP3_PATH` followed by its file name, so it lies inside the music directory. |
| Catalog.PathOfInjective | main.py:30-36 | Two catalog codes yield the same path exactly when they are the same code. |
| Catalog.PathOf | main.py:71-72 | A catalog code's path starts with the music directory, has more after it, and ends with the code's catalog file name. The exact form is in `Catalog.PathOfIsUnderMp3Path`. |
| Catalog.Resolve | main.py:70-74 | A code resolves to unknown exactly when it is not in the catalog. It resolves to a playable path exactly when it is in the catalog and its file exists. Otherwise the path is `MP3_PATH` + the catalog file name. |
| Dispatcher.Coin | main.py:55-58 | A coin adds exactly one credit and leaves the queue, the light and the played history unchanged. |
| Dispatcher.Enqueue | main.py:105-106 | A keypad entry appends its code to the tail of the dispatcher's queue, keeping the waiting codes as a prefix, and changes nothing else. `Trace.FifoOrder` shows the queue serves entries in order. |
| Dispatcher.Begin | main.py:63-76 | Up to the start of playback, credits are untouched. The light shows whether credits >= 1. At most the head selection is taken, and only when there is credit and a pending selection. A track is started exactly for a playable head code, and it is that code's catalog path. Unknown codes and missing files are classified as such. With credit but no selection, the outcome is waiting for a selection. |
| Dispatcher.Charge | main.py:77 | The post-playback decrement lowers credits by exactly one and changes nothing else. |
| Dispatcher.Step | main.py:62-83 | One loop iteration. Credit is charged exactly for a played track, and credits stay non-negative. The light shows the credit gate. Taken selections plus the remaining queue equal the old queue. Without credit, nothing is taken, charged or played, and the light goes off. With credit but no selection, only the light changes (on) and the loop waits. With credit and a pending selection, exactly the head is taken. An unknown code or a missing file costs nothing and plays nothing. A playable code appends `MP3_PATH` + its file name to the history and costs exactly one credit. |
| Trace.Apply | main.py:55-83 | Any event changes credits by exactly +1 for a coin and −1 for a played track, and in no other way. Its queue and light effects are stated by `Trace.ApplyQueue` and `Trace.ApplyGate`. |
| Trace.Run | main.py:55-83 | An execution visits one state per event, starting at the given state. Each consecutive pair is related by the event's transition and the logged outcome. |
| Trace.ApplyKeepsCredits | main.py:55-83 | No single event (coin, keypad entry, loop iteration) takes credits below zero. |
| Trace.ApplyQueue | main.py:66 | An event takes at most the head of the queue and appends at most the code the keypad entered. |
| Trace.ApplyGate | main.py:63-83 | An iteration without credit changes only the light (off) and takes nothing. Every iteration sets the light to whether credits >= 1. Coins and keypad entries leave the light alone. |
| Trace.RunConcat | main.py:62-83 | Running two traces one after the other ends in the same state as running their concatenation, so the loop's iterations compose. |
| Trace.CreditsNeverNegative | main.py:57-77 | From a non-negative start, every state of every interleaving of coins, keypad entries and loop iterations has non-negative credits. |
| Trace.Accounting | main.py:57-77 | Over any trace, final credits = start credits + coin events − tracks played. The history grows by exactly the played tracks, in order. |
| Trace.FifoOrder | main.py:66-67 | Over any trace, the selections taken off the queue, followed by those still waiting, equal the start queue followed by every keypad entry. Nothing is lost, duplicated or reordered. |
| Trace.PlaysAreJustified | main.py:63-77 | At every event, a track is played exactly when it is a loop iteration with credits >= 1 and a pending head code that is in the catalog with its file present. The track is that code's catalog path. |
| Trace.CreditGate | main.py:63-83 | At every loop iteration without credit, the state is unchanged except that the light goes off, and nothing is taken. Every loop iteration sets the light to whether credits >= 1. Coins and keypad entries leave the light alone. |
| Interleaving.Settled | main.py:76-77 | The atomic view of a machine counts a track in progress as already paid. |
| Interleaving.Advance | main.py:62-83 | In the loop split at `play_mp3`, a track is in progress exactly after an iteration that started one, until the next iteration ends it. Credits rise by one per coin and fall by one only when a playing track ends. The end of playback changes nothing but the credit. `Interleaving.AdvanceSafe` and `Interleaving.AdvanceRefines` state its safety and refinement. |
| Interleaving.AdvanceSafe | main.py:55-77 | Each event of the split loop keeps credits non-negative, and at least one while a started track still owes its credit. |
| Interleaving.AdvanceRefines | main.py:55-83 | Each split-loop event is, in the atomic view, either the same event of the atomic model or (end of playback) no change. |
| Interleaving.Interleave | main.py:55-83 | The machines visited by a split-loop trace, related pairwise by the event's transition. |
| Interleaving.GapIsSafe | main.py:55-77 | Under every interleaving of coin interrupts with the check / play / decrement sequence, credits never go negative and never fall below one during playback. |
| Interleaving.AtomicKeepsInputs | main.py:55-83 | The atomic model sees exactly the same coin events and keypad entries as the split loop. |
| Interleaving.Refinement | main.py:55-83 | The atomic view after any split-loop trace equals the final state of the atomic model run on the events it sees. |
| Interleaving.GapAccounting | main.py:55-83 | Across the gap, credits (counting a track in progress as paid) = start + coins − tracks played. The history is the atomic model's, and selections keep FIFO order. |
| Interleaving.FromStart | main.py:39-83 | From process start (no credit, empty queue, light off), every interleaving of the split loop is safe. Its atomic view is the atomic model run from the initial state. |
| Scenarios.TwoSelectionsPlayInOrder | main.py:30-83 | Two coins and selections A1, A2 play `/home/pi/music/song1.mp3` then `/home/pi/music/song2.mp3`, spend both credits and leave the light on. |
| Scenarios.InvalidSelectionIsFree | main.py:70-81 | With one credit, an unknown code is consumed, costs nothing and plays nothing. |
| Scenarios.MissingFileIsFree | main.py:70-79 | With one credit, a catalog code whose file is absent is consumed, costs nothing and plays nothing. |
| Scenarios.SelectionWaitsForCredit | main.py:62-83 | A selection made without credit stays queued with the light off. After a coin it is the one played. |

## Left out

- Audio playback (`play_mp3`, main.py:85-92): the pygame calls and the sleep-poll loop are external. A started track is an append to the played history (`Begin`). Playback completion is the split-loop event that triggers the decrement. Playback errors raised by the audio library are not modelled.
- GPIO setup and the 200 ms debounce (main.py:42-53): debouncing is delegated to the GPIO library, so each `CoinEdge` is one accepted edge. A failed edge-detection setup just means a trace without coin events.
- The asyncio event loop and task creation (main.py:105-115) are replaced by arbitrary event traces. This over-approximates the source's scheduling. In the source, the no-credit branch of the loop never awaits, so the keypad coroutine cannot run while credits are 0. The model allows keypad entries at any time, and every property holds for all traces, including these.
- The atomicity of `credits += 1` and `credits -= 1` on a shared Python global is taken as given. Lost updates between interpreter threads are not modelled.
- The `Keypad` class is not part of this model. Its output is the `Selection` event, modelled as appending a code to the queue (`Dispatcher.Enqueue`). `set_credit_light_on`/`off` are writes to the light field. The light's state before the first iteration is taken to be off.
- `os.path.exists` is the parameter `onDisk` of each loop iteration, so the filesystem may change between iterations.
- Configuration parsing (main.py:12-17), logging (outcomes record which log branch was taken), `init_cabinet_lights` (main.py:94-96), and GPIO cleanup and shutdown (main.py:117-119) are not modelled.
