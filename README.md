# keyboard_fsm: the timing-aware key state machine, in Dafny

This project models the event engine of the `keyboard_fsm` firmware crate
(`src/lib.rs`). The engine turns debounced input events (`Press(k)`,
`Depress(k)`) and clock readings into output key events. It runs a static
table of states. Each state lists its transitions in priority order. A
transition is an AND of conditions (`Pressed`, `Depressed`, `ElapsedLess`,
`ElapsedGreater`), a list of key events to emit, a list of internal events
that set or clear the sticky flags `CTRL` and `SHFT`, and a target state.
`GlobalState` holds the flags, the time the current state was entered and
the current state. `tick` evaluates the current state with no input and
`push` with one input event. The first transition whose conditions all hold
is committed: its internal events are applied in order, the state switches
and the state clock restarts.

Modules:

- `Events` (events.dfy): key codes, input and output events, the flag set,
  internal events and their left fold.
- `Conditions` (conditions.dfy): condition evaluation and the evaluation of
  one transition.
- `Engine` (engine.dfy): the state table, the first-match scan, the pure
  specification `Step` of one engine evaluation, and the `GlobalState` class
  whose `Tick`, `Push`, `DoTransition` and `Apply` methods update it in place.
- `Scenarios` (scenarios.dfy): the `basic` and `mod_tap` tables of the crate's
  tests, the expected behaviour of each of their steps, and methods that drive
  a `GlobalState` through the tests' loops.

Representation choices:

- Time is a `nat` count of milliseconds.
- The flag set is a `set<Flag>` over `{Ctrl, Shft}`. Bit insert is set union
  and bit removal is set difference.
- States are referred to by their index in the table. A table is well formed
  when every transition's target is a valid index.
- A transition is committed through the pure function `Step` on a `Snapshot`
  of the engine. The class methods are proved to change the object exactly as
  `Step` says.

The source names the closed boundary `ElapsedGreater`, but it tests
`elapsed >= limit`. The model keeps the name and the `>=` test. In this
version of the code, key conditions name a single key code, and no condition
reads the flags. There are no flag-testing conditions and no
`PressCurrent`/`DepressCurrent` outputs. The model follows the code on all of
these points.

## Model

| member | source | states |
|---|---|---|
| `Events.ApplyEvent` | src/lib.rs:33-40 | Set puts every bit of its mask in and keeps the old bits. Unset takes every bit of its mask out and adds none. Bits outside the mask are unchanged. |
| `Events.Fold` | src/lib.rs:121-123 | The flags after the internal events applied in listed order: a bit no event mentions keeps its old value, and the last event's mask ends set for a Set and clear for an Unset. `Events.FoldLastWriteWins` gives the full bit-by-bit result. |
| `Events.FoldLastWriteWins` | src/lib.rs:121-123 | After a list of internal events applied in order, a flag is set iff the last event that mentions it is a Set, or no event mentions it and it was set before: the last write per bit wins. |
| `Events.ApplyIdempotent` | src/lib.rs:36-37 | Applying an event twice is the same as applying it once. Setting bits that are already set, or clearing bits that are already clear, leaves the flags unchanged. |
| `Events.SetThenUnset` | src/lib.rs:121-123 | A Set/Unset pair on the same mask depends on order: Set then Unset clears the mask, and Unset then Set sets it, whatever the flags were. |
| `Conditions.Holds` | src/lib.rs:50-59 | A key condition holds only on an input event of its own kind for its own key, so on a tick only time conditions can hold. At elapsed equal to the threshold, `ElapsedGreater` holds and `ElapsedLess` does not. |
| `Conditions.InputConditions` | src/lib.rs:53-54 | With no input, neither `Pressed(x)` nor `Depressed(x)` holds, and the two never hold together. |
| `Conditions.TimePartition` | src/lib.rs:55-56 | For one threshold, `ElapsedLess` and `ElapsedGreater` are never both true and never both false. At elapsed equal to the threshold only `ElapsedGreater` holds. Neither depends on the input. |
| `Conditions.AllHold` | src/lib.rs:162 | The short-circuit `all` over the condition list is true iff every condition in the list holds. |
| `Conditions.Evaluate` | src/lib.rs:157-171 | A transition yields `Some((key emissions, internal emissions, target))` iff every one of its conditions holds, and `None` otherwise. |
| `Conditions.EmptyConditionsFire` | src/lib.rs:162-167 | A transition with an empty condition list always fires and yields its own emissions and target. |
| `Conditions.KeyConditionBlocksTick` | src/lib.rs:78-83 | On a tick (no input), a transition that contains a `Pressed` or `Depressed` condition never fires. |
| `Engine.FirstMatchFrom` | src/lib.rs:78-83 | The result is a firing transition with no firing transition before it in the scanned range. When the result is none, no transition in that range fires. |
| `Engine.FirstMatch` | src/lib.rs:78-83 | The chosen transition fires and no transition before it fires. When none is chosen, no transition of the list fires. |
| `Engine.FirstMatchIsLowest` | src/lib.rs:100-105 | The first match is `k` iff transition `k` fires and none before it does. There is no match iff no transition fires. |
| `Engine.FirstMatchPriority` | src/lib.rs:78-87 | When transitions `j < k` both fire, a match exists and is at or before `j`, so the later transition `k` is never chosen. |
| `Engine.FindFirstMatch` | src/lib.rs:100-105 | The scan over the state's transitions returns the lowest-indexed transition that fires, or none when none fires. |
| `Engine.Step` | src/lib.rs:71-113 | One evaluation keeps the current state a valid index of the table. The new state clock never lies in the future. |
| `Engine.NoMatchIsNoOp` | src/lib.rs:84-90 | If no transition of the current state fires, the flags, the entry time and the current state are unchanged, and the output is empty. |
| `Engine.CommitEffects` | src/lib.rs:115-127 | When transition `k` is the first to fire, the output is exactly its key emissions. The flags become the fold of its internal events, the current state becomes its target, and the entry time becomes `now`. |
| `Engine.ElapsedResets` | src/lib.rs:125-126 | After a step that fires at `now`, the new state was entered at `now`. A following call at the same `now`, with any input, scans the new state's transitions at zero elapsed time and commits or does nothing accordingly. |
| `Engine.TickSkipsKeyTransitions` | src/lib.rs:78-83 | A transition chosen on a tick has only time conditions. |
| `Engine.GlobalState.constructor` | src/lib.rs:61-65 | A new engine holds the given table, initial state, flags and boot time. |
| `Engine.GlobalState.Tick` | src/lib.rs:71-91 | `tick(now)` changes the engine and returns exactly what `Step` gives with no input event. Like `push`, it requires `now` to be no earlier than the entry time. |
| `Engine.GlobalState.Push` | src/lib.rs:93-113 | `push(now, event)` changes the engine and returns exactly what `Step` gives with the input `Some(event)`. |
| `Engine.GlobalState.DoTransition` | src/lib.rs:115-127 | Applying the internal events in listed order leaves the flags equal to their fold. The current state becomes the target and the entry time becomes `now`. |
| `Engine.GlobalState.Apply` | src/lib.rs:33-40 | One internal event changes the flags as `ApplyEvent` says and changes nothing else. |
| `Scenarios.BasicTable` | src/lib.rs:278-300 | The `basic` table is well formed and has two states. |
| `Scenarios.BasicPress` | src/lib.rs:311-312 | In A, `push(Press(0))` emits `[Press(0)]` and moves to B at any time, keeping the flags. |
| `Scenarios.BasicDepress` | src/lib.rs:314-315 | In B, `push(Depress(0))` emits `[Depress(0)]` and moves back to A. |
| `Scenarios.BasicScenario` | src/lib.rs:302-316 | Ten rounds of Press(0)/Depress(0) from A, all at one time, return `[Press(0)]` and `[Depress(0)]` in turn. |
| `Scenarios.ModTapTable` | src/lib.rs:321-386 | The `mod_tap` table is well formed and has three states. |
| `Scenarios.RootPress` | src/lib.rs:394-397 | In ROOT, `push(Press(0))` moves to MOD silently. |
| `Scenarios.ModTap` | src/lib.rs:401-403 | A Depress(0) less than 5ms after entering MOD emits `[Press(0), Depress(0)]` and returns to ROOT. |
| `Scenarios.ModWaits` | src/lib.rs:359-364 | Before 5ms, a bare tick in MOD does nothing. |
| `Scenarios.ModHoldByTick` | src/lib.rs:409-413 | A bare tick 5ms or more after entering MOD emits `[Press(2)]`, sets SHFT and moves to MOD_HOLD. |
| `Scenarios.ModOtherKey` | src/lib.rs:436-441 | In MOD, `push(Press(1))` emits `[Press(2), Press(1), Depress(1)]`, sets SHFT and moves to MOD_HOLD. |
| `Scenarios.HoldOtherKey` | src/lib.rs:417-419 | In MOD_HOLD, `push(Press(1))` emits `[Press(1), Depress(1)]` and stays in MOD_HOLD. |
| `Scenarios.HoldRelease` | src/lib.rs:423-426 | In MOD_HOLD, `push(Depress(0))` emits `[Depress(2)]`, clears SHFT and returns to ROOT. From the flags `{SHFT}`, the flags end empty. |
| `Scenarios.ModTapScenario` | src/lib.rs:388-456 | Ten rounds of the `mod_tap` test's calls, with the clock advanced as the test advances it, give the test's expected outputs, states and flags each round. |
| `Scenarios.TapSegment` | src/lib.rs:395-403 | Pressing key 0 and releasing it 1ms later emits nothing, then `[Press(0), Depress(0)]`, and ends in ROOT with empty flags. |
| `Scenarios.HoldByTimeoutSegment` | src/lib.rs:405-426 | Press key 0, wait 8ms and tick, tap key 1, release key 0. The outputs are `[]`, `[Press(2)]`, `[Press(1), Depress(1)]` and `[Depress(2)]`, and the flags end empty. |
| `Scenarios.HoldByOtherKeySegment` | src/lib.rs:428-454 | Press key 0, press key 1 twice, release key 0. The outputs are `[]`, `[Press(2), Press(1), Depress(1)]`, `[Press(1), Depress(1)]` and `[Depress(2)]`, and the flags end empty. |

## Left out

- The `embedded_time` clock is not modelled: `Instant`, `checked_duration_since`, the conversion to `Milliseconds<u32>` and the test clock `TickerClock`. Time is a `nat` count of milliseconds passed in as `now`.
- Engine.GlobalState.Tick: the source panics (`unwrap`) when the clock reading is earlier than the entry time. The model makes `now >= enteredState` a precondition instead. The same holds for Push.
- Engine.GlobalState.Tick: the failure of the duration conversion to a 32-bit millisecond count is not modelled. Elapsed time and thresholds are unbounded. Wrap-around of the 32-bit tick counter is not modelled either. The same holds for Push.
- The test clock's atomic counter `NOW` is not modelled. The scenario methods advance a local `now` exactly as the test's `tick()` and `tick_n(8)` advance the counter.
- Trait objects, const-generic array sizes, `as_dyn` and `'static` references are not modelled. The model uses sequences and state indices instead.
- The name-based equality and the `Debug` output of states are diagnostics. The model compares states by index and keeps each name as data only.
- The `bitflags!` macro is not modelled beyond the insert and remove semantics of the two flags.
