/** The engine: a static table of states, the first-match scan over the
    current state's transitions, and the mutable global state that `tick` and
    `push` update. */
module Engine {
  import opened Events
  import opened Conditions

  /** A state: a name for diagnostics and its transitions in priority order. */
  datatype State = State(name: string, transitions: seq<Transition>)

  /** The static key map. States are referred to by their index. */
  type Table = seq<State>

  /** Every transition targets a state of the table. */
  ghost predicate WellFormed(table: Table)
  {
    forall s, k :: 0 <= s < |table| && 0 <= k < |table[s].transitions| ==>
      table[s].transitions[k].target < |table|
  }

  /** Transition `k` fires and none before it does. */
  ghost predicate IsFirstMatch(ts: seq<Transition>, elapsed: Millis, input: Option<InputEvent>, k: nat)
  {
    k < |ts| && Evaluate(ts[k], elapsed, input).Some?
    && forall j :: 0 <= j < k ==> Evaluate(ts[j], elapsed, input).None?
  }

  /** The index of the first transition at or after `from` that fires. */
  function FirstMatchFrom(ts: seq<Transition>, from: nat, elapsed: Millis, input: Option<InputEvent>): (r: Option<nat>)
    requires from <= |ts|
    ensures r.Some? ==> from <= r.value < |ts| && Evaluate(ts[r.value], elapsed, input).Some?
    ensures r.Some? ==> forall j :: from <= j < r.value ==> Evaluate(ts[j], elapsed, input).None?
    ensures r.None? ==> forall j :: from <= j < |ts| ==> Evaluate(ts[j], elapsed, input).None?
    decreases |ts| - from
  {
    if from == |ts| then None
    else if Evaluate(ts[from], elapsed, input).Some? then Some(from)
    else FirstMatchFrom(ts, from + 1, elapsed, input)
  }

  /** The first transition of the list that fires, if any. */
  function FirstMatch(ts: seq<Transition>, elapsed: Millis, input: Option<InputEvent>): (r: Option<nat>)
    ensures r.Some? ==> IsFirstMatch(ts, elapsed, input, r.value)
    ensures r.None? ==> forall j :: 0 <= j < |ts| ==> Evaluate(ts[j], elapsed, input).None?
  {
    FirstMatchFrom(ts, 0, elapsed, input)
  }

  /** FirstMatch picks the lowest-indexed firing transition, and finds none
      only when none fires. */
  lemma FirstMatchIsLowest(ts: seq<Transition>, elapsed: Millis, input: Option<InputEvent>)
    ensures forall k: nat :: FirstMatch(ts, elapsed, input) == Some(k) <==> IsFirstMatch(ts, elapsed, input, k)
    ensures FirstMatch(ts, elapsed, input).None? <==>
              forall j :: 0 <= j < |ts| ==> Evaluate(ts[j], elapsed, input).None?
  {
  }

  /** When transitions `j < k` both fire, `k` is never the one chosen, and
      the chosen one is at or before `j`. */
  lemma FirstMatchPriority(ts: seq<Transition>, elapsed: Millis, input: Option<InputEvent>, j: nat, k: nat)
    requires j < k < |ts|
    requires Evaluate(ts[j], elapsed, input).Some? && Evaluate(ts[k], elapsed, input).Some?
    ensures FirstMatch(ts, elapsed, input).Some?
    ensures FirstMatch(ts, elapsed, input).value <= j
  {
  }

  /** The observable part of the engine. */
  datatype Snapshot = Snapshot(flags: Flags, enteredState: nat, currentState: nat)

  /** The engine after one evaluation, and the key events it returns. */
  datatype Outcome = Outcome(next: Snapshot, keys: seq<KeyEvent>)

  /** One evaluation of the engine at time `now` with optional input: the
      first firing transition of the current state is committed, otherwise
      nothing changes and nothing is emitted. */
  function Step(table: Table, s: Snapshot, now: nat, input: Option<InputEvent>): (r: Outcome)
    requires WellFormed(table) && s.currentState < |table| && s.enteredState <= now
    ensures r.next.currentState < |table|
    ensures r.next.enteredState <= now
  {
    var ts := table[s.currentState].transitions;
    match FirstMatch(ts, now - s.enteredState, input)
    case None => Outcome(s, [])
    case Some(k) =>
      Outcome(Snapshot(Fold(s.flags, ts[k].internalEmissions), now, ts[k].target), ts[k].keyEmissions)
  }

  /** With no firing transition the step is a no-op with empty output. */
  lemma NoMatchIsNoOp(table: Table, s: Snapshot, now: nat, input: Option<InputEvent>)
    requires WellFormed(table) && s.currentState < |table| && s.enteredState <= now
    requires forall j :: 0 <= j < |table[s.currentState].transitions| ==>
               Evaluate(table[s.currentState].transitions[j], now - s.enteredState, input).None?
    ensures Step(table, s, now, input) == Outcome(s, [])
  {
  }

  /** When transition `k` is the first to fire, the step returns exactly its
      key emissions, moves to its target, restarts the state clock at `now`
      and folds its internal events into the flags. */
  lemma CommitEffects(table: Table, s: Snapshot, now: nat, input: Option<InputEvent>, k: nat)
    requires WellFormed(table) && s.currentState < |table| && s.enteredState <= now
    requires IsFirstMatch(table[s.currentState].transitions, now - s.enteredState, input, k)
    ensures var t := table[s.currentState].transitions[k];
            Step(table, s, now, input) ==
              Outcome(Snapshot(Fold(s.flags, t.internalEmissions), now, t.target), t.keyEmissions)
  {
  }

  /** After a step that fires at `now`, the new state was entered at `now`,
      so a following evaluation at the same `now`, whatever its input, scans
      the new state's transitions at zero elapsed time. */
  lemma ElapsedResets(table: Table, s: Snapshot, now: nat, input: Option<InputEvent>, following: Option<InputEvent>)
    requires WellFormed(table) && s.currentState < |table| && s.enteredState <= now
    requires FirstMatch(table[s.currentState].transitions, now - s.enteredState, input).Some?
    ensures Step(table, s, now, input).next.enteredState == now
    ensures var s' := Step(table, s, now, input).next;
            var ts' := table[s'.currentState].transitions;
            var m := FirstMatch(ts', 0, following);
            && (m.None? ==> Step(table, s', now, following) == Outcome(s', []))
            && (m.Some? ==>
                  Step(table, s', now, following) ==
                  Outcome(Snapshot(Fold(s'.flags, ts'[m.value].internalEmissions), now, ts'[m.value].target),
                          ts'[m.value].keyEmissions))
  {
  }

  /** A tick is a push of nothing: transitions with a key condition are
      skipped, so the tick fires the first transition whose conditions are
      all time conditions and hold. */
  lemma TickSkipsKeyTransitions(table: Table, s: Snapshot, now: nat, k: nat)
    requires WellFormed(table) && s.currentState < |table| && s.enteredState <= now
    requires FirstMatch(table[s.currentState].transitions, now - s.enteredState, None) == Some(k)
    ensures forall c :: c in table[s.currentState].transitions[k].conditions ==>
              c.ElapsedLess? || c.ElapsedGreater?
  {
  }

  /** Scan the transitions in order and return the index of the first one
      that fires (the iterator chain `flat_map(evaluate).next()`). */
  method FindFirstMatch(ts: seq<Transition>, elapsed: Millis, input: Option<InputEvent>) returns (r: Option<nat>)
    ensures r.Some? ==> IsFirstMatch(ts, elapsed, input, r.value)
    ensures r.None? ==> forall j :: 0 <= j < |ts| ==> Evaluate(ts[j], elapsed, input).None?
    ensures r == FirstMatch(ts, elapsed, input)
  {
    var i := 0;
    while i < |ts|
      invariant 0 <= i <= |ts|
      invariant forall j :: 0 <= j < i ==> Evaluate(ts[j], elapsed, input).None?
    {
      if Evaluate(ts[i], elapsed, input).Some? {
        FirstMatchIsLowest(ts, elapsed, input);
        return Some(i);
      }
      i := i + 1;
    }
    FirstMatchIsLowest(ts, elapsed, input);
    return None;
  }

  /** The engine's mutable state: the sticky flags, the time the current state
      was entered, and the current state, over a fixed table. */
  class GlobalState {
    const table: Table
    var flags: Flags
    var enteredState: nat
    var currentState: nat

    ghost predicate Valid()
      reads this
    {
      WellFormed(table) && currentState < |table|
    }

    function Snap(): Snapshot
      reads this
    {
      Snapshot(flags, enteredState, currentState)
    }

    constructor (table: Table, initial: nat, flags: Flags, now: nat)
      requires WellFormed(table) && initial < |table|
      ensures Valid() && this.table == table
      ensures Snap() == Snapshot(flags, now, initial)
    {
      this.table := table;
      this.flags := flags;
      this.enteredState := now;
      this.currentState := initial;
    }

    /** Evaluate the current state with no input event. */
    method Tick(now: nat) returns (keys: seq<KeyEvent>)
      requires Valid() && enteredState <= now
      modifies this
      ensures Valid()
      ensures Snap() == Step(table, old(Snap()), now, None).next
      ensures keys == Step(table, old(Snap()), now, None).keys
    {
      var elapsed := now - enteredState;
      var ts := table[currentState].transitions;
      var found := FindFirstMatch(ts, elapsed, None);
      if found.Some? {
        var t := ts[found.value];
        DoTransition(t.internalEmissions, t.target, now);
        return t.keyEmissions;
      }
      return [];
    }

    /** Evaluate the current state with the input event `event`. */
    method Push(now: nat, event: InputEvent) returns (keys: seq<KeyEvent>)
      requires Valid() && enteredState <= now
      modifies this
      ensures Valid()
      ensures Snap() == Step(table, old(Snap()), now, Some(event)).next
      ensures keys == Step(table, old(Snap()), now, Some(event)).keys
    {
      var elapsed := now - enteredState;
      var ts := table[currentState].transitions;
      var found := FindFirstMatch(ts, elapsed, Some(event));
      if found.Some? {
        var t := ts[found.value];
        DoTransition(t.internalEmissions, t.target, now);
        return t.keyEmissions;
      }
      return [];
    }

    /** Apply the internal events in order, then switch state and restart
      the state clock. */
    method DoTransition(internals: seq<InternalEvent>, next: nat, now: nat)
      requires Valid() && next < |table|
      modifies this
      ensures Valid()
      ensures Snap() == Snapshot(Fold(old(flags), internals), now, next)
    {
      for i := 0 to |internals|
        invariant flags == Fold(old(flags), internals[..i])
        invariant Valid()
      {
        assert internals[..i + 1][..i] == internals[..i];
        Apply(internals[i]);
      }
      assert internals[..|internals|] == internals;
      currentState := next;
      enteredState := now;
    }

    /** One internal event: set inserts its mask, unset removes it. */
    method Apply(e: InternalEvent)
      modifies this`flags
      ensures flags == ApplyEvent(old(flags), e)
    {
      match e
      case SetGlobalState(m) => flags := flags + m;
      case UnsetGlobalState(m) => flags := flags - m;
    }
  }
}
