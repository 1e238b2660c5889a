/** The two key maps of the engine's own tests, `basic` and `mod_tap`, with
    the traces those tests expect proved as lemmas about single steps and as
    methods that drive a GlobalState through the tests' loops. */
module Scenarios {
  import opened Events
  import opened Conditions
  import opened Engine

  /** `n` copies of `s`, one after the other. */
  function Repeat<T>(s: seq<T>, n: nat): seq<T>
  {
    if n == 0 then [] else Repeat(s, n - 1) + s
  }

  // ---------------------------------------------------------------- basic

  const A: nat := 0
  const B: nat := 1

  /** A: Press(0) emits Press(0) and goes to B; B: Depress(0) emits
      Depress(0) and goes back to A. */
  function BasicTable(): (table: Table)
    ensures WellFormed(table) && |table| == 2
  {
    [ State("A", [Transition([Pressed(0)], [KeyEvent.Press(0)], [], B)]),
      State("B", [Transition([Depressed(0)], [KeyEvent.Depress(0)], [], A)]) ]
  }

  lemma BasicPress(f: Flags, entered: nat, now: nat)
    requires entered <= now
    ensures Step(BasicTable(), Snapshot(f, entered, A), now, Some(InputEvent.Press(0)))
            == Outcome(Snapshot(f, now, B), [KeyEvent.Press(0)])
  {
  }

  lemma BasicDepress(f: Flags, entered: nat, now: nat)
    requires entered <= now
    ensures Step(BasicTable(), Snapshot(f, entered, B), now, Some(InputEvent.Depress(0)))
            == Outcome(Snapshot(f, now, A), [KeyEvent.Depress(0)])
  {
  }

  /** The `basic` test: starting in A at time `now`, ten rounds of
      push(Press(0)) then push(Depress(0)), all at `now`, return
      [Press(0)] and [Depress(0)] in turn. */
  method BasicScenario(now: nat) returns (trace: seq<seq<KeyEvent>>)
    ensures trace == Repeat([[KeyEvent.Press(0)], [KeyEvent.Depress(0)]], 10)
  {
    var state := new GlobalState(BasicTable(), A, {}, now);
    trace := [];
    for round := 0 to 10
      invariant state.Valid() && state.table == BasicTable()
      invariant state.Snap() == Snapshot({}, now, A)
      invariant trace == Repeat([[KeyEvent.Press(0)], [KeyEvent.Depress(0)]], round)
    {
      BasicPress({}, now, now);
      var s := state.Push(now, InputEvent.Press(0));
      assert s == [KeyEvent.Press(0)];
      BasicDepress({}, now, now);
      var s' := state.Push(now, InputEvent.Depress(0));
      assert s' == [KeyEvent.Depress(0)];
      trace := trace + [s, s'];
    }
  }

  // -------------------------------------------------------------- mod_tap

  const Root: nat := 0
  const Mod: nat := 1
  const ModHold: nat := 2

  /** The mod-tap threshold, in milliseconds. */
  const TapLimit: Millis := 5

  /** ROOT: Press(0) goes to MOD silently. MOD, in priority order: a Depress(0)
      within the limit taps key 0; a Press(1) commits to shift-hold and taps
      key 1; reaching the limit commits to shift-hold. MOD_HOLD: Depress(0)
      releases key 2 and clears SHFT; Press(1) taps key 1. */
  function ModTapTable(): (table: Table)
    ensures WellFormed(table) && |table| == 3
  {
    [ State("ROOT", [Transition([Pressed(0)], [], [], Mod)]),
      State("MOD", [
        Transition([Depressed(0), ElapsedLess(TapLimit)],
                   [KeyEvent.Press(0), KeyEvent.Depress(0)], [], Root),
        Transition([Pressed(1)],
                   [KeyEvent.Press(2), KeyEvent.Press(1), KeyEvent.Depress(1)],
                   [SetGlobalState({Shft})], ModHold),
        Transition([ElapsedGreater(TapLimit)],
                   [KeyEvent.Press(2)], [SetGlobalState({Shft})], ModHold)]),
      State("MOD_HOLD", [
        Transition([Depressed(0)], [KeyEvent.Depress(2)], [UnsetGlobalState({Shft})], Root),
        Transition([Pressed(1)], [KeyEvent.Press(1), KeyEvent.Depress(1)], [], ModHold)]) ]
  }

  lemma RootPress(f: Flags, entered: nat, now: nat)
    requires entered <= now
    ensures Step(ModTapTable(), Snapshot(f, entered, Root), now, Some(InputEvent.Press(0)))
            == Outcome(Snapshot(f, now, Mod), [])
  {
  }

  /** A Depress(0) less than 5ms after entering MOD is a tap: it emits
      Press(0), Depress(0) and returns to ROOT. */
  lemma ModTap(f: Flags, entered: nat, now: nat)
    requires entered <= now < entered + TapLimit
    ensures Step(ModTapTable(), Snapshot(f, entered, Mod), now, Some(InputEvent.Depress(0)))
            == Outcome(Snapshot(f, now, Root), [KeyEvent.Press(0), KeyEvent.Depress(0)])
  {
  }

  /** Before 5ms a bare tick in MOD does nothing. */
  lemma ModWaits(f: Flags, entered: nat, now: nat)
    requires entered <= now < entered + TapLimit
    ensures Step(ModTapTable(), Snapshot(f, entered, Mod), now, None)
            == Outcome(Snapshot(f, entered, Mod), [])
  {
  }

  /** A bare tick at 5ms or later in MOD is a hold: it emits Press(2), sets
      SHFT and moves to MOD_HOLD. */
  lemma ModHoldByTick(f: Flags, entered: nat, now: nat)
    requires entered + TapLimit <= now
    ensures Step(ModTapTable(), Snapshot(f, entered, Mod), now, None)
            == Outcome(Snapshot(f + {Shft}, now, ModHold), [KeyEvent.Press(2)])
  {
    var ts := ModTapTable()[Mod].transitions;
    assert Evaluate(ts[0], now - entered, None).None?;
    assert Evaluate(ts[1], now - entered, None).None?;
    assert Evaluate(ts[2], now - entered, None).Some?;
    CommitEffects(ModTapTable(), Snapshot(f, entered, Mod), now, None, 2);
    FoldSingle(f, SetGlobalState({Shft}));
  }

  /** In MOD, pressing key 1 commits to the hold at once: it emits Press(2),
      Press(1), Depress(1), sets SHFT and moves to MOD_HOLD. */
  lemma ModOtherKey(f: Flags, entered: nat, now: nat)
    requires entered <= now
    ensures Step(ModTapTable(), Snapshot(f, entered, Mod), now, Some(InputEvent.Press(1)))
            == Outcome(Snapshot(f + {Shft}, now, ModHold),
                       [KeyEvent.Press(2), KeyEvent.Press(1), KeyEvent.Depress(1)])
  {
    var ts := ModTapTable()[Mod].transitions;
    assert Evaluate(ts[0], now - entered, Some(InputEvent.Press(1))).None?;
    assert Evaluate(ts[1], now - entered, Some(InputEvent.Press(1))).Some?;
    CommitEffects(ModTapTable(), Snapshot(f, entered, Mod), now, Some(InputEvent.Press(1)), 1);
    FoldSingle(f, SetGlobalState({Shft}));
  }

  /** In MOD_HOLD, pressing key 1 taps it and stays in MOD_HOLD. */
  lemma HoldOtherKey(f: Flags, entered: nat, now: nat)
    requires entered <= now
    ensures Step(ModTapTable(), Snapshot(f, entered, ModHold), now, Some(InputEvent.Press(1)))
            == Outcome(Snapshot(f, now, ModHold), [KeyEvent.Press(1), KeyEvent.Depress(1)])
  {
    var ts := ModTapTable()[ModHold].transitions;
    assert Evaluate(ts[0], now - entered, Some(InputEvent.Press(1))).None?;
    assert Evaluate(ts[1], now - entered, Some(InputEvent.Press(1))).Some?;
    CommitEffects(ModTapTable(), Snapshot(f, entered, ModHold), now, Some(InputEvent.Press(1)), 1);
    assert Fold(f, []) == f;
  }

  /** In MOD_HOLD, releasing key 0 emits Depress(2), clears SHFT and returns
      to ROOT; from flags {SHFT} the flags end empty. */
  lemma HoldRelease(f: Flags, entered: nat, now: nat)
    requires entered <= now
    ensures Step(ModTapTable(), Snapshot(f, entered, ModHold), now, Some(InputEvent.Depress(0)))
            == Outcome(Snapshot(f - {Shft}, now, Root), [KeyEvent.Depress(2)])
    ensures f == {Shft} ==>
              Step(ModTapTable(), Snapshot(f, entered, ModHold), now, Some(InputEvent.Depress(0))).next.flags == {}
  {
    FoldSingle(f, UnsetGlobalState({Shft}));
  }

  /** What a test observes after one call: the returned key events, the
      current state and the flags. */
  datatype Observation = Observation(keys: seq<KeyEvent>, state: nat, flags: Flags)

  /** The ten observations of one round of the `mod_tap` test. */
  function ModTapRound(): seq<Observation>
  {
    [ Observation([], Mod, {}),
      Observation([KeyEvent.Press(0), KeyEvent.Depress(0)], Root, {}),
      Observation([], Mod, {}),
      Observation([KeyEvent.Press(2)], ModHold, {Shft}),
      Observation([KeyEvent.Press(1), KeyEvent.Depress(1)], ModHold, {Shft}),
      Observation([KeyEvent.Depress(2)], Root, {}),
      Observation([], Mod, {}),
      Observation([KeyEvent.Press(2), KeyEvent.Press(1), KeyEvent.Depress(1)], ModHold, {Shft}),
      Observation([KeyEvent.Press(1), KeyEvent.Depress(1)], ModHold, {Shft}),
      Observation([KeyEvent.Depress(2)], Root, {}) ]
  }

  /** The `mod_tap` test: from ROOT with empty flags at time `start`, ten
      rounds of the test's calls. */
  method ModTapScenario(start: nat) returns (trace: seq<Observation>)
    ensures trace == Repeat(ModTapRound(), 10)
  {
    var state := new GlobalState(ModTapTable(), Root, {}, start);
    var now := start;
    trace := [];
    for round := 0 to 10
      invariant state.Valid() && state.table == ModTapTable()
      invariant state.currentState == Root && state.flags == {} && state.enteredState <= now
      invariant trace == Repeat(ModTapRound(), round)
    {
      var tapped, timedOut, interrupted;
      tapped, now := TapSegment(state, now);
      timedOut, now := HoldByTimeoutSegment(state, now);
      interrupted, now := HoldByOtherKeySegment(state, now);
      assert tapped + timedOut + interrupted == ModTapRound();
      trace := trace + (tapped + timedOut + interrupted);
    }
  }

  /** Press key 0, then release it 1ms later: a tap. */
  method TapSegment(state: GlobalState, start: nat) returns (obs: seq<Observation>, now: nat)
    requires state.Valid() && state.table == ModTapTable()
    requires state.currentState == Root && state.flags == {} && state.enteredState <= start
    modifies state
    ensures state.Valid() && state.table == ModTapTable()
    ensures state.currentState == Root && state.flags == {} && state.enteredState <= now
    ensures obs == ModTapRound()[..2]
  {
    now := start;
    RootPress(state.flags, state.enteredState, now);
    var s := state.Push(now, InputEvent.Press(0));
    obs := [Observation(s, state.currentState, state.flags)];

    now := now + 1;
    ModTap(state.flags, state.enteredState, now);
    s := state.Push(now, InputEvent.Depress(0));
    obs := obs + [Observation(s, state.currentState, state.flags)];
  }

  /** Press key 0 and let 8ms pass: the tick commits to the hold. Then,
      1ms apart, tap key 1 and release key 0. */
  method HoldByTimeoutSegment(state: GlobalState, start: nat) returns (obs: seq<Observation>, now: nat)
    requires state.Valid() && state.table == ModTapTable()
    requires state.currentState == Root && state.flags == {} && state.enteredState <= start
    modifies state
    ensures state.Valid() && state.table == ModTapTable()
    ensures state.currentState == Root && state.flags == {} && state.enteredState <= now
    ensures obs == ModTapRound()[2..6]
  {
    now := start;
    RootPress(state.flags, state.enteredState, now);
    var s := state.Push(now, InputEvent.Press(0));
    obs := [Observation(s, state.currentState, state.flags)];

    now := now + 8;
    ModHoldByTick(state.flags, state.enteredState, now);
    s := state.Tick(now);
    assert state.flags == {Shft};
    obs := obs + [Observation(s, state.currentState, state.flags)];

    now := now + 1;
    HoldOtherKey(state.flags, state.enteredState, now);
    s := state.Push(now, InputEvent.Press(1));
    obs := obs + [Observation(s, state.currentState, state.flags)];

    now := now + 1;
    HoldRelease(state.flags, state.enteredState, now);
    s := state.Push(now, InputEvent.Depress(0));
    obs := obs + [Observation(s, state.currentState, state.flags)];
  }

  /** 1ms apart: press key 0, press key 1 (committing to the hold before the
      timeout), press key 1 again, release key 0. */
  method HoldByOtherKeySegment(state: GlobalState, start: nat) returns (obs: seq<Observation>, now: nat)
    requires state.Valid() && state.table == ModTapTable()
    requires state.currentState == Root && state.flags == {} && state.enteredState <= start
    modifies state
    ensures state.Valid() && state.table == ModTapTable()
    ensures state.currentState == Root && state.flags == {} && state.enteredState <= now
    ensures obs == ModTapRound()[6..]
  {
    now := start + 1;
    RootPress(state.flags, state.enteredState, now);
    var s := state.Push(now, InputEvent.Press(0));
    obs := [Observation(s, state.currentState, state.flags)];

    now := now + 1;
    ModOtherKey(state.flags, state.enteredState, now);
    s := state.Push(now, InputEvent.Press(1));
    assert state.flags == {Shft};
    obs := obs + [Observation(s, state.currentState, state.flags)];

    now := now + 1;
    HoldOtherKey(state.flags, state.enteredState, now);
    s := state.Push(now, InputEvent.Press(1));
    obs := obs + [Observation(s, state.currentState, state.flags)];

    now := now + 1;
    HoldRelease(state.flags, state.enteredState, now);
    s := state.Push(now, InputEvent.Depress(0));
    obs := obs + [Observation(s, state.currentState, state.flags)];
  }
}
