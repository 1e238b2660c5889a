/** Transition conditions and the evaluation of one transition. Both are pure:
    they read the elapsed time in the current state and the optional input
    event, and nothing else (in particular, no condition reads the flags). */
module Conditions {
  import opened Events

  /** Time spans are whole milliseconds. */
  type Millis = nat

  datatype Condition =
    | Pressed(key: KeyCode)
    | Depressed(key: KeyCode)
    | ElapsedLess(limit: Millis)
    /** Despite its name, the closed boundary: elapsed >= limit. */
    | ElapsedGreater(limit: Millis)

  /** Whether one condition holds for the given elapsed time and input. A key
      condition needs an input event of its own kind for its own key, so on a
      tick only time conditions can hold; at elapsed equal to the threshold
      ElapsedGreater holds and ElapsedLess does not. */
  predicate Holds(c: Condition, elapsed: Millis, input: Option<InputEvent>)
    ensures Holds(c, elapsed, input) && (c.Pressed? || c.Depressed?) ==>
              input.Some? && input.value.key == c.key && (c.Pressed? <==> input.value.Press?)
    ensures Holds(c, elapsed, input) && input.None? ==> c.ElapsedLess? || c.ElapsedGreater?
    ensures c.ElapsedGreater? && elapsed == c.limit ==> Holds(c, elapsed, input)
    ensures c.ElapsedLess? && elapsed == c.limit ==> !Holds(c, elapsed, input)
  {
    match c
    case Pressed(x) => input == Some(InputEvent.Press(x))
    case Depressed(x) => input == Some(InputEvent.Depress(x))
    case ElapsedLess(x) => elapsed < x
    case ElapsedGreater(x) => elapsed >= x
  }

  /** With no input (a tick) a key condition never holds, and Pressed and
      Depressed of one key never hold together. */
  lemma InputConditions(x: KeyCode, elapsed: Millis, input: Option<InputEvent>)
    ensures !Holds(Pressed(x), elapsed, None) && !Holds(Depressed(x), elapsed, None)
    ensures !(Holds(Pressed(x), elapsed, input) && Holds(Depressed(x), elapsed, input))
  {
  }

  /** For one threshold, ElapsedLess and ElapsedGreater are never both true and
      never both false; at elapsed exactly equal to the threshold only
      ElapsedGreater holds. */
  lemma TimePartition(x: Millis, elapsed: Millis, input: Option<InputEvent>, other: Option<InputEvent>)
    ensures Holds(ElapsedLess(x), elapsed, input) != Holds(ElapsedGreater(x), elapsed, input)
    ensures Holds(ElapsedGreater(x), x, input) && !Holds(ElapsedLess(x), x, input)
    ensures Holds(ElapsedLess(x), elapsed, input) == Holds(ElapsedLess(x), elapsed, other)
    ensures Holds(ElapsedGreater(x), elapsed, input) == Holds(ElapsedGreater(x), elapsed, other)
  {
  }

  /** A transition: an AND of conditions, the key events it emits, the
      internal events it applies, and the index of its target state. */
  datatype Transition = Transition(
    conditions: seq<Condition>,
    keyEmissions: seq<KeyEvent>,
    internalEmissions: seq<InternalEvent>,
    target: nat)

  /** What a firing transition hands back to the engine. */
  datatype Firing = Firing(keys: seq<KeyEvent>, internals: seq<InternalEvent>, target: nat)

  /** The short-circuiting `all` over a condition list, first to last: true
      iff every condition in the list holds. */
  predicate AllHold(cs: seq<Condition>, elapsed: Millis, input: Option<InputEvent>)
    ensures AllHold(cs, elapsed, input) <==> forall i :: 0 <= i < |cs| ==> Holds(cs[i], elapsed, input)
  {
    assert forall i :: 1 <= i < |cs| ==> cs[i] == cs[1..][i - 1];
    |cs| == 0 || (Holds(cs[0], elapsed, input) && AllHold(cs[1..], elapsed, input))
  }

  /** Evaluate one transition: it fires, yielding its emissions and target,
      exactly when every one of its conditions holds. */
  function Evaluate(t: Transition, elapsed: Millis, input: Option<InputEvent>): (r: Option<Firing>)
    ensures r.Some? <==> forall i :: 0 <= i < |t.conditions| ==> Holds(t.conditions[i], elapsed, input)
    ensures r.Some? ==> r.value == Firing(t.keyEmissions, t.internalEmissions, t.target)
  {
    if AllHold(t.conditions, elapsed, input) then
      Some(Firing(t.keyEmissions, t.internalEmissions, t.target))
    else
      None
  }

  /** A transition with no conditions always fires. */
  lemma EmptyConditionsFire(t: Transition, elapsed: Millis, input: Option<InputEvent>)
    requires |t.conditions| == 0
    ensures Evaluate(t, elapsed, input) == Some(Firing(t.keyEmissions, t.internalEmissions, t.target))
  {
  }

  /** On a tick (no input) a transition that has a key condition never fires. */
  lemma KeyConditionBlocksTick(t: Transition, elapsed: Millis, k: nat)
    requires k < |t.conditions| && (t.conditions[k].Pressed? || t.conditions[k].Depressed?)
    ensures Evaluate(t, elapsed, None) == None
  {
  }
}
