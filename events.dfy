/** The event alphabets of the keyboard state machine and the sticky flag set
    that internal events update. */
module Events {

  datatype Option<+T> = None | Some(value: T)

  /** A key identifier, an unsigned byte. */
  type KeyCode = k: nat | k < 256

  /** An already-debounced physical transition handed to `push`. */
  datatype InputEvent = Press(key: KeyCode) | Depress(key: KeyCode)

  /** A logical output event for the host, in emission order. */
  datatype KeyEvent = Press(key: KeyCode) | Depress(key: KeyCode)

  /** The two sticky modifier bits (CTRL = 0b01, SHFT = 0b10). A flag set is
      a `set<Flag>`: the bit set can hold nothing but these two bits. */
  datatype Flag = Ctrl | Shft

  type Flags = set<Flag>

  /** An instruction applied to the flag set when a transition commits. */
  datatype InternalEvent =
    | SetGlobalState(mask: Flags)
    | UnsetGlobalState(mask: Flags)

  /** The flag set after one internal event: `SetGlobalState` inserts the bits
      of its mask, `UnsetGlobalState` removes them. */
  function ApplyEvent(f: Flags, e: InternalEvent): (r: Flags)
    ensures e.SetGlobalState? ==> e.mask <= r && f <= r
    ensures e.UnsetGlobalState? ==> r !! e.mask && r <= f
    ensures forall fl :: fl !in e.mask ==> (fl in r <==> fl in f)
  {
    match e
    case SetGlobalState(m) => f + m
    case UnsetGlobalState(m) => f - m
  }

  /** The flag set after a list of internal events applied in listed order
      (a left fold of ApplyEvent, written by its last step). */
  function Fold(f: Flags, es: seq<InternalEvent>): (r: Flags)
    ensures forall fl :: (forall j :: 0 <= j < |es| ==> fl !in es[j].mask) ==> (fl in r <==> fl in f)
    ensures |es| > 0 && es[|es| - 1].SetGlobalState? ==> es[|es| - 1].mask <= r
    ensures |es| > 0 && es[|es| - 1].UnsetGlobalState? ==> r !! es[|es| - 1].mask
  {
    if |es| == 0 then f else ApplyEvent(Fold(f, es[..|es| - 1]), es[|es| - 1])
  }

  /** A one-event list folds to that event's effect. */
  lemma FoldSingle(f: Flags, e: InternalEvent)
    ensures Fold(f, [e]) == ApplyEvent(f, e)
  {
    assert [e][..0] == [];
  }

  /** No event of `es` from index `from` on mentions `fl`. */
  ghost predicate Untouched(es: seq<InternalEvent>, fl: Flag, from: nat)
  {
    forall j :: from <= j < |es| ==> fl !in es[j].mask
  }

  /** Event `i` sets `fl` and no later event mentions it. */
  ghost predicate LastSetAt(es: seq<InternalEvent>, fl: Flag, i: nat)
  {
    i < |es| && fl in es[i].mask && es[i].SetGlobalState? && Untouched(es, fl, i + 1)
  }

  /** Independent reading of "last write per bit wins": a flag is set after
      the events iff the last event whose mask mentions it is a set, or no
      event mentions it and it was set before. */
  ghost predicate LastWriteSets(f: Flags, es: seq<InternalEvent>, fl: Flag)
  {
    (exists i: nat :: LastSetAt(es, fl, i)) || (fl in f && Untouched(es, fl, 0))
  }

  /** When the last event's mask does not mention `fl`, the question is
      decided by the events before it. */
  lemma LastWriteSetsSkip(f: Flags, es: seq<InternalEvent>, fl: Flag)
    requires |es| > 0 && fl !in es[|es| - 1].mask
    ensures LastWriteSets(f, es, fl) <==> LastWriteSets(f, es[..|es| - 1], fl)
  {
    var n := |es| - 1;
    var pre := es[..n];
    forall k: nat | k <= n ensures Untouched(es, fl, k) <==> Untouched(pre, fl, k) {
      assert forall j :: k <= j < n ==> pre[j] == es[j];
    }
    forall i: nat ensures LastSetAt(es, fl, i) <==> LastSetAt(pre, fl, i) {
      if i < n {
        assert pre[i] == es[i];
      }
    }
  }

  /** When the last event's mask mentions `fl`, that event alone decides. */
  lemma LastWriteSetsHit(f: Flags, es: seq<InternalEvent>, fl: Flag)
    requires |es| > 0 && fl in es[|es| - 1].mask
    ensures LastWriteSets(f, es, fl) <==> es[|es| - 1].SetGlobalState?
  {
    var n := |es| - 1;
    assert !Untouched(es, fl, 0);
    forall i: nat | i < n ensures !LastSetAt(es, fl, i) {
      assert !Untouched(es, fl, i + 1) by { assert fl in es[n].mask; }
    }
    if es[n].SetGlobalState? {
      assert LastSetAt(es, fl, n);
    }
  }

  lemma {:induction false} FoldLastWriteWins(f: Flags, es: seq<InternalEvent>, fl: Flag)
    ensures fl in Fold(f, es) <==> LastWriteSets(f, es, fl)
    decreases |es|
  {
    if |es| > 0 {
      var n := |es| - 1;
      FoldLastWriteWins(f, es[..n], fl);
      if fl in es[n].mask {
        LastWriteSetsHit(f, es, fl);
      } else {
        LastWriteSetsSkip(f, es, fl);
      }
    }
  }

  /** Setting bits that are already set, or clearing bits that are already
      clear, changes nothing. */
  lemma ApplyIdempotent(f: Flags, e: InternalEvent)
    ensures ApplyEvent(ApplyEvent(f, e), e) == ApplyEvent(f, e)
    ensures e.SetGlobalState? && e.mask <= f ==> ApplyEvent(f, e) == f
    ensures e.UnsetGlobalState? && e.mask !! f ==> ApplyEvent(f, e) == f
  {
  }

  /** Unsetting a mask after setting it clears exactly that mask, whatever it
      held before; the order of a Set/Unset pair on the same bits decides. */
  lemma {:induction false} SetThenUnset(f: Flags, m: Flags)
    ensures Fold(f, [SetGlobalState(m), UnsetGlobalState(m)]) == f - m
    ensures Fold(f, [UnsetGlobalState(m), SetGlobalState(m)]) == f + m
  {
    var es := [SetGlobalState(m), UnsetGlobalState(m)];
    assert es[..1][..0] == [];
    assert Fold(f, es[..1]) == f + m;
    assert (f + m) - m == f - m;
    var es2 := [UnsetGlobalState(m), SetGlobalState(m)];
    assert es2[..1][..0] == [];
    assert Fold(f, es2[..1]) == f - m;
    assert (f - m) + m == f + m;
  }
}
