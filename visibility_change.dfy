/** The page-visibility listener registry: a module-level list of callbacks that is
    appended to, filtered, and called in order whenever the page's visibility changes. */
module VisibilityChange {
  import opened Seqs

  /** The calls a change makes: every listener, in list order, with the same flag. */
  function Broadcast<L>(ls: seq<L>, hidden: bool): (r: seq<(L, bool)>)
    ensures |r| == |ls|
    ensures forall i | 0 <= i < |ls| :: r[i] == (ls[i], hidden)
  {
    if ls == [] then [] else [(ls[0], hidden)] + Broadcast(ls[1..], hidden)
  }

  /** A listener registered n times is called n times per change, and nothing else is
      called. */
  lemma BroadcastCounts<L>(ls: seq<L>, hidden: bool, f: L)
    ensures multiset(Broadcast(ls, hidden))[(f, hidden)] == multiset(ls)[f]
    ensures multiset(Broadcast(ls, hidden))[(f, !hidden)] == 0
  {
    BroadcastCountsSame(ls, hidden, f);
    assert (f, !hidden) !in Broadcast(ls, hidden);
  }

  lemma {:induction false} BroadcastCountsSame<L>(ls: seq<L>, hidden: bool, f: L)
    ensures multiset(Broadcast(ls, hidden))[(f, hidden)] == multiset(ls)[f]
  {
    if ls != [] {
      BroadcastCountsSame(ls[1..], hidden, f);
      assert ls == [ls[0]] + ls[1..];
      var rest := Broadcast(ls[1..], hidden);
      assert Broadcast(ls, hidden) == [(ls[0], hidden)] + rest;
      assert multiset(Broadcast(ls, hidden))[(f, hidden)] == multiset{(ls[0], hidden)}[(f, hidden)] + multiset(rest)[(f, hidden)];
      assert multiset(ls)[f] == multiset{ls[0]}[f] + multiset(ls[1..])[f];
    }
  }

  /** Broadcasting to one more listener of a list adds one call at the end. */
  lemma BroadcastExtend<L>(ls: seq<L>, i: nat, hidden: bool)
    requires i < |ls|
    ensures Broadcast(ls[..i + 1], hidden) == Broadcast(ls[..i], hidden) + [(ls[i], hidden)]
  {
    assert ls[..i + 1][i] == ls[i];
  }

  /** Removing a listener right after adding it leaves the list as a plain removal
      would: every occurrence goes, the older ones too. */
  lemma RemoveUndoesAdd<L>(ls: seq<L>, f: L)
    ensures Without(ls + [f], f) == Without(ls, f)
  {
    WithoutAppend(ls, [f], f);
  }

  /** The registry. `delivered` records the listener calls made so far, in order; the
      current visibility is read by the caller and passed in as `hidden`. */
  class Registry<L(==)> {
    var listeners: seq<L>
    var delivered: seq<(L, bool)>

    constructor ()
      ensures listeners == [] && delivered == []
    {
      listeners := [];
      delivered := [];
    }

    /** `addVisibilityListener(f)`: appended, even when already present. */
    method Add(f: L)
      modifies this
      ensures listeners == old(listeners) + [f]
      ensures delivered == old(delivered)
    {
      listeners := listeners + [f];
    }

    /** `removeVisibilityListener(f)`: every occurrence removed, the rest in order. */
    method Remove(f: L)
      modifies this
      ensures listeners == Without(old(listeners), f)
      ensures f !in listeners && IsSubsequence(listeners, old(listeners))
      ensures multiset(listeners) == multiset(old(listeners))[f := 0]
      ensures f !in old(listeners) ==> listeners == old(listeners)
      ensures delivered == old(delivered)
    {
      WithoutKeepsOrder(listeners, f);
      WithoutCounts(listeners, f);
      if f !in listeners {
        WithoutAbsent(listeners, f);
      }
      listeners := Without(listeners, f);
    }

    /** `handleVisibilityChange()` with the document's `hidden` flag. */
    method HandleChange(hidden: bool)
      modifies this
      ensures listeners == old(listeners)
      ensures delivered == old(delivered) + Broadcast(listeners, hidden)
    {
      var ls := listeners;
      var i := 0;
      while i < |ls|
        invariant 0 <= i <= |ls|
        invariant listeners == ls == old(listeners)
        invariant delivered == old(delivered) + Broadcast(ls[..i], hidden)
      {
        BroadcastExtend(ls, i, hidden);
        delivered := delivered + [(ls[i], hidden)];
        i := i + 1;
      }
      assert ls[..i] == ls;
    }
  }
}
