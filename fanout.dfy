/**
 * The façade's listener registries: ordered lists that allow duplicates and
 * null entries, where removal drops the first equal entry, and fan-out delivers
 * a notification to every registered listener in registration order until it
 * reaches a null entry.
 */
module Fanout {
  import opened Wrappers
  import opened Events

  /** An opaque listener identity (Java reference equality). */
  type ListenerId = nat

  /** A registry entry: `add` accepts null, which is None here. */
  type Entry = Option<ListenerId>

  /** One call of one listener with one notification. */
  datatype Delivery = Delivery(listener: ListenerId, note: Notification)

  /** ArrayList.remove(Object): drop the first entry equal to `x`, if any. */
  function RemoveFirst(s: seq<Entry>, x: Entry): (r: seq<Entry>)
    ensures x !in s ==> r == s
    ensures x in s ==> |r| == |s| - 1
    ensures multiset(r) == multiset(s) - multiset{x}
    decreases |s|
  {
    if s == [] then []
    else
      assert s == [s[0]] + s[1..];
      if s[0] == x then s[1..]
      else [s[0]] + RemoveFirst(s[1..], x)
  }

  /** Removal takes out exactly the first occurrence and keeps the order of the rest. */
  lemma {:induction false} RemoveFirstOccurrence(s: seq<Entry>, x: Entry, i: nat)
    requires i < |s| && s[i] == x && x !in s[..i]
    ensures RemoveFirst(s, x) == s[..i] + s[i + 1..]
    decreases i
  {
    if i == 0 {
      assert s[..0] + s[1..] == s[1..];
    } else {
      var t := s[1..];
      assert s[0] != x by { assert s[0] in s[..i]; }
      assert x !in t[..i - 1] by { assert t[..i - 1] == s[1..i]; }
      RemoveFirstOccurrence(t, x, i - 1);
      assert RemoveFirst(s, x) == [s[0]] + RemoveFirst(t, x);
      SplitAfterHead(s, i);
    }
  }

  /** Cutting out entry i of a sequence is keeping its head and cutting entry i - 1 of its tail. */
  lemma SplitAfterHead(s: seq<Entry>, i: nat)
    requires 0 < i < |s|
    ensures s[..i] + s[i + 1..] == [s[0]] + (s[1..][..i - 1] + s[1..][i..])
  {
    assert s[..i] == [s[0]] + s[1..][..i - 1];
    assert s[i + 1..] == s[1..][i..];
  }

  /** Adding a listener not yet registered and removing it again restores the registry. */
  lemma AddThenRemove(s: seq<Entry>, x: Entry)
    requires x !in s
    ensures RemoveFirst(s + [x], x) == s
  {
    assert (s + [x])[..|s|] == s;
    RemoveFirstOccurrence(s + [x], x, |s|);
    assert (s + [x])[|s| + 1..] == [];
  }

  /** Adding a listener registered already and removing it takes out the older entry. */
  lemma {:induction false} AddDuplicateThenRemove(s: seq<Entry>, x: Entry)
    requires x in s
    ensures RemoveFirst(s + [x], x) == RemoveFirst(s, x) + [x]
    decreases |s|
  {
    if s[0] != x {
      AddDuplicateThenRemove(s[1..], x);
      assert (s + [x])[1..] == s[1..] + [x];
    } else {
      assert (s + [x])[1..] == s[1..] + [x];
    }
  }

  /**
   * Fan-out with a for-each loop: one delivery per entry, in registration order,
   * up to the first null entry, where the call throws NullPointerException.
   */
  function Deliveries(ls: seq<Entry>, n: Notification): (r: seq<Delivery>)
    ensures |r| <= |ls|
    ensures forall i :: 0 <= i < |r| ==> ls[i].Some? && r[i] == Delivery(ls[i].value, n)
    ensures None in ls ==> ls[|r|] == None
    ensures None !in ls ==> |r| == |ls|
    decreases |ls|
  {
    if ls == [] then []
    else if ls[0].None? then []
    else
      assert ls == [ls[0]] + ls[1..];
      [Delivery(ls[0].value, n)] + Deliveries(ls[1..], n)
  }

  /** Fan-out reaches exactly the entries before the first null one. */
  lemma {:induction false} DeliveriesStopAtNull(ls: seq<Entry>, i: nat, n: Notification)
    requires i < |ls| && ls[i] == None && None !in ls[..i]
    ensures Deliveries(ls, n) == Deliveries(ls[..i], n)
    decreases i
  {
    if i > 0 {
      assert ls[0] == ls[..i][0];
      assert ls[..i][1..] == ls[1..][..i-1];
      DeliveriesStopAtNull(ls[1..], i - 1, n);
    }
  }

  /** Fan-out over a registry that grew by one listener ends with that listener's delivery. */
  lemma DeliveriesAppend(ls: seq<Entry>, l: ListenerId, n: Notification)
    requires None !in ls
    ensures Deliveries(ls + [Some(l)], n) == Deliveries(ls, n) + [Delivery(l, n)]
  {
    assert None !in ls + [Some(l)];
  }

  /** A listener registered once and then removed is no longer notified. */
  lemma RemovedListenerSilent(ls: seq<Entry>, l: ListenerId, n: Notification)
    requires multiset(ls)[Some(l)] <= 1
    ensures forall d :: d in Deliveries(RemoveFirst(ls, Some(l)), n) ==> d.listener != l
  {
    var r := RemoveFirst(ls, Some(l));
    assert multiset(r)[Some(l)] == 0;
    forall d | d in Deliveries(r, n)
      ensures d.listener != l
    {
      var i :| 0 <= i < |Deliveries(r, n)| && Deliveries(r, n)[i] == d;
      assert r[i] in multiset(r);
    }
  }

  /** In a registry without null entries, a listener registered k times is notified k times. */
  lemma {:induction false} DeliveriesCount(ls: seq<Entry>, l: ListenerId, n: Notification)
    requires None !in ls
    ensures multiset(Deliveries(ls, n))[Delivery(l, n)] == multiset(ls)[Some(l)]
    decreases |ls|
  {
    if ls != [] {
      assert ls == [ls[0]] + ls[1..];
      assert None !in ls[1..];
      DeliveriesCount(ls[1..], l, n);
    }
  }
}
