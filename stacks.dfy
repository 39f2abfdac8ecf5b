/** The three intrusive client lists (layout, focus, stacking order) as
    sequences of ids. wl_list_insert at the list head becomes prepending,
    wl_list_remove becomes dropping the element. */
module Stacks {
  import opened Types

  /** A client is linked at most once into each list. */
  predicate NoDup(s: seq<ClientId>)
  {
    forall i, j :: 0 <= i < j < |s| ==> s[i] != s[j]
  }

  lemma NoDupTail(s: seq<ClientId>)
    requires s != [] && NoDup(s)
    ensures NoDup(s[1..]) && s[0] !in s[1..]
  {
    forall j | 0 <= j < |s| - 1
      ensures s[1..][j] != s[0]
    {
      assert s[1..][j] == s[j + 1];
    }
  }

  /** wl_list_remove: unlink c; every other element keeps its place in order. */
  function Remove(s: seq<ClientId>, c: ClientId): (r: seq<ClientId>)
    ensures forall x :: x in r <==> x in s && x != c
    ensures NoDup(s) ==> NoDup(r)
    ensures NoDup(s) && c in s ==> |r| == |s| - 1
    ensures c !in s ==> r == s
    ensures |r| <= |s|
  {
    if s == [] then []
    else if s[0] == c then Remove(s[1..], c)
    else
      var rest := Remove(s[1..], c);
      assert NoDup(s) ==> NoDup(s[1..]) && s[0] !in s[1..] by {
        if NoDup(s) { NoDupTail(s); }
      }
      [s[0]] + rest
  }

  /** set_lstack_head, set_fstack_head, set_zstack_head: unlink c and link it
      again right after the list head. */
  function MoveToHead(s: seq<ClientId>, c: ClientId): (r: seq<ClientId>)
    requires c in s
    ensures r != [] && r[0] == c
    ensures forall x :: x in r <==> x in s
    ensures NoDup(s) ==> NoDup(r) && |r| == |s|
    ensures NoDup(s) ==> r[1..] == Remove(s, c)
  {
    [c] + Remove(s, c)
  }

  /** The other elements keep their relative order: removing c from the
      result gives the same list as removing c from the input. */
  lemma {:induction false} MoveToHeadKeepsOthers(s: seq<ClientId>, c: ClientId)
    requires c in s && NoDup(s)
    ensures Remove(MoveToHead(s, c), c) == Remove(s, c)
  {
    var r := MoveToHead(s, c);
    assert r[0] == c;
    assert r[1..] == Remove(s, c);
    assert c !in Remove(s, c);
  }

  /** Moving the element that is already at the head changes nothing. */
  lemma {:induction false} MoveToHeadOfHead(s: seq<ClientId>, c: ClientId)
    requires s != [] && s[0] == c && NoDup(s)
    ensures MoveToHead(s, c) == s
  {
    NoDupTail(s);
    assert Remove(s, c) == Remove(s[1..], c) == s[1..];
    assert s == [c] + s[1..];
  }

  /** Position of an element in a list. */
  function IndexOf(s: seq<ClientId>, c: ClientId): (i: nat)
    requires c in s
    ensures i < |s| && s[i] == c
    ensures forall j :: 0 <= j < i ==> s[j] != c
  {
    if s[0] == c then 0 else 1 + IndexOf(s[1..], c)
  }

  lemma IndexOfUnique(s: seq<ClientId>, i: nat)
    requires NoDup(s) && i < |s|
    ensures IndexOf(s, s[i]) == i
  {
  }

  /** The list walked back to front (wl_list_for_each_reverse). */
  function Reversed(s: seq<ClientId>): (r: seq<ClientId>)
    ensures |r| == |s|
    ensures forall i :: 0 <= i < |s| ==> r[i] == s[|s| - 1 - i]
  {
    if s == [] then [] else Reversed(s[1..]) + [s[0]]
  }

  lemma ReversedMembers(s: seq<ClientId>, x: ClientId)
    ensures x in Reversed(s) <==> x in s
  {
    var r := Reversed(s);
    if x in s {
      var i :| 0 <= i < |s| && s[i] == x;
      assert r[|s| - 1 - i] == x;
    }
  }

  /** The order in which a walk of the circular list that starts at the
      element at position p visits the others: forward it continues after p,
      passes over the list head and comes round to p; backward the same in
      reverse. The head itself, which holds no element, is skipped. */
  function CircularFrom(s: seq<ClientId>, p: nat, forward: bool): (r: seq<ClientId>)
    requires p < |s|
    ensures |r| == |s| - 1
  {
    if forward then s[p + 1..] + s[..p] else Reversed(s[..p]) + Reversed(s[p + 1..])
  }

  /** The walk visits every element except the start, and nothing else. */
  lemma CircularFromMembers(s: seq<ClientId>, p: nat, forward: bool, x: ClientId)
    requires p < |s| && NoDup(s)
    ensures x in CircularFrom(s, p, forward) <==> x in s && x != s[p]
  {
    assert s == s[..p] + [s[p]] + s[p + 1..];
    ReversedMembers(s[..p], x);
    ReversedMembers(s[p + 1..], x);
    if x == s[p] {
      assert forall i :: 0 <= i < p ==> s[..p][i] != x;
      var tail := s[p + 1..];
      forall i | 0 <= i < |tail| ensures tail[i] != x {
        assert tail[i] == s[p + 1 + i];
      }
    }
  }

  /** One step of the walk over a circular list of n elements, by
      position: the next link forward, the previous one backward, passing
      over the list head from one end to the other. */
  function NextPos(n: nat, q: nat, forward: bool): (r: nat)
    requires q < n
    ensures r < n
  {
    if forward then (if q + 1 < n then q + 1 else 0)
    else (if q > 0 then q - 1 else n - 1)
  }

  /** The position of the k-th element the walk from p visits. */
  function WalkPos(n: nat, p: nat, forward: bool, k: nat): (r: nat)
    requires p < n && k < n
    ensures r < n
  {
    if forward then (if p + 1 + k < n then p + 1 + k else p + 1 + k - n)
    else (if k < p then p - 1 - k else n - 1 - k + p)
  }

  /** Walking the list by single steps visits the elements of
      CircularFrom in order: the first after one step from p, each next one
      a step after the previous, and after n steps the walk is back at p. */
  lemma WalkPosSteps(n: nat, p: nat, forward: bool, k: nat)
    requires p < n && k + 1 < n
    ensures WalkPos(n, p, forward, 0) == NextPos(n, p, forward)
    ensures WalkPos(n, p, forward, k + 1) == NextPos(n, WalkPos(n, p, forward, k), forward)
    ensures WalkPos(n, p, forward, n - 1) == p
  {
  }

  lemma CircularFromAt(s: seq<ClientId>, p: nat, forward: bool, k: nat)
    requires p < |s| && k < |s| - 1
    ensures CircularFrom(s, p, forward)[k] == s[WalkPos(|s|, p, forward, k)]
  {
    if forward {
      if p + 1 + k < |s| {
        assert CircularFrom(s, p, forward)[k] == s[p + 1..][k];
      } else {
        assert CircularFrom(s, p, forward)[k] == s[..p][k - (|s| - p - 1)];
      }
    } else {
      if k < p {
        assert CircularFrom(s, p, forward)[k] == Reversed(s[..p])[k];
      } else {
        assert CircularFrom(s, p, forward)[k] == Reversed(s[p + 1..])[k - p];
      }
    }
  }
}

