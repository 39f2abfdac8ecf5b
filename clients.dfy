/** Client predicates and scans shared by the layouts and the commands
    (wlc.c): visibility, the first visible client of a list, the visible
    clients of a list in order, and the geometry setters move and resize. */
module Clients {
  import opened Types
  import opened Stacks

  /** visible(c, o): mapped on o and sharing a tag bit with o. The uint8_t
      client tag is widened to 16 bits before the bitwise and. A visible
      client is mapped on o, and neither its tag nor the output's is 0. */
  predicate Visible(c: Client, o: OutputId, otag: OutputTag)
    ensures Visible(c, o, otag) ==> c.output == Some(o) && c.tag != 0 && otag != 0
  {
    c.output == Some(o) && (c.tag as OutputTag) & otag != 0
  }

  /** Unmapping clears the output, so an unmapped client is never visible,
      whatever its tag. */
  lemma UnmappedNeverVisible(c: Client, o: OutputId, otag: OutputTag)
    requires c.output == None
    ensures !Visible(c, o, otag)
  {
  }

  /** A client whose tag was inherited from output tag t is visible on its
      own output under tag u exactly when t and u share one of the low
      eight bits. */
  lemma InheritedTagVisibility(c: Client, o: OutputId, t: OutputTag, u: OutputTag)
    requires c.output == Some(o) && c.tag == TruncateTag(t)
    ensures Visible(c, o, u) <==> t & u & 0xFF != 0
  {
    TruncatedTagOverlap(t, u);
  }

  /** Client id c names a record in clients and that record is visible. */
  predicate Shown(clients: map<ClientId, Client>, o: OutputId, otag: OutputTag, c: ClientId)
  {
    c in clients && Visible(clients[c], o, otag)
  }

  /** The first client of s, front to back, that is visible (the scan of
      fstack_top and of the unmap handler). */
  function FirstShown(s: seq<ClientId>, clients: map<ClientId, Client>, o: OutputId, otag: OutputTag): (r: Option<ClientId>)
    ensures r.Some? ==> r.value in s && Shown(clients, o, otag, r.value)
    ensures r.None? ==> forall c :: c in s ==> !Shown(clients, o, otag, c)
  {
    if s == [] then None
    else if Shown(clients, o, otag, s[0]) then Some(s[0])
    else FirstShown(s[1..], clients, o, otag)
  }

  /** FirstShown picks s[i] exactly when s[i] is visible and nothing before
      it is. */
  lemma {:induction false} FirstShownIsFirst(s: seq<ClientId>, clients: map<ClientId, Client>, o: OutputId, otag: OutputTag, i: nat)
    requires i < |s| && NoDup(s)
    ensures FirstShown(s, clients, o, otag) == Some(s[i]) <==>
            Shown(clients, o, otag, s[i]) && forall j :: 0 <= j < i ==> !Shown(clients, o, otag, s[j])
  {
    if i > 0 {
      NoDupTail(s);
      FirstShownIsFirst(s[1..], clients, o, otag, i - 1);
      assert s[1..][i - 1] == s[i];
      var before := forall j :: 0 <= j < i ==> !Shown(clients, o, otag, s[j]);
      var beforeTail := forall j :: 0 <= j < i - 1 ==> !Shown(clients, o, otag, s[1..][j]);
      assert before <==> !Shown(clients, o, otag, s[0]) && beforeTail by {
        forall j | 0 <= j < i - 1 ensures s[1..][j] == s[j + 1] { }
      }
      if Shown(clients, o, otag, s[0]) {
        assert s[0] != s[i];
      }
    }
  }

  /** Scanning a list whose first elements are all invisible is the same as
      scanning from the first element not yet looked at. */
  lemma FirstShownSkip(s: seq<ClientId>, clients: map<ClientId, Client>, o: OutputId, otag: OutputTag, i: nat)
    requires i < |s| && !Shown(clients, o, otag, s[i])
    ensures FirstShown(s[i..], clients, o, otag) == FirstShown(s[i + 1..], clients, o, otag)
  {
    assert s[i..][0] == s[i];
    assert s[i..][1..] == s[i + 1..];
  }

  /** The visible clients of ls, in layout order. Defined from the back so
      that it extends one element at a time as a loop walks the list. */
  function VisibleSeq(ls: seq<ClientId>, clients: map<ClientId, Client>, o: OutputId, otag: OutputTag): (r: seq<ClientId>)
    ensures |r| <= |ls|
    ensures forall c :: c in r <==> c in ls && Shown(clients, o, otag, c)
    decreases |ls|
  {
    if ls == [] then []
    else
      var last := ls[|ls| - 1];
      VisibleSeq(ls[..|ls| - 1], clients, o, otag) + (if Shown(clients, o, otag, last) then [last] else [])
  }

  lemma VisibleSeqStep(ls: seq<ClientId>, clients: map<ClientId, Client>, o: OutputId, otag: OutputTag, i: nat)
    requires i < |ls|
    ensures VisibleSeq(ls[..i + 1], clients, o, otag) ==
            VisibleSeq(ls[..i], clients, o, otag) + (if Shown(clients, o, otag, ls[i]) then [ls[i]] else [])
  {
    assert ls[..i + 1][..i] == ls[..i];
  }

  /** Filtering distributes over concatenation. */
  lemma {:induction false} VisibleSeqAppend(a: seq<ClientId>, b: seq<ClientId>, clients: map<ClientId, Client>, o: OutputId, otag: OutputTag)
    ensures VisibleSeq(a + b, clients, o, otag) == VisibleSeq(a, clients, o, otag) + VisibleSeq(b, clients, o, otag)
    decreases |b|
  {
    if b == [] {
      assert a + b == a;
    } else {
      var b' := b[..|b| - 1];
      assert (a + b)[..|a + b| - 1] == a + b';
      VisibleSeqAppend(a, b', clients, o, otag);
    }
  }

  lemma {:induction false} VisibleSeqNoDup(ls: seq<ClientId>, clients: map<ClientId, Client>, o: OutputId, otag: OutputTag)
    requires NoDup(ls)
    ensures NoDup(VisibleSeq(ls, clients, o, otag))
    decreases |ls|
  {
    if ls != [] {
      var init := ls[..|ls| - 1];
      assert NoDup(init) by {
        forall i, j | 0 <= i < j < |init| ensures init[i] != init[j] { assert init[i] == ls[i] && init[j] == ls[j]; }
      }
      VisibleSeqNoDup(init, clients, o, otag);
      assert ls[|ls| - 1] !in init by {
        forall i | 0 <= i < |init| ensures init[i] != ls[|ls| - 1] { assert init[i] == ls[i]; }
      }
    }
  }

  /** A visible client has fewer visible clients before it than the whole
      list has. */
  lemma VisibleSeqCountBefore(ls: seq<ClientId>, clients: map<ClientId, Client>, o: OutputId, otag: OutputTag, j: nat)
    requires j < |ls| && Shown(clients, o, otag, ls[j])
    ensures |VisibleSeq(ls[..j], clients, o, otag)| < |VisibleSeq(ls, clients, o, otag)|
  {
    VisibleSeqStep(ls, clients, o, otag, j);
    assert ls == ls[..j + 1] + ls[j + 1..];
    VisibleSeqAppend(ls[..j + 1], ls[j + 1..], clients, o, otag);
  }

  /** The number of visible clients among the first i entries of ls, as a
      loop that walks the list counts them. */
  function VisibleCount(ls: seq<ClientId>, clients: map<ClientId, Client>, o: OutputId, otag: OutputTag, i: nat): (r: nat)
    requires i <= |ls|
    ensures r <= i
  {
    if i == 0 then 0
    else VisibleCount(ls, clients, o, otag, i - 1) + (if Shown(clients, o, otag, ls[i - 1]) then 1 else 0)
  }

  /** The count is the length of the visible prefix. */
  lemma {:induction false} VisibleCountIsLength(ls: seq<ClientId>, clients: map<ClientId, Client>, o: OutputId, otag: OutputTag, i: nat)
    requires i <= |ls|
    ensures VisibleCount(ls, clients, o, otag, i) == |VisibleSeq(ls[..i], clients, o, otag)|
  {
    if i > 0 {
      VisibleCountIsLength(ls, clients, o, otag, i - 1);
      VisibleSeqStep(ls, clients, o, otag, i - 1);
    }
  }

  /** The count never decreases along the list. */
  lemma {:induction false} VisibleCountMono(ls: seq<ClientId>, clients: map<ClientId, Client>, o: OutputId, otag: OutputTag, i: nat, j: nat)
    requires i <= j <= |ls|
    ensures VisibleCount(ls, clients, o, otag, i) <= VisibleCount(ls, clients, o, otag, j)
    decreases j - i
  {
    if i < j {
      VisibleCountMono(ls, clients, o, otag, i, j - 1);
    }
  }

  /** The visible client at position j of ls has, among the visible
      clients, the index equal to the number of visible clients before it. */
  lemma VisibleSeqIndex(ls: seq<ClientId>, clients: map<ClientId, Client>, o: OutputId, otag: OutputTag, j: nat)
    requires NoDup(ls) && j < |ls| && Shown(clients, o, otag, ls[j])
    ensures ls[j] in VisibleSeq(ls, clients, o, otag)
    ensures IndexOf(VisibleSeq(ls, clients, o, otag), ls[j]) == |VisibleSeq(ls[..j], clients, o, otag)|
  {
    var vs := VisibleSeq(ls, clients, o, otag);
    var pre := VisibleSeq(ls[..j], clients, o, otag);
    var rest := VisibleSeq(ls[j + 1..], clients, o, otag);
    VisibleSeqStep(ls, clients, o, otag, j);
    assert ls == ls[..j + 1] + ls[j + 1..];
    VisibleSeqAppend(ls[..j + 1], ls[j + 1..], clients, o, otag);
    assert vs == (pre + [ls[j]]) + rest;
    assert vs[|pre|] == ls[j];
    VisibleSeqNoDup(ls, clients, o, otag);
    IndexOfUnique(vs, |pre|);
  }

  /** Two client maps that agree on which clients are visible have the same
      visible sequence; in particular the sequence ignores geometry. */
  lemma {:induction false} VisibleSeqAgree(ls: seq<ClientId>, m1: map<ClientId, Client>, m2: map<ClientId, Client>, o: OutputId, otag: OutputTag)
    requires forall c :: c in ls ==> (Shown(m1, o, otag, c) <==> Shown(m2, o, otag, c))
    ensures VisibleSeq(ls, m1, o, otag) == VisibleSeq(ls, m2, o, otag)
    decreases |ls|
  {
    if ls != [] {
      VisibleSeqAgree(ls[..|ls| - 1], m1, m2, o, otag);
    }
  }

  /** move(): set the origin, keep the size, output and tag. */
  function Moved(c: Client, x: int, y: int): (r: Client)
    ensures r.geom.x == x && r.geom.y == y
    ensures r.geom.width == c.geom.width && r.geom.height == c.geom.height
    ensures r.output == c.output && r.tag == c.tag
  {
    c.(geom := c.geom.(x := x, y := y))
  }

  /** resize(): set the size, keep the origin, output and tag. */
  function Resized(c: Client, w: int, h: int): (r: Client)
    ensures r.geom.width == w && r.geom.height == h
    ensures r.geom.x == c.geom.x && r.geom.y == c.geom.y
    ensures r.output == c.output && r.tag == c.tag
  {
    c.(geom := c.geom.(width := w, height := h))
  }

  /** The walk of focus_next: from the element at position p, follow the
      links of the circular list ls one at a time (forward or backward,
      passing over the list head) until a client visible on o comes up, or
      the walk is back at p. The result is that client, or ls[p]. */
  method CircularScan(ls: seq<ClientId>, clients: map<ClientId, Client>, o: OutputId, otag: OutputTag, p: nat, forward: bool)
    returns (t: ClientId)
    requires p < |ls| && forall c :: c in ls ==> c in clients
    ensures t == WalkTarget(ls, clients, o, otag, p, forward)
  {
    var n := |ls|;
    t := ls[p];
    var q: nat := p;
    var k: nat := 0;
    while k < n - 1
      invariant WalkAt(ls, clients, o, otag, p, forward, k, q)
      invariant t == ls[p]
    {
      var next := NextPos(n, q, forward);
      if Visible(clients[ls[next]], o, otag) {
        WalkHit(ls, clients, o, otag, p, forward, k, q);
        return ls[next];
      }
      WalkSkip(ls, clients, o, otag, p, forward, k, q);
      q, k := next, k + 1;
    }
    WalkEnd(ls, clients, o, otag, p, forward, k, q);
  }

  /** Where focus_next's walk from position p ends: the first visible
      client of the walk, or the start itself. */
  function WalkTarget(ls: seq<ClientId>, clients: map<ClientId, Client>, o: OutputId, otag: OutputTag, p: nat, forward: bool): (t: ClientId)
    requires p < |ls|
    ensures t in ls
  {
    match FirstShown(CircularFrom(ls, p, forward), clients, o, otag)
    case Some(c) => c
    case None => ls[p]
  }

  /** The walk has taken k steps, is at position q, and has seen no
      visible client yet. */
  predicate WalkAt(ls: seq<ClientId>, clients: map<ClientId, Client>, o: OutputId, otag: OutputTag, p: nat, forward: bool, k: nat, q: nat)
  {
    p < |ls| && k <= |ls| - 1 && q < |ls| &&
    NextPos(|ls|, q, forward) == WalkPos(|ls|, p, forward, k) &&
    FirstShown(CircularFrom(ls, p, forward)[k..], clients, o, otag) == FirstShown(CircularFrom(ls, p, forward), clients, o, otag)
  }

  lemma WalkHit(ls: seq<ClientId>, clients: map<ClientId, Client>, o: OutputId, otag: OutputTag, p: nat, forward: bool, k: nat, q: nat)
    requires WalkAt(ls, clients, o, otag, p, forward, k, q) && k < |ls| - 1
    requires Shown(clients, o, otag, ls[NextPos(|ls|, q, forward)])
    ensures WalkTarget(ls, clients, o, otag, p, forward) == ls[NextPos(|ls|, q, forward)]
  {
    var order := CircularFrom(ls, p, forward);
    CircularFromAt(ls, p, forward, k);
    assert order[k..][0] == order[k];
  }

  lemma WalkSkip(ls: seq<ClientId>, clients: map<ClientId, Client>, o: OutputId, otag: OutputTag, p: nat, forward: bool, k: nat, q: nat)
    requires WalkAt(ls, clients, o, otag, p, forward, k, q) && k < |ls| - 1
    requires !Shown(clients, o, otag, ls[NextPos(|ls|, q, forward)])
    ensures WalkAt(ls, clients, o, otag, p, forward, k + 1, NextPos(|ls|, q, forward))
  {
    CircularFromAt(ls, p, forward, k);
    FirstShownSkip(CircularFrom(ls, p, forward), clients, o, otag, k);
    WalkPosSteps(|ls|, p, forward, k);
  }

  lemma WalkEnd(ls: seq<ClientId>, clients: map<ClientId, Client>, o: OutputId, otag: OutputTag, p: nat, forward: bool, k: nat, q: nat)
    requires WalkAt(ls, clients, o, otag, p, forward, k, q) && k == |ls| - 1
    ensures WalkTarget(ls, clients, o, otag, p, forward) == ls[p]
  {
    assert CircularFrom(ls, p, forward)[k..] == [];
  }
}
