/** The monocle layout (monocle.c): every visible client of the output
    covers the whole output box. */
module MonocleLayout {
  import opened Types
  import opened Stacks
  import opened Clients

  /** The full-output box a monocle client receives. */
  function FullBox(out: Output): (b: Box)
    ensures b.x == 0 && b.y == 0
    ensures b.width == out.geom.width && b.height == out.geom.height
  {
    Box(0, 0, out.geom.width, out.geom.height)
  }

  /** The client map once the clients of ls[..i] have been visited: those
      of them that are visible on o show the full output box. */
  function MonocledUpTo(clients: map<ClientId, Client>, ls: seq<ClientId>, o: OutputId, out: Output, i: nat): (r: map<ClientId, Client>)
    requires i <= |ls|
    ensures r.Keys == clients.Keys
    ensures forall c :: c in clients ==> r[c].output == clients[c].output && r[c].tag == clients[c].tag
  {
    map c | c in clients :: if c in ls[..i] && Visible(clients[c], o, out.tag) then clients[c].(geom := FullBox(out)) else clients[c]
  }

  /** What monocle() leaves behind. */
  function Monocled(clients: map<ClientId, Client>, ls: seq<ClientId>, o: OutputId, out: Output): (r: map<ClientId, Client>)
    ensures r.Keys == clients.Keys
    ensures forall c :: c in ls && Shown(clients, o, out.tag, c) ==> r[c] == clients[c].(geom := FullBox(out))
    ensures forall c :: c in clients && !(c in ls && Shown(clients, o, out.tag, c)) ==> r[c] == clients[c]
  {
    assert ls[..|ls|] == ls;
    MonocledUpTo(clients, ls, o, out, |ls|)
  }

  /** monocle(): walk the layout list and give every visible client the
      origin, then the size, of the output. The trailing fstack_top() call
      of the source discards its result and changes nothing. */
  method Monocle(clients: map<ClientId, Client>, ls: seq<ClientId>, o: OutputId, out: Output) returns (r: map<ClientId, Client>)
    requires forall c :: c in ls ==> c in clients
    ensures r == Monocled(clients, ls, o, out)
  {
    r := clients;
    var i := 0;
    assert ls[..0] == [];
    while i < |ls|
      invariant 0 <= i <= |ls|
      invariant r == MonocledUpTo(clients, ls, o, out, i)
    {
      var c := ls[i];
      assert ls[..i + 1] == ls[..i] + [c];
      if Visible(clients[c], o, out.tag) {
        r := r[c := Resized(Moved(r[c], 0, 0), out.geom.width, out.geom.height)];
      }
      i := i + 1;
    }
    assert ls[..|ls|] == ls;
  }

  /** Visibility is untouched, so after monocle() the visible set is the
      same and each of its members shows exactly the output box. */
  lemma MonocledVisibleFull(clients: map<ClientId, Client>, ls: seq<ClientId>, o: OutputId, out: Output, c: ClientId)
    requires c in clients
    ensures Shown(Monocled(clients, ls, o, out), o, out.tag, c) <==> Shown(clients, o, out.tag, c)
    ensures c in ls && Shown(clients, o, out.tag, c) ==> Monocled(clients, ls, o, out)[c].geom == out.geom.(x := 0, y := 0)
  {
  }

  /** Running monocle() a second time changes nothing. */
  lemma MonocledIdempotent(clients: map<ClientId, Client>, ls: seq<ClientId>, o: OutputId, out: Output)
    ensures Monocled(Monocled(clients, ls, o, out), ls, o, out) == Monocled(clients, ls, o, out)
  {
    var m := Monocled(clients, ls, o, out);
    forall c | c in m
      ensures Monocled(m, ls, o, out)[c] == m[c]
    {
      if c in ls && Shown(clients, o, out.tag, c) {
        assert Shown(m, o, out.tag, c);
      }
    }
  }

  /** Any two visible clients overlap completely: monocle stacks them. */
  lemma MonocledSameBox(clients: map<ClientId, Client>, ls: seq<ClientId>, o: OutputId, out: Output, a: ClientId, b: ClientId)
    requires a in ls && b in ls && Shown(clients, o, out.tag, a) && Shown(clients, o, out.tag, b)
    ensures Monocled(clients, ls, o, out)[a].geom == Monocled(clients, ls, o, out)[b].geom
  {
  }
}
