/** The master/stack tiling layout (tile.c).

    The source computes the column widths and row heights in double and
    stores them into the integer box fields, which truncates. Here every
    quantity is the exact rational value, floored: ow * f_master becomes
    ow * num / den, ow - ow * f_master becomes ow * (den - num) / den and
    oh / k becomes integer division. The running offsets my and cy are
    uint32_t; adding a height to an integer offset and truncating equals
    adding the floored height, so the k-th row starts at k times the
    floored height. */
module TileLayout {
  import opened Types
  import opened Stacks
  import opened Clients

  /** The master column width: the whole output unless some visible client
      goes to the stack column, then ow * f_master. */
  function MasterWidth(nc: nat, ow: nat, nm: nat, f: Ratio): (mw: nat)
    requires ProperFraction(f)
    ensures mw <= ow
    ensures nc <= nm ==> mw == ow
  {
    if nc > nm then
      MulMono(f.num, f.den, ow);
      DivBound(ow * f.num, f.den, ow);
      ow * f.num / f.den
    else ow
  }

  /** The stack column width ow - mw, computed before truncation. */
  function StackWidth(nc: nat, ow: nat, nm: nat, f: Ratio): (cw: nat)
    requires ProperFraction(f)
    ensures cw <= ow
    ensures nc <= nm ==> cw == 0
  {
    if nc > nm then
      var rest: nat := f.den - f.num;
      MulMono(rest, f.den, ow);
      DivBound(ow * rest, f.den, ow);
      ow * rest / f.den
    else 0
  }

  /** Height of one stack row: oh / (nc - n_master), or 0 without a stack. */
  function StackHeight(nc: nat, oh: nat, nm: nat): (ch: nat)
    ensures nc > nm ==> (nc - nm) * ch <= oh < (nc - nm) * ch + (nc - nm)
    ensures nc <= nm ==> ch == 0
  {
    if nc > nm then
      ColumnFill(oh, nc - nm);
      oh / (nc - nm)
    else 0
  }

  /** The top of row j of a column of rows of height h: the offset reached
      after adding h to a running offset j times. */
  function RowY(j: nat, h: nat): (y: nat)
    ensures y == j * h
  {
    if j == 0 then 0
    else
      assert j * h == (j - 1) * h + h;
      RowY(j - 1, h) + h
  }

  lemma RowYNext(j: nat, h: nat)
    ensures RowY(j + 1, h) == RowY(j, h) + h
  {
  }

  /** The box of the k-th visible client (0-based, layout order) among nc:
      the first n_master are stacked in the master column at x = 0, the
      rest in the stack column at x = mw. */
  function TileBox(k: nat, nc: nat, ow: nat, oh: nat, nm: nat, f: Ratio): (b: Box)
    requires ProperFraction(f) && k < nc
    ensures 0 <= b.x && 0 <= b.y && 0 <= b.width && 0 <= b.height
    ensures k < nm ==> b.x == 0
    ensures k >= nm ==> b.x == MasterWidth(nc, ow, nm, f) && b.x + b.width <= ow
  {
    TileColumnsWidth(nc, ow, nm, f);
    if k < nm then
      Box(0, RowY(k, oh / nm), MasterWidth(nc, ow, nm, f), oh / nm)
    else
      Box(MasterWidth(nc, ow, nm, f), RowY(k - nm, StackHeight(nc, oh, nm)), StackWidth(nc, ow, nm, f), StackHeight(nc, oh, nm))
  }

  /** Two boxes share no point (boxes are half-open). */
  predicate Disjoint(a: Box, b: Box)
  {
    a.x + a.width <= b.x || b.x + b.width <= a.x || a.y + a.height <= b.y || b.y + b.height <= a.y
  }

  /** A box lies within the output rectangle (0, 0, ow, oh). */
  predicate Inside(b: Box, ow: nat, oh: nat)
  {
    0 <= b.x && b.x + b.width <= ow && 0 <= b.y && b.y + b.height <= oh && b.width >= 0 && b.height >= 0
  }

  lemma MulCancelStrict(q: int, u: int, d: int)
    requires d > 0 && q * d < u * d
    ensures q < u
  {
    assert (q - u) * d < 0;
  }

  /** Quotient and remainder are unique. */
  lemma DivModUnique(q: int, s: int, m: int, t: int, d: int)
    requires d > 0 && 0 <= t < d && 0 <= s < d && q * d + s == m * d + t
    ensures q == m
  {
    assert q * d < (m + 1) * d;
    MulCancelStrict(q, m + 1, d);
    assert m * d < (q + 1) * d;
    MulCancelStrict(m, q + 1, d);
  }

  lemma DivUnique(b: int, d: int, m: int, t: int)
    requires d > 0 && 0 <= t < d && b == m * d + t
    ensures b / d == m
  {
    DivModUnique(b / d, b % d, m, t, d);
  }

  lemma DivBound(a: nat, d: nat, u: nat)
    requires d > 0 && a <= u * d
    ensures a / d <= u
  {
    var q := a / d;
    assert q * d <= a;
    assert q * d < (u + 1) * d;
    MulCancelStrict(q, u + 1, d);
  }

  lemma MulMono(a: nat, b: nat, h: nat)
    requires a <= b
    ensures a * h <= b * h
  {
  }

  /** q rows of height oh / q fill the column up to less than q short of oh. */
  lemma ColumnFill(oh: nat, q: nat)
    requires q > 0
    ensures q * (oh / q) <= oh < q * (oh / q) + q
  {
    assert oh == q * (oh / q) + oh % q;
  }

  /** Master and stack widths add up to the output width, or one less when
      ow * f_master is not an integer (both parts are truncated). */
  lemma TileColumnsWidth(nc: nat, ow: nat, nm: nat, f: Ratio)
    requires ProperFraction(f)
    ensures nc <= nm ==> MasterWidth(nc, ow, nm, f) == ow && StackWidth(nc, ow, nm, f) == 0
    ensures nc > nm ==> MasterWidth(nc, ow, nm, f) + StackWidth(nc, ow, nm, f) ==
                        ow - (if ow * f.num % f.den == 0 then 0 else 1)
    ensures MasterWidth(nc, ow, nm, f) + StackWidth(nc, ow, nm, f) <= ow
  {
    if nc > nm {
      var d := f.den;
      var rest: nat := d - f.num;
      var a := ow * f.num;
      var q, r := a / d, a % d;
      assert a == q * d + r;
      var b := ow * rest;
      assert b == ow * d - a;
      MulMono(f.num, d, ow);
      DivBound(a, d, ow);
      if r == 0 {
        assert b == (ow - q) * d;
        DivUnique(b, d, ow - q, 0);
      } else {
        assert b == (ow - q - 1) * d + (d - r);
        DivUnique(b, d, ow - q - 1, d - r);
      }
    }
  }

  /** Row j of q equal rows of a column of height oh ends within it. */
  lemma RowInside(j: nat, q: nat, oh: nat)
    requires j < q
    ensures RowY(j, oh / q) + oh / q <= oh
  {
    var h := oh / q;
    ColumnFill(oh, q);
    MulMono(j + 1, q, h);
  }

  /** Every tiled box lies in the output rectangle. */
  lemma TileBoxInside(k: nat, nc: nat, ow: nat, oh: nat, nm: nat, f: Ratio)
    requires ProperFraction(f) && k < nc
    ensures Inside(TileBox(k, nc, ow, oh, nm, f), ow, oh)
  {
    TileColumnsWidth(nc, ow, nm, f);
    if k < nm {
      RowInside(k, nm, oh);
    } else {
      RowInside(k - nm, nc - nm, oh);
    }
  }

  /** An earlier row ends where a later one starts, or above it. */
  lemma {:induction false} RowsOrdered(j1: nat, j2: nat, h: nat)
    requires j1 < j2
    ensures RowY(j1, h) + h <= RowY(j2, h)
    decreases j2
  {
    if j1 + 1 < j2 {
      RowsOrdered(j1, j2 - 1, h);
    }
  }

  /** Distinct visible clients never overlap. */
  lemma TileBoxesDisjoint(k1: nat, k2: nat, nc: nat, ow: nat, oh: nat, nm: nat, f: Ratio)
    requires ProperFraction(f) && k1 < nc && k2 < nc && k1 != k2
    ensures Disjoint(TileBox(k1, nc, ow, oh, nm, f), TileBox(k2, nc, ow, oh, nm, f))
  {
    var lo, hi := if k1 < k2 then k1 else k2, if k1 < k2 then k2 else k1;
    var a, b := TileBox(lo, nc, ow, oh, nm, f), TileBox(hi, nc, ow, oh, nm, f);
    if hi < nm {
      RowsOrdered(lo, hi, oh / nm);
      assert a.y + a.height <= b.y;
    } else if lo >= nm {
      RowsOrdered(lo - nm, hi - nm, StackHeight(nc, oh, nm));
      assert a.y + a.height <= b.y;
    } else {
      assert a.x + a.width <= b.x;
    }
  }

  /** With n_master = 0 no client is a master (n < n_master never holds):
      every visible client goes to the stack column at x = ow * f_master,
      and the column is divided among all of them. */
  lemma TileZeroMasters(k: nat, nc: nat, ow: nat, oh: nat, f: Ratio)
    requires ProperFraction(f) && k < nc
    ensures TileBox(k, nc, ow, oh, 0, f) ==
            Box(ow * f.num / f.den, k * (oh / nc), ow * (f.den - f.num) / f.den, oh / nc)
  {
  }

  /** When every visible client fits in the master column it takes the full
      width; the masters' rows end at n_master * (oh / n_master), which is
      less than n_master short of oh. */
  lemma TileMasterColumn(k: nat, nc: nat, ow: nat, oh: nat, nm: nat, f: Ratio)
    requires ProperFraction(f) && k < nc && k < nm
    ensures TileBox(k, nc, ow, oh, nm, f).x == 0
    ensures nc <= nm ==> TileBox(k, nc, ow, oh, nm, f).width == ow
    ensures nc > nm ==> TileBox(k, nc, ow, oh, nm, f).width == ow * f.num / f.den
    ensures k + 1 == nm ==> oh - nm < TileBox(k, nc, ow, oh, nm, f).y + TileBox(k, nc, ow, oh, nm, f).height <= oh
  {
    ColumnFill(oh, nm);
  }

  /** The stack column starts where the master column ends and its rows end
      less than nc - n_master short of oh. */
  lemma TileStackColumn(k: nat, nc: nat, ow: nat, oh: nat, nm: nat, f: Ratio)
    requires ProperFraction(f) && nm <= k < nc
    ensures TileBox(k, nc, ow, oh, nm, f).x == MasterWidth(nc, ow, nm, f) == ow * f.num / f.den
    ensures TileBox(k, nc, ow, oh, nm, f).height == oh / (nc - nm)
    ensures k + 1 == nc ==> oh - (nc - nm) < TileBox(k, nc, ow, oh, nm, f).y + TileBox(k, nc, ow, oh, nm, f).height <= oh
  {
    var q := nc - nm;
    ColumnFill(oh, q);
  }

  /** 1920 x 1080, one master, f_master = 1/2, three visible clients. */
  lemma TileExample()
    ensures TileBox(0, 3, 1920, 1080, 1, Ratio(1, 2)) == Box(0, 0, 960, 1080)
    ensures TileBox(1, 3, 1920, 1080, 1, Ratio(1, 2)) == Box(960, 0, 960, 540)
    ensures TileBox(2, 3, 1920, 1080, 1, Ratio(1, 2)) == Box(960, 540, 960, 540)
  {
  }

  predicate LayoutReady(out: Output)
  {
    ProperFraction(out.fMaster) && out.geom.width >= 0 && out.geom.height >= 0
  }

  /** The client map after tile(): the k-th visible client of ls, in
      layout order, gets TileBox(k); everything else is left alone. */
  function Tiled(clients: map<ClientId, Client>, ls: seq<ClientId>, o: OutputId, out: Output): (r: map<ClientId, Client>)
    requires LayoutReady(out)
    ensures r.Keys == clients.Keys
    ensures forall c :: c in clients ==> r[c].output == clients[c].output && r[c].tag == clients[c].tag
    ensures forall c :: c in clients && !(c in ls && Visible(clients[c], o, out.tag)) ==> r[c] == clients[c]
  {
    var vs := VisibleSeq(ls, clients, o, out.tag);
    map c | c in clients ::
      if c in vs then clients[c].(geom := TileBox(IndexOf(vs, c), |vs|, out.geom.width, out.geom.height, out.nMaster, out.fMaster))
      else clients[c]
  }

  /** The k-th visible client in layout order gets slot k. */
  lemma TiledSlot(clients: map<ClientId, Client>, ls: seq<ClientId>, o: OutputId, out: Output, k: nat)
    requires LayoutReady(out) && NoDup(ls)
    requires k < |VisibleSeq(ls, clients, o, out.tag)|
    ensures var vs := VisibleSeq(ls, clients, o, out.tag);
            vs[k] in clients &&
            Tiled(clients, ls, o, out)[vs[k]].geom ==
            TileBox(k, |vs|, out.geom.width, out.geom.height, out.nMaster, out.fMaster)
  {
    var vs := VisibleSeq(ls, clients, o, out.tag);
    assert vs[k] in vs;
    VisibleSeqNoDup(ls, clients, o, out.tag);
    IndexOfUnique(vs, k);
  }

  /** After tiling, two distinct visible clients do not overlap and each lies
      within the output. */
  lemma TiledDisjoint(clients: map<ClientId, Client>, ls: seq<ClientId>, o: OutputId, out: Output, a: ClientId, b: ClientId)
    requires LayoutReady(out) && NoDup(ls)
    requires a in ls && b in ls && a != b
    requires Shown(clients, o, out.tag, a) && Shown(clients, o, out.tag, b)
    ensures var r := Tiled(clients, ls, o, out);
            Disjoint(r[a].geom, r[b].geom) &&
            Inside(r[a].geom, out.geom.width, out.geom.height)
  {
    var vs := VisibleSeq(ls, clients, o, out.tag);
    var ia, ib := IndexOf(vs, a), IndexOf(vs, b);
    TileBoxesDisjoint(ia, ib, |vs|, out.geom.width, out.geom.height, out.nMaster, out.fMaster);
    TileBoxInside(ia, |vs|, out.geom.width, out.geom.height, out.nMaster, out.fMaster);
  }

  /** The result depends on the clients only through which of them are
      visible, in layout order: prior geometry plays no part. */
  lemma TiledIgnoresGeometry(m1: map<ClientId, Client>, m2: map<ClientId, Client>, ls: seq<ClientId>, o: OutputId, out: Output)
    requires LayoutReady(out)
    requires m1.Keys == m2.Keys
    requires forall c :: c in m1 ==> m1[c].output == m2[c].output && m1[c].tag == m2[c].tag
    ensures forall c :: c in m1 && c in ls && Visible(m1[c], o, out.tag) ==>
              Tiled(m1, ls, o, out)[c].geom == Tiled(m2, ls, o, out)[c].geom
  {
    VisibleSeqAgree(ls, m1, m2, o, out.tag);
  }

  /** Tiling twice is tiling once. */
  lemma TiledIdempotent(clients: map<ClientId, Client>, ls: seq<ClientId>, o: OutputId, out: Output)
    requires LayoutReady(out)
    ensures Tiled(Tiled(clients, ls, o, out), ls, o, out) == Tiled(clients, ls, o, out)
  {
    var r := Tiled(clients, ls, o, out);
    VisibleSeqAgree(ls, clients, r, o, out.tag);
    var vs := VisibleSeq(ls, clients, o, out.tag);
    forall c | c in r
      ensures Tiled(r, ls, o, out)[c] == r[c]
    {
      if c in vs {
        assert Tiled(r, ls, o, out)[c] == r[c].(geom := TileBox(IndexOf(vs, c), |vs|, out.geom.width, out.geom.height, out.nMaster, out.fMaster));
      }
    }
  }

  /** The visible client at position i of the layout list gets the slot
      numbered by the visible clients before it. */
  lemma TiledAt(clients: map<ClientId, Client>, ls: seq<ClientId>, o: OutputId, out: Output, i: nat)
    requires LayoutReady(out) && NoDup(ls)
    requires i < |ls| && Shown(clients, o, out.tag, ls[i])
    ensures |VisibleSeq(ls[..i], clients, o, out.tag)| < |VisibleSeq(ls, clients, o, out.tag)|
    ensures Tiled(clients, ls, o, out)[ls[i]] ==
            clients[ls[i]].(geom := TileBox(|VisibleSeq(ls[..i], clients, o, out.tag)|, |VisibleSeq(ls, clients, o, out.tag)|,
                                            out.geom.width, out.geom.height, out.nMaster, out.fMaster))
  {
    VisibleSeqIndex(ls, clients, o, out.tag, i);
  }

  /** What one step of the placement loop does to a master client is what
      the slot function prescribes. */
  lemma PlaceMaster(cl: Client, mw: nat, mh: nat, my: nat, k: nat, nc: nat, ow: nat, oh: nat, nm: nat, f: Ratio)
    requires ProperFraction(f) && k < nm && k < nc
    requires mw == MasterWidth(nc, ow, nm, f) && mh == oh / nm && my == RowY(k, mh)
    ensures Moved(Resized(cl, mw, mh), 0, my) == cl.(geom := TileBox(k, nc, ow, oh, nm, f))
  {
  }

  /** The same for a stack client. */
  lemma PlaceStack(cl: Client, cx: nat, cw: nat, ch: nat, cy: nat, k: nat, nc: nat, ow: nat, oh: nat, nm: nat, f: Ratio)
    requires ProperFraction(f) && nm <= k < nc
    requires cx == MasterWidth(nc, ow, nm, f) && cw == StackWidth(nc, ow, nm, f)
    requires ch == StackHeight(nc, oh, nm) && cy == RowY(k - nm, ch)
    ensures Moved(Resized(cl, cw, ch), cx, cy) == cl.(geom := TileBox(k, nc, ow, oh, nm, f))
  {
  }

  /** The placement loop's state after i steps, defined step by step: the
      client at position i - 1, if visible, gets the slot numbered by the
      visible clients before it. */
  function PlacedUpTo(clients: map<ClientId, Client>, ls: seq<ClientId>, o: OutputId, out: Output, i: nat): (r: map<ClientId, Client>)
    requires LayoutReady(out) && i <= |ls|
    ensures r.Keys == clients.Keys
  {
    if i == 0 then clients
    else
      var prev := PlacedUpTo(clients, ls, o, out, i - 1);
      var c := ls[i - 1];
      if Shown(clients, o, out.tag, c) then
        var k := VisibleCount(ls, clients, o, out.tag, i - 1);
        var nc := VisibleCount(ls, clients, o, out.tag, |ls|);
        assert k < nc by { VisibleCountMono(ls, clients, o, out.tag, i, |ls|); }
        prev[c := prev[c].(geom := TileBox(k, nc, out.geom.width, out.geom.height, out.nMaster, out.fMaster))]
      else prev
  }

  /** After i steps a client holds its slot exactly when it is visible and
      its first position in ls is among the first i; otherwise it is as it
      was. */
  lemma {:induction false} PlacedUpToAt(clients: map<ClientId, Client>, ls: seq<ClientId>, o: OutputId, out: Output, i: nat, c: ClientId)
    requires LayoutReady(out) && NoDup(ls) && i <= |ls| && c in clients
    ensures c in ls && IndexOf(ls, c) < i && Shown(clients, o, out.tag, c) ==>
              VisibleCount(ls, clients, o, out.tag, IndexOf(ls, c)) < VisibleCount(ls, clients, o, out.tag, |ls|) &&
              PlacedUpTo(clients, ls, o, out, i)[c] ==
              clients[c].(geom := TileBox(VisibleCount(ls, clients, o, out.tag, IndexOf(ls, c)), VisibleCount(ls, clients, o, out.tag, |ls|),
                                          out.geom.width, out.geom.height, out.nMaster, out.fMaster))
    ensures !(c in ls && IndexOf(ls, c) < i && Shown(clients, o, out.tag, c)) ==>
              PlacedUpTo(clients, ls, o, out, i)[c] == clients[c]
  {
    if i > 0 {
      PlacedUpToAt(clients, ls, o, out, i - 1, c);
      if c == ls[i - 1] {
        IndexOfUnique(ls, i - 1);
        VisibleCountMono(ls, clients, o, out.tag, i, |ls|);
      } else if c in ls {
        assert IndexOf(ls, c) != i - 1;
      }
    }
  }

  /** What the placement loop of tile() leaves behind: every client of ls
      visited in list order, as PlacedUpTo describes. */
  function Placed(clients: map<ClientId, Client>, ls: seq<ClientId>, o: OutputId, out: Output): (r: map<ClientId, Client>)
    requires LayoutReady(out)
    ensures r.Keys == clients.Keys
  {
    PlacedUpTo(clients, ls, o, out, |ls|)
  }

  /** On a list without duplicates, walking it in order produces the tiling:
      each visible client in the slot of its index among the visible ones. */
  lemma PlacedIsTiled(clients: map<ClientId, Client>, ls: seq<ClientId>, o: OutputId, out: Output)
    requires LayoutReady(out) && NoDup(ls)
    ensures Placed(clients, ls, o, out) == Tiled(clients, ls, o, out)
  {
    var vs := VisibleSeq(ls, clients, o, out.tag);
    VisibleCountIsLength(ls, clients, o, out.tag, |ls|);
    assert ls[..|ls|] == ls;
    forall c | c in clients
      ensures Placed(clients, ls, o, out)[c] == Tiled(clients, ls, o, out)[c]
    {
      PlacedUpToAt(clients, ls, o, out, |ls|, c);
      if c in vs {
        VisibleSeqIndex(ls, clients, o, out.tag, IndexOf(ls, c));
        VisibleCountIsLength(ls, clients, o, out.tag, IndexOf(ls, c));
      }
    }
  }

  /** Row height of the master column, oh / n_master; without a master
      slot it is never used. */
  function MasterHeight(oh: nat, nm: nat): nat
  {
    if nm > 0 then oh / nm else 0
  }

  /** The invariant of the placement loop of tile() after i steps: n master
      and `stacked` stack clients have been placed, my and cy are the next
      free rows of the two columns and r is PlacedUpTo(i). */
  predicate PlaceInv(clients: map<ClientId, Client>, ls: seq<ClientId>, o: OutputId, out: Output, i: nat,
                     n: nat, stacked: nat, r: map<ClientId, Client>, my: nat, cy: nat)
  {
    LayoutReady(out) && i <= |ls| &&
    n + stacked == VisibleCount(ls, clients, o, out.tag, i) &&
    n <= out.nMaster && (n < out.nMaster ==> stacked == 0) &&
    my == RowY(n, MasterHeight(out.geom.height, out.nMaster)) &&
    cy == RowY(stacked, StackHeight(VisibleCount(ls, clients, o, out.tag, |ls|), out.geom.height, out.nMaster)) &&
    r == PlacedUpTo(clients, ls, o, out, i)
  }

  /** One step of the placement loop keeps its invariant, in each of the
      three cases of the loop body. */
  lemma TileStep(clients: map<ClientId, Client>, ls: seq<ClientId>, o: OutputId, out: Output, i: nat,
                 n: nat, stacked: nat, r: map<ClientId, Client>, my: nat, cy: nat)
    requires i < |ls| && PlaceInv(clients, ls, o, out, i, n, stacked, r, my, cy)
    ensures !Shown(clients, o, out.tag, ls[i]) ==>
              PlaceInv(clients, ls, o, out, i + 1, n, stacked, r, my, cy)
    ensures var nc, ow, oh, nm, f := VisibleCount(ls, clients, o, out.tag, |ls|), out.geom.width, out.geom.height, out.nMaster, out.fMaster;
            var mh := MasterHeight(oh, nm);
            Shown(clients, o, out.tag, ls[i]) && n < nm ==>
              ls[i] in r &&
              PlaceInv(clients, ls, o, out, i + 1, n + 1, stacked,
                       r[ls[i] := Moved(Resized(r[ls[i]], MasterWidth(nc, ow, nm, f), mh), 0, my)], my + mh, cy)
    ensures var nc, ow, oh, nm, f := VisibleCount(ls, clients, o, out.tag, |ls|), out.geom.width, out.geom.height, out.nMaster, out.fMaster;
            var ch := StackHeight(nc, oh, nm);
            Shown(clients, o, out.tag, ls[i]) && n >= nm ==>
              ls[i] in r &&
              PlaceInv(clients, ls, o, out, i + 1, n, stacked + 1,
                       r[ls[i] := Moved(Resized(r[ls[i]], StackWidth(nc, ow, nm, f), ch), MasterWidth(nc, ow, nm, f), cy)], my, cy + ch)
  {
    var c := ls[i];
    var nc, ow, oh, nm, f := VisibleCount(ls, clients, o, out.tag, |ls|), out.geom.width, out.geom.height, out.nMaster, out.fMaster;
    var k := n + stacked;
    if Shown(clients, o, out.tag, c) {
      VisibleCountMono(ls, clients, o, out.tag, i + 1, |ls|);
      if n < nm {
        PlaceMaster(r[c], MasterWidth(nc, ow, nm, f), MasterHeight(oh, nm), my, k, nc, ow, oh, nm, f);
        RowYNext(n, MasterHeight(oh, nm));
      } else {
        PlaceStack(r[c], MasterWidth(nc, ow, nm, f), StackWidth(nc, ow, nm, f), StackHeight(nc, oh, nm), cy, k, nc, ow, oh, nm, f);
        RowYNext(stacked, StackHeight(nc, oh, nm));
      }
    }
  }

  /** Number of visible clients of ls: the first loop of tile(). */
  method CountVisible(clients: map<ClientId, Client>, ls: seq<ClientId>, o: OutputId, otag: OutputTag) returns (nc: nat)
    requires forall c :: c in ls ==> c in clients
    ensures nc == VisibleCount(ls, clients, o, otag, |ls|)
  {
    nc := 0;
    var i := 0;
    while i < |ls|
      invariant 0 <= i <= |ls|
      invariant nc == VisibleCount(ls, clients, o, otag, i)
    {
      if Visible(clients[ls[i]], o, otag) {
        nc := nc + 1;
      }
      i := i + 1;
    }
  }

  /** tile(): count the visible clients, compute the column sizes, then walk
      the layout list once more and resize and move every visible client.
      On a list without duplicates the result is the tiling. */
  method Tile(clients: map<ClientId, Client>, ls: seq<ClientId>, o: OutputId, out: Output) returns (r: map<ClientId, Client>)
    requires LayoutReady(out)
    requires forall c :: c in ls ==> c in clients
    ensures r == Placed(clients, ls, o, out)
    ensures NoDup(ls) ==> r == Tiled(clients, ls, o, out)
  {
    var nc := CountVisible(clients, ls, o, out.tag);
    var ow: nat, oh: nat := out.geom.width, out.geom.height;
    var nm, f := out.nMaster, out.fMaster;
    var mh := MasterHeight(oh, nm);
    var mw := MasterWidth(nc, ow, nm, f);
    var cw := StackWidth(nc, ow, nm, f);
    var ch := StackHeight(nc, oh, nm);
    var mx: nat, my: nat := 0, 0;
    var cx: nat, cy: nat := mw, 0;

    var n: nat := 0;
    ghost var stacked: nat := 0;
    r := clients;
    var i := 0;
    while i < |ls|
      invariant 0 <= i && PlaceInv(clients, ls, o, out, i, n, stacked, r, my, cy)
    {
      var c := ls[i];
      TileStep(clients, ls, o, out, i, n, stacked, r, my, cy);
      if Visible(clients[c], o, out.tag) {
        if n < nm {
          r := r[c := Moved(Resized(r[c], mw, mh), mx, my)];
          my := my + mh;
          n := n + 1;
        } else {
          r := r[c := Moved(Resized(r[c], cw, ch), cx, cy)];
          cy := cy + ch;
          stacked := stacked + 1;
        }
      }
      i := i + 1;
    }
    if NoDup(ls) {
      PlacedIsTiled(clients, ls, o, out);
    }
  }
}
