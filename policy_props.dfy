/** Properties of the policy handlers of wlc.c. */
module PolicyProps {
  import opened Types
  import opened Config
  import opened Stacks
  import opened Clients
  import opened TileLayout
  import opened MonocleLayout
  import opened Policy

  // ---------------------------------------------------------------------
  // Focus

  /** fstack_top returns the i-th client of the focus stack exactly when it
      is visible and no client before it is. */
  lemma FstackTopIsFirst(ctx: Ctx, i: nat)
    requires Inv(ctx) && i < |ctx.fstack|
    ensures FstackTop(ctx) == Some(ctx.fstack[i]) <==>
            ShownHere(ctx, ctx.fstack[i]) && forall j :: 0 <= j < i ==> !ShownHere(ctx, ctx.fstack[j])
  {
    FirstShownIsFirst(ctx.fstack, ctx.clients, ctx.fo, Out(ctx).tag, i);
  }

  /** focus_client: re-focusing the focused surface is a no-op; focusing a
      client puts it at the head of the focus and stacking lists, leaves the
      layout list and the relative order of the other clients alone, and
      gives its main surface keyboard focus after deactivating the old
      focus; focusing nothing clears keyboard focus and touches no list. */
  lemma FocusClientEffect(ctx: Ctx, c: Option<ClientId>, s: Option<Surface>)
    requires Inv(ctx) && (c.Some? ==> c.value in ctx.fstack && c.value in ctx.zstack)
    ensures ctx.focused == s ==> FocusClient(ctx, c, s) == ctx
    ensures var r := FocusClient(ctx, c, s);
            ctx.focused != s && c.Some? ==>
              r.fstack[0] == c.value && r.zstack[0] == c.value && r.lstack == ctx.lstack &&
              Remove(r.fstack, c.value) == Remove(ctx.fstack, c.value) &&
              Remove(r.zstack, c.value) == Remove(ctx.zstack, c.value) &&
              r.focused == Some(MainSurface(c.value)) &&
              r.log == ctx.log + (if ctx.focused.Some? then [Activated(ctx.focused.value, false)] else []) +
                       [Activated(MainSurface(c.value), true), KeyboardEnter(MainSurface(c.value))]
    ensures var r := FocusClient(ctx, c, s);
            ctx.focused != s && c.None? ==>
              r.focused == None && r.lstack == ctx.lstack && r.fstack == ctx.fstack && r.zstack == ctx.zstack &&
              r.log == ctx.log + (if ctx.focused.Some? then [Activated(ctx.focused.value, false)] else []) + [KeyboardClear]
  {
    if ctx.focused != s && c.Some? {
      MoveToHeadKeepsOthers(ctx.fstack, c.value);
      MoveToHeadKeepsOthers(ctx.zstack, c.value);
    }
  }

  /** Focusing the top of the focus stack gives its main surface keyboard
      focus; unless that surface already had it, the client also reaches
      the head of the focus stack. */
  lemma FocusTopEffect(ctx: Ctx)
    requires Inv(ctx)
    ensures FstackTop(ctx).None? ==> FocusTop(ctx) == ctx
    ensures FstackTop(ctx).Some? ==>
              FocusTop(ctx).focused == Some(MainSurface(FstackTop(ctx).value)) &&
              (ctx.focused != Some(MainSurface(FstackTop(ctx).value)) ==> FocusTop(ctx).fstack[0] == FstackTop(ctx).value)
  {
    if FstackTop(ctx).Some? {
      var c := FstackTop(ctx).value;
      ShownIsLinked(ctx, c);
      FocusClientEffect(ctx, Some(c), Some(MainSurface(c)));
    }
  }

  /** focus_next lands on cc itself exactly when no other client of the
      layout list is visible. */
  lemma NextTargetStays(ctx: Ctx, cc: ClientId, dir: int)
    requires Inv(ctx) && cc in ctx.lstack
    ensures NextTarget(ctx, cc, dir) == cc <==> forall x :: x in ctx.lstack && x != cc ==> !ShownHere(ctx, x)
  {
    var p := IndexOf(ctx.lstack, cc);
    var order := CircularFrom(ctx.lstack, p, dir > 0);
    var found := FirstShown(order, ctx.clients, ctx.fo, Out(ctx).tag);
    if found.Some? {
      CircularFromMembers(ctx.lstack, p, dir > 0, found.value);
    } else {
      forall x | x in ctx.lstack && x != cc
        ensures !ShownHere(ctx, x)
      {
        CircularFromMembers(ctx.lstack, p, dir > 0, x);
      }
    }
  }

  /** When the neighbour of cc in the walk direction (the next client, or
      the previous one, over the list head) is visible, focus_next lands on
      it. */
  lemma NextTargetNeighbour(ctx: Ctx, cc: ClientId, dir: int)
    requires Inv(ctx) && cc in ctx.lstack && |ctx.lstack| >= 2
    ensures var nb := ctx.lstack[NextPos(|ctx.lstack|, IndexOf(ctx.lstack, cc), dir > 0)];
            ShownHere(ctx, nb) ==> NextTarget(ctx, cc, dir) == nb
  {
    var n, p := |ctx.lstack|, IndexOf(ctx.lstack, cc);
    CircularFromAt(ctx.lstack, p, dir > 0, 0);
    WalkPosSteps(n, p, dir > 0, 0);
  }

  /** With no visible client focus_next does nothing; with the top client
      the only visible one it refocuses that client, which is a no-op when
      its main surface already has keyboard focus. */
  lemma FocusNextAlone(ctx: Ctx, dir: int)
    requires Inv(ctx)
    ensures FstackTop(ctx).None? ==> FocusNext(ctx, dir) == ctx
    ensures var top := FstackTop(ctx);
            top.Some? && ctx.focused == Some(MainSurface(top.value)) &&
            (forall x :: x in ctx.lstack && x != top.value ==> !ShownHere(ctx, x)) ==>
              FocusNext(ctx, dir) == ctx
  {
    var top := FstackTop(ctx);
    if top.Some? {
      ShownIsLinked(ctx, top.value);
      NextTargetStays(ctx, top.value, dir);
    }
  }

  // ---------------------------------------------------------------------
  // Tags

  /** Which client of a list is first visible depends only on which of
      its clients are visible, not on the rest of their records. */
  lemma {:induction false} FirstShownSameShown(s: seq<ClientId>, m1: map<ClientId, Client>, m2: map<ClientId, Client>, o: OutputId, otag: OutputTag)
    requires forall c :: c in s ==> (Shown(m1, o, otag, c) <==> Shown(m2, o, otag, c))
    ensures FirstShown(s, m1, o, otag) == FirstShown(s, m2, o, otag)
  {
    if s != [] {
      FirstShownSameShown(s[1..], m1, m2, o, otag);
    }
  }

  /** Arranging moves clients but never changes who is visible, so the top
      of the focus stack is the same before and after. */
  lemma ArrangeKeepsTop(ctx: Ctx)
    requires Inv(ctx)
    ensures FstackTop(Arrange(ctx)) == FstackTop(ctx)
  {
    var a := Arrange(ctx);
    assert a.fstack == ctx.fstack && a.fo == ctx.fo && Out(a) == Out(ctx);
    FirstShownSameShown(ctx.fstack, ctx.clients, a.clients, ctx.fo, Out(ctx).tag);
  }

  /** The common tail of toggle_tag and switch_tag: with the new tag in
      place, the layout re-runs and the top of the focus stack under the new
      tag is focused on its main surface; with nothing visible under the new
      tag the keyboard focus stays where it was. */
  lemma RetagRefocus(ctx: Ctx, u: OutputTag)
    requires Inv(ctx)
    ensures var w := WithTag(ctx, u); var r := FocusTop(Arrange(w));
            Out(r) == Out(ctx).(tag := u) && r.lstack == ctx.lstack && r.clients == Arrange(w).clients &&
            (FstackTop(w).Some? ==> r.focused == Some(MainSurface(FstackTop(w).value))) &&
            (FstackTop(w).None? ==> r.focused == ctx.focused)
  {
    var w := WithTag(ctx, u);
    var a := Arrange(w);
    assert Out(a) == Out(w);
    ArrangeKeepsTop(w);
    FocusTopEffect(a);
  }

  /** toggle_tag: the new tag is the old one with the bits of t flipped,
      unless that is empty, in which case the whole call changes nothing;
      otherwise the layout re-runs under the new tag and the first visible
      client of the focus stack is focused, or the focus stays put when no
      client is visible under the new tag. */
  lemma ToggleTagEffect(ctx: Ctx, t: OutputTag)
    requires Inv(ctx)
    ensures Out(ctx).tag ^ t == 0 ==> ToggleTag(ctx, t) == ctx
    ensures Out(ctx).tag ^ t != 0 ==> Out(ToggleTag(ctx, t)) == Out(ctx).(tag := Out(ctx).tag ^ t)
    ensures ToggleTag(ctx, t).lstack == ctx.lstack
    ensures var w := WithTag(ctx, Out(ctx).tag ^ t); var r := ToggleTag(ctx, t);
            Out(ctx).tag ^ t != 0 ==>
              r.clients == Arrange(w).clients &&
              (FstackTop(w).Some? ==> r.focused == Some(MainSurface(FstackTop(w).value))) &&
              (FstackTop(w).None? ==> r.focused == ctx.focused)
  {
    if Out(ctx).tag ^ t != 0 {
      var w := WithTag(ctx, Out(ctx).tag ^ t);
      var a := Arrange(w);
      assert ToggleTag(ctx, t) == FocusTop(a);
      RetagRefocus(ctx, Out(ctx).tag ^ t);
    }
  }

  /** The tag toggle_tag leaves on foutput, as a function of the old tag:
      the bits of t flipped, or the old tag when that would be empty. */
  function ToggledTag(a: OutputTag, t: OutputTag): OutputTag
  {
    if a ^ t == 0 then a else a ^ t
  }

  lemma ToggleTagTag(ctx: Ctx, t: OutputTag)
    requires Inv(ctx)
    ensures Out(ToggleTag(ctx, t)).tag == ToggledTag(Out(ctx).tag, t)
  {
    ToggleTagEffect(ctx, t);
  }

  /** A non-empty tag stays non-empty; toggling the same mask twice
      restores a non-empty tag, while from the empty tag the first toggle
      installs t and the second, which would empty the tag again, returns
      early. */
  lemma ToggledTagTwice(a: OutputTag, t: OutputTag)
    ensures a != 0 ==> ToggledTag(a, t) != 0
    ensures a != 0 ==> ToggledTag(ToggledTag(a, t), t) == a
    ensures a == 0 ==> ToggledTag(ToggledTag(a, t), t) == t
  {
    var b := a ^ t;
    if a == 0 {
      XorSelf(a, t);
      assert b == t;
      if t != 0 {
        XorSelf(t, t);
        assert ToggledTag(a, t) == t && t ^ t == 0;
      }
    } else if b == 0 {
      assert ToggledTag(a, t) == a;
    } else {
      XorTwice(a, t);
      assert ToggledTag(a, t) == b && b ^ t == a;
    }
  }

  lemma XorSelf(a: OutputTag, t: OutputTag)
    ensures a ^ t == 0 <==> a == t
    ensures a == 0 ==> a ^ t == t
  {
  }

  lemma XorTwice(a: OutputTag, t: OutputTag)
    ensures (a ^ t) ^ t == a
  {
  }

  /** switch_tag installs t whatever it is, leaves the layout list and
      every client's tag alone, re-runs the layout and focuses the first
      visible client of the focus stack under t, keeping the focus when
      none is visible. */
  lemma SwitchTagEffect(ctx: Ctx, t: OutputTag)
    requires Inv(ctx)
    ensures Out(SwitchTag(ctx, t)) == Out(ctx).(tag := t)
    ensures SwitchTag(ctx, t).lstack == ctx.lstack
    ensures forall c :: c in ctx.clients ==> SwitchTag(ctx, t).clients[c].tag == ctx.clients[c].tag
    ensures var w, r := WithTag(ctx, t), SwitchTag(ctx, t);
            r.clients == Arrange(w).clients &&
            (FstackTop(w).Some? ==> r.focused == Some(MainSurface(FstackTop(w).value))) &&
            (FstackTop(w).None? ==> r.focused == ctx.focused)
  {
    RetagRefocus(ctx, t);
  }

  /** set_tag retags exactly the top of the focus stack, to the low eight
      bits of t, and moves no client in any stack. */
  lemma SetTagEffect(ctx: Ctx, t: OutputTag)
    requires Inv(ctx)
    ensures var r := SetTag(ctx, t);
            r.lstack == ctx.lstack && r.fstack == ctx.fstack && r.zstack == ctx.zstack &&
            r.focused == ctx.focused && r.outputs == ctx.outputs && r.clients.Keys == ctx.clients.Keys
    ensures var r, top := SetTag(ctx, t), FstackTop(ctx);
            forall c :: c in ctx.clients ==>
              r.clients[c].tag == (if top == Some(c) then TruncateTag(t) else ctx.clients[c].tag)
  {
  }

  // ---------------------------------------------------------------------
  // swap_master

  /** swap_master changes nothing when the focused client already is the
      master (the first visible client of the layout list); otherwise it
      moves it to the head of the layout list. Either way it ends up the
      master, the other clients keep their relative order and the focus and
      stacking lists are untouched. */
  lemma SwapMasterEffect(ctx: Ctx)
    requires Inv(ctx) && FstackTop(ctx).Some?
    ensures var cc, master := FstackTop(ctx).value, FirstShown(ctx.lstack, ctx.clients, ctx.fo, Out(ctx).tag);
            (master == Some(cc) ==> SwapMaster(ctx) == ctx) &&
            (master != Some(cc) ==> SwapMaster(ctx).lstack == MoveToHead(ctx.lstack, cc))
    ensures var cc, r := FstackTop(ctx).value, SwapMaster(ctx);
            FirstShown(r.lstack, r.clients, r.fo, Out(r).tag) == Some(cc) &&
            Remove(r.lstack, cc) == Remove(ctx.lstack, cc) &&
            r.fstack == ctx.fstack && r.zstack == ctx.zstack
  {
    var cc := FstackTop(ctx).value;
    ShownIsLinked(ctx, cc);
    MoveToHeadKeepsOthers(ctx.lstack, cc);
    if FirstShown(ctx.lstack, ctx.clients, ctx.fo, Out(ctx).tag) != Some(cc) {
      assert MoveToHead(ctx.lstack, cc)[0] == cc;
    }
  }

  /** In the initial state, and in any state whose tag shows no client,
      there is no top of the focus stack, so the key binding for
      swap_master reaches the unconditional dereference of a null client. */
  lemma SwapMasterUndefinedWhenEmpty(fo: OutputId, geom: Box)
    requires geom.width >= 0 && geom.height >= 0
    ensures Inv(Initial(fo, geom)) && FstackTop(Initial(fo, geom)).None?
    ensures ProcessKeybindings(Initial(fo, geom), KeyS).0 == Initial(fo, geom)
  {
    var ctx := Initial(fo, geom);
    assert ctx.lstack == [];
    assert Arrange(ctx).clients == map[];
  }

  // ---------------------------------------------------------------------
  // Mapping and unmapping

  /** map: the client joins foutput at the head of all three lists, keeps
      the others in order behind it and receives keyboard focus. */
  lemma MapNotifyEffect(ctx: Ctx, c: ClientId, geom: Box)
    requires Inv(ctx) && c in ctx.clients && !Mapped(ctx.clients, c)
    ensures var r := MapNotify(ctx, c, geom);
            r.clients[c].output == Some(ctx.fo) && r.clients[c].tag == ctx.clients[c].tag &&
            r.lstack == [c] + ctx.lstack && r.fstack == [c] + ctx.fstack && r.zstack == [c] + ctx.zstack &&
            r.focused == Some(MainSurface(c))
  {
    var cl := ctx.clients[c].(output := Some(ctx.fo), geom := geom);
    var linked := ctx.(clients := ctx.clients[c := cl],
                       lstack := [c] + ctx.lstack, fstack := [c] + ctx.fstack, zstack := [c] + ctx.zstack);
    assert Inv(linked);
    MoveToHeadOfHead(linked.fstack, c);
    MoveToHeadOfHead(linked.zstack, c);
  }

  /** unmap: the client leaves its output and all three lists, the others
      keep their order, and the first visible client of the focus stack
      gets keyboard focus; when there is none keyboard focus stays where it
      was, possibly on the unmapped surface. */
  lemma UnmapNotifyEffect(ctx: Ctx, c: ClientId)
    requires Inv(ctx) && Mapped(ctx.clients, c)
    ensures var r := UnmapNotify(ctx, c);
            !Mapped(r.clients, c) && r.clients[c].tag == ctx.clients[c].tag &&
            c !in r.lstack && c !in r.fstack && c !in r.zstack &&
            r.lstack == Remove(ctx.lstack, c)
    ensures var r, next := UnmapNotify(ctx, c), FirstShown(Remove(ctx.fstack, c), ctx.clients, ctx.fo, Out(ctx).tag);
            (next.Some? ==> r.focused == Some(MainSurface(next.value))) &&
            (next.None? ==> r.focused == ctx.focused && r.fstack == Remove(ctx.fstack, c))
  {
    var u := Unlinked(ctx, c);
    FocusTopEffect(u);
    FirstShownAgree(Remove(ctx.fstack, c), ctx.clients, u.clients, ctx.fo, Out(ctx).tag, c);
  }

  /** Changing one record that the list does not contain does not change
      which client of the list is first visible. */
  lemma {:induction false} FirstShownAgree(s: seq<ClientId>, m1: map<ClientId, Client>, m2: map<ClientId, Client>, o: OutputId, otag: OutputTag, c: ClientId)
    requires c !in s && m1.Keys == m2.Keys && forall x :: x in m1 && x != c ==> m1[x] == m2[x]
    ensures FirstShown(s, m1, o, otag) == FirstShown(s, m2, o, otag)
  {
    if s != [] {
      FirstShownAgree(s[1..], m1, m2, o, otag, c);
    }
  }

  /** A new toplevel starts unmapped and invisible on every output, with
      foutput's tag cut to eight bits; once mapped on foutput it is visible
      under a tag u exactly when u meets the inherited bits. Other roles
      change nothing. */
  lemma NewXdgSurfaceEffect(ctx: Ctx, c: ClientId, toplevel: bool, o: OutputId, u: OutputTag)
    requires Inv(ctx) && c !in ctx.clients
    ensures !toplevel ==> NewXdgSurface(ctx, c, toplevel) == ctx
    ensures var r := NewXdgSurface(ctx, c, toplevel);
            toplevel ==>
              r.clients[c].tag == TruncateTag(Out(ctx).tag) && !Visible(r.clients[c], o, u) &&
              r.lstack == ctx.lstack && r.fstack == ctx.fstack && r.zstack == ctx.zstack &&
              (Visible(r.clients[c].(output := Some(ctx.fo)), ctx.fo, u) <==> Out(ctx).tag & u & 0xFF != 0)
  {
    if toplevel {
      var cl := Client(None, Box(0, 0, 0, 0), TruncateTag(Out(ctx).tag));
      UnmappedNeverVisible(cl, o, u);
      InheritedTagVisibility(cl.(output := Some(ctx.fo)), ctx.fo, Out(ctx).tag, u);
    }
  }

  /** For an output with modes whose commit succeeds, the handler as
      written records nothing, where the intended one records the output
      with its layout box. */
  lemma NewOutputCommitDropped(ctx: Ctx, id: OutputId, geom: Box)
    requires Inv(ctx) && id !in ctx.outputs
    ensures NewOutputAsWritten(ctx, id, geom, true, true) == ctx
    ensures id !in NewOutputAsWritten(ctx, id, geom, true, true).outputs
    ensures var g := NewOutputGuarded(ctx, id, geom, true, true);
            id in g.outputs && g.outputs[id] == NewOutput(geom) && g.outputList == [id] + ctx.outputList
  {
  }

  /** new_output_notify: the tiling layout, one master client, a master
      fraction of 55/100 and tag 1; such an output can drive a layout, and a
      client created while it is foutput gets tag 1. */
  lemma NewOutputDefaults(geom: Box)
    ensures var o := NewOutput(geom);
            LayoutAt(o.layout) == Some(TileFn) && o.nMaster == 1 && o.fMaster == Ratio(55, 100) && o.tag == 1
    ensures ProperFraction(NewOutput(geom).fMaster)
    ensures geom.width >= 0 && geom.height >= 0 ==> LayoutReady(NewOutput(geom))
    ensures TruncateTag(NewOutput(geom).tag) == 1
  {
  }

  // ---------------------------------------------------------------------
  // Layout dispatch

  /** The registry dispatch: the tiling entry tiles, the monocle entry
      stacks, the entry without a procedure changes nothing; arranging
      twice is arranging once. */
  lemma ArrangeEffect(ctx: Ctx)
    requires Ready(ctx)
    ensures Out(ctx).layout == 0 ==> Arrange(ctx).clients == Tiled(ctx.clients, ctx.lstack, ctx.fo, Out(ctx))
    ensures Out(ctx).layout == 1 ==> Arrange(ctx).clients == Monocled(ctx.clients, ctx.lstack, ctx.fo, Out(ctx))
    ensures Out(ctx).layout == 2 ==> Arrange(ctx) == ctx
    ensures Arrange(Arrange(ctx)) == Arrange(ctx)
  {
    if Out(ctx).layout == 0 {
      TiledIdempotent(ctx.clients, ctx.lstack, ctx.fo, Out(ctx));
    } else if Out(ctx).layout == 1 {
      MonocledIdempotent(ctx.clients, ctx.lstack, ctx.fo, Out(ctx));
    }
  }

  // ---------------------------------------------------------------------
  // find_client

  /** The client at list position j would stop the walk: it is hit and
      visible. */
  predicate Grabbable(ls: seq<ClientId>, clients: map<ClientId, Client>, o: OutputId, otag: OutputTag,
                      hit: (ClientId, int, int) -> Option<nat>, x: int, y: int, j: nat)
    requires j < |ls| && ls[j] in clients
  {
    HitAt(clients, hit, ls[j], x, y).Some? && Visible(clients[ls[j]], o, otag)
  }

  /** find_client returns the first client in layout order that is hit and
      visible. */
  lemma {:induction false} FindClientFirst(ls: seq<ClientId>, clients: map<ClientId, Client>, o: OutputId, otag: OutputTag,
                                           hit: (ClientId, int, int) -> Option<nat>, x: int, y: int, last: Option<Surface>)
    requires forall c :: c in ls ==> c in clients
    ensures var r := FindClient(ls, clients, o, otag, hit, x, y, last);
            r.0.Some? ==> Grabbable(ls, clients, o, otag, hit, x, y, IndexOf(ls, r.0.value)) &&
                          forall j :: 0 <= j < IndexOf(ls, r.0.value) ==> !Grabbable(ls, clients, o, otag, hit, x, y, j)
  {
    if ls != [] {
      var s := HitAt(clients, hit, ls[0], x, y);
      if !(s.Some? && Visible(clients[ls[0]], o, otag)) {
        FindClientFirst(ls[1..], clients, o, otag, hit, x, y, s);
        var r := FindClient(ls[1..], clients, o, otag, hit, x, y, s);
        if r.0.Some? {
          var c := r.0.value;
          assert IndexOf(ls, c) == 1 + IndexOf(ls[1..], c);
          forall j | 0 < j < IndexOf(ls, c)
            ensures !Grabbable(ls, clients, o, otag, hit, x, y, j)
          {
            assert !Grabbable(ls[1..], clients, o, otag, hit, x, y, j - 1);
          }
          assert Grabbable(ls[1..], clients, o, otag, hit, x, y, IndexOf(ls[1..], c));
        }
      }
    }
  }

  /** find_client finds nothing exactly when no client of the list is both
      hit and visible. */
  lemma {:induction false} FindClientNone(ls: seq<ClientId>, clients: map<ClientId, Client>, o: OutputId, otag: OutputTag,
                                          hit: (ClientId, int, int) -> Option<nat>, x: int, y: int, last: Option<Surface>)
    requires forall c :: c in ls ==> c in clients
    ensures FindClient(ls, clients, o, otag, hit, x, y, last).0.None? <==>
            forall j :: 0 <= j < |ls| ==> !Grabbable(ls, clients, o, otag, hit, x, y, j)
  {
    if ls != [] {
      var s := HitAt(clients, hit, ls[0], x, y);
      if !(s.Some? && Visible(clients[ls[0]], o, otag)) {
        FindClientNone(ls[1..], clients, o, otag, hit, x, y, s);
        assert !Grabbable(ls, clients, o, otag, hit, x, y, 0);
        if forall j :: 0 <= j < |ls| - 1 ==> !Grabbable(ls[1..], clients, o, otag, hit, x, y, j) {
          forall j | 0 < j < |ls|
            ensures !Grabbable(ls, clients, o, otag, hit, x, y, j)
          {
            assert !Grabbable(ls[1..], clients, o, otag, hit, x, y, j - 1);
          }
        } else {
          var j :| 0 <= j < |ls| - 1 && Grabbable(ls[1..], clients, o, otag, hit, x, y, j);
          assert Grabbable(ls, clients, o, otag, hit, x, y, j + 1);
        }
      } else {
        assert Grabbable(ls, clients, o, otag, hit, x, y, 0);
      }
    }
  }

  /** When nothing is found, the surface out-parameter is the hit of the
      last client walked, which may be a surface of an invisible client;
      with an empty list it is whatever the caller passed in. */
  lemma {:induction false} FindClientMissLeaves(ls: seq<ClientId>, clients: map<ClientId, Client>, o: OutputId, otag: OutputTag,
                                                hit: (ClientId, int, int) -> Option<nat>, x: int, y: int, last: Option<Surface>)
    requires forall c :: c in ls ==> c in clients
    ensures var r := FindClient(ls, clients, o, otag, hit, x, y, last);
            r.0.None? ==> r.1 == if ls == [] then last else HitAt(clients, hit, ls[|ls| - 1], x, y)
  {
    if |ls| > 1 {
      var s := HitAt(clients, hit, ls[0], x, y);
      FindClientMissLeaves(ls[1..], clients, o, otag, hit, x, y, s);
      assert ls[1..][|ls| - 2] == ls[|ls| - 1];
    }
  }

  // ---------------------------------------------------------------------
  // The grab machine

  /** move_resize on a miss clears the grabbed client and keeps the mode;
      on a hit it grabs that client in the requested mode, and a move grab
      records the cursor's offset from the client's origin. */
  lemma MoveResizeEffect(ctx: Ctx, m: CursorMode, hit: (ClientId, int, int) -> Option<nat>, x: int, y: int)
    requires Inv(ctx)
    ensures var found := FindHere(ctx, hit, x, y, None).0;
            found.None? ==> MoveResize(ctx, m, hit, x, y) == ctx.(gc := None)
    ensures var found, r := FindHere(ctx, hit, x, y, None).0, MoveResize(ctx, m, hit, x, y);
            found.Some? ==>
              r.gc == found && r.mode == m && r.clients == ctx.clients &&
              r.lstack == ctx.lstack && r.fstack == ctx.fstack && r.focused == ctx.focused &&
              (m == Move ==> r.gcx == x - ctx.clients[found.value].geom.x && r.gcy == y - ctx.clients[found.value].geom.y)
  {
  }

  /** process_cursor_move places the grabbed client at the cursor minus the
      recorded offset, keeps its size, and moves no other client. */
  lemma CursorMoveEffect(ctx: Ctx, x: int, y: int)
    requires Inv(ctx) && ctx.gc.Some?
    ensures var c, r := ctx.gc.value, CursorMove(ctx, x, y);
            r.clients.Keys == ctx.clients.Keys &&
            r.clients[c].geom.x == x - ctx.gcx && r.clients[c].geom.y == y - ctx.gcy &&
            r.clients[c].geom.width == ctx.clients[c].geom.width && r.clients[c].geom.height == ctx.clients[c].geom.height &&
            r.clients[c].output == ctx.clients[c].output && r.clients[c].tag == ctx.clients[c].tag &&
            forall d :: d in ctx.clients && d != c ==> r.clients[d] == ctx.clients[d]
  {
  }

  /** A move grab followed by a motion event drags the grabbed client by
      the cursor's displacement, keeping its size. */
  lemma MoveGrabDrags(ctx: Ctx, hit: (ClientId, int, int) -> Option<nat>, x0: int, y0: int,
                      time: nat, hit1: (ClientId, int, int) -> Option<nat>, x1: int, y1: int, followMouse: nat)
    requires Inv(ctx) && FindHere(ctx, hit, x0, y0, None).0.Some?
    ensures var c, g := FindHere(ctx, hit, x0, y0, None).0.value, MoveResize(ctx, Move, hit, x0, y0);
            var r := CursorMotion(g, time, hit1, x1, y1, followMouse);
            r.clients[c].geom == ctx.clients[c].geom.(x := ctx.clients[c].geom.x + (x1 - x0), y := ctx.clients[c].geom.y + (y1 - y0)) &&
            forall d :: d in ctx.clients && d != c ==> r.clients[d] == ctx.clients[d]
  {
    var c := FindHere(ctx, hit, x0, y0, None).0.value;
    var g := MoveResize(ctx, Move, hit, x0, y0);
    MoveResizeEffect(ctx, Move, hit, x0, y0);
    CursorMoveEffect(g, x1, y1);
  }

  /** A release while a grab is active ends it with the default cursor and
      is not forwarded to the client; any other release is forwarded and
      changes nothing else. */
  lemma ReleaseEffect(ctx: Ctx, time: nat, button: nat, hit: (ClientId, int, int) -> Option<nat>, x: int, y: int, init: Option<Surface>)
    requires Inv(ctx)
    ensures var r := CursorButton(ctx, time, button, Released, hit, x, y, init);
            (ctx.mode != Normal ==> r == ctx.(mode := Normal, log := ctx.log + [CursorImage("left_ptr")])) &&
            (ctx.mode == Normal ==> r == ctx.(log := ctx.log + [PointerButton(time, button, Released)]))
  {
  }

  /** A press focuses what find_client found (keyboard focus goes to the
      found client's main surface, or is cleared on a miss) and is always
      forwarded; the grab state is untouched. */
  lemma PressEffect(ctx: Ctx, time: nat, button: nat, hit: (ClientId, int, int) -> Option<nat>, x: int, y: int, init: Option<Surface>)
    requires Inv(ctx)
    ensures var (c, s) := FindHere(ctx, hit, x, y, init);
            var r := CursorButton(ctx, time, button, Pressed, hit, x, y, init);
            r.mode == ctx.mode && r.gc == ctx.gc && r.clients == ctx.clients && r.lstack == ctx.lstack &&
            r.log[|r.log| - 1] == PointerButton(time, button, Pressed) &&
            (ctx.focused != s && c.Some? ==> r.focused == Some(MainSurface(c.value)) && r.fstack[0] == c.value) &&
            (ctx.focused != s && c.None? ==> r.focused == None)
  {
    var (c, s) := FindHere(ctx, hit, x, y, init);
    FocusClientEffect(ctx, c, s);
  }

  /** The state after setup() is in resize mode (the zero value of
      cursor_mode), so the first button release of the session is taken
      for the end of a grab: it resets the cursor image, switches to
      Normal mode and is not forwarded. */
  lemma FirstReleaseSwallowed(fo: OutputId, geom: Box, time: nat, button: nat,
                              hit: (ClientId, int, int) -> Option<nat>, x: int, y: int, init: Option<Surface>)
    requires geom.width >= 0 && geom.height >= 0
    ensures Initial(fo, geom).mode == Resize
    ensures var r := CursorButton(Initial(fo, geom), time, button, Released, hit, x, y, init);
            r.mode == Normal && r.log == [CursorImage("left_ptr")]
  {
    ReleaseEffect(Initial(fo, geom), time, button, hit, x, y, init);
  }

  /** Motion during a resize grab changes nothing; in Normal mode pointer
      focus follows find_client's surface, and with follow_mouse off (as
      configured) keyboard focus and the focus and stacking lists do not
      move. */
  lemma MotionEffect(ctx: Ctx, time: nat, hit: (ClientId, int, int) -> Option<nat>, x: int, y: int)
    requires Inv(ctx) && (ctx.mode == Move ==> ctx.gc.Some?)
    ensures ctx.mode == Resize ==> CursorMotion(ctx, time, hit, x, y, FollowMouse) == ctx
    ensures var r := CursorMotion(ctx, time, hit, x, y, FollowMouse);
            r.focused == ctx.focused && r.fstack == ctx.fstack && r.zstack == ctx.zstack && r.lstack == ctx.lstack
    ensures ctx.mode == Normal ==> CursorMotion(ctx, time, hit, x, y, FollowMouse).pointer == FindHere(ctx, hit, x, y, None).1
  {
  }

  // ---------------------------------------------------------------------
  // Keyboard

  /** Keysyms that are all unbound run no command. */
  lemma {:induction false} BindingsUnbound(ctx: Ctx, syms: seq<Keysym>)
    requires Inv(ctx) && forall i :: 0 <= i < |syms| ==> !Bound(syms[i])
    ensures Bindings(ctx, syms) == (ctx, false)
  {
    if syms != [] {
      BindingsUnbound(ctx, syms[..|syms| - 1]);
    }
  }

  /** keyboard_key_notify forwards the key exactly when it is not a press
      with the modifier held whose last keysym is bound: without the
      modifier, or on a release, nothing but the forward happens; a handled
      key leaves the state the bindings produced. */
  lemma KeyNotifyEffect(ctx: Ctx, time: nat, keycode: nat, state: ButtonState, mods: bv32, syms: seq<Keysym>)
    requires Inv(ctx)
    ensures var r := KeyNotify(ctx, time, keycode, state, mods, syms);
            mods & ModKey == 0 || state == Released ==> r == ctx.(log := ctx.log + [KeyForward(time, keycode, state)])
    ensures var r, b := KeyNotify(ctx, time, keycode, state, mods, syms), Bindings(ctx, syms);
            mods & ModKey != 0 && state == Pressed ==>
              ((syms != [] && Bound(syms[|syms| - 1]) ==> r == b.0) &&
               (!(syms != [] && Bound(syms[|syms| - 1])) ==> r == b.0.(log := b.0.log + [KeyForward(time, keycode, state)])))
  {
  }

  /** With the modifier held, a key whose keysyms are all unbound is only
      forwarded. */
  lemma UnboundKeyForwarded(ctx: Ctx, time: nat, keycode: nat, mods: bv32, syms: seq<Keysym>)
    requires Inv(ctx) && forall i :: 0 <= i < |syms| ==> !Bound(syms[i])
    ensures KeyNotify(ctx, time, keycode, Pressed, mods, syms) == ctx.(log := ctx.log + [KeyForward(time, keycode, Pressed)])
  {
    BindingsUnbound(ctx, syms);
  }

  /** Only the last keysym decides `handled`: a bound keysym followed by an
      unbound one runs its command and the key is forwarded as well. */
  lemma BoundThenUnbound(ctx: Ctx, time: nat, keycode: nat, mods: bv32, sym: Keysym, other: Keysym)
    requires Inv(ctx) && mods & ModKey != 0 && Bound(sym) && !Bound(other)
    ensures var a := ProcessKeybindings(ctx, sym).0;
            KeyNotify(ctx, time, keycode, Pressed, mods, [sym, other]) == a.(log := a.log + [KeyForward(time, keycode, Pressed)])
  {
    assert [sym, other][..1] == [sym];
    assert [sym][..0] == [];
    assert Bindings(ctx, [sym]) == ProcessKeybindings(ctx, sym);
    assert Bindings(ctx, [sym, other]) == ProcessKeybindings(Bindings(ctx, [sym]).0, other);
  }

  // ---------------------------------------------------------------------
  // scale_box

  /** The unsigned wrap-around is invisible for values that fit in an int32. */
  lemma Wrap32Small(v: int)
    requires -0x8000_0000 <= v < 0x8000_0000
    ensures Wrap32(v) == v
  {
  }

  predicate FitsInt32(v: int)
  {
    -0x8000_0000 <= v < 0x8000_0000
  }

  /** scale_box multiplies every field exactly when the products fit in an
      int32, and so leaves a box unchanged at scale 1. */
  lemma ScaleBoxExact(b: Box, scale: nat)
    requires scale < 0x1_0000_0000
    requires FitsInt32(b.x * scale) && FitsInt32(b.y * scale) && FitsInt32(b.width * scale) && FitsInt32(b.height * scale)
    ensures ScaleBox(b, scale) == Box(b.x * scale, b.y * scale, b.width * scale, b.height * scale)
  {
    Wrap32Small(b.x * scale);
    Wrap32Small(b.y * scale);
    Wrap32Small(b.width * scale);
    Wrap32Small(b.height * scale);
  }

  lemma ScaleBoxOne(b: Box)
    requires FitsInt32(b.x) && FitsInt32(b.y) && FitsInt32(b.width) && FitsInt32(b.height)
    ensures ScaleBox(b, 1) == b
  {
    ScaleBoxExact(b, 1);
  }

  /** A negative coordinate at scale 2 comes back doubled, because the
      unsigned product wraps back into the int32 range. */
  lemma ScaleBoxNegative()
    ensures ScaleBox(Box(-3, 0, 0, 0), 2) == Box(-6, 0, 0, 0)
  {
    assert Wrap32(-6) == -6;
  }

  /** Outside the int32 range the wrap shows: 2^30 at scale 2 is int32 min. */
  lemma ScaleBoxOverflow()
    ensures ScaleBox(Box(0x4000_0000, 0, 0, 0), 2).x == -0x8000_0000
  {
  }
}

