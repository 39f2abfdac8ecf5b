/** The compositor of wlc.c as one object: its file-scope state (the three
    client lists, foutput, the seat's focus, the grab variables) becomes
    the fields of a Server whose handlers update them in place, each
    proved to leave the state the Policy function of the same name
    describes. */
module Wlc {
  import opened Types
  import opened Config
  import opened Stacks
  import opened Clients
  import opened TileLayout
  import opened MonocleLayout
  import opened Policy

  class Server {
    /** The wlc_client records, by identity. */
    var clients: map<ClientId, Client>
    /** lstack, fstack, zstack: layout, focus and stacking order. */
    var lstack: seq<ClientId>
    var fstack: seq<ClientId>
    var zstack: seq<ClientId>
    /** The wlc_output records and the outputs list. */
    var outputs: map<OutputId, Output>
    var outputList: seq<OutputId>
    var foutput: OutputId
    /** The seat's keyboard and pointer focus. */
    var keyboardFocus: Option<Surface>
    var pointerFocus: Option<Surface>
    /** cursor_mode, gc, gcx, gcy. */
    var cursorMode: CursorMode
    var gc: Option<ClientId>
    var gcx: int
    var gcy: int
    /** The calls made into wlroots, in order. */
    var log: seq<Event>

    /** The abstraction map: the state as a Policy value. Its ensures
        name the correspondence field by field for the proofs below. */
    function Snapshot(): (ctx: Ctx)
      reads this
      ensures ctx.clients == clients && ctx.lstack == lstack && ctx.fstack == fstack && ctx.zstack == zstack
      ensures ctx.outputs == outputs && ctx.fo == foutput && ctx.focused == keyboardFocus && ctx.mode == cursorMode
    {
      Ctx(clients, lstack, fstack, zstack, outputs, outputList, foutput,
          keyboardFocus, pointerFocus, cursorMode, gc, gcx, gcy, log)
    }

    ghost predicate Valid()
      reads this
    {
      Inv(Snapshot())
    }

    /** setup() followed by the first output: empty lists, no focus and the
        zero-initialised grab state. */
    constructor (fo: OutputId, geom: Box)
      requires geom.width >= 0 && geom.height >= 0
      ensures Snapshot() == Initial(fo, geom)
      ensures Valid()
    {
      clients := map[];
      lstack := [];
      fstack := [];
      zstack := [];
      outputs := map[fo := NewOutput(geom)];
      outputList := [fo];
      foutput := fo;
      keyboardFocus := None;
      pointerFocus := None;
      cursorMode := ModeOfValue(0);
      gc := None;
      gcx := 0;
      gcy := 0;
      log := [];
    }

    /** Scan s front to back for the first client visible on foutput. */
    method FirstVisible(s: seq<ClientId>) returns (r: Option<ClientId>)
      requires foutput in outputs && forall c :: c in s ==> c in clients
      ensures r == FirstShown(s, clients, foutput, outputs[foutput].tag)
    {
      var i := 0;
      while i < |s|
        invariant 0 <= i <= |s|
        invariant FirstShown(s[i..], clients, foutput, outputs[foutput].tag) == FirstShown(s, clients, foutput, outputs[foutput].tag)
      {
        if Visible(clients[s[i]], foutput, outputs[foutput].tag) {
          assert s[i..][0] == s[i];
          return Some(s[i]);
        }
        FirstShownSkip(s, clients, foutput, outputs[foutput].tag, i);
        i := i + 1;
      }
      return None;
    }

    /** fstack_top(). */
    method FstackTop() returns (r: Option<ClientId>)
      requires Valid()
      ensures r == Policy.FstackTop(Snapshot())
      ensures r.Some? ==> r.value in lstack && r.value in fstack && r.value in zstack && ShownHere(Snapshot(), r.value)
    {
      assert forall c :: c in fstack ==> c in clients;
      r := FirstVisible(fstack);
      if r.Some? {
        ShownIsLinked(Snapshot(), r.value);
      }
    }

    /** set_lstack_head(c). */
    method SetLstackHead(c: ClientId)
      requires c in lstack
      modifies this
      ensures Snapshot() == old(Snapshot()).(lstack := MoveToHead(old(lstack), c))
    {
      lstack := [c] + Remove(lstack, c);
    }

    /** set_fstack_head(c). */
    method SetFstackHead(c: ClientId)
      requires c in fstack
      modifies this
      ensures Snapshot() == old(Snapshot()).(fstack := MoveToHead(old(fstack), c))
    {
      fstack := [c] + Remove(fstack, c);
    }

    /** set_zstack_head(c). */
    method SetZstackHead(c: ClientId)
      requires c in zstack
      modifies this
      ensures Snapshot() == old(Snapshot()).(zstack := MoveToHead(old(zstack), c))
    {
      zstack := [c] + Remove(zstack, c);
    }

    /** focus_client(c, s). */
    method FocusClient(c: Option<ClientId>, s: Option<Surface>)
      requires c.Some? ==> c.value in fstack && c.value in zstack
      modifies this
      ensures Snapshot() == Policy.FocusClient(old(Snapshot()), c, s)
    {
      var prev := keyboardFocus;
      if prev == s {
        return;
      }
      var deactivated := if prev.Some? then [Activated(prev.value, false)] else [];
      match c
      case None =>
        keyboardFocus := None;
        log := log + deactivated + [KeyboardClear];
      case Some(cl) =>
        SetFstackHead(cl);
        SetZstackHead(cl);
        var main := MainSurface(cl);
        keyboardFocus := Some(main);
        log := log + deactivated + [Activated(main, true), KeyboardEnter(main)];
    }

    /** The focus of the top of the focus stack, as the tag handlers end. */
    method FocusTop()
      requires Valid()
      modifies this
      ensures Snapshot() == Policy.FocusTop(old(Snapshot()))
      ensures Valid()
    {
      var c := FstackTop();
      if c.Some? {
        FocusClient(c, Some(MainSurface(c.value)));
      }
    }

    /** focus_next(dir): walk the layout list circularly from the top of
        the focus stack, one link at a time in the direction of dir, and
        focus the first visible client; when the walk comes round without
        one, focus the start again. */
    method FocusNext(dir: int)
      requires Valid()
      modifies this
      ensures Snapshot() == Policy.FocusNext(old(Snapshot()), dir)
      ensures Valid()
    {
      var cc := FstackTop();
      if cc.None? {
        return;
      }
      var p := IndexOf(lstack, cc.value);
      var t := CircularScan(lstack, clients, foutput, outputs[foutput].tag, p, dir > 0);
      assert t == NextTarget(Snapshot(), cc.value, dir);
      ShownIsLinked(Snapshot(), cc.value);
      FocusClient(Some(t), Some(MainSurface(t)));
    }

    // -------------------------------------------------------------------
    // Layout and tags

    /** `if (layouts[foutput->layout].l) layouts[foutput->layout].l()`. */
    method Arrange()
      requires Valid()
      modifies this
      ensures Snapshot() == Policy.Arrange(old(Snapshot()))
      ensures Valid()
    {
      var o := outputs[foutput];
      assert forall c :: c in lstack ==> c in clients;
      match LayoutAt(o.layout)
      case Some(TileFn) =>
        clients := Tile(clients, lstack, foutput, o);
      case Some(MonocleFn) =>
        clients := Monocle(clients, lstack, foutput, o);
      case None =>
    }

    /** swap_master(); the source dereferences the top of the focus stack
        without checking it, hence the precondition. */
    method SwapMaster()
      requires Valid() && Policy.FstackTop(Snapshot()).Some?
      modifies this
      ensures Snapshot() == Policy.SwapMaster(old(Snapshot()))
      ensures Valid()
    {
      var cc := FstackTop();
      assert forall c :: c in lstack ==> c in clients;
      var master := FirstVisible(lstack);
      if master == cc {
        return;
      }
      SetLstackHead(cc.value);
    }

    /** toggle_tag(t). */
    method ToggleTag(t: OutputTag)
      requires Valid()
      modifies this
      ensures Snapshot() == Policy.ToggleTag(old(Snapshot()), t)
      ensures Valid()
    {
      var o := outputs[foutput];
      if o.tag ^ t == 0 {
        return;
      }
      outputs := outputs[foutput := o.(tag := o.tag ^ t)];
      assert Snapshot() == WithTag(old(Snapshot()), o.tag ^ t);
      Arrange();
      FocusTop();
    }

    /** switch_tag(t). */
    method SwitchTag(t: OutputTag)
      requires Valid()
      modifies this
      ensures Snapshot() == Policy.SwitchTag(old(Snapshot()), t)
      ensures Valid()
    {
      outputs := outputs[foutput := outputs[foutput].(tag := t)];
      assert Snapshot() == WithTag(old(Snapshot()), t);
      Arrange();
      FocusTop();
    }

    /** set_tag(t): the client field is eight bits wide. */
    method SetTag(t: OutputTag)
      requires Valid()
      modifies this
      ensures Snapshot() == Policy.SetTag(old(Snapshot()), t)
      ensures Valid()
    {
      var c := FstackTop();
      if c.Some? {
        clients := clients[c.value := clients[c.value].(tag := TruncateTag(t))];
        assert Valid() by {
          assert forall x :: Mapped(clients, x) <==> Mapped(old(clients), x);
        }
      }
      Arrange();
    }

    // -------------------------------------------------------------------
    // Surface life cycle and outputs

    /** xdg_surface_map_notify. */
    method MapNotify(c: ClientId, geom: Box)
      requires Valid() && c in clients && !Mapped(clients, c)
      modifies this
      ensures Snapshot() == Policy.MapNotify(old(Snapshot()), c, geom)
      ensures Valid()
    {
      clients := clients[c := clients[c].(output := Some(foutput))];
      lstack := [c] + lstack;
      fstack := [c] + fstack;
      zstack := [c] + zstack;
      clients := clients[c := clients[c].(geom := geom)];
      assert Snapshot() == MapLinked(old(Snapshot()), c, geom);
      LinkedAtHead(old(Snapshot()), c, geom);
      FocusClient(Some(c), Some(MainSurface(c)));
      Arrange();
    }

    /** xdg_surface_unmap_notify. */
    method UnmapNotify(c: ClientId)
      requires Valid() && Mapped(clients, c)
      modifies this
      ensures Snapshot() == Policy.UnmapNotify(old(Snapshot()), c)
      ensures Valid()
    {
      clients := clients[c := clients[c].(output := None)];
      lstack := Remove(lstack, c);
      fstack := Remove(fstack, c);
      zstack := Remove(zstack, c);
      assert Snapshot() == Unlinked(old(Snapshot()), c);
      var next := FstackTop();
      if next.Some? {
        FocusClient(next, Some(MainSurface(next.value)));
      }
      Arrange();
    }

    /** new_xdg_surface_notify: only toplevels get a client record. */
    method NewXdgSurface(c: ClientId, toplevel: bool)
      requires Valid() && c !in clients
      modifies this
      ensures Snapshot() == Policy.NewXdgSurface(old(Snapshot()), c, toplevel)
      ensures Valid()
    {
      if !toplevel {
        return;
      }
      clients := clients[c := Client(None, Box(0, 0, 0, 0), TruncateTag(outputs[foutput].tag))];
      log := log + [SetTiled(c)];
    }

    /** new_output_notify, from the allocation of the output record on. */
    method NewOutputNotify(id: OutputId, geom: Box)
      requires Valid() && id !in outputs
      modifies this
      ensures Snapshot() == Policy.NewOutputNotify(old(Snapshot()), id, geom)
      ensures Valid()
    {
      outputs := outputs[id := NewOutput(geom)];
      outputList := [id] + outputList;
    }

    // -------------------------------------------------------------------
    // Pointer

    /** find_client: the walk of the layout list, with the surface
        out-parameter starting at s0. */
    method FindClient(hit: (ClientId, int, int) -> Option<nat>, x: int, y: int, s0: Option<Surface>)
      returns (c: Option<ClientId>, s: Option<Surface>)
      requires Valid()
      ensures (c, s) == FindHere(Snapshot(), hit, x, y, s0)
    {
      assert forall d :: d in lstack ==> d in clients;
      var otag := outputs[foutput].tag;
      s := s0;
      var i := 0;
      while i < |lstack|
        invariant 0 <= i <= |lstack|
        invariant Policy.FindClient(lstack[i..], clients, foutput, otag, hit, x, y, s) == Policy.FindClient(lstack, clients, foutput, otag, hit, x, y, s0)
      {
        var d := lstack[i];
        assert lstack[i..][0] == d && lstack[i..][1..] == lstack[i + 1..];
        s := HitAt(clients, hit, d, x, y);
        if s.Some? && Visible(clients[d], foutput, otag) {
          return Some(d), s;
        }
        i := i + 1;
      }
      return None, s;
    }

    /** move_resize(m) with the cursor at (x, y). */
    method MoveResize(m: CursorMode, hit: (ClientId, int, int) -> Option<nat>, x: int, y: int)
      requires Valid()
      modifies this
      ensures Snapshot() == Policy.MoveResize(old(Snapshot()), m, hit, x, y)
      ensures Valid()
    {
      var found, surface := FindClient(hit, x, y, None);
      gc := found;
      if found.None? {
        return;
      }
      Grab(found.value, m, x, y);
    }

    /** The mode switch of move_resize with c grabbed. */
    method Grab(c: ClientId, m: CursorMode, x: int, y: int)
      requires c in clients
      modifies this
      ensures Snapshot() == Policy.Grab(old(Snapshot()), c, m, x, y)
    {
      var g := clients[c].geom;
      cursorMode := m;
      match m
      case Move =>
        gcx := x - g.x;
        gcy := y - g.y;
        log := log + [CursorImage("fleur")];
      case Resize =>
        log := log + [CursorWarp(g.x + g.width, g.y + g.height), CursorImage("bottom_right_corner")];
      case Normal =>
    }

    /** cursor_button_notify; s0 stands for the uninitialised surface
        variable the search starts from. */
    method CursorButton(time: nat, button: nat, state: ButtonState,
                        hit: (ClientId, int, int) -> Option<nat>, x: int, y: int, s0: Option<Surface>)
      requires Valid()
      modifies this
      ensures Snapshot() == Policy.CursorButton(old(Snapshot()), time, button, state, hit, x, y, s0)
      ensures Valid()
    {
      var c, s := FindClient(hit, x, y, s0);
      match state {
        case Pressed =>
          FocusClient(c, s);
        case Released =>
          if cursorMode != Normal {
            log := log + [CursorImage("left_ptr")];
            cursorMode := Normal;
            return;
          }
      }
      log := log + [PointerButton(time, button, state)];
    }

    /** process_cursor_move. */
    method ProcessCursorMove(x: int, y: int)
      requires Valid() && gc.Some?
      modifies this
      ensures Snapshot() == Policy.CursorMove(old(Snapshot()), x, y)
      ensures Valid()
    {
      var c := gc.value;
      clients := clients[c := clients[c].(geom := clients[c].geom.(x := x - gcx, y := y - gcy))];
    }

    /** process_cursor_motion, with the follow_mouse setting passed in. */
    method ProcessCursorMotion(time: nat, hit: (ClientId, int, int) -> Option<nat>, x: int, y: int, followMouse: nat)
      requires Valid() && (cursorMode == Move ==> gc.Some?)
      modifies this
      ensures Snapshot() == Policy.CursorMotion(old(Snapshot()), time, hit, x, y, followMouse)
      ensures Valid()
    {
      var c, surface := FindClient(hit, x, y, None);
      match cursorMode {
        case Move =>
          ProcessCursorMove(x, y);
          return;
        case Resize =>
          return;
        case Normal =>
      }
      if c.None? {
        log := log + [CursorImage("left_ptr")];
      }
      match surface
      case Some(surf) =>
        var focusChanged := pointerFocus != surface;
        pointerFocus := surface;
        log := log + [PointerEnter(surf)] + (if !focusChanged then [PointerMotion(surf, time)] else []);
        if followMouse != 0 {
          FocusClient(c, surface);
        }
      case None =>
        pointerFocus := None;
        log := log + [PointerClear];
    }

    // -------------------------------------------------------------------
    // Keyboard

    /** process_keybindings(sym). The source calls swap_master() for s
        unconditionally and dereferences NULL when nothing is visible; the
        guard on the focus top below is the correction of that. */
    method ProcessKeybindings(sym: Keysym) returns (handled: bool)
      requires Valid()
      modifies this
      ensures (Snapshot(), handled) == Policy.ProcessKeybindings(old(Snapshot()), sym)
      ensures Valid()
    {
      if sym == KeyEscape {
        log := log + [Terminate];
      } else if sym == Key1 {
        ToggleTag(1);
      } else if sym == Key2 {
        ToggleTag(2);
      } else if sym == KeyJ {
        FocusNext(1);
      } else if sym == KeyK {
        FocusNext(-1);
      } else if sym == KeyT {
        outputs := outputs[foutput := outputs[foutput].(layout := 0)];
        assert Snapshot() == WithLayout(old(Snapshot()), 0);
        Arrange();
      } else if sym == KeyM {
        outputs := outputs[foutput := outputs[foutput].(layout := 1)];
        assert Snapshot() == WithLayout(old(Snapshot()), 1);
        Arrange();
      } else if sym == KeyS {
        var top := FstackTop();
        if top.Some? {
          SwapMaster();
        }
        Arrange();
      } else {
        return false;
      }
      return true;
    }

    /** keyboard_key_notify, with the keysyms of the key given. */
    method KeyboardKeyNotify(time: nat, keycode: nat, state: ButtonState, mods: bv32, syms: seq<Keysym>)
      requires Valid()
      modifies this
      ensures Snapshot() == KeyNotify(old(Snapshot()), time, keycode, state, mods, syms)
      ensures Valid()
    {
      var handled := false;
      if mods & ModKey != 0 && state == Pressed {
        assert syms[..0] == [];
        for i := 0 to |syms|
          invariant Valid()
          invariant (Snapshot(), handled) == Bindings(old(Snapshot()), syms[..i])
        {
          assert syms[..i + 1][..i] == syms[..i];
          handled := ProcessKeybindings(syms[i]);
        }
        assert syms[..|syms|] == syms;
      }
      if !handled {
        log := log + [KeyForward(time, keycode, state)];
      }
    }
  }
}
