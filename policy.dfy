/** The window-management policy of wlc.c as functions on one compositor
    state: the three client stacks, the client and output records, keyboard
    and pointer focus, the grab machine and an append-only log of the calls
    made into the backend and the seat. */
module Policy {
  import opened Types
  import opened Config
  import opened Stacks
  import opened Clients
  import opened TileLayout
  import opened MonocleLayout

  /** WLR_BUTTON_RELEASED and WLR_BUTTON_PRESSED; key events use the same
      two states. */
  datatype ButtonState = Released | Pressed

  /** A call into wlroots that the policy makes and whose effect lies
      outside the modelled state. */
  datatype Event =
    | Activated(surface: Surface, on: bool)          // wlr_xdg_toplevel_set_activated
    | KeyboardEnter(surface: Surface)                // wlr_seat_keyboard_notify_enter
    | KeyboardClear                                  // wlr_seat_keyboard_clear_focus
    | PointerEnter(surface: Surface)                 // wlr_seat_pointer_notify_enter
    | PointerMotion(surface: Surface, time: nat)     // wlr_seat_pointer_notify_motion
    | PointerClear                                   // wlr_seat_pointer_clear_focus
    | PointerButton(time: nat, button: nat, state: ButtonState)  // wlr_seat_pointer_notify_button
    | KeyForward(time: nat, keycode: nat, state: ButtonState)    // wlr_seat_keyboard_notify_key
    | CursorImage(name: string)                      // wlr_xcursor_manager_set_cursor_image
    | CursorWarp(x: int, y: int)                     // wlr_cursor_warp_closest
    | SetTiled(client: ClientId)                     // wlr_xdg_toplevel_set_tiled
    | Terminate                                      // wl_display_terminate

  /** The compositor's globals: the client records, lstack, fstack and
      zstack, the output records and the outputs list, foutput, the seat's
      keyboard and pointer focus, cursor_mode, gc, gcx and gcy, and the log. */
  datatype Ctx = Ctx(clients: map<ClientId, Client>,
                     lstack: seq<ClientId>, fstack: seq<ClientId>, zstack: seq<ClientId>,
                     outputs: map<OutputId, Output>, outputList: seq<OutputId>, fo: OutputId,
                     focused: Option<Surface>, pointer: Option<Surface>,
                     mode: CursorMode, gc: Option<ClientId>, gcx: int, gcy: int,
                     log: seq<Event>)

  /** A client record that is mapped on some output. */
  predicate Mapped(clients: map<ClientId, Client>, c: ClientId)
  {
    c in clients && clients[c].output.Some?
  }

  /** A stack links every mapped client exactly once and nothing else. */
  ghost predicate Linked(s: seq<ClientId>, clients: map<ClientId, Client>)
  {
    NoDup(s) && forall c :: c in s <==> Mapped(clients, c)
  }

  /** foutput exists and its fields can drive a layout. */
  predicate Ready(ctx: Ctx)
  {
    ctx.fo in ctx.outputs && LayoutReady(ctx.outputs[ctx.fo]) && ctx.outputs[ctx.fo].layout < |Layouts|
  }

  function Out(ctx: Ctx): (o: Output)
    requires ctx.fo in ctx.outputs
    ensures o in ctx.outputs.Values
  {
    ctx.outputs[ctx.fo]
  }

  /** What every handler keeps: the stacks hold exactly the mapped clients,
      without duplicates; the selected layout is one of the two with a
      procedure (nothing selects the third); a grabbed client exists. */
  ghost predicate Inv(ctx: Ctx)
  {
    Ready(ctx) && Out(ctx).layout < 2 &&
    Linked(ctx.lstack, ctx.clients) && Linked(ctx.fstack, ctx.clients) && Linked(ctx.zstack, ctx.clients) &&
    (ctx.gc.Some? ==> ctx.gc.value in ctx.clients)
  }

  /** Visible on foutput. */
  predicate ShownHere(ctx: Ctx, c: ClientId)
    requires ctx.fo in ctx.outputs
  {
    Shown(ctx.clients, ctx.fo, Out(ctx).tag, c)
  }

  lemma ShownIsLinked(ctx: Ctx, c: ClientId)
    requires Inv(ctx) && ShownHere(ctx, c)
    ensures c in ctx.lstack && c in ctx.fstack && c in ctx.zstack
  {
    assert Mapped(ctx.clients, c);
  }

  // ---------------------------------------------------------------------
  // Focus

  /** fstack_top(): the first client in focus order visible on foutput. */
  function FstackTop(ctx: Ctx): (r: Option<ClientId>)
    requires ctx.fo in ctx.outputs
    ensures r.Some? ==> r.value in ctx.fstack && ShownHere(ctx, r.value)
    ensures r.None? ==> forall c :: c in ctx.fstack ==> !ShownHere(ctx, c)
  {
    FirstShown(ctx.fstack, ctx.clients, ctx.fo, Out(ctx).tag)
  }

  /** focus_client(c, s): nothing happens when s is already the keyboard
      focus. Otherwise the previous focus is deactivated; a missing client
      clears keyboard focus, a present one moves to the head of the focus
      and stacking lists, is activated and receives keyboard focus on its
      main surface. */
  function FocusClient(ctx: Ctx, c: Option<ClientId>, s: Option<Surface>): (r: Ctx)
    requires c.Some? ==> c.value in ctx.fstack && c.value in ctx.zstack
    ensures r == ctx.(fstack := r.fstack, zstack := r.zstack, focused := r.focused, log := r.log)
    ensures Inv(ctx) ==> Inv(r)
  {
    if ctx.focused == s then ctx
    else
      var log := ctx.log + (if ctx.focused.Some? then [Activated(ctx.focused.value, false)] else []);
      match c
      case None => ctx.(focused := None, log := log + [KeyboardClear])
      case Some(cl) =>
        var main := MainSurface(cl);
        ctx.(fstack := MoveToHead(ctx.fstack, cl), zstack := MoveToHead(ctx.zstack, cl),
             focused := Some(main), log := log + [Activated(main, true), KeyboardEnter(main)])
  }

  /** Focus the top of the focus stack, if any: the tail of toggle_tag,
      switch_tag and the unmap handler. */
  function FocusTop(ctx: Ctx): (r: Ctx)
    requires Inv(ctx)
    ensures Inv(r)
    ensures r == ctx.(fstack := r.fstack, zstack := r.zstack, focused := r.focused, log := r.log)
  {
    match FstackTop(ctx)
    case None => ctx
    case Some(c) =>
      ShownIsLinked(ctx, c);
      FocusClient(ctx, Some(c), Some(MainSurface(c)))
  }

  /** The client focus_next(dir) lands on: the first visible client after
      cc in a circular walk of the layout list, forward when dir > 0 and
      backward otherwise, or cc itself when the walk finds none. */
  function NextTarget(ctx: Ctx, cc: ClientId, dir: int): (t: ClientId)
    requires Inv(ctx) && cc in ctx.lstack
    ensures t in ctx.lstack
    ensures t == cc || ShownHere(ctx, t)
  {
    var p := IndexOf(ctx.lstack, cc);
    var found := FirstShown(CircularFrom(ctx.lstack, p, dir > 0), ctx.clients, ctx.fo, Out(ctx).tag);
    assert found.Some? ==> found.value in ctx.lstack by {
      if found.Some? { CircularFromMembers(ctx.lstack, p, dir > 0, found.value); }
    }
    WalkTarget(ctx.lstack, ctx.clients, ctx.fo, Out(ctx).tag, p, dir > 0)
  }

  /** focus_next(dir): without a visible client nothing happens; otherwise
      the target of the walk from the top of the focus stack is focused. */
  function FocusNext(ctx: Ctx, dir: int): (r: Ctx)
    requires Inv(ctx)
    ensures Inv(r)
    ensures r == ctx.(fstack := r.fstack, zstack := r.zstack, focused := r.focused, log := r.log)
  {
    match FstackTop(ctx)
    case None => ctx
    case Some(cc) =>
      ShownIsLinked(ctx, cc);
      var t := NextTarget(ctx, cc, dir);
      assert Mapped(ctx.clients, t);
      FocusClient(ctx, Some(t), Some(MainSurface(t)))
  }

  // ---------------------------------------------------------------------
  // Layout and tags

  /** The guarded layout call `if (layouts[foutput->layout].l) ...l()`. */
  function Arrange(ctx: Ctx): (r: Ctx)
    requires Ready(ctx)
    ensures r == ctx.(clients := r.clients)
    ensures r.clients.Keys == ctx.clients.Keys
    ensures forall c :: c in ctx.clients ==> r.clients[c].output == ctx.clients[c].output && r.clients[c].tag == ctx.clients[c].tag
    ensures Inv(ctx) ==> Inv(r)
  {
    var o := Out(ctx);
    match LayoutAt(o.layout)
    case Some(TileFn) => ctx.(clients := Tiled(ctx.clients, ctx.lstack, ctx.fo, o))
    case Some(MonocleFn) => ctx.(clients := Monocled(ctx.clients, ctx.lstack, ctx.fo, o))
    case None => ctx
  }

  /** Set foutput's tag mask. */
  function WithTag(ctx: Ctx, t: OutputTag): (r: Ctx)
    requires ctx.fo in ctx.outputs
    ensures r.fo in r.outputs && Out(r) == Out(ctx).(tag := t)
    ensures r == ctx.(outputs := r.outputs)
    ensures Inv(ctx) ==> Inv(r)
  {
    ctx.(outputs := ctx.outputs[ctx.fo := Out(ctx).(tag := t)])
  }

  /** Select layout i on foutput. */
  function WithLayout(ctx: Ctx, i: nat): (r: Ctx)
    requires ctx.fo in ctx.outputs
    ensures r.fo in r.outputs && Out(r) == Out(ctx).(layout := i)
    ensures r == ctx.(outputs := r.outputs)
    ensures Inv(ctx) && i < 2 ==> Inv(r)
  {
    ctx.(outputs := ctx.outputs[ctx.fo := Out(ctx).(layout := i)])
  }

  /** toggle_tag(t): flip the bits of t in foutput's tag, unless the result
      would be empty, in which case nothing at all happens; then arrange
      and focus the top of the focus stack. */
  function ToggleTag(ctx: Ctx, t: OutputTag): (r: Ctx)
    requires Inv(ctx)
    ensures Inv(r)
  {
    if Out(ctx).tag ^ t == 0 then ctx
    else FocusTop(Arrange(WithTag(ctx, Out(ctx).tag ^ t)))
  }

  /** switch_tag(t): replace foutput's tag, arrange, focus the top. */
  function SwitchTag(ctx: Ctx, t: OutputTag): (r: Ctx)
    requires Inv(ctx)
    ensures Inv(r)
  {
    FocusTop(Arrange(WithTag(ctx, t)))
  }

  /** set_tag(t): retag the top of the focus stack (keeping the low eight
      bits of t), then arrange; focus is not revisited. */
  function SetTag(ctx: Ctx, t: OutputTag): (r: Ctx)
    requires Inv(ctx)
    ensures Inv(r)
  {
    match FstackTop(ctx)
    case None => Arrange(ctx)
    case Some(c) =>
      Arrange(ctx.(clients := ctx.clients[c := ctx.clients[c].(tag := TruncateTag(t))]))
  }

  /** swap_master(): when the top of the focus stack is already the first
      visible client of the layout list nothing happens; otherwise it moves
      to the head of the layout list. The source dereferences the top
      unconditionally, hence the precondition. */
  function SwapMaster(ctx: Ctx): (r: Ctx)
    requires Inv(ctx) && FstackTop(ctx).Some?
    ensures Inv(r)
    ensures r == ctx.(lstack := r.lstack)
  {
    var cc := FstackTop(ctx).value;
    ShownIsLinked(ctx, cc);
    if FirstShown(ctx.lstack, ctx.clients, ctx.fo, Out(ctx).tag) == Some(cc) then ctx
    else ctx.(lstack := MoveToHead(ctx.lstack, cc))
  }

  /** swap_master() with the missing check for an empty tag: without a
      visible client it does nothing. */
  function SwapMasterGuarded(ctx: Ctx): (r: Ctx)
    requires Inv(ctx)
    ensures Inv(r)
    ensures FstackTop(ctx).None? ==> r == ctx
    ensures FstackTop(ctx).Some? ==> r == SwapMaster(ctx)
  {
    if FstackTop(ctx).None? then ctx else SwapMaster(ctx)
  }

  // ---------------------------------------------------------------------
  // Surface life cycle and outputs

  /** xdg_surface_map_notify(c): attach c to foutput, link it at the head of
      the three stacks, take its geometry from the surface, focus it and
      arrange. */
  function MapNotify(ctx: Ctx, c: ClientId, geom: Box): (r: Ctx)
    requires Inv(ctx) && c in ctx.clients && !Mapped(ctx.clients, c)
    ensures Inv(r)
  {
    LinkedAtHead(ctx, c, geom);
    Arrange(FocusClient(MapLinked(ctx, c, geom), Some(c), Some(MainSurface(c))))
  }

  /** The first half of the map handler: c is attached to foutput with the
      surface's geometry and linked at the head of the three stacks. */
  function MapLinked(ctx: Ctx, c: ClientId, geom: Box): (r: Ctx)
    requires c in ctx.clients
    ensures r == ctx.(clients := r.clients, lstack := r.lstack, fstack := r.fstack, zstack := r.zstack)
    ensures Mapped(r.clients, c) && r.clients[c].output == Some(ctx.fo) && r.clients[c].geom == geom
    ensures r.clients[c].tag == ctx.clients[c].tag
    ensures forall x :: x in ctx.clients && x != c ==> x in r.clients && r.clients[x] == ctx.clients[x]
    ensures r.clients.Keys == ctx.clients.Keys
    ensures r.lstack == [c] + ctx.lstack && c in r.lstack
    ensures r.fstack == [c] + ctx.fstack && c in r.fstack
    ensures r.zstack == [c] + ctx.zstack && c in r.zstack
  {
    ctx.(clients := ctx.clients[c := ctx.clients[c].(output := Some(ctx.fo), geom := geom)],
         lstack := [c] + ctx.lstack, fstack := [c] + ctx.fstack, zstack := [c] + ctx.zstack)
  }

  lemma LinkedAtHead(ctx: Ctx, c: ClientId, geom: Box)
    requires Inv(ctx) && c in ctx.clients && !Mapped(ctx.clients, c)
    ensures Inv(MapLinked(ctx, c, geom))
  {
  }

  /** xdg_surface_unmap_notify(c): detach c from its output, unlink it from
      the three stacks, focus the first visible client of the focus stack if
      there is one, and arrange. */
  function UnmapNotify(ctx: Ctx, c: ClientId): (r: Ctx)
    requires Inv(ctx) && Mapped(ctx.clients, c)
    ensures Inv(r)
  {
    Arrange(FocusTop(Unlinked(ctx, c)))
  }

  /** The first half of the unmap handler. */
  function Unlinked(ctx: Ctx, c: ClientId): (r: Ctx)
    requires Inv(ctx) && Mapped(ctx.clients, c)
    ensures Inv(r)
    ensures !Mapped(r.clients, c) && c !in r.lstack && c !in r.fstack && c !in r.zstack
  {
    ctx.(clients := ctx.clients[c := ctx.clients[c].(output := None)],
         lstack := Remove(ctx.lstack, c), fstack := Remove(ctx.fstack, c), zstack := Remove(ctx.zstack, c))
  }

  /** new_xdg_surface_notify: a toplevel gets a zeroed client record whose
      tag is foutput's tag truncated to eight bits; other roles are
      ignored. */
  function NewXdgSurface(ctx: Ctx, c: ClientId, toplevel: bool): (r: Ctx)
    requires Inv(ctx) && c !in ctx.clients
    ensures Inv(r)
  {
    if !toplevel then ctx
    else ctx.(clients := ctx.clients[c := Client(None, Box(0, 0, 0, 0), TruncateTag(Out(ctx).tag))],
              log := ctx.log + [SetTiled(c)])
  }

  /** The fields new_output_notify gives a new output. */
  function NewOutput(geom: Box): (o: Output)
    ensures o.geom == geom
  {
    Output(0, 1, Ratio(55, 100), geom, 1)
  }

  /** new_output_notify once it goes past the mode setting: record the
      output and link it at the head of the outputs list. */
  function NewOutputNotify(ctx: Ctx, id: OutputId, geom: Box): (r: Ctx)
    requires Inv(ctx) && id !in ctx.outputs
    ensures Inv(r)
    ensures r == ctx.(outputs := r.outputs, outputList := r.outputList)
    ensures id in r.outputs && r.outputs[id].geom == geom
    ensures forall o :: o in ctx.outputs ==> o in r.outputs && r.outputs[o] == ctx.outputs[o]
    ensures |r.outputList| > 0 && r.outputList[0] == id && r.outputList[1..] == ctx.outputList
  {
    ctx.(outputs := ctx.outputs[id := NewOutput(geom)], outputList := [id] + ctx.outputList)
  }

  /** new_output_notify as written. For an output with modes the handler
      returns early when wlr_output_commit succeeds, so such an output is
      recorded only when its commit fails. */
  function NewOutputAsWritten(ctx: Ctx, id: OutputId, geom: Box, hasModes: bool, committed: bool): (r: Ctx)
    requires Inv(ctx) && id !in ctx.outputs
    ensures Inv(r)
    ensures (id in r.outputs) <==> !(hasModes && committed)
    ensures hasModes && committed ==> r == ctx
  {
    if hasModes && committed then ctx else NewOutputNotify(ctx, id, geom)
  }

  /** new_output_notify as evidently intended: the early return is taken
      only when the commit fails, and every other output is recorded. */
  function NewOutputGuarded(ctx: Ctx, id: OutputId, geom: Box, hasModes: bool, committed: bool): (r: Ctx)
    requires Inv(ctx) && id !in ctx.outputs
    ensures Inv(r)
    ensures (id in r.outputs) <==> (!hasModes || committed)
    ensures hasModes && !committed ==> r == ctx
    ensures (!hasModes || committed) ==> r == NewOutputNotify(ctx, id, geom)
  {
    if hasModes && !committed then ctx else NewOutputNotify(ctx, id, geom)
  }

  /** The state after setup() and the first output: empty stacks, no focus,
      the zero-initialised cursor_mode, gc and offsets. */
  function Initial(fo: OutputId, geom: Box): (r: Ctx)
    requires geom.width >= 0 && geom.height >= 0
    ensures Inv(r)
  {
    Ctx(map[], [], [], [], map[fo := NewOutput(geom)], [fo], fo, None, None, ModeOfValue(0), None, 0, 0, [])
  }

  // ---------------------------------------------------------------------
  // Pointer

  /** The surface wlr_xdg_surface_surface_at finds at layout point (x, y)
      of client c: the hit test, given as a function of the client and the
      point relative to its origin, returns the index of the surface. */
  function HitAt(clients: map<ClientId, Client>, hit: (ClientId, int, int) -> Option<nat>, c: ClientId, x: int, y: int): (r: Option<Surface>)
    requires c in clients
    ensures r.Some? ==> r.value.owner == c
  {
    match hit(c, x - clients[c].geom.x, y - clients[c].geom.y)
    case None => None
    case Some(i) => Some(Surface(c, i))
  }

  /** find_client: walk ls in layout order, storing each client's hit in
      the out-parameter, and return the first client that is both hit and
      visible. When none is, the out-parameter keeps the last client's hit
      (or the caller's value for an empty list). */
  function FindClient(ls: seq<ClientId>, clients: map<ClientId, Client>, o: OutputId, otag: OutputTag,
                      hit: (ClientId, int, int) -> Option<nat>, x: int, y: int, last: Option<Surface>): (r: (Option<ClientId>, Option<Surface>))
    requires forall c :: c in ls ==> c in clients
    ensures r.0.Some? ==> r.0.value in ls && Shown(clients, o, otag, r.0.value) &&
                          r.1.Some? && r.1 == HitAt(clients, hit, r.0.value, x, y)
  {
    if ls == [] then (None, last)
    else
      var s := HitAt(clients, hit, ls[0], x, y);
      if s.Some? && Visible(clients[ls[0]], o, otag) then (Some(ls[0]), s)
      else FindClient(ls[1..], clients, o, otag, hit, x, y, s)
  }

  /** find_client on the state: the walk of the layout list. */
  function FindHere(ctx: Ctx, hit: (ClientId, int, int) -> Option<nat>, x: int, y: int, last: Option<Surface>): (r: (Option<ClientId>, Option<Surface>))
    requires Inv(ctx)
    ensures r.0.Some? ==> r.0.value in ctx.lstack && r.0.value in ctx.fstack && r.0.value in ctx.zstack && ShownHere(ctx, r.0.value)
  {
    assert forall c :: c in ctx.lstack ==> c in ctx.clients;
    var r := FindClient(ctx.lstack, ctx.clients, ctx.fo, Out(ctx).tag, hit, x, y, last);
    assert r.0.Some? ==> r.0.value in ctx.fstack && r.0.value in ctx.zstack by {
      if r.0.Some? { ShownIsLinked(ctx, r.0.value); }
    }
    r
  }

  /** move_resize(mode): grab the client under the cursor. gc is assigned
      the search result before the check, so a miss clears gc and keeps the
      mode. On a hit the mode is set; a move grab records the cursor's
      offset from the client origin, a resize grab warps the cursor to the
      client's bottom-right corner. */
  function MoveResize(ctx: Ctx, m: CursorMode, hit: (ClientId, int, int) -> Option<nat>, x: int, y: int): (r: Ctx)
    requires Inv(ctx)
    ensures Inv(r)
  {
    var found := FindHere(ctx, hit, x, y, None).0;
    var grabbed := ctx.(gc := found);
    match found
    case None => grabbed
    case Some(c) => Grab(grabbed, c, m, x, y)
  }

  /** The `switch (cursor_mode = mode)` of move_resize, once c is grabbed. */
  function Grab(ctx: Ctx, c: ClientId, m: CursorMode, x: int, y: int): (r: Ctx)
    requires c in ctx.clients
    ensures r == ctx.(mode := m, gcx := r.gcx, gcy := r.gcy, log := r.log)
    ensures Inv(ctx) ==> Inv(r)
  {
    var g := ctx.clients[c].geom;
    match m
    case Move => ctx.(mode := Move, gcx := x - g.x, gcy := y - g.y, log := ctx.log + [CursorImage("fleur")])
    case Resize => ctx.(mode := Resize, log := ctx.log + [CursorWarp(g.x + g.width, g.y + g.height), CursorImage("bottom_right_corner")])
    case Normal => ctx.(mode := Normal)
  }

  /** cursor_button_notify: a press focuses the client under the cursor
      (with the surface find_client left behind) and is forwarded; a
      release outside Normal mode ends the grab and is swallowed; any other
      release is forwarded. */
  function CursorButton(ctx: Ctx, time: nat, button: nat, state: ButtonState,
                        hit: (ClientId, int, int) -> Option<nat>, x: int, y: int, init: Option<Surface>): (r: Ctx)
    requires Inv(ctx)
    ensures Inv(r)
  {
    var (c, s) := FindHere(ctx, hit, x, y, init);
    match state
    case Pressed =>
      var focused := FocusClient(ctx, c, s);
      focused.(log := focused.log + [PointerButton(time, button, state)])
    case Released =>
      if ctx.mode != Normal then ctx.(mode := Normal, log := ctx.log + [CursorImage("left_ptr")])
      else ctx.(log := ctx.log + [PointerButton(time, button, state)])
  }

  /** process_cursor_move: place the grabbed client's origin at the cursor
      minus the recorded offset. */
  function CursorMove(ctx: Ctx, x: int, y: int): (r: Ctx)
    requires Inv(ctx) && ctx.gc.Some?
    ensures Inv(r)
    ensures r == ctx.(clients := r.clients)
  {
    var c := ctx.gc.value;
    var cl := ctx.clients[c];
    ctx.(clients := ctx.clients[c := cl.(geom := cl.geom.(x := x - ctx.gcx, y := y - ctx.gcy))])
  }

  /** process_cursor_motion: in Move mode move the grabbed client, in
      Resize mode do nothing (process_cursor_resize changes no state). In
      Normal mode, reset the cursor image when no client is under the
      cursor; then give pointer focus to the surface find_client left
      behind, sending motion only when that focus did not change, and with
      follow_mouse set also keyboard focus; without a surface clear pointer
      focus. */
  function CursorMotion(ctx: Ctx, time: nat, hit: (ClientId, int, int) -> Option<nat>, x: int, y: int, followMouse: nat): (r: Ctx)
    requires Inv(ctx) && (ctx.mode == Move ==> ctx.gc.Some?)
    ensures Inv(r)
  {
    var (c, s) := FindHere(ctx, hit, x, y, None);
    match ctx.mode
    case Move => CursorMove(ctx, x, y)
    case Resize => ctx
    case Normal =>
      var imaged := if c.None? then ctx.(log := ctx.log + [CursorImage("left_ptr")]) else ctx;
      match s
      case None => imaged.(pointer := None, log := imaged.log + [PointerClear])
      case Some(surf) =>
        var entered := imaged.(pointer := s,
                               log := imaged.log + [PointerEnter(surf)] + (if imaged.pointer == s then [PointerMotion(surf, time)] else []));
        if followMouse != 0 then FocusClient(entered, c, s) else entered
  }

  // ---------------------------------------------------------------------
  // Keyboard

  /** xkb keysyms of the bound keys (xkbcommon-keysyms.h). */
  type Keysym = bv32
  const KeyEscape: Keysym := 0xff1b
  const Key1: Keysym := 0x31
  const Key2: Keysym := 0x32
  const KeyJ: Keysym := 0x6a
  const KeyK: Keysym := 0x6b
  const KeyT: Keysym := 0x74
  const KeyM: Keysym := 0x6d
  const KeyS: Keysym := 0x73

  predicate Bound(sym: Keysym)
  {
    sym in {KeyEscape, Key1, Key2, KeyJ, KeyK, KeyT, KeyM, KeyS}
  }

  /** process_keybindings(sym): run the bound command and report whether
      the key was bound. Escape terminates the display; 1 and 2 toggle tag
      bits 0 and 1; j and k walk the focus forward and back; t and m select
      tiling and monocle; s swaps the master. Each layout call is the
      unguarded one, which is safe because only layouts 0 and 1 are ever
      selected. The source calls swap_master() for s even when no client
      is visible, and then dereferences NULL; here s runs the corrected
      SwapMasterGuarded, which changes nothing in that case. */
  function ProcessKeybindings(ctx: Ctx, sym: Keysym): (r: (Ctx, bool))
    requires Inv(ctx)
    ensures Inv(r.0)
    ensures r.1 <==> Bound(sym)
    ensures !r.1 ==> r.0 == ctx
  {
    if sym == KeyEscape then (ctx.(log := ctx.log + [Terminate]), true)
    else if sym == Key1 then (ToggleTag(ctx, 1), true)
    else if sym == Key2 then (ToggleTag(ctx, 2), true)
    else if sym == KeyJ then (FocusNext(ctx, 1), true)
    else if sym == KeyK then (FocusNext(ctx, -1), true)
    else if sym == KeyT then (Arrange(WithLayout(ctx, 0)), true)
    else if sym == KeyM then (Arrange(WithLayout(ctx, 1)), true)
    else if sym == KeyS then (Arrange(SwapMasterGuarded(ctx)), true)
    else (ctx, false)
  }

  /** The loop of keyboard_key_notify over the keysyms of one key: every
      keysym is processed and `handled` keeps only the last result. */
  function Bindings(ctx: Ctx, syms: seq<Keysym>): (r: (Ctx, bool))
    requires Inv(ctx)
    ensures Inv(r.0)
    ensures r.1 <==> syms != [] && Bound(syms[|syms| - 1])
  {
    if syms == [] then (ctx, false)
    else ProcessKeybindings(Bindings(ctx, syms[..|syms| - 1]).0, syms[|syms| - 1])
  }

  /** keyboard_key_notify: with the modifier held on a press the keysyms go
      through the bindings; a key that was not handled is forwarded to the
      focused client. */
  function KeyNotify(ctx: Ctx, time: nat, keycode: nat, state: ButtonState, mods: bv32, syms: seq<Keysym>): (r: Ctx)
    requires Inv(ctx)
    ensures Inv(r)
  {
    var (after, handled) := if mods & ModKey != 0 && state == Pressed then Bindings(ctx, syms) else (ctx, false);
    if handled then after else after.(log := after.log + [KeyForward(time, keycode, state)])
  }

  // ---------------------------------------------------------------------
  // Rendering arithmetic

  /** An int32 result of unsigned 32-bit arithmetic: the value modulo 2^32,
      read back as two's complement. */
  function Wrap32(v: int): (r: int)
    ensures -0x8000_0000 <= r < 0x8000_0000
    ensures (r - v) % 0x1_0000_0000 == 0
  {
    var m := v % 0x1_0000_0000;
    if m < 0x8000_0000 then m else m - 0x1_0000_0000
  }

  /** scale_box(box, scale): each field is multiplied by the uint32 scale
      in unsigned arithmetic and stored back into the int field. */
  function ScaleBox(b: Box, scale: nat): (r: Box)
    requires scale < 0x1_0000_0000
    ensures -0x8000_0000 <= r.x < 0x8000_0000 && (r.x - b.x * scale) % 0x1_0000_0000 == 0
    ensures -0x8000_0000 <= r.y < 0x8000_0000 && (r.y - b.y * scale) % 0x1_0000_0000 == 0
    ensures -0x8000_0000 <= r.width < 0x8000_0000 && (r.width - b.width * scale) % 0x1_0000_0000 == 0
    ensures -0x8000_0000 <= r.height < 0x8000_0000 && (r.height - b.height * scale) % 0x1_0000_0000 == 0
  {
    Box(Wrap32(b.x * scale), Wrap32(b.y * scale), Wrap32(b.width * scale), Wrap32(b.height * scale))
  }
}
