# swlc window-management policy in Dafny

swlc is a small tiling Wayland compositor built on wlroots. This project
models its window-management policy and proves properties of it:

- the client records with their tags and visibility (`visible`);
- the three `wl_list`s `lstack` (layout order), `fstack` (focus order) and
  `zstack` (stacking order), modelled as duplicate-free sequences of
  client identities;
- keyboard focus (`focus_client`, `fstack_top`, `focus_next`);
- the tag commands (`toggle_tag`, `switch_tag`, `set_tag`);
- `swap_master`;
- the two layouts, `tile` (tile.c) and `monocle` (monocle.c), and the
  layout registry of config.h;
- the surface lifecycle (`new_xdg_surface_notify`, map, unmap);
- the field defaults of a new output;
- the interactive grab machine (`find_client`, `move_resize`,
  `cursor_button_notify`, `process_cursor_move`/`resize`/`motion`);
- the keybinding table (`process_keybindings`, `keyboard_key_notify`);
- `scale_box`, with 32-bit wrap-around.

Every call into wlroots or the Wayland seat (surface activation, keyboard
and pointer enter, cursor image and warp, key forwarding,
`wl_display_terminate`) becomes an `Event` appended to a log, in the
order the C code makes the calls.

Modules, in dependency order:

- `Types` holds the records and widths of wlc.h.
- `Config` holds config.h.
- `Stacks` holds the list operations: remove, insert at the head, the
  circular walk.
- `Clients` holds visibility, the first-visible scan, `move`/`resize` and
  the circular scan of `focus_next`.
- `TileLayout` and `MonocleLayout` hold the layouts. Each is a method
  with the source's loops, proved against a function that says where
  every client ends up.
- `Policy` is the whole compositor state as a value (`Ctx`), with one
  function per operation of wlc.c. Its invariant `Inv` says:
  - the stacks have no duplicates;
  - a client is in all three stacks exactly when it is mapped on an
    output;
  - the focused output exists and has a usable layout.
- `PolicyProps` holds the lemmas about `Policy`.
- `Wlc` holds `class Server`, whose fields are the compositor's globals.
  Each method updates those fields in place, as the C code does. Each
  method proves that the new state is the `Policy` function of the old
  one (`Snapshot() == Policy.Op(old(Snapshot()), ...)`) and that `Valid()`
  (the invariant) is kept.

The `Policy` functions are the reference definitions: the lemmas of
`PolicyProps` are stated about them. The `Server` methods are the
imperative form, and each is tied to its reference by its postcondition.

Some behaviours of the code are easy to misread; the model follows the
code:

- **`focus_next`.** The code walks the layout list `lstack`, starting at
  the head of the focus list. It is not a walk of the focus list.
- **Alt+s.** `swap_master` itself returns early when the focus head is
  already master (wlc.c:152), but the Alt+s binding re-runs the layout
  after it all the same (wlc.c:779-781). When nothing is visible,
  `swap_master` dereferences NULL (see Findings).
- **Resize grab.** Motion during a resize grab changes nothing, because
  `process_cursor_resize` is empty.
- **`find_client`.** It searches `lstack`, not the stacking order.
- **Unmap.** Unmapping the focused client when no other client is
  visible leaves the keyboard focus where it was.
- **Zero-initialised state.** `cursor_mode` starts at 0, which is
  `WLC_CURSOR_RESIZE`. So the first button release in the initial state
  is swallowed: it only resets the cursor image (`FirstReleaseSwallowed`).
- **New output.** `new_output_notify` returns early when
  `wlr_output_commit` *succeeds* (wlc.c:709-711). So, as written, an output
  with modes whose commit succeeds gets no record, and `foutput` is never
  set from it (see Findings). The rest of the model follows the evidently
  intended test, in which a successful commit goes on to record the output.
- **Key forwarding.** A key is forwarded to the client whenever the last
  keysym was not bound. This includes a press with the modifier held and
  every release.

## Model

| member | source | states |
|---|---|---|
| Types.TruncateTag | wlc.h:39-53 | assigning a 16-bit output tag to the 8-bit client tag keeps its low byte, and keeps small tags unchanged |
| Types.TruncatedTagOverlap | wlc.h:39-53 | a truncated tag overlaps another output tag in exactly the low-byte bits they share |
| Types.ModeValue | wlc.h:18-22 | the cursor modes are numbered below 3, and only `Resize` is 0, the zero-initialised value |
| Types.ModeOfValue | wlc.h:18-22 | every enumerator value 0..2 names the mode with that number |
| Types.ModeValueInjective | wlc.h:18-22 | the numbering of the modes is a bijection |
| Config.LayoutAt | config.h:6-10 | layout 0 is tile, 1 is monocle, 2 has no procedure, and only 2 lacks one |
| Config.RegistryShape | config.h:6-10 | the registry has three entries labelled "t", "m", "f", and only the third has no procedure |
| Stacks.Remove | wlc.c:127-140 | `wl_list_remove`: removes exactly c, keeps the others, keeps the list duplicate-free, and shortens it by one when c was there |
| Stacks.MoveToHead | wlc.c:127-140 | `set_*stack_head`: c comes first, the members are those of the old list, no duplicates appear, and the rest is the old list without c |
| Stacks.MoveToHeadKeepsOthers | wlc.c:127-140 | moving c to the head leaves the relative order of the other clients unchanged |
| Stacks.MoveToHeadOfHead | wlc.c:127-140 | moving the current head to the head changes nothing |
| Stacks.Reversed | wlc.c:179-183 | `wl_list_for_each_reverse` visits the list back to front: position i of the walk holds element n-1-i |
| Stacks.CircularFrom | wlc.c:166-185 | the walk from a client round the circular list visits n-1 elements, one for every other position |
| Stacks.IndexOf | wlc.c:166-185 | the position of a member is the first position holding it |
| Stacks.IndexOfUnique | wlc.c:166-185 | in a duplicate-free list the position of s[i] is i |
| Stacks.ReversedMembers | wlc.c:179-183 | walking the list backwards visits the same clients |
| Stacks.CircularFromMembers | wlc.c:166-185 | the circular walk from a client visits every other client of the list and not the client itself |
| Stacks.CircularFromAt | wlc.c:166-185 | step k of the circular walk is the k-th neighbour of the start in the walk's direction, wrapping at either end |
| Stacks.WalkPosSteps | wlc.c:166-185 | each step of the walk moves to the next or previous position, and the n-th step (index n-1) lands back on the start |
| Clients.Visible | wlc.c:123-125 | a visible client is mapped on the output, and neither its tag nor the output's tag is 0 |
| Clients.UnmappedNeverVisible | wlc.c:123-125 | a client with no output is never visible |
| Clients.InheritedTagVisibility | wlc.c:123-125 | a client that took the tag of output tag t is visible under tag u exactly when t and u share a low-byte bit |
| Clients.FirstShown | wlc.c:232-238 | first visible client of a list: a result is a visible member; no result means no member is visible |
| Clients.FirstShownIsFirst | wlc.c:232-238 | the first visible client is s[i] exactly when s[i] is visible and nothing before it is |
| Clients.FirstShownSkip | wlc.c:232-238 | an invisible client may be skipped without changing the first visible one |
| Clients.VisibleSeq | tile.c:2-7 | the visible subsequence holds exactly the visible members of the list |
| Clients.VisibleSeqAppend | tile.c:27-41 | the visible subsequence of a concatenation is the concatenation of the visible subsequences |
| Clients.VisibleSeqNoDup | tile.c:27-41 | the visible subsequence of a duplicate-free list is duplicate-free |
| Clients.VisibleSeqCountBefore | tile.c:27-41 | a visible client has fewer visible clients before it than there are in all |
| Clients.VisibleCount | tile.c:2-7 | the number of visible clients among the first i is at most i |
| Clients.VisibleCountIsLength | tile.c:2-7 | the counting loop counts the visible subsequence |
| Clients.VisibleCountMono | tile.c:2-7 | the count never decreases along the list |
| Clients.VisibleSeqIndex | tile.c:27-41 | a visible client's slot among the visible clients is the number of visible clients before it |
| Clients.VisibleSeqAgree | tile.c:27-41 | the visible subsequence depends only on which clients are visible |
| Clients.Moved | wlc.c:240-243 | `move` sets the origin and keeps the size, output and tag |
| Clients.Resized | wlc.c:245-249 | `resize` sets the size and keeps the origin, output and tag |
| Clients.CircularScan | wlc.c:166-185 | the loops of `focus_next` return the first visible client after the start (forwards or backwards around the list), or the start itself when there is none |
| Clients.WalkTarget | wlc.c:166-185 | the target of the walk is a member of the list |
| Clients.WalkHit | wlc.c:169-172 | a visible neighbour met by the walk is its target |
| Clients.WalkSkip | wlc.c:169-172 | an invisible neighbour is stepped over and the walk's state is kept |
| Clients.WalkEnd | wlc.c:185 | when the walk comes all the way round, the loop cursor is back at the start, and that is the target |
| TileLayout.MasterWidth | tile.c:13-19 | the master column is never wider than the output, and is the whole output when no client goes to the stack |
| TileLayout.StackWidth | tile.c:23 | the stack column is never wider than the output, and is 0 when no client goes to the stack |
| TileLayout.StackHeight | tile.c:14-20 | the nc − n_master stack rows fit in the output height and leave less than one pixel per row unused; without a stack the height is 0 |
| TileLayout.RowY | tile.c:27-41 | the running offset after j rows of height h (`my += mh`, `cy += ch`) is j·h |
| TileLayout.TileBox | tile.c:9-41 | a slot box has non-negative fields; a master slot sits at x = 0, a stack slot at x = mw and ends within the output width |
| TileLayout.TileColumnsWidth | tile.c:9-25 | the master column takes the whole width when all visible clients fit in it; otherwise master and stack widths add up to the output width, or one less from truncation |
| TileLayout.TileBoxInside | tile.c:9-41 | every tiled box lies inside the output |
| TileLayout.TileBoxesDisjoint | tile.c:9-41 | the boxes of two distinct slots do not overlap |
| TileLayout.TileZeroMasters | tile.c:9-41 | with n_master = 0 every client goes to the stack column at x = ow·f_master, with rows oh/nc high |
| TileLayout.TileMasterColumn | tile.c:12-34 | master clients sit at x = 0, as wide as the output or as ow·f_master, and the last master row ends within n_master of the bottom |
| TileLayout.TileStackColumn | tile.c:18-40 | stack clients sit at x = ow·f_master, each oh/(nc − n_master) high, and the last row ends within nc − n_master of the bottom |
| TileLayout.TileExample | tile.c:9-41 | with 1920×1080, one master, f = 1/2 and three clients: one full-height master column and two half-height stack rows |
| TileLayout.Tiled | tile.c:27-41 | tiling changes only the geometry of visible clients of the list, never an output or a tag |
| TileLayout.TiledSlot | tile.c:27-41 | the k-th visible client in layout order receives slot k |
| TileLayout.TiledAt | tile.c:27-41 | the visible client at list position i receives the slot counting the visible clients before it |
| TileLayout.TiledDisjoint | tile.c:27-41 | after tiling, two distinct visible clients do not overlap and each lies inside the output |
| TileLayout.TiledIgnoresGeometry | tile.c:2-41 | the result does not depend on the clients' previous geometry |
| TileLayout.TiledIdempotent | tile.c:2-41 | tiling twice is tiling once |
| TileLayout.PlaceMaster | tile.c:30-35 | one master step of the loop (`resize`, `move`, `my += mh`) puts the client at its slot |
| TileLayout.PlaceStack | tile.c:38-40 | one stack step of the loop (`resize`, `move`, `cy += ch`) puts the client at its slot |
| TileLayout.PlacedUpTo | tile.c:27-41 | after i steps of the loop no client is added or removed |
| TileLayout.PlacedUpToAt | tile.c:27-41 | after i steps, a client holds its slot when it is visible and among the first i, and is untouched otherwise |
| TileLayout.Placed | tile.c:27-41 | the loop keeps the set of clients |
| TileLayout.PlacedIsTiled | tile.c:27-41 | on a duplicate-free list the placement loop produces the tiling |
| TileLayout.TileStep | tile.c:28-41 | one loop iteration keeps the loop invariant (master count, the my and cy accumulators, the clients placed so far) |
| TileLayout.CountVisible | tile.c:2-7 | the first loop counts the visible clients of the list |
| TileLayout.Tile | tile.c:2-42 | `tile` computes the placement, which on a duplicate-free list is the tiling |
| MonocleLayout.FullBox | monocle.c:7-8 | the monocle box is the whole output at the origin |
| MonocleLayout.MonocledUpTo | monocle.c:4-9 | the first i steps change only geometry |
| MonocleLayout.Monocled | monocle.c:2-11 | every visible client of the list gets the full output box; all others are unchanged |
| MonocleLayout.Monocle | monocle.c:2-11 | the loop of `monocle` produces that map |
| MonocleLayout.MonocledVisibleFull | monocle.c:2-11 | monocle keeps visibility, and every visible client shows exactly the output box |
| MonocleLayout.MonocledIdempotent | monocle.c:2-11 | running monocle twice is running it once |
| MonocleLayout.MonocledSameBox | monocle.c:2-11 | any two visible clients have the same box |
| Policy.Out | wlc.c:123-125 | the focused output is one of the outputs |
| Policy.ShownIsLinked | wlc.c:522-533 | a visible client is in all three stacks |
| Policy.FstackTop | wlc.c:232-238 | a result is a visible member of the focus list; no result means nothing in it is visible |
| Policy.FocusClient | wlc.c:280-320 | `focus_client` changes only the focus and stacking lists, the keyboard focus and the log, and keeps the invariant |
| Policy.FocusTop | wlc.c:258-261 | focusing the top of the focus list keeps the invariant and changes only focus state |
| Policy.NextTarget | wlc.c:166-185 | the target of `focus_next` is in the layout list and is either the start or a visible client |
| Policy.FocusNext | wlc.c:166-185 | `focus_next` keeps the invariant and changes only focus state |
| Policy.Arrange | wlc.c:257 | re-running the layout changes only client geometry, never outputs or tags, and keeps the invariant |
| Policy.WithTag | wlc.c:253-271 | setting the output's tag changes that field only, and keeps the invariant |
| Policy.WithLayout | wlc.c:771-778 | setting the output's layout changes that field only, and keeps the invariant for layouts 0 and 1 |
| Policy.ToggleTag | wlc.c:253-262 | `toggle_tag` keeps the invariant |
| Policy.SwitchTag | wlc.c:266-271 | `switch_tag` keeps the invariant |
| Policy.SetTag | wlc.c:273-277 | `set_tag` keeps the invariant |
| Policy.SwapMaster | wlc.c:147-158 | `swap_master`, given a visible focused client, changes only the layout list and keeps the invariant |
| Policy.SwapMasterGuarded | wlc.c:147-158 | the guarded `swap_master` changes nothing when nothing is visible, and otherwise behaves as `swap_master` |
| Policy.MapNotify | wlc.c:522-533 | mapping keeps the invariant |
| Policy.MapLinked | wlc.c:524-530 | the first half of the map handler: c is put on the focused output with the surface's geometry, keeps its tag, and heads all three lists in front of the old ones; no other client or field changes |
| Policy.LinkedAtHead | wlc.c:522-530 | putting the newly mapped client on the output and at the head of the three lists keeps the invariant |
| Policy.UnmapNotify | wlc.c:493-509 | unmapping keeps the invariant |
| Policy.Unlinked | wlc.c:493-498 | after unlinking, the client has no output and is in none of the lists |
| Policy.NewXdgSurface | wlc.c:550-582 | a new surface keeps the invariant |
| Policy.NewOutput | wlc.c:726-734 | a new output takes the geometry of its layout box |
| Policy.NewOutputNotify | wlc.c:714-737 | recording an output adds it with its layout box at the head of the outputs list, keeps every other output, changes nothing else and keeps the invariant |
| Policy.NewOutputAsWritten | wlc.c:701-737 | as written, an output is recorded exactly when it has no modes or its commit fails; a successful commit of an output with modes leaves the state unchanged |
| Policy.NewOutputGuarded | wlc.c:701-737 | as intended, an output is recorded exactly when it has no modes or its commit succeeds, and then as by `Policy.NewOutputNotify` |
| PolicyProps.NewOutputCommitDropped | wlc.c:709-711 | for an output with modes whose commit succeeds, the handler as written records nothing, while the intended one records the output |
| Policy.Initial | wlc.c:901-976 | the zero-initialised start state with one output satisfies the invariant |
| Policy.HitAt | wlc.c:325-334 | a surface hit belongs to the client tested |
| Policy.FindClient | wlc.c:338-349 | a found client is a visible member of the list and its hit surface is returned |
| Policy.FindHere | wlc.c:338-349 | a found client is visible and in all three lists |
| Policy.MoveResize | wlc.c:368-390 | `move_resize` keeps the invariant |
| Policy.Grab | wlc.c:377-389 | starting a grab on a client changes only the mode, the grab offsets and the log, and keeps the invariant |
| Policy.CursorButton | wlc.c:393-421 | a button event keeps the invariant |
| Policy.CursorMove | wlc.c:434-437 | dragging changes only the client records and keeps the invariant |
| Policy.CursorMotion | wlc.c:440-473 | cursor motion keeps the invariant |
| Policy.ProcessKeybindings | wlc.c:754-787 | a keysym is handled exactly when it is bound, an unbound one changes nothing, and the invariant is kept |
| Policy.Bindings | wlc.c:810-814 | the loop over keysyms reports the result of the last one |
| Policy.KeyNotify | wlc.c:797-823 | a key event keeps the invariant |
| Policy.Wrap32 | wlc.c:585-590 | the conversion back to a 32-bit int lands in the int32 range and agrees with the value modulo 2^32 |
| Policy.ScaleBox | wlc.c:585-590 | every field of the scaled box is in the int32 range and agrees with field·scale modulo 2^32 |
| PolicyProps.FstackTopIsFirst | wlc.c:232-238 | `fstack_top` is fstack[i] exactly when fstack[i] is visible and nothing before it is |
| PolicyProps.FocusClientEffect | wlc.c:280-320 | the target focused already: nothing happens. NULL target: the old surface is deactivated and keyboard focus cleared. Otherwise the client goes to the head of fstack and zstack, is activated and gets keyboard enter, and becomes the focus |
| PolicyProps.FocusTopEffect | wlc.c:258-261 | with nothing visible focus is left alone; otherwise the top of the focus list is focused |
| PolicyProps.NextTargetStays | wlc.c:166-185 | `focus_next` stays on the current client exactly when no other client of the layout list is visible |
| PolicyProps.NextTargetNeighbour | wlc.c:166-185 | a visible neighbour in the walk's direction is the target |
| PolicyProps.FocusNextAlone | wlc.c:166-185 | with nothing visible `focus_next` does nothing; otherwise it focuses the walk's target |
| PolicyProps.ToggleTagEffect | wlc.c:253-262 | toggling to tag 0 does nothing; otherwise the tag becomes tag XOR t, the layout re-runs under it, the first visible client of the focus stack under the new tag is focused on its main surface, or the focus stays put when none is visible; lstack is unchanged |
| PolicyProps.ToggleTagTag | wlc.c:253-262 | the tag after `toggle_tag` is the old tag XOR t, unless that would be 0 |
| PolicyProps.ToggledTagTwice | wlc.c:253-262 | a nonzero tag never becomes 0, and toggling the same mask twice brings it back |
| PolicyProps.XorSelf | wlc.c:255-256 | the XOR is 0 exactly when the mask equals the tag |
| PolicyProps.XorTwice | wlc.c:255 | XOR with the same mask twice is the identity |
| PolicyProps.SwitchTagEffect | wlc.c:266-271 | `switch_tag` sets the tag outright and keeps lstack and every client tag; the layout re-runs under t and the first visible client of the focus stack is focused, or the focus stays put when none is visible |
| PolicyProps.FirstShownSameShown | wlc.c:232-238 | the first visible client of a list depends only on which clients are visible |
| PolicyProps.ArrangeKeepsTop | wlc.c:257-258 | re-running the layout does not change `fstack_top` |
| PolicyProps.RetagRefocus | wlc.c:256-260 | after a new tag is set, the layout re-runs and the top visible client under the new tag is focused, or the focus stays put when none is visible |
| PolicyProps.SetTagEffect | wlc.c:273-277 | `set_tag` gives the top client the truncated tag, leaves the other clients' tags, and does not refocus |
| PolicyProps.SwapMasterEffect | wlc.c:147-158 | the focused client already master: unchanged. Otherwise it is moved to the head of lstack and nothing else changes |
| PolicyProps.SwapMasterUndefinedWhenEmpty | wlc.c:147-158 | the initial state satisfies the invariant and has no visible client, the case in which `swap_master` dereferences NULL |
| PolicyProps.MapNotifyEffect | wlc.c:522-533 | a mapped client gets the output and its tag and heads all three lists; it is focused on its own surface and the layout re-runs |
| PolicyProps.UnmapNotifyEffect | wlc.c:493-509 | the client leaves all lists and its output. If some client was visible, the first of them in the remaining focus list is focused; otherwise the focus is left stale |
| PolicyProps.FirstShownAgree | wlc.c:500-505 | changing a client that is not in the list does not change the first visible one |
| PolicyProps.NewXdgSurfaceEffect | wlc.c:550-582 | a popup creates no client; a toplevel creates an unmapped client in no list, and nothing else changes |
| PolicyProps.NewOutputDefaults | wlc.c:726-729 | a new output has n_master 1, f_master 55/100 (a proper fraction), layout 0 and tag 1 |
| PolicyProps.ArrangeEffect | config.h:6-10 | layout 0 tiles and 1 monocles the layout list, 2 changes nothing, and arranging twice is arranging once |
| PolicyProps.FindClientFirst | wlc.c:338-349 | a found client is the first one of lstack that is hit and visible |
| PolicyProps.FindClientNone | wlc.c:338-349 | nothing is found exactly when no client of lstack is both hit and visible |
| PolicyProps.FindClientMissLeaves | wlc.c:338-349 | on a miss the surface out-parameter holds the hit test of the last client, or the caller's value when the list is empty |
| PolicyProps.MoveResizeEffect | wlc.c:368-390 | `gc` becomes the client found or NULL; on a miss nothing else changes; on a hit the mode is set; a move records the offset and a resize warps to the far corner |
| PolicyProps.CursorMoveEffect | wlc.c:434-437 | a drag sets the grabbed client's origin to the cursor minus the grab offset and keeps its size |
| PolicyProps.MoveGrabDrags | wlc.c:368-437 | after a move grab, dragging shifts the client's origin by the cursor's displacement and keeps its size |
| PolicyProps.ReleaseEffect | wlc.c:410-416 | a release in a grab resets the cursor image and returns to Normal; in Normal it only forwards the button |
| PolicyProps.PressEffect | wlc.c:416-420 | a press focuses the visible client under the cursor, if any, and forwards the button |
| PolicyProps.FirstReleaseSwallowed | wlc.c:410-416 | the zero-initialised mode is Resize, so the first release only resets the cursor image and switches to Normal |
| PolicyProps.MotionEffect | wlc.c:440-473 | motion during a resize grab does nothing; with `follow_mouse` off it changes neither keyboard focus nor the lists; in Normal mode the pointer gets the surface under the cursor |
| PolicyProps.BindingsUnbound | wlc.c:810-814 | a sequence of unbound keysyms changes nothing and is not handled |
| PolicyProps.KeyNotifyEffect | wlc.c:797-823 | the bindings run only with MODKEY held on a press; the key is forwarded exactly when the result is unhandled |
| PolicyProps.UnboundKeyForwarded | wlc.c:816-822 | a press of only unbound keysyms reaches the client unchanged |
| PolicyProps.BoundThenUnbound | wlc.c:810-814 | a bound keysym followed by an unbound one runs the binding yet forwards the key |
| PolicyProps.Wrap32Small | wlc.c:585-590 | values already in the int32 range do not wrap |
| PolicyProps.ScaleBoxExact | wlc.c:585-590 | without overflow every field is multiplied by the scale |
| PolicyProps.ScaleBoxOne | wlc.c:585-590 | scale 1 leaves the box unchanged |
| PolicyProps.ScaleBoxNegative | wlc.c:585-590 | negative coordinates scale as signed values |
| PolicyProps.ScaleBoxOverflow | wlc.c:585-590 | a product beyond int32 wraps around to a negative value |
| Wlc.Server.constructor | wlc.c:901-976 | a new server is in the zero-initialised start state with one output, and valid |
| Wlc.Server.FirstVisible | wlc.c:150-153 | the loop finds the first visible client of a list |
| Wlc.Server.FstackTop | wlc.c:232-238 | the loop over fstack returns `fstack_top`, a visible client in all three lists |
| Wlc.Server.SetLstackHead | wlc.c:127-130 | lstack becomes c followed by the old lstack without c; nothing else changes |
| Wlc.Server.SetFstackHead | wlc.c:132-135 | the same for fstack |
| Wlc.Server.SetZstackHead | wlc.c:137-140 | the same for zstack |
| Wlc.Server.FocusClient | wlc.c:280-320 | in-place `focus_client` reaches the state of `Policy.FocusClient` |
| Wlc.Server.FocusTop | wlc.c:258-261 | refocusing reaches the state of `Policy.FocusTop` and keeps `Valid()` |
| Wlc.Server.FocusNext | wlc.c:166-185 | `focus_next` reaches the state of `Policy.FocusNext` and keeps `Valid()` |
| Wlc.Server.Arrange | wlc.c:257 | running the current layout reaches the state of `Policy.Arrange` and keeps `Valid()` |
| Wlc.Server.SwapMaster | wlc.c:147-158 | `swap_master` reaches the state of `Policy.SwapMaster` and keeps `Valid()` |
| Wlc.Server.ToggleTag | wlc.c:253-262 | `toggle_tag` reaches the state of `Policy.ToggleTag` and keeps `Valid()` |
| Wlc.Server.SwitchTag | wlc.c:266-271 | `switch_tag` reaches the state of `Policy.SwitchTag` and keeps `Valid()` |
| Wlc.Server.SetTag | wlc.c:273-277 | `set_tag` reaches the state of `Policy.SetTag` and keeps `Valid()` |
| Wlc.Server.MapNotify | wlc.c:522-533 | the map handler reaches the state of `Policy.MapNotify` and keeps `Valid()` |
| Wlc.Server.UnmapNotify | wlc.c:493-509 | the unmap handler reaches the state of `Policy.UnmapNotify` and keeps `Valid()` |
| Wlc.Server.NewXdgSurface | wlc.c:550-582 | the new-surface handler reaches the state of `Policy.NewXdgSurface` and keeps `Valid()` |
| Wlc.Server.NewOutputNotify | wlc.c:715-737 | the new-output handler reaches the state of `Policy.NewOutputNotify` and keeps `Valid()` |
| Wlc.Server.FindClient | wlc.c:338-349 | the loop of `find_client` returns what `Policy.FindHere` describes, including the surface left in `*s` |
| Wlc.Server.MoveResize | wlc.c:368-390 | `move_resize` reaches the state of `Policy.MoveResize` and keeps `Valid()` |
| Wlc.Server.Grab | wlc.c:377-389 | starting a grab reaches the state of `Policy.Grab` |
| Wlc.Server.CursorButton | wlc.c:393-421 | the button handler reaches the state of `Policy.CursorButton` and keeps `Valid()` |
| Wlc.Server.ProcessCursorMove | wlc.c:434-437 | dragging reaches the state of `Policy.CursorMove` and keeps `Valid()` |
| Wlc.Server.ProcessCursorMotion | wlc.c:423-473 | the motion handler reaches the state of `Policy.CursorMotion` and keeps `Valid()` |
| Wlc.Server.ProcessKeybindings | wlc.c:754-787 | the keybinding switch reaches the state and result of `Policy.ProcessKeybindings` and keeps `Valid()` |
| Wlc.Server.KeyboardKeyNotify | wlc.c:797-823 | the key handler, with its loop over keysyms, reaches the state of `Policy.KeyNotify` and keeps `Valid()` |

## Left out

- Rendering, frame scheduling, damage, `setup`, `run`, `cleanup`, the input-device handlers and `cursor_to_output` are not modelled. They are backend plumbing, with no window-management policy.
- The xkb keymap lookup is left out: the keysyms of a key event are a parameter. So is the `+ 8` keycode offset, which only feeds that lookup.
- The cursor position and the result of `wlr_xdg_surface_surface_at` are parameters. The hit test is a function from a client and surface-local coordinates to an optional sub-surface. The surface-local coordinates `sx`/`sy` it writes are not kept.
- `double` arithmetic is left out. `f_master` is a ratio of integers. Each `double` that the C code stores into an integer is floored at that point (tile.c:12-24). `gcx` and `gcy` are `uint32_t` in the source but exact integers here.
- Calls to `wlr_xdg_toplevel_set_size` are not logged. Geometry is kept in the client records, and a client's size request is not modelled.
- `xdg_surface_destroy_notify` and freeing are left out. Memory management is not part of the policy.
- `output_destroy_notify` is left out. In `new_output_notify`, the mode setting and the listeners are left out. Whether the output has modes and whether its commit succeeds are parameters of `Policy.NewOutputAsWritten` and `Policy.NewOutputGuarded`.
- Policy.NewOutputNotify, Wlc.Server.NewOutputNotify, Policy.Initial: these model the handler on the recording path, the intended one for a successful commit. As written, the handler returns before recording an output with modes whose commit succeeds (wlc.c:709-711; see Findings), and `foutput` then stays NULL.
- `focus_next` walks the intrusive list from `cc` and passes over the list header, which `visible` then reads as if it were a client. The model's walk passes over the header without reading it.
- `wlr_seat_set_keyboard` and `keyboard_modifiers_notify` are left out. They report only device state.
- `follow_mouse` (config.h:14) is a parameter of `Policy.CursorMotion` and `Wlc.Server.ProcessCursorMotion`. `PolicyProps.MotionEffect` fixes it to the configured value 0.
- `cursor_button_notify` passes its never-initialised `struct wlr_surface *s` to `find_client`. The initial contents of `*s` are a parameter.
- `move_resize` has no live caller, because the call at wlc.c:406 is commented out. It is modelled all the same.
- PolicyProps.ToggledTagTwice: the toggle-twice property is stated on the tag value rather than on two nested `toggle_tag` states.
- Policy.CursorMotion: it requires that a move grab holds a client (`gc` set in Move mode). The C code simply dereferences `gc` in that case.
- Policy.SwapMaster: it requires a visible focused client. The C code dereferences NULL without one; see Findings.
- Policy.ProcessKeybindings, Wlc.Server.ProcessKeybindings: Alt+s runs the corrected `SwapMasterGuarded`, which changes nothing when no client is visible. The C code calls `swap_master` unguarded (wlc.c:779-781) and crashes in that case. `Policy.Bindings`, `Policy.KeyNotify` and `Wlc.Server.KeyboardKeyNotify` inherit this.
- Policy.Grab, Policy.CursorMove: the grab offset (wlc.c:377-378) is an exact integer. The C code stores it in a `uint32_t`, which wraps when the cursor is left of or above the client's origin, and reads it back in `double` arithmetic (wlc.c:435-436). The model does not capture that wrap or the out-of-range result it then produces.

## Findings

| source | as written | input that shows it | evidently intended | confidence | as-written member | corrected member |
|---|---|---|---|---|---|---|
| wlc.c:147-158 | `swap_master` reads `fstack_top()->llink` and the first visible client of `lstack` without checking for NULL | Alt+s when no client is visible on the focused output, e.g. right after start-up | no-op when no client is visible | not executed | PolicyProps.SwapMasterUndefinedWhenEmpty | Policy.SwapMasterGuarded |
| wlc.c:709-711 | `new_output_notify` returns before recording the output when `wlr_output_commit` returns true, i.e. on success | any output with modes whose commit succeeds, e.g. the first output at start-up; no output record is made and `foutput` stays NULL, which the first toplevel dereferences (wlc.c:573) | return only when the commit fails | not executed | PolicyProps.NewOutputCommitDropped | Policy.NewOutputGuarded |
