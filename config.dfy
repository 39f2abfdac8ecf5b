/** Static configuration (config.h): the layout registry, the modifier
    that enables keybindings and the focus-follows-mouse switch. */
module Config {
  import opened Types

  /** layouts[]: tiling, monocle, and a floating slot with no procedure. */
  const Layouts: seq<LayoutEntry> :=
    [LayoutEntry(Some(TileFn), "t"), LayoutEntry(Some(MonocleFn), "m"), LayoutEntry(None, "f")]

  /** WLR_MODIFIER_ALT is bit 3 of the wlroots modifier mask. */
  const ModAlt: bv32 := 8

  /** MODKEY is Alt. */
  const ModKey: bv32 := ModAlt

  /** follow_mouse is 0: hovering never moves keyboard focus. */
  const FollowMouse: nat := 0

  function LayoutAt(i: nat): (f: Option<LayoutFn>)
    requires i < |Layouts|
    ensures i == 0 ==> f == Some(TileFn)
    ensures i == 1 ==> f == Some(MonocleFn)
    ensures i == 2 ==> f == None
    ensures f.None? <==> i == 2
  {
    Layouts[i].arrange
  }

  lemma RegistryShape()
    ensures |Layouts| == 3
    ensures Layouts[0].symbol == "t" && Layouts[1].symbol == "m" && Layouts[2].symbol == "f"
    ensures forall i :: 0 <= i < |Layouts| ==> (Layouts[i].arrange.None? <==> i == 2)
  {
  }
}
