/** Record shapes, enumerations and integer widths of the compositor (wlc.h). */
module Types {

  datatype Option<+T> = None | Some(value: T)

  /** Identity of a client record: it stands for the wlc_client pointer. */
  type ClientId = nat

  /** Identity of an output record: it stands for the wlc_output pointer. */
  type OutputId = nat

  /** wlc_client.tag is a uint8_t. */
  type ClientTag = bv8

  /** wlc_output.tag is a uint16_t. */
  type OutputTag = bv16

  /** Assigning an output tag to a client tag converts uint16_t to uint8_t:
      only the low eight bits survive. */
  function TruncateTag(t: OutputTag): (r: ClientTag)
    ensures r as OutputTag == t & 0xFF
    ensures t <= 0xFF ==> r as OutputTag == t
  {
    (t & 0xFF) as ClientTag
  }

  /** A truncated tag shares with any output tag exactly the low bits the
      original shared with it. */
  lemma TruncatedTagOverlap(t: OutputTag, u: OutputTag)
    ensures (TruncateTag(t) as OutputTag) & u == t & u & 0xFF
  {
  }

  /** enum wlc_cursor_mode. The enumerators are numbered 0, 1, 2 in the
      order RESIZE, MOVE, NORMAL. */
  datatype CursorMode = Resize | Move | Normal

  function ModeValue(m: CursorMode): (v: nat)
    ensures v < 3
    ensures v == 0 <==> m == Resize
  {
    match m
    case Resize => 0
    case Move => 1
    case Normal => 2
  }

  function ModeOfValue(v: nat): (m: CursorMode)
    requires v < 3
    ensures ModeValue(m) == v
  {
    if v == 0 then Resize else if v == 1 then Move else Normal
  }

  /** Distinct modes have distinct values, so the numbering is a bijection
      onto {0, 1, 2}. */
  lemma ModeValueInjective(a: CursorMode, b: CursorMode)
    ensures ModeValue(a) == ModeValue(b) ==> a == b
    ensures ModeOfValue(ModeValue(a)) == a
  {
  }

  /** struct wlr_box: an origin and a size, all signed integers. */
  datatype Box = Box(x: int, y: int, width: int, height: int)

  /** A non-negative rational num/den; stands for the double f_master. */
  datatype Ratio = Ratio(num: nat, den: nat)

  predicate ProperFraction(f: Ratio)
  {
    f.den > 0 && f.num <= f.den
  }

  /** struct wlc_output, the fields the window-management policy uses:
      the index of the selected layout, the number of master clients, the
      master fraction, the output box and the active tag mask. */
  datatype Output = Output(layout: nat, nMaster: nat, fMaster: Ratio, geom: Box, tag: OutputTag)

  /** struct wlc_client: the output the client is mapped on (none while
      unmapped), its geometry and its tag. Its three list links (layout,
      focus, stacking) are the client's positions in the three stacks,
      which are sequences of client ids held by the compositor state. */
  datatype Client = Client(output: Option<OutputId>, geom: Box, tag: ClientTag)

  /** A wlr_surface of a client: sub 0 is the toplevel's own surface, any
      other index one of its subsurfaces or popups. */
  datatype Surface = Surface(owner: ClientId, sub: nat)

  function MainSurface(c: ClientId): (s: Surface)
    ensures s.owner == c && s.sub == 0
  {
    Surface(c, 0)
  }

  /** The layout procedures of the registry. */
  datatype LayoutFn = TileFn | MonocleFn

  /** struct wlc_layout: an optional layout procedure and its label. */
  datatype LayoutEntry = LayoutEntry(arrange: Option<LayoutFn>, symbol: string)
}
