/** LayoutHelpers: the item descriptions the box and grid builders take
    (a widget, a spacer or a cell modifier, with an alignment and a
    stretch) and the table from spacer kinds to a pair of size policies,
    horizontal then vertical. */
module LayoutHelpers {
  import opened QtString

  /** A widget, by identity. */
  type WidgetId = nat

  /** Qt alignment flags; DEF (0) is the default alignment. */
  type Alignment = nat
  const DEF: Alignment := 0

  /** The two QSizePolicy policies the spacers use. Fixed is 0, so a
      value-initialised policy is Fixed. */
  datatype Policy = Fixed | Expanding

  /** Grid cell modifiers: stretch the cell to the left one more column
      (HSPAN), stretch the cell above one more row (VSPAN), leave a cell
      empty (SKIP). */
  datatype CellModifier = CELL_INVALID | HSPAN | VSPAN | SKIP

  /** Spacer kinds; the letters give the horizontal then the vertical
      policy (E = Expanding, F = Fixed). */
  datatype SpacerPolicy = SPACER_INVALID | STRETCH | SPACER_EE | SPACER_FE | SPACER_EF | SPACER_FF

  /** The size policies of a spacer kind: STRETCH is a spacer expanding
      both ways, each SPACER_xy reads its letters, and SPACER_INVALID
      gives the value-initialised pair. */
  function ToSizePolicy(spacer: SpacerPolicy): (p: (Policy, Policy))
    ensures p.0 == Expanding <==> spacer in {STRETCH, SPACER_EE, SPACER_EF}
    ensures p.1 == Expanding <==> spacer in {STRETCH, SPACER_EE, SPACER_FE}
    ensures spacer == SPACER_INVALID ==> p == (Fixed, Fixed)
  {
    match spacer
    case STRETCH => (Expanding, Expanding)
    case SPACER_EE => (Expanding, Expanding)
    case SPACER_EF => (Expanding, Fixed)
    case SPACER_FE => (Fixed, Expanding)
    case SPACER_FF => (Fixed, Fixed)
    case SPACER_INVALID => (Fixed, Fixed)
  }

  /** The four spacer kinds other than STRETCH and SPACER_INVALID give four
      different policy pairs. */
  lemma {:induction false} ToSizePolicyInjective(a: SpacerPolicy, b: SpacerPolicy)
    requires a in {SPACER_EE, SPACER_FE, SPACER_EF, SPACER_FF} && b in {SPACER_EE, SPACER_FE, SPACER_EF, SPACER_FF}
    requires ToSizePolicy(a) == ToSizePolicy(b)
    ensures a == b
  {
  }

  /** An item of a box layout row: a widget (or null) or a spacer. */
  datatype BoxItem = BoxItem(widget: Option<WidgetId>, align: Alignment, spacer: SpacerPolicy, stretch: int)

  /** BoxItem(widget, align, stretch). */
  function BoxWidget(widget: Option<WidgetId>, align: Alignment, stretch: int): (b: BoxItem)
    ensures b.widget == widget && b.align == align && b.stretch == stretch
    ensures b.spacer == SPACER_INVALID
  {
    BoxItem(widget, align, SPACER_INVALID, stretch)
  }

  /** BoxItem(widget, stretch): the default alignment. */
  function BoxWidgetDefault(widget: Option<WidgetId>, stretch: int): (b: BoxItem)
    ensures b == BoxWidget(widget, DEF, stretch) && b.align == DEF
  {
    BoxWidget(widget, DEF, stretch)
  }

  /** BoxItem(spacer, stretch): only STRETCH is accepted (the constructor
      asserts it); no widget, default alignment. */
  function BoxSpacer(spacer: SpacerPolicy, stretch: int): (b: BoxItem)
    requires spacer == STRETCH
    ensures b.widget == None && b.align == DEF && b.spacer == STRETCH && b.stretch == stretch
  {
    BoxItem(None, DEF, spacer, stretch)
  }

  /** An item of a grid row: a widget (or null), a spacer, or a cell
      modifier. */
  datatype GridItem = GridItem(widget: Option<WidgetId>, align: Alignment, mod: CellModifier, spacer: SpacerPolicy)

  /** GridItem(widget, align). */
  function GridWidget(widget: Option<WidgetId>, align: Alignment): (g: GridItem)
    ensures g.widget == widget && g.align == align && g.mod == CELL_INVALID && g.spacer == SPACER_INVALID
  {
    GridItem(widget, align, CELL_INVALID, SPACER_INVALID)
  }

  /** GridItem(mod): a cell modifier with nothing else. */
  function GridModifier(mod: CellModifier): (g: GridItem)
    ensures g.widget == None && g.align == DEF && g.mod == mod && g.spacer == SPACER_INVALID
  {
    GridItem(None, DEF, mod, SPACER_INVALID)
  }

  /** GridItem(spacer, align): any spacer but STRETCH (the constructor
      asserts it). */
  function GridSpacer(spacer: SpacerPolicy, align: Alignment): (g: GridItem)
    requires spacer != STRETCH
    ensures g.widget == None && g.align == align && g.mod == CELL_INVALID && g.spacer == spacer
  {
    GridItem(None, align, CELL_INVALID, spacer)
  }
}
