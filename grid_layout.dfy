/** MGridLayout: a QGridLayout filled row by row. A row is a list of grid
    items; a widget or spacer takes the next free column and as many
    further columns as HSPAN modifiers follow it, VSPAN stretches the cell
    above down into the new row, and SKIP leaves a cell empty.

    The QGridLayout underneath is modelled by `Grid`: its items in
    insertion order, each with its cell rectangle, and its row and column
    counts, which start at 1, grow to cover every item added and every
    row given a stretch, and never shrink. */
module GridLayout {
  import opened QtString
  import opened LayoutHelpers

  /** What a layout item holds. */
  datatype Content = WidgetCell(widget: WidgetId) | SpacerCell(horizontal: Policy, vertical: Policy)

  /** A QLayoutItem in the grid: its identity, content, top-left cell,
      spans and alignment. */
  datatype LayoutItem = LayoutItem(id: nat, content: Content, row: int, column: int, rowSpan: int, columnSpan: int, align: Alignment)

  datatype Grid = Grid(items: seq<LayoutItem>, rowCount: int, columnCount: int, rowStretch: map<int, int>, nextId: nat)

  /** GridPosition: a cell rectangle, invalid when row or column is -1. */
  datatype GridPosition = GridPosition(row: int, column: int, rowSpan: int, columnSpan: int) {
    predicate IsValid() {
      row != -1 && column != -1
    }
  }
  const INVALID_POSITION := GridPosition(-1, -1, 0, 0)

  /** The grid of a new layout: no items, one row, one column. */
  const EMPTY_GRID := Grid([], 1, 1, map[], 0)

  /** The item has an identity below `nextId` and lies, with positive
      spans, inside `rowCount` rows and `columnCount` columns. */
  predicate Fits(it: LayoutItem, rowCount: int, columnCount: int, nextId: nat) {
    it.id < nextId && it.rowSpan >= 1 && it.columnSpan >= 1
    && 0 <= it.row && it.row + it.rowSpan <= rowCount
    && 0 <= it.column && it.column + it.columnSpan <= columnCount
  }

  predicate DistinctIds(items: seq<LayoutItem>) {
    forall i, j :: 0 <= i < j < |items| ==> items[i].id != items[j].id
  }

  /** Item identities are distinct and were handed out by `nextId`; every
      item lies inside the counted rows and columns. */
  ghost predicate WellFormed(g: Grid) {
    g.rowCount >= 1 && g.columnCount >= 1
    && (forall it :: it in g.items ==> Fits(it, g.rowCount, g.columnCount, g.nextId))
    && DistinctIds(g.items)
  }

  function Max(a: int, b: int): int {
    if a < b then b else a
  }

  /** QGridLayout::addItem of an existing item: appended, counts grown to
      cover it. */
  function Append(g: Grid, it: LayoutItem): (r: Grid)
    ensures r.items == g.items + [it] && r.nextId == g.nextId && r.rowStretch == g.rowStretch
    ensures r.rowCount >= g.rowCount && r.rowCount >= it.row + it.rowSpan
    ensures r.columnCount >= g.columnCount && r.columnCount >= it.column + it.columnSpan
  {
    Grid(g.items + [it], Max(g.rowCount, it.row + it.rowSpan), Max(g.columnCount, it.column + it.columnSpan),
      g.rowStretch, g.nextId)
  }

  /** QGridLayout::addItem / addWidget of a new item: it gets the next
      identity. */
  function Add(g: Grid, c: Content, row: int, column: int, rowSpan: int, columnSpan: int, align: Alignment): (r: Grid)
    ensures r.items == g.items + [LayoutItem(g.nextId, c, row, column, rowSpan, columnSpan, align)]
    ensures r.nextId == g.nextId + 1
  {
    var r := Append(g, LayoutItem(g.nextId, c, row, column, rowSpan, columnSpan, align));
    r.(nextId := g.nextId + 1)
  }

  /** QLayout::takeAt: the item at `index` leaves the list; the counts
      stay. */
  function TakeAt(g: Grid, index: nat): (r: Grid)
    requires index < |g.items|
    ensures |r.items| == |g.items| - 1
    ensures forall j :: 0 <= j < |r.items| ==> r.items[j] == (if j < index then g.items[j] else g.items[j + 1])
  {
    g.(items := g.items[..index] + g.items[index + 1..])
  }

  /** QGridLayout::setRowStretch: the row exists afterwards. */
  function SetRowStretch(g: Grid, row: int, stretch: int): (r: Grid)
    ensures r.items == g.items && r.rowStretch == g.rowStretch[row := stretch]
    ensures r.rowCount == Max(g.rowCount, row + 1) && r.columnCount == g.columnCount
  {
    g.(rowCount := Max(g.rowCount, row + 1), rowStretch := g.rowStretch[row := stretch])
  }

  /** The item covers cell (row, column). */
  predicate Covers(it: LayoutItem, row: int, column: int) {
    it.row <= row < it.row + it.rowSpan && it.column <= column < it.column + it.columnSpan
  }

  /** QGridLayout::itemAtPosition: the first item, in insertion order,
      covering the cell. */
  function ItemAtPosition(items: seq<LayoutItem>, row: int, column: int): (o: Option<nat>)
    ensures o.Some? ==> (o.value < |items| && Covers(items[o.value], row, column)
      && forall j :: 0 <= j < o.value ==> !Covers(items[j], row, column))
    ensures o.None? ==> forall j :: 0 <= j < |items| ==> !Covers(items[j], row, column)
  {
    if items == [] then None
    else if Covers(items[0], row, column) then Some(0)
    else match ItemAtPosition(items[1..], row, column)
      case None => None
      case Some(i) => Some(i + 1)
  }

  /** The first index holding item `id`, as QLayout::indexOf finds it. */
  function IndexOfItem(items: seq<LayoutItem>, id: nat): (o: Option<nat>)
    ensures o.Some? ==> (o.value < |items| && items[o.value].id == id
      && forall j :: 0 <= j < o.value ==> items[j].id != id)
    ensures o.None? ==> forall j :: 0 <= j < |items| ==> items[j].id != id
  {
    if items == [] then None
    else if items[0].id == id then Some(0)
    else match IndexOfItem(items[1..], id)
      case None => None
      case Some(i) => Some(i + 1)
  }

  /** The first index holding widget `w`. */
  function IndexOfWidget(items: seq<LayoutItem>, w: WidgetId): (o: Option<nat>)
    ensures o.Some? ==> (o.value < |items| && items[o.value].content == WidgetCell(w)
      && forall j :: 0 <= j < o.value ==> items[j].content != WidgetCell(w))
    ensures o.None? ==> forall j :: 0 <= j < |items| ==> items[j].content != WidgetCell(w)
  {
    if items == [] then None
    else if items[0].content == WidgetCell(w) then Some(0)
    else match IndexOfWidget(items[1..], w)
      case None => None
      case Some(i) => Some(i + 1)
  }

  /** getItemPosition(int): invalid for a negative or too large index. */
  function PositionAt(g: Grid, index: int): (p: GridPosition)
    ensures p.IsValid() ==> 0 <= index < |g.items|
    ensures 0 <= index < |g.items| && g.items[index].row != -1 && g.items[index].column != -1 ==> p.IsValid()
    ensures 0 <= index < |g.items| ==> p == GridPosition(g.items[index].row, g.items[index].column,
      g.items[index].rowSpan, g.items[index].columnSpan)
  {
    if index < 0 || index >= |g.items| then INVALID_POSITION
    else
      var it := g.items[index];
      GridPosition(it.row, it.column, it.rowSpan, it.columnSpan)
  }

  /** getItemPosition(QLayoutItem *): invalid for null or for an item not
      in the layout. */
  function PositionOfItem(g: Grid, item: Option<nat>): (p: GridPosition)
    ensures item.None? ==> p == INVALID_POSITION
    ensures item.Some? && (forall j :: 0 <= j < |g.items| ==> g.items[j].id != item.value) ==> p == INVALID_POSITION
  {
    match item
    case None => INVALID_POSITION
    case Some(id) =>
      match IndexOfItem(g.items, id)
      case None => INVALID_POSITION
      case Some(index) => PositionAt(g, index)
  }

  /** getItemPosition(QWidget *): invalid for null or for a widget not in
      the layout. */
  function PositionOfWidget(g: Grid, w: Option<WidgetId>): (p: GridPosition)
    ensures w.None? ==> p == INVALID_POSITION
    ensures w.Some? && (forall j :: 0 <= j < |g.items| ==> g.items[j].content != WidgetCell(w.value)) ==> p == INVALID_POSITION
  {
    match w
    case None => INVALID_POSITION
    case Some(x) =>
      match IndexOfWidget(g.items, x)
      case None => INVALID_POSITION
      case Some(index) => PositionAt(g, index)
  }

  /** In a well-formed grid, getItemPosition finds any item it holds at
      its own rectangle, and the position is valid. */
  lemma {:induction false} PositionOfHeldItem(g: Grid, i: nat)
    requires WellFormed(g) && i < |g.items|
    ensures PositionOfItem(g, Some(g.items[i].id)) ==
      GridPosition(g.items[i].row, g.items[i].column, g.items[i].rowSpan, g.items[i].columnSpan)
    ensures PositionOfItem(g, Some(g.items[i].id)).IsValid()
  {
    var o := IndexOfItem(g.items, g.items[i].id);
    assert g.items[i] in g.items;
  }

  /** insertionRow: 0 for a layout without items (an empty QGridLayout
      still counts one row), else the row count. */
  function InsertionRow(g: Grid): (r: int)
    ensures |g.items| == 0 ==> r == 0
    ensures |g.items| > 0 ==> r == g.rowCount
  {
    if |g.items| > 0 then g.rowCount else 0
  }

  /** insertionCol: 0 for a layout without items, else the column count. */
  function InsertionCol(g: Grid): (c: int)
    ensures |g.items| == 0 ==> c == 0
    ensures |g.items| > 0 ==> c == g.columnCount
  {
    if |g.items| > 0 then g.columnCount else 0
  }

  /** The columns item `k` of a row takes: itself and every HSPAN right
      after it. */
  function ColSpan(items: seq<GridItem>, k: nat): (span: nat)
    requires k < |items|
    ensures 1 <= span && k + span <= |items|
    ensures forall j :: k < j < k + span ==> items[j].mod == HSPAN
    ensures k + span < |items| ==> items[k + span].mod != HSPAN
    decreases |items| - k
  {
    if k + 1 < |items| && items[k + 1].mod == HSPAN then 1 + ColSpan(items, k + 1) else 1
  }

  /** The calculateHSpan loop of addRow. */
  method CalculateHSpan(items: seq<GridItem>, k: nat) returns (span: nat)
    requires k < |items|
    ensures span == ColSpan(items, k)
  {
    span := 1;
    var iter := k + 1;
    while iter < |items| && items[iter].mod == HSPAN
      invariant k + 1 <= iter <= |items| && span == iter - k
      invariant forall j :: k < j < iter ==> items[j].mod == HSPAN
    {
      span := span + 1;
      iter := iter + 1;
    }
    ColSpanIsRun(items, k, span);
  }

  /** ColSpan is the one length whose run of HSPAN items ends there. */
  lemma {:induction false} ColSpanIsRun(items: seq<GridItem>, k: nat, span: nat)
    requires k < |items| && 1 <= span && k + span <= |items|
    requires forall j :: k < j < k + span ==> items[j].mod == HSPAN
    requires k + span < |items| ==> items[k + span].mod != HSPAN
    ensures span == ColSpan(items, k)
    decreases span
  {
    if span > 1 {
      assert items[k + 1].mod == HSPAN;
      ColSpanIsRun(items, k + 1, span - 1);
    } else {
      assert !(k + 1 < |items| && items[k + 1].mod == HSPAN);
    }
  }

  /** applyVSpan: the item covering the cell above (row, column) is
      taken out and put back one row taller; the result is how many
      columns it covers from `column` on. Without such an item nothing
      changes and the result is 0. */
  function ApplyVSpan(g: Grid, row: int, column: int): (r: (Grid, int))
    ensures ItemAtPosition(g.items, row - 1, column).None? ==> r == (g, 0)
    ensures ItemAtPosition(g.items, row - 1, column).Some? ==>
      var up := g.items[ItemAtPosition(g.items, row - 1, column).value];
      |r.0.items| == |g.items| && r.0.items[|g.items| - 1] == up.(rowSpan := up.rowSpan + 1)
      && r.1 == up.column + up.columnSpan - column && r.1 >= 1
  {
    match ItemAtPosition(g.items, row - 1, column)
    case None => (g, 0)
    case Some(i) =>
      var up := g.items[i];
      var taken := TakeAt(g, i);
      (Append(taken, up.(rowSpan := up.rowSpan + 1)), up.columnSpan - column + up.column)
  }

  /** One pass of the addRow loop at item `k` and column `column`: the
      grid after placing the item and the column the next item starts at.
      A widget or spacer takes `span` columns; VSPAN continues right of
      the stretched cell above, or stays put when there is none; SKIP and
      an empty item only move on. */
  function Step(g: Grid, row: int, items: seq<GridItem>, k: nat, column: int): (r: (Grid, int))
    requires k < |items|
    ensures r.0.rowStretch == g.rowStretch
    ensures |r.0.items| == |g.items| + (if Fills(items[k]) then 1 else 0)
    ensures Fills(items[k]) || items[k].mod != VSPAN ==> r.1 == column + ColSpan(items, k)
  {
    var span := ColSpan(items, k);
    var item := items[k];
    if item.widget.Some? then
      (Add(g, WidgetCell(item.widget.value), row, column, 1, span, item.align), column + span)
    else if item.spacer != SPACER_INVALID then
      var policy := ToSizePolicy(item.spacer);
      (Add(g, SpacerCell(policy.0, policy.1), row, column, 1, span, item.align), column + span)
    else if item.mod == VSPAN then
      var (g', advance) := ApplyVSpan(g, row, column);
      (g', column + (advance - span) + span)
    else
      (g, column + span)
  }

  /** applyVSpan, finding the cell above through getItemPosition. */
  method ApplyVSpanTo(g: Grid, row: int, column: int) returns (r: Grid, advance: int)
    requires WellFormed(g)
    ensures WellFormed(r)
    ensures (r, advance) == ApplyVSpan(g, row, column)
  {
    var upper := ItemAtPosition(g.items, row - 1, column);
    if upper.None? {
      return g, 0;
    }
    var up := g.items[upper.value];
    PositionOfHeldItem(g, upper.value);
    var pos := PositionOfItem(g, Some(up.id));
    assert LayoutItem(up.id, up.content, pos.row, pos.column, pos.rowSpan + 1, pos.columnSpan, up.align)
      == up.(rowSpan := up.rowSpan + 1);
    r := TakeAt(g, upper.value);
    r := Append(r, LayoutItem(up.id, up.content, pos.row, pos.column, pos.rowSpan + 1, pos.columnSpan, up.align));
    advance := pos.columnSpan - column + pos.column;
    assert (r, advance) == ApplyVSpan(g, row, column);
    ApplyVSpanKeepsWellFormed(g, row, column);
  }

  /** Taking an item out keeps a grid well formed. */
  lemma {:induction false} TakeAtKeepsWellFormed(g: Grid, index: nat)
    requires WellFormed(g) && index < |g.items|
    ensures WellFormed(TakeAt(g, index))
    ensures forall it :: it in TakeAt(g, index).items ==> it.id != g.items[index].id
  {
    var r := TakeAt(g, index);
    forall it | it in r.items
      ensures Fits(it, r.rowCount, r.columnCount, r.nextId) && it.id != g.items[index].id
    {
      var j :| 0 <= j < |r.items| && r.items[j] == it;
      assert it == (if j < index then g.items[j] else g.items[j + 1]);
    }
  }

  /** Appending an item that fits the grown counts and whose identity is
      new to the list keeps a grid well formed, with any later `nextId`. */
  lemma {:induction false} AppendKeepsWellFormed(g: Grid, it: LayoutItem, nextId: nat)
    requires WellFormed(g) && nextId >= g.nextId
    requires Fits(it, Append(g, it).rowCount, Append(g, it).columnCount, nextId)
    requires forall x :: x in g.items ==> x.id != it.id
    ensures WellFormed(Append(g, it).(nextId := nextId))
  {
    var r := Append(g, it).(nextId := nextId);
    forall x | x in r.items
      ensures Fits(x, r.rowCount, r.columnCount, r.nextId)
    {
      if x in g.items {
        assert Fits(x, g.rowCount, g.columnCount, g.nextId);
      }
    }
    forall i, j | 0 <= i < j < |r.items|
      ensures r.items[i].id != r.items[j].id
    {
      if j == |g.items| {
        assert r.items[i] in g.items;
      } else {
        assert r.items[i] == g.items[i] && r.items[j] == g.items[j];
      }
    }
  }

  /** Stretching the cell above keeps a grid well formed. */
  lemma {:induction false} ApplyVSpanKeepsWellFormed(g: Grid, row: int, column: int)
    requires WellFormed(g)
    ensures WellFormed(ApplyVSpan(g, row, column).0)
  {
    var upper := ItemAtPosition(g.items, row - 1, column);
    if upper.Some? {
      var up := g.items[upper.value];
      assert up in g.items;
      TakeAtKeepsWellFormed(g, upper.value);
      var taken := TakeAt(g, upper.value);
      assert Fits(up, g.rowCount, g.columnCount, g.nextId);
      AppendKeepsWellFormed(taken, up.(rowSpan := up.rowSpan + 1), g.nextId);
      assert Append(taken, up.(rowSpan := up.rowSpan + 1)).(nextId := g.nextId) == ApplyVSpan(g, row, column).0;
    }
  }

  /** Adding a fresh item at a non-negative cell keeps a grid well formed. */
  lemma {:induction false} AddKeepsWellFormed(g: Grid, c: Content, row: int, column: int, rowSpan: int, columnSpan: int, align: Alignment)
    requires WellFormed(g) && row >= 0 && column >= 0 && rowSpan >= 1 && columnSpan >= 1
    ensures WellFormed(Add(g, c, row, column, rowSpan, columnSpan, align))
  {
    var it := LayoutItem(g.nextId, c, row, column, rowSpan, columnSpan, align);
    assert forall x :: x in g.items ==> x.id < g.nextId by {
      forall x | x in g.items ensures x.id < g.nextId {
        assert Fits(x, g.rowCount, g.columnCount, g.nextId);
      }
    }
    AppendKeepsWellFormed(g, it, g.nextId + 1);
  }

  /** Each pass of the addRow loop keeps the grid well formed and never
      moves left. */
  lemma {:induction false} StepKeepsWellFormed(g: Grid, row: int, items: seq<GridItem>, k: nat, column: int)
    requires WellFormed(g) && k < |items| && row >= 0 && column >= 0
    ensures WellFormed(Step(g, row, items, k, column).0)
    ensures Step(g, row, items, k, column).1 >= column
  {
    var item := items[k];
    var span := ColSpan(items, k);
    if item.widget.Some? {
      AddKeepsWellFormed(g, WidgetCell(item.widget.value), row, column, 1, span, item.align);
    } else if item.spacer != SPACER_INVALID {
      var policy := ToSizePolicy(item.spacer);
      AddKeepsWellFormed(g, SpacerCell(policy.0, policy.1), row, column, 1, span, item.align);
    } else if item.mod == VSPAN {
      ApplyVSpanKeepsWellFormed(g, row, column);
    }
  }

  /** The addRow loop from item `k`, at column `column` of row `row`. */
  function PlaceFrom(g: Grid, row: int, items: seq<GridItem>, k: nat, column: int): (r: Grid)
    requires k <= |items|
    ensures r.rowStretch == g.rowStretch
    ensures |g.items| <= |r.items| <= |g.items| + (|items| - k)
    decreases |items| - k
  {
    if k == |items| then g
    else
      var next := Step(g, row, items, k, column);
      PlaceFrom(next.0, row, items, k + ColSpan(items, k), next.1)
  }

  /** addRow(items, rowStretch). */
  function AddRowSpec(g: Grid, items: seq<GridItem>, rowStretch: int): (r: Grid)
    ensures r.rowStretch == g.rowStretch[InsertionRow(g) := rowStretch]
    ensures r.rowCount > InsertionRow(g)
    ensures |g.items| <= |r.items| <= |g.items| + |items|
  {
    var row := InsertionRow(g);
    SetRowStretch(PlaceFrom(g, row, items, 0, 0), row, rowStretch)
  }

  /** A row item that holds a widget or a spacer. */
  predicate Fills(item: GridItem) {
    item.widget.Some? || item.spacer != SPACER_INVALID
  }

  /** What such a row item puts into the grid. */
  function CellOf(item: GridItem): Content
    requires Fills(item)
  {
    if item.widget.Some? then WidgetCell(item.widget.value)
    else SpacerCell(ToSizePolicy(item.spacer).0, ToSizePolicy(item.spacer).1)
  }

  /** A pass of the loop over an item other than VSPAN adds that item's
      cell, if any, and moves on by its span. */
  lemma {:induction false} StepNoVSpan(g: Grid, row: int, items: seq<GridItem>, k: nat, column: int)
    requires k < |items| && items[k].mod != VSPAN
    ensures Step(g, row, items, k, column) ==
      (if Fills(items[k]) then Add(g, CellOf(items[k]), row, column, 1, ColSpan(items, k), items[k].align) else g,
       column + ColSpan(items, k))
  {
  }

  /** PlaceFrom, one pass unfolded. */
  lemma {:induction false} PlaceUnfold(g: Grid, row: int, items: seq<GridItem>, k: nat, column: int)
    requires k < |items|
    ensures PlaceFrom(g, row, items, k, column) ==
      PlaceFrom(Step(g, row, items, k, column).0, row, items, k + ColSpan(items, k), Step(g, row, items, k, column).1)
  {
  }

  /** `it` is the cell made, in row `row`, from the row item at its own
      column, which starts a group at or after `k`. */
  predicate RowCell(it: LayoutItem, row: int, items: seq<GridItem>, k: nat) {
    it.row == row && it.rowSpan == 1 && k <= it.column < |items|
    && (it.column == k || items[it.column].mod != HSPAN)
    && it.columnSpan == ColSpan(items, it.column)
    && Fills(items[it.column]) && it.content == CellOf(items[it.column])
  }

  /** `r` is `before` followed by cells of the row from item `k` on, in
      increasing columns. */
  predicate PlacedAfter(before: seq<LayoutItem>, r: seq<LayoutItem>, row: int, items: seq<GridItem>, k: nat) {
    |r| >= |before| && r[..|before|] == before
    && (forall m :: |before| <= m < |r| ==> RowCell(r[m], row, items, k))
    && (forall m, n :: |before| <= m < n < |r| ==> r[m].column < r[n].column)
  }

  lemma {:induction false} RowCellWeaken(it: LayoutItem, row: int, items: seq<GridItem>, k: nat)
    requires k < |items| && RowCell(it, row, items, k + ColSpan(items, k))
    ensures RowCell(it, row, items, k) && it.column > k
  {
  }

  /** Cells placed after a group's span are placed after its start. */
  lemma {:induction false} PlacedAfterSkip(before: seq<LayoutItem>, r: seq<LayoutItem>, row: int, items: seq<GridItem>, k: nat)
    requires k < |items| && PlacedAfter(before, r, row, items, k + ColSpan(items, k))
    ensures PlacedAfter(before, r, row, items, k)
  {
    forall m | |before| <= m < |r|
      ensures RowCell(r[m], row, items, k)
    {
      RowCellWeaken(r[m], row, items, k);
    }
  }

  /** The group's own cell, followed by cells placed after its span, are
      cells placed from its start. */
  lemma {:induction false} PlacedAfterCell(before: seq<LayoutItem>, cell: LayoutItem, r: seq<LayoutItem>, row: int, items: seq<GridItem>, k: nat)
    requires k < |items| && RowCell(cell, row, items, k) && cell.column == k
    requires PlacedAfter(before + [cell], r, row, items, k + ColSpan(items, k))
    ensures PlacedAfter(before, r, row, items, k)
  {
    assert r[..|before|] == (before + [cell])[..|before|] == before;
    assert r[|before|] == cell;
    forall m | |before| < m < |r|
      ensures RowCell(r[m], row, items, k) && r[m].column > k
    {
      RowCellWeaken(r[m], row, items, k);
    }
  }

  /** No VSPAN among the row items from `k` on. */
  predicate NoVSpanFrom(items: seq<GridItem>, k: nat) {
    forall j :: k <= j < |items| ==> items[j].mod != VSPAN
  }

  /** Without VSPAN, a row keeps every earlier item, and each item it
      adds sits in the row at the column of the row item it came from
      (the total span of the groups before it, which is that item's
      index), one row high and as wide as that item's span, in increasing
      columns. */
  lemma {:induction false} PlaceWithoutVSpan(g: Grid, row: int, items: seq<GridItem>, k: nat)
    requires k <= |items|
    requires NoVSpanFrom(items, k)
    ensures PlacedAfter(g.items, PlaceFrom(g, row, items, k, k).items, row, items, k)
    decreases |items| - k
  {
    if k < |items| {
      var span := ColSpan(items, k);
      var item := items[k];
      var g1 := StepOut(g, row, items, k);
      PlaceWithoutVSpan(g1, row, items, k + span);
      var r := PlaceFrom(g1, row, items, k + span, k + span).items;
      if Fills(item) {
        var cell := LayoutItem(g.nextId, CellOf(item), row, k, 1, span, item.align);
        PlacedAfterCell(g.items, cell, r, row, items, k);
      } else {
        PlacedAfterSkip(g.items, r, row, items, k);
      }
    }
  }

  /** Every row item that starts a group and holds a widget or spacer is
      placed: without VSPAN some added item sits at its column. */
  lemma {:induction false} PlaceWithoutVSpanComplete(g: Grid, row: int, items: seq<GridItem>, k: nat, j: nat)
    requires k <= j < |items|
    requires NoVSpanFrom(items, k)
    requires (j == k || items[j].mod != HSPAN) && Fills(items[j])
    ensures exists m :: (|g.items| <= m < |PlaceFrom(g, row, items, k, k).items|
      && PlaceFrom(g, row, items, k, k).items[m].column == j)
  {
    var m := PlacedIndex(g, row, items, k, j);
  }

  /** Where PlaceWithoutVSpanComplete finds the item of column `j`. */
  lemma {:induction false} PlacedIndex(g: Grid, row: int, items: seq<GridItem>, k: nat, j: nat) returns (m: nat)
    requires k <= j < |items|
    requires NoVSpanFrom(items, k)
    requires (j == k || items[j].mod != HSPAN) && Fills(items[j])
    ensures |g.items| <= m < |PlaceFrom(g, row, items, k, k).items|
    ensures PlaceFrom(g, row, items, k, k).items[m].column == j
    decreases |items| - k
  {
    var span := ColSpan(items, k);
    var g1 := StepOut(g, row, items, k);
    if j == k {
      KeptAt(g1, row, items, k + span, |g.items|);
      m := |g.items|;
    } else {
      assert k + span <= j;
      m := PlacedIndex(g1, row, items, k + span, j);
    }
  }

  /** Without VSPAN, the rest of a row leaves item `i` of the grid where
      it was. */
  lemma {:induction false} KeptAt(g: Grid, row: int, items: seq<GridItem>, k: nat, i: nat)
    requires k <= |items| && i < |g.items|
    requires NoVSpanFrom(items, k)
    ensures i < |PlaceFrom(g, row, items, k, k).items| && PlaceFrom(g, row, items, k, k).items[i] == g.items[i]
  {
    PlaceWithoutVSpan(g, row, items, k);
    KeptPrefix(g.items, PlaceFrom(g, row, items, k, k).items, i);
  }

  /** An item of a kept prefix is where it was. */
  lemma {:induction false} KeptPrefix(before: seq<LayoutItem>, r: seq<LayoutItem>, i: nat)
    requires |r| >= |before| && r[..|before|] == before && i < |before|
    ensures r[i] == before[i]
  {
    assert r[..|before|][i] == r[i];
  }

  /** The grid after one pass of the loop over an item other than VSPAN,
      named, with the rest of the loop from there. */
  lemma {:induction false} StepOut(g: Grid, row: int, items: seq<GridItem>, k: nat) returns (g1: Grid)
    requires k < |items| && items[k].mod != VSPAN
    ensures PlaceFrom(g, row, items, k, k) == PlaceFrom(g1, row, items, k + ColSpan(items, k), k + ColSpan(items, k))
    ensures Fills(items[k]) ==>
      g1.items == g.items + [LayoutItem(g.nextId, CellOf(items[k]), row, k, 1, ColSpan(items, k), items[k].align)]
    ensures !Fills(items[k]) ==> g1 == g
    ensures |g1.items| >= |g.items|
    ensures Fills(items[k]) ==> |g1.items| > |g.items| && g1.items[|g.items|].column == k
  {
    StepNoVSpan(g, row, items, k, k);
    PlaceUnfold(g, row, items, k, k);
    g1 := Step(g, row, items, k, k).0;
  }

  /** The children of the parent widget, in order; only widgets are laid
      out. */
  datatype Child = Child(isWidget: bool, widget: WidgetId)

  /** The widgets among the children, in order. */
  function Widgets(children: seq<Child>): (ws: seq<WidgetId>)
    ensures |ws| <= |children|
    ensures forall c :: c in children && c.isWidget ==> c.widget in ws
  {
    if children == [] then []
    else
      var last := children[|children| - 1];
      Widgets(children[..|children| - 1]) + (if last.isWidget then [last.widget] else [])
  }

  /** The cells autoFill gives the widgets `ws`: widget k, with the k-th
      identity from `firstId`, at row k div c and column k mod c. */
  function Cells(ws: seq<WidgetId>, firstId: nat, c: int): (r: seq<LayoutItem>)
    requires c >= 1
    ensures |r| == |ws|
    ensures forall k :: 0 <= k < |ws| ==> r[k] == LayoutItem(firstId + k, WidgetCell(ws[k]), k / c, k % c, 1, 1, DEF)
  {
    if ws == [] then []
    else
      var k := |ws| - 1;
      Cells(ws[..k], firstId, c) + [LayoutItem(firstId + k, WidgetCell(ws[k]), k / c, k % c, 1, 1, DEF)]
  }

  lemma {:induction false} WidgetsStep(children: seq<Child>, i: nat)
    requires i < |children|
    ensures Widgets(children[..i + 1]) ==
      Widgets(children[..i]) + (if children[i].isWidget then [children[i].widget] else [])
  {
    assert children[..i + 1][..i] == children[..i];
  }

  /** One widget of autoFill: added at the next cell of the k-th place,
      it extends the cells by one. */
  lemma {:induction false} FillStep(start: Grid, g: Grid, ws: seq<WidgetId>, w: WidgetId, row: int, col: int, c: int)
    requires c >= 1 && 0 <= row && 0 <= col < c && |ws| == row * c + col
    requires WellFormed(g) && g.nextId == start.nextId + |ws|
    requires g.items == start.items + Cells(ws, start.nextId, c)
    ensures WellFormed(Add(g, WidgetCell(w), row, col, 1, 1, DEF))
    ensures Add(g, WidgetCell(w), row, col, 1, 1, DEF).items == start.items + Cells(ws + [w], start.nextId, c)
  {
    DivModOf(|ws|, row, col, c);
    AddKeepsWellFormed(g, WidgetCell(w), row, col, 1, 1, DEF);
    assert (ws + [w])[..|ws|] == ws;
  }

  lemma {:induction false} DivModOf(k: int, row: int, col: int, c: int)
    requires c >= 1 && 0 <= col < c && k == row * c + col
    ensures k / c == row && k % c == col
  {
    var q, r := k / c, k % c;
    assert (row - q) * c == r - col;
    MulAtLeast(row - q, c);
  }

  lemma {:induction false} MulAtLeast(x: int, c: int)
    requires c >= 1
    ensures x >= 1 ==> x * c >= c
    ensures x <= -1 ==> x * c <= -c
  {
    if x >= 1 {
      assert x * c == c + (x - 1) * c;
    } else if x <= -1 {
      assert x * c == -c + (x + 1) * c;
    }
  }

  /** The layout. */
  /** One pass of the addRow loop: the item at `k` placed from column
      `col`, with the column the next item starts at. */
  method PlaceItem(g: Grid, row: int, items: seq<GridItem>, k: nat, col: int) returns (r: Grid, next: int)
    requires WellFormed(g) && k < |items| && row >= 0 && col >= 0
    ensures (r, next) == Step(g, row, items, k, col)
    ensures WellFormed(r) && next >= col
  {
    var item := items[k];
    var colSpan := CalculateHSpan(items, k);
    r, next := g, col;
    if item.widget.Some? {
      r := Add(g, WidgetCell(item.widget.value), row, col, 1, colSpan, item.align);
    } else if item.spacer != SPACER_INVALID {
      var sizePolicy := ToSizePolicy(item.spacer);
      r := Add(g, SpacerCell(sizePolicy.0, sizePolicy.1), row, col, 1, colSpan, item.align);
    } else if item.mod == VSPAN {
      var advance;
      r, advance := ApplyVSpanTo(g, row, col);
      next := next + advance - colSpan;
    }
    next := next + colSpan;
    StepKeepsWellFormed(g, row, items, k, col);
  }

  /** The loop of addRow: the items placed one after the other on `row`,
      each span skipping the items it covers. */
  method PlaceRow(g: Grid, row: int, items: seq<GridItem>) returns (r: Grid)
    requires WellFormed(g) && row >= 0
    ensures r == PlaceFrom(g, row, items, 0, 0) && WellFormed(r)
  {
    r := g;
    var col := 0;
    var iter := 0;
    while iter < |items|
      invariant 0 <= iter <= |items| && col >= 0 && WellFormed(r)
      invariant PlaceFrom(r, row, items, iter, col) == PlaceFrom(g, row, items, 0, 0)
      decreases |items| - iter
    {
      var colSpan := CalculateHSpan(items, iter);
      r, col := PlaceItem(r, row, items, iter, col);
      iter := iter + colSpan;
    }
  }

  /** After `n` widgets autoFill stands at (row, col): col counts the
      widgets already in the current row. */
  predicate FillAt(n: int, row: int, col: int, c: int) {
    0 <= row && (n == 0 ==> row == 0 && col == 0) && (n > 0 ==> 1 <= col <= c) && n == row * c + col
  }

  lemma {:induction false} WrapRow(n: int, row: int, c: int)
    requires n == row * c + c
    ensures n == (row + 1) * c + 0
  {
  }

  lemma {:induction false} WidgetsAll(children: seq<Child>)
    ensures Widgets(children[..|children|]) == Widgets(children)
  {
    assert children[..|children|] == children;
  }

  /** The row count after autoFill placed `n` widgets in `c` columns:
      the rows up to that of the last widget. */
  function FilledRows(g: Grid, n: nat, c: int): int
    requires c >= 1
  {
    if n == 0 then g.rowCount else Max(g.rowCount, (n - 1) / c + 1)
  }

  /** The column count after autoFill placed `n` widgets in `c` columns:
      the first row has min(n, c) of them. */
  function FilledColumns(g: Grid, n: nat, c: int): int
    requires c >= 1
  {
    if n == 0 then g.columnCount else Max(g.columnCount, if n < c then n else c)
  }

  /** autoFill after the first `i` children: the cells of their widgets
      added to `g`, the counts grown to cover them, the stretches kept,
      and (row, col) where the next one goes. */
  ghost predicate Filled(g: Grid, r: Grid, children: seq<Child>, i: nat, row: int, col: int, c: int)
    requires i <= |children| && c >= 1
  {
    var ws := Widgets(children[..i]);
    WellFormed(r) && r.nextId == g.nextId + |ws| && FillAt(|ws|, row, col, c)
    && r.items == g.items + Cells(ws, g.nextId, c)
    && r.rowStretch == g.rowStretch
    && r.rowCount == FilledRows(g, |ws|, c) && r.columnCount == FilledColumns(g, |ws|, c)
  }

  /** Adding widget n + 1 at (row, col) grows the row count as
      FilledRows says. */
  lemma {:induction false} FillRowCount(g: Grid, n: nat, row: int, col: int, c: int)
    requires c >= 1 && 0 <= row && 0 <= col < c && n == row * c + col
    ensures Max(FilledRows(g, n, c), row + 1) == FilledRows(g, n + 1, c)
  {
    DivModOf(n, row, col, c);
    if n > 0 {
      var q := (n - 1) / c;
      if col == 0 {
        assert n == (row - 1) * c + c;
        DivModOf(n - 1, row - 1, c - 1, c);
      } else {
        DivModOf(n - 1, row, col - 1, c);
      }
      assert q <= row;
    }
  }

  /** Adding widget n + 1 at (row, col) grows the column count as
      FilledColumns says. */
  lemma {:induction false} FillColumnCount(g: Grid, n: nat, row: int, col: int, c: int)
    requires c >= 1 && 0 <= row && 0 <= col < c && n == row * c + col
    ensures Max(FilledColumns(g, n, c), col + 1) == FilledColumns(g, n + 1, c)
  {
    if row >= 1 {
      MulAtLeast(row, c);
      assert n >= c;
    } else {
      assert n == col;
    }
  }

  /** The loop of autoFill over the children of the parent widget. */
  method FillCells(g: Grid, children: seq<Child>, colCount: int) returns (r: Grid)
    requires WellFormed(g) && colCount >= 1
    ensures WellFormed(r) && r.items == g.items + Cells(Widgets(children), g.nextId, colCount)
    ensures r.rowStretch == g.rowStretch && r.nextId == g.nextId + |Widgets(children)|
    ensures r.rowCount == FilledRows(g, |Widgets(children)|, colCount)
    ensures r.columnCount == FilledColumns(g, |Widgets(children)|, colCount)
  {
    r := g;
    var col := 0;
    var row := 0;
    var i := 0;
    while i < |children|
      invariant 0 <= i <= |children| && Filled(g, r, children, i, row, col, colCount)
    {
      r, row, col := FillChild(g, r, children, i, row, col, colCount);
      i := i + 1;
    }
    WidgetsAll(children);
  }

  /** One pass of the autoFill loop: a widget child gets the next cell,
      any other child is passed over. */
  method FillChild(g: Grid, r: Grid, children: seq<Child>, i: nat, row: int, col: int, c: int)
    returns (r': Grid, row': int, col': int)
    requires i < |children| && c >= 1 && Filled(g, r, children, i, row, col, c)
    ensures Filled(g, r', children, i + 1, row', col', c)
  {
    WidgetsStep(children, i);
    r', row', col' := r, row, col;
    if children[i].isWidget {
      r', row', col' := FillOne(g, r, Widgets(children[..i]), children[i].widget, row, col, c);
    }
  }

  /** One widget child of autoFill: on to the next row when the current
      one is full, then the widget's cell. */
  method FillOne(g: Grid, r: Grid, ghost ws: seq<WidgetId>, w: WidgetId, row: int, col: int, c: int)
    returns (r': Grid, row': int, col': int)
    requires c >= 1 && WellFormed(r) && FillAt(|ws|, row, col, c)
    requires r.nextId == g.nextId + |ws| && r.items == g.items + Cells(ws, g.nextId, c)
    requires r.rowStretch == g.rowStretch
    requires r.rowCount == FilledRows(g, |ws|, c) && r.columnCount == FilledColumns(g, |ws|, c)
    ensures WellFormed(r') && FillAt(|ws| + 1, row', col', c)
    ensures r'.nextId == g.nextId + |ws| + 1 && r'.items == g.items + Cells(ws + [w], g.nextId, c)
    ensures r'.rowStretch == g.rowStretch
    ensures r'.rowCount == FilledRows(g, |ws| + 1, c) && r'.columnCount == FilledColumns(g, |ws| + 1, c)
  {
    row', col' := row, col;
    if col' == c {
      WrapRow(|ws|, row', c);
      col' := 0;
      row' := row' + 1;
    }
    FillStep(g, r, ws, w, row', col', c);
    FillRowCount(g, |ws|, row', col', c);
    FillColumnCount(g, |ws|, row', col', c);
    r' := Add(r, WidgetCell(w), row', col', 1, 1, DEF);
    col' := col' + 1;
  }

  class MGridLayout {
    var grid: Grid

    ghost predicate Valid()
      reads this
    {
      WellFormed(grid)
    }

    /** A new layout: no items, one row and one column. */
    constructor ()
      ensures grid == EMPTY_GRID && Valid()
    {
      grid := EMPTY_GRID;
    }

    /** QGridLayout::addItem / addWidget. */
    method AddItem(c: Content, row: int, column: int, rowSpan: int, columnSpan: int, align: Alignment)
      requires Valid() && row >= 0 && column >= 0 && rowSpan >= 1 && columnSpan >= 1
      modifies this
      ensures Valid()
      ensures grid == Add(old(grid), c, row, column, rowSpan, columnSpan, align)
    {
      AddKeepsWellFormed(grid, c, row, column, rowSpan, columnSpan, align);
      grid := Add(grid, c, row, column, rowSpan, columnSpan, align);
    }

    /** addRow(widgets, rowStretch): widget i goes to column i of the
        insertion row, one cell each, and the row gets the stretch. */
    method AddRowOfWidgets(widgets: seq<WidgetId>, rowStretch: int)
      requires Valid()
      modifies this
      ensures Valid()
      ensures var row := InsertionRow(old(grid));
        grid.items == old(grid.items)
          + seq(|widgets|, i requires 0 <= i < |widgets| => LayoutItem(old(grid.nextId) + i, WidgetCell(widgets[i]), row, i, 1, 1, DEF))
        && grid.rowStretch == old(grid.rowStretch)[row := rowStretch]
        && grid.rowCount == Max(old(grid.rowCount), row + 1)
      ensures grid.nextId == old(grid.nextId) + |widgets|
      ensures grid.columnCount == (if widgets == [] then old(grid.columnCount) else Max(old(grid.columnCount), |widgets|))
    {
      var row := InsertionRow(grid);
      ghost var start := grid;
      var col := 0;
      while col < |widgets|
        invariant 0 <= col <= |widgets| && Valid()
        invariant grid.items == start.items
          + seq(col, i requires 0 <= i < col => LayoutItem(start.nextId + i, WidgetCell(widgets[i]), row, i, 1, 1, DEF))
        invariant grid.nextId == start.nextId + col && grid.rowStretch == start.rowStretch
        invariant grid.rowCount == (if col == 0 then start.rowCount else Max(start.rowCount, row + 1))
        invariant grid.columnCount == (if col == 0 then start.columnCount else Max(start.columnCount, col))
      {
        AddItem(WidgetCell(widgets[col]), row, col, 1, 1, DEF);
        col := col + 1;
      }
      grid := SetRowStretch(grid, row, rowStretch);
    }

    /** addRow(items, rowStretch). */
    method AddRow(items: seq<GridItem>, rowStretch: int)
      requires Valid()
      modifies this
      ensures Valid()
      ensures grid == AddRowSpec(old(grid), items, rowStretch)
    {
      var row := InsertionRow(grid);
      var g := PlaceRow(grid, row, items);
      grid := SetRowStretch(g, row, rowStretch);
    }

    /** addStretch(flags): a spacer after the last row and column, or
        only after the last column (row 0) or the last row (column 0). */
    method AddStretch(horizontal: bool, vertical: bool)
      requires Valid()
      modifies this
      ensures Valid()
      ensures var row, col := InsertionRow(old(grid)), InsertionCol(old(grid));
        grid == (if horizontal && vertical then Add(old(grid), SpacerCell(Expanding, Expanding), row, col, 1, 1, DEF)
          else if horizontal then Add(old(grid), SpacerCell(Expanding, Fixed), 0, col, 1, 1, DEF)
          else if vertical then Add(old(grid), SpacerCell(Fixed, Expanding), row, 0, 1, 1, DEF)
          else old(grid))
    {
      var row := InsertionRow(grid);
      var col := InsertionCol(grid);
      if horizontal && vertical {
        AddItem(SpacerCell(Expanding, Expanding), row, col, 1, 1, DEF);
      } else if horizontal {
        AddItem(SpacerCell(Expanding, Fixed), 0, col, 1, 1, DEF);
      } else if vertical {
        AddItem(SpacerCell(Fixed, Expanding), row, 0, 1, 1, DEF);
      }
    }

    /** autoFill(colCount): the k-th widget child goes to row k div
        colCount, column k mod colCount. Without a parent widget, or with
        fewer than one column, nothing is added. */
    method AutoFill(parent: Option<seq<Child>>, colCount: int)
      requires Valid()
      modifies this
      ensures Valid()
      ensures parent.None? || colCount < 1 ==> grid == old(grid)
      ensures parent.Some? && colCount >= 1 ==>
        grid.items == old(grid.items) + Cells(Widgets(parent.value), old(grid.nextId), colCount)
      ensures grid.rowStretch == old(grid.rowStretch)
      ensures parent.Some? && colCount >= 1 ==>
        var n := |Widgets(parent.value)|;
        grid.nextId == old(grid.nextId) + n
        && grid.rowCount == FilledRows(old(grid), n, colCount) && grid.columnCount == FilledColumns(old(grid), n, colCount)
    {
      if parent.None? {
        return;
      }
      if colCount < 1 {
        return;
      }
      grid := FillCells(grid, parent.value, colCount);
    }

    /** The getItemPosition overloads. */
    function ItemPosition(index: int): (p: GridPosition)
      reads this
      ensures p.IsValid() <==> 0 <= index < |grid.items| && grid.items[index].row != -1 && grid.items[index].column != -1
    {
      PositionAt(grid, index)
    }
  }
}
