/** Writing the inventory into the target template: find the last row that holds anything in columns
    B-F, blank Left and Right on every data row, then walk rows 2 to that last row, optionally fill
    blank Model and Blade cells down, and write the inventory's (Left, Right) of each complete key. */
module Template {
  import opened Cells
  import opened Parsing
  import opened FillDown
  import opened Aggregation

  /** The template's columns: B Model, C Blade, D Flex, E Left, F Right. */
  const ModelCol: int := 2
  const BladeCol: int := 3
  const FlexCol: int := 4
  const LeftCol: int := 5
  const RightCol: int := 6

  /** Row 1 is the header; data starts on row 2. */
  const FirstRow: int := 2

  /** `v not in (None, "")`: a cell that counts when looking for the last row. */
  predicate Present(v: Cell) {
    v != Empty && v != Text("")
  }

  /** Some cell of row `r` in columns B-F holds a value. */
  predicate Occupied(g: Grid, r: int) {
    exists c :: ModelCol <= c <= RightCol && Present(At(g, r, c))
  }

  /** `value is None or str(value).strip() == ""`: a Model or Blade cell that fill-down may write. */
  predicate IsBlankCell(v: Cell) {
    v.Empty? || Strip(Render(v)) == []
  }

  /** The blank test is exactly "the normaliser finds no label". */
  lemma BlankIsNoLabel(v: Cell)
    ensures IsBlankCell(v) <==> NormModel(v).None?
    ensures IsBlankCell(v) <==> NormBlade(v).None?
  {
  }

  /** An inventory side as it is written: None becomes a blank cell. */
  function QtyCell(o: Option<int>): Cell {
    if o.Some? then Integer(o.value) else Empty
  }

  /** The row the write-back stops at: `max_row`, moved up past rows with nothing in columns B-F,
      but never above row 1. */
  function LastRow(g: Grid, maxRow: int): (last: int)
    ensures last <= maxRow
    ensures maxRow >= 1 ==> last >= 1
    ensures last < 1 ==> last == maxRow
    ensures last > 1 ==> Occupied(g, last)
    ensures forall q :: last < q <= maxRow ==> !Occupied(g, q)
    decreases maxRow
  {
    if maxRow > 1 && !Occupied(g, maxRow) then LastRow(g, maxRow - 1) else maxRow
  }

  /** The clear pass from row `r` on: Left and Right of rows `r` to `last` become None. */
  function ClearFrom(g: Grid, r: int, last: int): Grid
    decreases last - r
  {
    if r > last then g else ClearFrom(g[(r, LeftCol) := Empty][(r, RightCol) := Empty], r + 1, last)
  }

  /** Fill-down of one Model or Blade cell: a blank cell takes the label in force, if there is one. */
  function FillLabel(g: Grid, r: int, col: int, name: Option<string>, fd: bool): Grid {
    if fd && IsBlankCell(At(g, r, col)) && name.Some? then g[(r, col) := Text(name.value)] else g
  }

  /** `left_cell.value, right_cell.value = inv.get(key, (None, None))` for a complete key. */
  function WriteTotals(g: Grid, r: int, key: Option<Key>, inv: Inventory): Grid {
    if key.None? then g
    else g[(r, LeftCol) := QtyCell(Lookup(inv, key.value).left)][(r, RightCol) := QtyCell(Lookup(inv, key.value).right)]
  }

  /** The labels row `r` is read with and the labels carried on after it. */
  function RowLabels(g: Grid, r: int, st: Labels, fd: bool): (Option<string>, Option<string>, Labels) {
    var modelHere := NormModel(At(g, r, ModelCol));
    var bladeHere := NormBlade(At(g, r, BladeCol));
    var st' := Remember(st, modelHere, bladeHere);
    (Or(modelHere, if fd then st'.model else None), Or(bladeHere, if fd then st'.blade else None), st')
  }

  /** The inventory key of a row: known only when its model, blade and flex all are. */
  function KeyOf(model: Option<string>, blade: Option<string>, flex: Option<int>): Option<Key> {
    if model.Some? && blade.Some? && flex.Some? then Some(Key(model.value, blade.value, flex.value)) else None
  }

  /** The writes of one pass of the fill loop, given the row's labels and key. */
  function WriteRow(g: Grid, r: int, model: Option<string>, blade: Option<string>, key: Option<Key>,
                    inv: Inventory, fd: bool): Grid {
    WriteTotals(FillLabel(FillLabel(g, r, ModelCol, model, fd), r, BladeCol, blade, fd), r, key, inv)
  }

  /** One pass of the fill loop: the grid after row `r` is written, and the labels carried on. */
  function StepRow(g: Grid, r: int, st: Labels, inv: Inventory, fd: bool): (Grid, Labels) {
    var (model, blade, st') := RowLabels(g, r, st, fd);
    (WriteRow(g, r, model, blade, KeyOf(model, blade, ParseFlex(At(g, r, FlexCol))), inv, fd), st')
  }

  /** The fill loop from row `r` to `last`, with labels `st` in force. */
  function FillFrom(g: Grid, r: int, last: int, st: Labels, inv: Inventory, fd: bool): Grid
    decreases last - r
  {
    if r > last then g
    else
      var (g', st') := StepRow(g, r, st, inv, fd);
      FillFrom(g', r + 1, last, st', inv, fd)
  }

  lemma FillFromStep(g: Grid, r: int, last: int, st: Labels, inv: Inventory, fd: bool)
    requires r <= last
    ensures FillFrom(g, r, last, st, inv, fd)
            == FillFrom(StepRow(g, r, st, inv, fd).0, r + 1, last, StepRow(g, r, st, inv, fd).1, inv, fd)
  {
  }

  /** The template's cells after `apply_to_b_template`: the clear pass, then the fill loop. */
  function Reconciled(g: Grid, maxRow: int, inv: Inventory, fd: bool): Grid {
    var last := LastRow(g, maxRow);
    FillFrom(ClearFrom(g, FirstRow, last), FirstRow, last, NoLabels, inv, fd)
  }

  // ---------------------------------------------------------------------------------------------
  // A row-by-row description of the result, with no state carried from row to row

  /** The Model labels of the template, row by row. */
  function TemplateModelLabels(g: Grid): int -> Option<string> {
    q => NormModel(At(g, q, ModelCol))
  }

  /** The Blade labels of the template, row by row. */
  function TemplateBladeLabels(g: Grid): int -> Option<string> {
    q => NormBlade(At(g, q, BladeCol))
  }

  /** The model row `q` is read with: the nearest label at or above it with fill-down, its own
      label without. */
  function RowModel(g: Grid, q: int, fd: bool): Option<string> {
    if fd then Nearest(TemplateModelLabels(g), FirstRow, q) else TemplateModelLabels(g)(q)
  }

  function RowBlade(g: Grid, q: int, fd: bool): Option<string> {
    if fd then Nearest(TemplateBladeLabels(g), FirstRow, q) else TemplateBladeLabels(g)(q)
  }

  /** The inventory key of template row `q`, when its model, blade and flex are all known. */
  function RowKey(g: Grid, q: int, fd: bool): Option<Key> {
    var model := RowModel(g, q, fd);
    var blade := RowBlade(g, q, fd);
    KeyOf(model, blade, ParseFlex(At(g, q, FlexCol)))
  }

  /** What cell (`q`, `c`) of the template should hold afterwards, given the original cells `g`
      and the last row `last`. */
  function ExpectedCell(g: Grid, last: int, inv: Inventory, fd: bool, q: int, c: int): Cell {
    if q < FirstRow || last < q then
      At(g, q, c)
    else if c == LeftCol || c == RightCol then
      match RowKey(g, q, fd)
      case None => Empty
      case Some(k) => QtyCell(if c == LeftCol then Lookup(inv, k).left else Lookup(inv, k).right)
    else if c == ModelCol && fd && TemplateModelLabels(g)(q).None? && RowModel(g, q, fd).Some? then
      Text(RowModel(g, q, fd).value)
    else if c == BladeCol && fd && TemplateBladeLabels(g)(q).None? && RowBlade(g, q, fd).Some? then
      Text(RowBlade(g, q, fd).value)
    else
      At(g, q, c)
  }

  /** The labels in force before row `r`. */
  function LabelsBefore(g: Grid, r: int): Labels {
    Labels(Nearest(TemplateModelLabels(g), FirstRow, r - 1), Nearest(TemplateBladeLabels(g), FirstRow, r - 1))
  }

  /** The grid the fill loop sees at row `r`: rows from `r` on are the original ones, with Left and
      Right blanked up to `last`. */
  ghost predicate ClearedFrom(g0: Grid, g: Grid, r: int, last: int) {
    forall q, c :: r <= q ==>
      At(g, q, c) == if q <= last && (c == LeftCol || c == RightCol) then Empty else At(g0, q, c)
  }

  lemma {:induction false} ClearFromAt(g: Grid, r: int, last: int, q: int, c: int)
    ensures At(ClearFrom(g, r, last), q, c)
            == if r <= q <= last && (c == LeftCol || c == RightCol) then Empty else At(g, q, c)
    decreases last - r
  {
    if r <= last {
      ClearFromAt(g[(r, LeftCol) := Empty][(r, RightCol) := Empty], r + 1, last, q, c);
    }
  }

  lemma FillLabelAt(g: Grid, r: int, col: int, name: Option<string>, fd: bool, q: int, c: int)
    ensures At(FillLabel(g, r, col, name, fd), q, c)
            == if q == r && c == col && fd && IsBlankCell(At(g, r, col)) && name.Some? then Text(name.value) else At(g, q, c)
  {
  }

  lemma WriteTotalsAt(g: Grid, r: int, key: Option<Key>, inv: Inventory, q: int, c: int)
    ensures At(WriteTotals(g, r, key, inv), q, c)
            == if q == r && key.Some? && c == LeftCol then QtyCell(Lookup(inv, key.value).left)
               else if q == r && key.Some? && c == RightCol then QtyCell(Lookup(inv, key.value).right)
               else At(g, q, c)
  {
  }

  /** The labels row `r` is read with are the ones the row-by-row description gives, and the labels
      carried on are those in force before row `r + 1`. */
  lemma RowLabelsAt(g0: Grid, g: Grid, r: int, last: int, fd: bool)
    requires FirstRow <= r <= last
    requires ClearedFrom(g0, g, r, last)
    ensures RowLabels(g, r, LabelsBefore(g0, r), fd) == (RowModel(g0, r, fd), RowBlade(g0, r, fd), LabelsBefore(g0, r + 1))
  {
    assert At(g, r, ModelCol) == At(g0, r, ModelCol);
    assert At(g, r, BladeCol) == At(g0, r, BladeCol);
  }

  /** One row of the fill loop, in terms of the row-by-row description's labels and key. */
  lemma StepRowIs(g0: Grid, g: Grid, r: int, last: int, inv: Inventory, fd: bool)
    requires FirstRow <= r <= last
    requires ClearedFrom(g0, g, r, last)
    ensures StepRow(g, r, LabelsBefore(g0, r), inv, fd).0
            == WriteRow(g, r, RowModel(g0, r, fd), RowBlade(g0, r, fd), RowKey(g0, r, fd), inv, fd)
  {
    RowLabelsAt(g0, g, r, last, fd);
    assert At(g, r, FlexCol) == At(g0, r, FlexCol);
  }

  /** One row of the fill loop writes only that row, and writes there what `ExpectedCell` says. */
  lemma StepRowAt(g0: Grid, g: Grid, r: int, last: int, inv: Inventory, fd: bool, q: int, c: int)
    requires FirstRow <= r <= last
    requires ClearedFrom(g0, g, r, last)
    ensures At(StepRow(g, r, LabelsBefore(g0, r), inv, fd).0, q, c)
            == if q == r then ExpectedCell(g0, last, inv, fd, q, c) else At(g, q, c)
  {
    StepRowIs(g0, g, r, last, inv, fd);
    var model := RowModel(g0, r, fd);
    var blade := RowBlade(g0, r, fd);
    var g1 := FillLabel(g, r, ModelCol, model, fd);
    var g2 := FillLabel(g1, r, BladeCol, blade, fd);
    FillLabelAt(g, r, ModelCol, model, fd, q, c);
    FillLabelAt(g1, r, BladeCol, blade, fd, q, c);
    FillLabelAt(g, r, BladeCol, blade, fd, q, c);
    WriteTotalsAt(g2, r, RowKey(g0, r, fd), inv, q, c);
    if q == r {
      assert At(g, r, c) == if c == LeftCol || c == RightCol then Empty else At(g0, r, c);
      BlankIsNoLabel(At(g0, r, ModelCol));
      BlankIsNoLabel(At(g0, r, BladeCol));
    }
  }

  /** After one pass of the fill loop the rows below are still as the clear pass left them, and the
      labels carried on are those in force before the next row. */
  lemma StepRowKeepsCleared(g0: Grid, g: Grid, r: int, last: int, inv: Inventory, fd: bool)
    requires FirstRow <= r <= last
    requires ClearedFrom(g0, g, r, last)
    ensures ClearedFrom(g0, StepRow(g, r, LabelsBefore(g0, r), inv, fd).0, r + 1, last)
    ensures StepRow(g, r, LabelsBefore(g0, r), inv, fd).1 == LabelsBefore(g0, r + 1)
  {
    RowLabelsAt(g0, g, r, last, fd);
    var g' := StepRow(g, r, LabelsBefore(g0, r), inv, fd).0;
    forall q', c' | r + 1 <= q'
      ensures At(g', q', c') == if q' <= last && (c' == LeftCol || c' == RightCol) then Empty else At(g0, q', c')
    {
      StepRowAt(g0, g, r, last, inv, fd, q', c');
    }
  }

  /** The fill loop from row `r` on writes each of rows `r` to `last` as `ExpectedCell` says and
      leaves every other row as it found it. */
  lemma {:induction false} FillFromAt(g0: Grid, g: Grid, r: int, last: int, inv: Inventory, fd: bool, q: int, c: int)
    requires FirstRow <= r
    requires ClearedFrom(g0, g, r, last)
    ensures At(FillFrom(g, r, last, LabelsBefore(g0, r), inv, fd), q, c)
            == if r <= q <= last then ExpectedCell(g0, last, inv, fd, q, c) else At(g, q, c)
    decreases last - r
  {
    if r <= last {
      var step := StepRow(g, r, LabelsBefore(g0, r), inv, fd);
      StepRowKeepsCleared(g0, g, r, last, inv, fd);
      FillFromStep(g, r, last, LabelsBefore(g0, r), inv, fd);
      FillFromAt(g0, step.0, r + 1, last, inv, fd, q, c);
      StepRowAt(g0, g, r, last, inv, fd, q, c);
    }
  }

  /** The whole write-back, cell by cell: below the header and down to the last occupied row, Left
      and Right hold the inventory's totals of the row's key (blank when the key is incomplete or
      unknown, so nothing of the template's own quantities survives), blank Model and Blade cells
      take the nearest label above when fill-down is on, and every other cell is left as it was. */
  lemma ReconciledCells(g: Grid, maxRow: int, inv: Inventory, fd: bool, q: int, c: int)
    ensures At(Reconciled(g, maxRow, inv, fd), q, c) == ExpectedCell(g, LastRow(g, maxRow), inv, fd, q, c)
  {
    var last := LastRow(g, maxRow);
    var cleared := ClearFrom(g, FirstRow, last);
    forall q', c' ensures At(cleared, q', c')
                          == if FirstRow <= q' <= last && (c' == LeftCol || c' == RightCol) then Empty else At(g, q', c')
    {
      ClearFromAt(g, FirstRow, last, q', c');
    }
    assert LabelsBefore(g, FirstRow) == NoLabels;
    FillFromAt(g, cleared, FirstRow, last, inv, fd, q, c);
  }

  /** The Flex column, the header, the rows below the last row and every column outside B-F are left
      as they were; without fill-down so are Model and Blade. */
  lemma ReconciledKeepsOtherCells(g: Grid, maxRow: int, inv: Inventory, fd: bool, q: int, c: int)
    requires q < FirstRow || LastRow(g, maxRow) < q || c == FlexCol || c < ModelCol || RightCol < c
             || (!fd && (c == ModelCol || c == BladeCol))
    ensures At(Reconciled(g, maxRow, inv, fd), q, c) == At(g, q, c)
  {
    ReconciledCells(g, maxRow, inv, fd, q, c);
  }

  /** Fill-down only ever writes into a blank Model or Blade cell, only when it is switched on, and
      writes the label in force there; nothing else in those columns changes. */
  lemma FillDownOnlyIntoBlanks(g: Grid, maxRow: int, inv: Inventory, fd: bool, q: int, c: int)
    requires c == ModelCol || c == BladeCol
    requires At(Reconciled(g, maxRow, inv, fd), q, c) != At(g, q, c)
    ensures fd && FirstRow <= q <= LastRow(g, maxRow) && IsBlankCell(At(g, q, c))
    ensures c == ModelCol ==>
              (Nearest(TemplateModelLabels(g), FirstRow, q).Some? &&
               At(Reconciled(g, maxRow, inv, fd), q, c) == Text(Nearest(TemplateModelLabels(g), FirstRow, q).value))
    ensures c == BladeCol ==>
              (Nearest(TemplateBladeLabels(g), FirstRow, q).Some? &&
               At(Reconciled(g, maxRow, inv, fd), q, c) == Text(Nearest(TemplateBladeLabels(g), FirstRow, q).value))
  {
    ReconciledCells(g, maxRow, inv, fd, q, c);
    BlankIsNoLabel(At(g, q, c));
  }

  /** From source sheet to template: a Left or Right cell of a data row ends up holding the positive
      sum of that side over every complete source row with the template row's key, and is blank when
      that sum is not positive or the template row has no complete key. */
  lemma TransformQuantity(s: SourceSheet, excl: bool, g: Grid, maxRow: int, fd: bool, q: int, c: int)
    requires c == LeftCol || c == RightCol
    requires FirstRow <= q <= LastRow(g, maxRow)
    ensures var cell := At(Reconciled(g, maxRow, InventoryOf(AllEntries(s, excl)), fd), q, c);
            var side := if c == LeftCol then Left else Right;
            match RowKey(g, q, fd)
            case None => cell == Empty
            case Some(k) =>
              (cell == Empty <==> SideSum(AllEntries(s, excl), k, side) <= 0) &&
              (cell != Empty ==> cell == Integer(SideSum(AllEntries(s, excl), k, side)))
  {
    ReconciledCells(g, maxRow, InventoryOf(AllEntries(s, excl)), fd, q, c);
    if RowKey(g, q, fd).Some? {
      InventoryTotals(AllEntries(s, excl), RowKey(g, q, fd).value);
    }
  }

  // ---------------------------------------------------------------------------------------------
  // The worksheet as the program changes it

  /** The active sheet of the template workbook: its cells and `max_row`. */
  class Worksheet {
    var cells: Grid
    var maxRow: int

    constructor (cells0: Grid, maxRow0: int)
      ensures cells == cells0 && maxRow == maxRow0
    {
      cells := cells0;
      maxRow := maxRow0;
    }

    /** `ws.cell(r, c).value` */
    function Value(r: int, c: int): Cell
      reads this
    {
      At(cells, r, c)
    }

    /** `ws.cell(r, c).value = v`; a write below the last row moves `max_row` down to it. */
    method SetValue(r: int, c: int, v: Cell)
      modifies this
      ensures cells == old(cells)[(r, c) := v]
      ensures maxRow == if r > old(maxRow) then r else old(maxRow)
    {
      cells := cells[(r, c) := v];
      if r > maxRow {
        maxRow := r;
      }
    }

    /** The last-row search of `apply_to_b_template`: from `max_row` upwards while the row is empty
        in columns B-F, stopping at row 1. */
    method LastDataRow() returns (lastRow: int)
      ensures lastRow == LastRow(cells, maxRow)
    {
      lastRow := maxRow;
      while lastRow > 1
        invariant lastRow <= maxRow
        invariant LastRow(cells, lastRow) == LastRow(cells, maxRow)
        decreases lastRow
      {
        var any := RowHasAny(lastRow);
        if any {
          break;
        }
        lastRow := lastRow - 1;
      }
    }

    /** `row_has_any`: does row `r` hold a value other than None or "" in columns B-F? */
    method RowHasAny(r: int) returns (b: bool)
      ensures b <==> Occupied(cells, r)
    {
      for c := ModelCol to RightCol + 1
        invariant forall c' :: ModelCol <= c' < c ==> !Present(At(cells, r, c'))
      {
        var v := Value(r, c);
        if Present(v) {
          return true;
        }
      }
      return false;
    }
  }

  /** One pass of the fill loop of `apply_to_b_template` on row `r`. */
  method FillRow(ws: Worksheet, r: int, inv: Inventory, fd: bool,
                 currentModel0: Option<string>, currentBlade0: Option<string>)
    returns (currentModel: Option<string>, currentBlade: Option<string>)
    requires r <= ws.maxRow
    modifies ws
    ensures (ws.cells, Labels(currentModel, currentBlade))
            == StepRow(old(ws.cells), r, Labels(currentModel0, currentBlade0), inv, fd)
    ensures ws.maxRow == old(ws.maxRow)
  {
    ghost var g := ws.cells;
    ghost var (m, b, st') := RowLabels(g, r, Labels(currentModel0, currentBlade0), fd);
    currentModel, currentBlade := currentModel0, currentBlade0;
    var modelValue := ws.Value(r, ModelCol);
    var bladeValue := ws.Value(r, BladeCol);
    var flexValue := ws.Value(r, FlexCol);

    var modelHere := NormModel(modelValue);
    var bladeHere := NormBlade(bladeValue);
    var flex := ParseFlex(flexValue);
    if modelHere.Some? {
      currentModel := modelHere;
    }
    if bladeHere.Some? {
      currentBlade := bladeHere;
    }
    var model := Or(modelHere, if fd then currentModel else None);
    var blade := Or(bladeHere, if fd then currentBlade else None);
    assert model == m && blade == b && Labels(currentModel, currentBlade) == st';

    ghost var key := KeyOf(model, blade, flex);
    assert StepRow(g, r, Labels(currentModel0, currentBlade0), inv, fd) == (WriteRow(g, r, model, blade, key, inv, fd), st');

    if fd {
      if IsBlankCell(modelValue) && model.Some? {
        ws.SetValue(r, ModelCol, Text(model.value));
      }
      assert ws.cells == FillLabel(g, r, ModelCol, model, fd);
      assert At(ws.cells, r, BladeCol) == bladeValue;
      if IsBlankCell(bladeValue) && blade.Some? {
        ws.SetValue(r, BladeCol, Text(blade.value));
      }
    }
    ghost var g2 := ws.cells;
    assert g2 == FillLabel(FillLabel(g, r, ModelCol, model, fd), r, BladeCol, blade, fd);
    if model.Some? && blade.Some? && flex.Some? {
      var t := Lookup(inv, Key(model.value, blade.value, flex.value));
      ws.SetValue(r, LeftCol, QtyCell(t.left));
      ws.SetValue(r, RightCol, QtyCell(t.right));
    }
    assert ws.cells == WriteTotals(g2, r, key, inv);
  }

  /** The clear pass of `apply_to_b_template`: Left and Right of rows 2 to `lastRow` become None, so
      no quantity of the template itself survives. */
  method ClearQuantities(ws: Worksheet, lastRow: int)
    requires lastRow <= ws.maxRow
    modifies ws
    ensures ws.cells == ClearFrom(old(ws.cells), FirstRow, lastRow)
    ensures ws.maxRow == old(ws.maxRow)
  {
    var r := FirstRow;
    while r <= lastRow
      invariant FirstRow <= r
      invariant ws.maxRow == old(ws.maxRow)
      invariant ClearFrom(ws.cells, r, lastRow) == ClearFrom(old(ws.cells), FirstRow, lastRow)
      decreases lastRow - r
    {
      ws.SetValue(r, LeftCol, Empty);
      ws.SetValue(r, RightCol, Empty);
      r := r + 1;
    }
  }

  /** The fill loop of `apply_to_b_template` over rows 2 to `lastRow`, with no labels in force at
      the start. */
  method FillRows(ws: Worksheet, lastRow: int, inv: Inventory, fd: bool)
    requires lastRow <= ws.maxRow
    modifies ws
    ensures ws.cells == FillFrom(old(ws.cells), FirstRow, lastRow, NoLabels, inv, fd)
    ensures ws.maxRow == old(ws.maxRow)
  {
    var currentModel: Option<string> := None;
    var currentBlade: Option<string> := None;
    var r := FirstRow;
    while r <= lastRow
      invariant FirstRow <= r
      invariant ws.maxRow == old(ws.maxRow)
      invariant FillFrom(ws.cells, r, lastRow, Labels(currentModel, currentBlade), inv, fd)
                == FillFrom(old(ws.cells), FirstRow, lastRow, NoLabels, inv, fd)
      decreases lastRow - r
    {
      ghost var step := StepRow(ws.cells, r, Labels(currentModel, currentBlade), inv, fd);
      FillFromStep(ws.cells, r, lastRow, Labels(currentModel, currentBlade), inv, fd);
      currentModel, currentBlade := FillRow(ws, r, inv, fd, currentModel, currentBlade);
      assert ws.cells == step.0 && Labels(currentModel, currentBlade) == step.1;
      r := r + 1;
    }
  }

  /** `apply_to_b_template` on the loaded sheet: find the last row, clear Left and Right, then fill
      the rows in order. */
  method ApplyToTemplate(ws: Worksheet, inv: Inventory, fd: bool)
    modifies ws
    ensures ws.cells == Reconciled(old(ws.cells), old(ws.maxRow), inv, fd)
    ensures ws.maxRow == old(ws.maxRow)
  {
    var lastRow := ws.LastDataRow();
    ClearQuantities(ws, lastRow);
    FillRows(ws, lastRow, inv, fd);
  }
}
