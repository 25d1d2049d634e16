/** Extraction of the inventory from the source sheet: the three blocks are scanned from row 5 down,
    Model and Blade are filled down within each block, and Left and Right are summed per key. */
module Aggregation {
  import opened Cells
  import opened Parsing
  import opened Merged
  import opened FillDown

  /** The columns of one block: Model, Blade, Flex, Left, Right. */
  datatype Block = Block(modelCol: int, bladeCol: int, flexCol: int, leftCol: int, rightCol: int)

  /** The three fixed blocks, columns B-F, H-L and N-R. */
  const Blocks: seq<Block> := [Block(2, 3, 4, 5, 6), Block(8, 9, 10, 11, 12), Block(14, 15, 16, 17, 18)]

  /** Headers sit on row 4; data starts on row 5. */
  const FirstDataRow: int := 5

  /** The source sheet: its cells, its merged ranges and `max_row`. */
  datatype SourceSheet = SourceSheet(grid: Grid, merged: seq<Range>, maxRow: int)

  /** The key an inventory line is stored under: (model, blade, flex). */
  datatype Key = Key(model: string, blade: string, flex: int)

  /** One complete row of a block: its key and its parsed Left and Right quantities. */
  datatype Entry = Entry(key: Key, left: Option<int>, right: Option<int>)

  datatype Side = Left | Right

  /** The running sums `{"L": ..., "R": ...}` of one key. */
  datatype Sums = Sums(left: int, right: int)

  /** The final (Left, Right) of one key; None is written as a blank cell. */
  datatype Totals = Totals(left: Option<int>, right: Option<int>)

  type Inventory = map<Key, Totals>

  /** What one row of a block reads: Model and Blade through the merged ranges, the rest directly. */
  datatype SourceRow = SourceRow(model: Cell, blade: Cell, flex: Cell, left: Cell, right: Cell)

  function RowAt(s: SourceSheet, blk: Block, r: int): SourceRow {
    SourceRow(MergedTopLeftValue(s.grid, s.merged, r, blk.modelCol),
              MergedTopLeftValue(s.grid, s.merged, r, blk.bladeCol),
              At(s.grid, r, blk.flexCol),
              At(s.grid, r, blk.leftCol),
              At(s.grid, r, blk.rightCol))
  }

  /** One step of the block scan: the labels after the row, and the row's entry when its model,
      blade and flex are all known. */
  function ScanRow(row: SourceRow, st: Labels, excl: bool): (Labels, Option<Entry>) {
    var modelHere := NormModel(row.model);
    var bladeHere := NormBlade(row.blade);
    var st' := Remember(st, modelHere, bladeHere);
    var model := Or(modelHere, st'.model);
    var blade := Or(bladeHere, st'.blade);
    var flex := ParseFlex(row.flex);
    if model.None? || blade.None? || flex.None? then
      (st', None)
    else
      (st', Some(Entry(Key(model.value, blade.value, flex.value), ParseQty(row.left, excl), ParseQty(row.right, excl))))
  }

  /** The entries of rows `r` to `max_row` of a block, scanned with labels `st` in force. */
  function ScanFrom(s: SourceSheet, blk: Block, excl: bool, r: int, st: Labels): seq<Entry>
    decreases s.maxRow - r
  {
    if r > s.maxRow then
      []
    else
      var (st', e) := ScanRow(RowAt(s, blk, r), st, excl);
      (if e.Some? then [e.value] else []) + ScanFrom(s, blk, excl, r + 1, st')
  }

  /** A block is scanned from row 5 with no label in force. */
  function BlockEntries(s: SourceSheet, blk: Block, excl: bool): seq<Entry> {
    ScanFrom(s, blk, excl, FirstDataRow, NoLabels)
  }

  function ScanBlocks(s: SourceSheet, blocks: seq<Block>, excl: bool): seq<Entry> {
    if blocks == [] then []
    else ScanBlocks(s, blocks[..|blocks| - 1], excl) + BlockEntries(s, blocks[|blocks| - 1], excl)
  }

  /** Every entry of the sheet, block after block. */
  function AllEntries(s: SourceSheet, excl: bool): seq<Entry> {
    ScanBlocks(s, Blocks, excl)
  }

  function Quantity(e: Entry, side: Side): Option<int> {
    if side == Left then e.left else e.right
  }

  /** The sum of the quantities on one side that are not None, over the entries with key `k`. */
  function SideSum(es: seq<Entry>, k: Key, side: Side): int {
    if es == [] then
      0
    else
      var e := es[|es| - 1];
      SideSum(es[..|es| - 1], k, side) + (if e.key == k && Quantity(e, side).Some? then Quantity(e, side).value else 0)
  }

  /** An entry reaches `summed[k]` only when one of its quantities is not None. */
  predicate Touches(e: Entry, k: Key) {
    e.key == k && (e.left.Some? || e.right.Some?)
  }

  /** `summed[key][side] += q` on a `defaultdict` that starts every key at zero. */
  function Bump(m: map<Key, Sums>, k: Key, side: Side, q: int): map<Key, Sums> {
    var cur := if k in m then m[k] else Sums(0, 0);
    m[k := if side == Left then cur.(left := cur.left + q) else cur.(right := cur.right + q)]
  }

  function Accumulate(m: map<Key, Sums>, e: Entry): map<Key, Sums> {
    var m1 := if e.left.Some? then Bump(m, e.key, Left, e.left.value) else m;
    if e.right.Some? then Bump(m1, e.key, Right, e.right.value) else m1
  }

  /** The `summed` dictionary after the entries `es` have been added in order. */
  function Summed(es: seq<Entry>): map<Key, Sums> {
    if es == [] then map[] else Accumulate(Summed(es[..|es| - 1]), es[|es| - 1])
  }

  /** A side total that is not positive becomes None. */
  function Positive(n: int): Option<int> {
    if n > 0 then Some(n) else None
  }

  function Finalize(t: Sums): Totals {
    Totals(Positive(t.left), Positive(t.right))
  }

  /** The inventory built from the entries `es`. */
  function InventoryOf(es: seq<Entry>): Inventory {
    var m := Summed(es);
    map k | k in m :: Finalize(m[k])
  }

  /** `inv.get(key, (None, None))`. */
  function Lookup(inv: Inventory, k: Key): Totals {
    if k in inv then inv[k] else Totals(None, None)
  }

  lemma {:induction false} SideSumAppend(a: seq<Entry>, b: seq<Entry>, k: Key, side: Side)
    ensures SideSum(a + b, k, side) == SideSum(a, k, side) + SideSum(b, k, side)
    decreases |b|
  {
    if b == [] {
      assert a + b == a;
    } else {
      assert (a + b)[..|a + b| - 1] == a + b[..|b| - 1];
      SideSumAppend(a, b[..|b| - 1], k, side);
    }
  }

  /** `summed` holds exactly the keys some entry brought a quantity to, and each holds the sums of
      its Left and Right quantities; a key it does not hold has nothing to sum. */
  lemma {:induction false} SummedIsSideSums(es: seq<Entry>, k: Key)
    ensures k in Summed(es) <==> exists i :: 0 <= i < |es| && Touches(es[i], k)
    ensures k in Summed(es) ==> Summed(es)[k] == Sums(SideSum(es, k, Left), SideSum(es, k, Right))
    ensures k !in Summed(es) ==> SideSum(es, k, Left) == 0 && SideSum(es, k, Right) == 0
  {
    if es != [] {
      var front := es[..|es| - 1];
      var e := es[|es| - 1];
      SummedIsSideSums(front, k);
      assert forall i :: 0 <= i < |front| ==> front[i] == es[i];
      if Touches(e, k) {
        assert Touches(es[|es| - 1], k);
      }
    }
  }

  /** What the inventory says about any key: the positive part of each side's sum, so a side whose
      quantities sum to zero or less, or that has no quantity at all, is None. A key is stored
      exactly when some complete row brought it a quantity. */
  lemma InventoryTotals(es: seq<Entry>, k: Key)
    ensures k in InventoryOf(es) <==> exists i :: 0 <= i < |es| && Touches(es[i], k)
    ensures Lookup(InventoryOf(es), k) == Totals(Positive(SideSum(es, k, Left)), Positive(SideSum(es, k, Right)))
    ensures Lookup(InventoryOf(es), k).left.None? <==> SideSum(es, k, Left) <= 0
    ensures Lookup(InventoryOf(es), k).right.None? <==> SideSum(es, k, Right) <= 0
  {
    SummedIsSideSums(es, k);
  }

  lemma {:induction false} SideSumPermutation(a: seq<Entry>, b: seq<Entry>, k: Key, side: Side)
    requires multiset(a) == multiset(b)
    ensures SideSum(a, k, side) == SideSum(b, k, side)
    decreases |a|
  {
    if a == [] {
      assert |b| == |multiset(b)| == 0;
    } else {
      var e := a[|a| - 1];
      var front := a[..|a| - 1];
      assert a == front + [e];
      assert e in multiset(b);
      var j :| 0 <= j < |b| && b[j] == e;
      var rest := b[..j] + b[j + 1..];
      assert b == b[..j] + [e] + b[j + 1..];
      assert multiset(b) == multiset(b[..j]) + multiset([e]) + multiset(b[j + 1..]);
      assert multiset(rest) == multiset(b[..j]) + multiset(b[j + 1..]);
      assert multiset(a) == multiset(front) + multiset([e]);
      assert multiset(front) == multiset(a) - multiset([e]);
      assert multiset(rest) == multiset(b) - multiset([e]);
      SideSumPermutation(front, rest, k, side);
      SideSumAppend(front, [e], k, side);
      SideSumAppend(b[..j] + [e], b[j + 1..], k, side);
      SideSumAppend(b[..j], [e], k, side);
      SideSumAppend(b[..j], b[j + 1..], k, side);
    }
  }

  /** The order in which rows are added up does not matter: any rearrangement of the entries, within
      or across blocks, gives the same inventory. */
  lemma InventoryPermutation(a: seq<Entry>, b: seq<Entry>)
    requires multiset(a) == multiset(b)
    ensures InventoryOf(a) == InventoryOf(b)
  {
    forall k
      ensures k in InventoryOf(a) <==> k in InventoryOf(b)
      ensures k in InventoryOf(a) ==> InventoryOf(a)[k] == InventoryOf(b)[k]
    {
      InventoryTotals(a, k);
      InventoryTotals(b, k);
      SideSumPermutation(a, b, k, Left);
      SideSumPermutation(a, b, k, Right);
      if exists i :: 0 <= i < |a| && Touches(a[i], k) {
        var i :| 0 <= i < |a| && Touches(a[i], k);
        assert a[i] in multiset(b);
        var j :| 0 <= j < |b| && b[j] == a[i];
        assert Touches(b[j], k);
      }
      if exists j :: 0 <= j < |b| && Touches(b[j], k) {
        var j :| 0 <= j < |b| && Touches(b[j], k);
        assert b[j] in multiset(a);
        var i :| 0 <= i < |a| && a[i] == b[j];
        assert Touches(a[i], k);
      }
    }
  }

  /** The model labels a block reads, row by row. */
  function ModelLabels(s: SourceSheet, blk: Block): int -> Option<string> {
    q => NormModel(RowAt(s, blk, q).model)
  }

  /** The blade labels a block reads, row by row. */
  function BladeLabels(s: SourceSheet, blk: Block): int -> Option<string> {
    q => NormBlade(RowAt(s, blk, q).blade)
  }

  /** The entry of row `r` of a block, without a scan: its model and blade are the nearest labels at
      or above it in the block's own columns, from row 5 on; no complete key, no entry. */
  function RowEntry(s: SourceSheet, blk: Block, excl: bool, r: int): Option<Entry> {
    var model := Nearest(ModelLabels(s, blk), FirstDataRow, r);
    var blade := Nearest(BladeLabels(s, blk), FirstDataRow, r);
    var row := RowAt(s, blk, r);
    var flex := ParseFlex(row.flex);
    if model.Some? && blade.Some? && flex.Some? then
      Some(Entry(Key(model.value, blade.value, flex.value), ParseQty(row.left, excl), ParseQty(row.right, excl)))
    else
      None
  }

  /** The entries of rows `r` to `max_row`, in row order. */
  function RowEntries(s: SourceSheet, blk: Block, excl: bool, r: int): seq<Entry>
    decreases s.maxRow - r
  {
    if r > s.maxRow then []
    else (if RowEntry(s, blk, excl, r).Some? then [RowEntry(s, blk, excl, r).value] else []) + RowEntries(s, blk, excl, r + 1)
  }

  /** The entries from row `r` on are exactly those of the rows with a complete key: a row missing
      its model, blade or flex after fill-down contributes nothing. */
  lemma {:induction false} RowEntriesAreCompleteRows(s: SourceSheet, blk: Block, excl: bool, r: int, e: Entry)
    ensures e in RowEntries(s, blk, excl, r) <==> exists q :: r <= q <= s.maxRow && RowEntry(s, blk, excl, q) == Some(e)
    decreases s.maxRow - r
  {
    if r <= s.maxRow {
      RowEntriesAreCompleteRows(s, blk, excl, r + 1, e);
      var head := RowEntry(s, blk, excl, r);
      var rest := RowEntries(s, blk, excl, r + 1);
      assert RowEntries(s, blk, excl, r) == (if head.Some? then [head.value] else []) + rest;
      assert e in RowEntries(s, blk, excl, r) <==> head == Some(e) || e in rest;
      if e in rest {
        var q :| r + 1 <= q <= s.maxRow && RowEntry(s, blk, excl, q) == Some(e);
        assert r <= q <= s.maxRow;
      }
      if exists q :: r <= q <= s.maxRow && RowEntry(s, blk, excl, q) == Some(e) {
        var q :| r <= q <= s.maxRow && RowEntry(s, blk, excl, q) == Some(e);
        assert q == r || r + 1 <= q;
      }
    }
  }

  /** The labels in force in a block after row `r`. */
  function LabelsThrough(s: SourceSheet, blk: Block, r: int): Labels {
    Labels(Nearest(ModelLabels(s, blk), FirstDataRow, r), Nearest(BladeLabels(s, blk), FirstDataRow, r))
  }

  lemma ScanRowIsRowEntry(s: SourceSheet, blk: Block, excl: bool, r: int)
    requires r >= FirstDataRow
    ensures ScanRow(RowAt(s, blk, r), LabelsThrough(s, blk, r - 1), excl) == (LabelsThrough(s, blk, r), RowEntry(s, blk, excl, r))
  {
  }

  lemma {:induction false} ScanIsNearestLabel(s: SourceSheet, blk: Block, excl: bool, r: int)
    requires r >= FirstDataRow
    ensures ScanFrom(s, blk, excl, r, LabelsThrough(s, blk, r - 1)) == RowEntries(s, blk, excl, r)
    decreases s.maxRow - r
  {
    if r <= s.maxRow {
      ScanRowIsRowEntry(s, blk, excl, r);
      ScanIsNearestLabel(s, blk, excl, r + 1);
      var e := RowEntry(s, blk, excl, r);
      var rest := RowEntries(s, blk, excl, r + 1);
      assert ScanFrom(s, blk, excl, r + 1, LabelsThrough(s, blk, r)) == rest;
      assert ScanFrom(s, blk, excl, r, LabelsThrough(s, blk, r - 1)) == Emitted(e) + rest;
      assert RowEntries(s, blk, excl, r) == Emitted(e) + rest;
    }
  }

  /** Fill-down within a block: the scan's running labels give every row the nearest Model and Blade
      at or above it in the same block, so the block's entries are its complete rows in order, each
      keyed by labels read from that block alone (the labels start empty for every block). */
  lemma BlockEntriesByNearestLabel(s: SourceSheet, blk: Block, excl: bool)
    ensures BlockEntries(s, blk, excl) == RowEntries(s, blk, excl, FirstDataRow)
  {
    ScanIsNearestLabel(s, blk, excl, FirstDataRow);
  }

  /** What a block contributes depends only on what its own five columns read; Model and Blade are
      read through the merged ranges, so a range reaching into another block can bring in its corner. */
  lemma {:induction false} ScanDependsOnlyOnBlock(s1: SourceSheet, s2: SourceSheet, blk: Block, excl: bool, r: int, st: Labels)
    requires s1.maxRow == s2.maxRow
    requires forall q :: r <= q <= s1.maxRow ==> RowAt(s1, blk, q) == RowAt(s2, blk, q)
    ensures ScanFrom(s1, blk, excl, r, st) == ScanFrom(s2, blk, excl, r, st)
    decreases s1.maxRow - r
  {
    if r <= s1.maxRow {
      var step := ScanRow(RowAt(s1, blk, r), st, excl);
      assert ScanRow(RowAt(s2, blk, r), st, excl) == step;
      ScanDependsOnlyOnBlock(s1, s2, blk, excl, r + 1, step.0);
      assert ScanFrom(s1, blk, excl, r, st) == Emitted(step.1) + ScanFrom(s1, blk, excl, r + 1, step.0);
      assert ScanFrom(s2, blk, excl, r, st) == Emitted(step.1) + ScanFrom(s2, blk, excl, r + 1, step.0);
    }
  }

  /** The closing loop of `build_inventory_from_a`: every side total that is not positive becomes None. */
  method FinalizeAll(summed: map<Key, Sums>) returns (inv: Inventory)
    ensures inv == map k | k in summed :: Finalize(summed[k])
  {
    inv := map[];
    var keys := summed.Keys;
    while keys != {}
      invariant keys <= summed.Keys
      invariant inv == map k | k in summed.Keys - keys :: Finalize(summed[k])
      decreases keys
    {
      var k :| k in keys;
      var v := summed[k];
      var left := if v.left > 0 then Some(v.left) else None;
      var right := if v.right > 0 then Some(v.right) else None;
      inv := inv[k := Totals(left, right)];
      keys := keys - {k};
    }
  }

  function Emitted(e: Option<Entry>): seq<Entry> {
    if e.Some? then [e.value] else []
  }

  lemma ScanStep(s: SourceSheet, blk: Block, excl: bool, r: int, st: Labels, done: seq<Entry>)
    requires r <= s.maxRow
    ensures done + ScanFrom(s, blk, excl, r, st)
            == done + Emitted(ScanRow(RowAt(s, blk, r), st, excl).1)
               + ScanFrom(s, blk, excl, r + 1, ScanRow(RowAt(s, blk, r), st, excl).0)
  {
  }

  lemma SummedAfter(seen: seq<Entry>, done: seq<Entry>, e: Option<Entry>)
    ensures Summed(seen + (done + Emitted(e)))
            == if e.Some? then Accumulate(Summed(seen + done), e.value) else Summed(seen + done)
  {
    assert seen + (done + Emitted(e)) == (seen + done) + Emitted(e);
    if e.Some? {
      assert ((seen + done) + [e.value])[..|seen + done|] == seen + done;
    } else {
      assert (seen + done) + [] == seen + done;
    }
  }

  /** One pass of the row loop of `build_inventory_from_a`: read the row's five cells (model and
      blade through their merged ranges), carry the last labels down, and add the quantities to
      `summed` when model, blade and flex are all known. */
  method SumRow(s: SourceSheet, blk: Block, excl: bool, r: int,
                currentModel0: Option<string>, currentBlade0: Option<string>, summed0: map<Key, Sums>)
    returns (currentModel: Option<string>, currentBlade: Option<string>, summed: map<Key, Sums>)
    ensures Labels(currentModel, currentBlade)
            == ScanRow(RowAt(s, blk, r), Labels(currentModel0, currentBlade0), excl).0
    ensures var e := ScanRow(RowAt(s, blk, r), Labels(currentModel0, currentBlade0), excl).1;
            summed == if e.Some? then Accumulate(summed0, e.value) else summed0
  {
    currentModel, currentBlade, summed := currentModel0, currentBlade0, summed0;
    var modelValue := MergedTopLeftValue(s.grid, s.merged, r, blk.modelCol);
    var bladeValue := MergedTopLeftValue(s.grid, s.merged, r, blk.bladeCol);
    var flexValue := At(s.grid, r, blk.flexCol);
    var leftValue := At(s.grid, r, blk.leftCol);
    var rightValue := At(s.grid, r, blk.rightCol);
    ghost var step := ScanRow(SourceRow(modelValue, bladeValue, flexValue, leftValue, rightValue),
                              Labels(currentModel0, currentBlade0), excl);

    var modelHere := NormModel(modelValue);
    var bladeHere := NormBlade(bladeValue);
    if modelHere.Some? {
      currentModel := modelHere;
    }
    if bladeHere.Some? {
      currentBlade := bladeHere;
    }
    var model := Or(modelHere, currentModel);
    var blade := Or(bladeHere, currentBlade);
    var flex := ParseFlex(flexValue);

    if model.Some? && blade.Some? && flex.Some? {
      var left := ParseQty(leftValue, excl);
      var right := ParseQty(rightValue, excl);
      var key := Key(model.value, blade.value, flex.value);
      if left.Some? {
        summed := Bump(summed, key, Left, left.value);
      }
      ghost var m1 := summed;
      assert m1 == if left.Some? then Bump(summed0, key, Left, left.value) else summed0;
      if right.Some? {
        summed := Bump(summed, key, Right, right.value);
      }
      assert summed == if right.Some? then Bump(m1, key, Right, right.value) else m1;
      assert step.1 == Some(Entry(key, left, right));
    } else {
      assert step.1 == None;
    }
  }

  /** The row loop of one block in `build_inventory_from_a`: its own fill-down state starts empty,
      rows with an incomplete key are skipped, and the quantities of the others are added to
      `summed`. */
  method SumBlock(s: SourceSheet, blk: Block, excl: bool, summed0: map<Key, Sums>, ghost seen: seq<Entry>)
    returns (summed: map<Key, Sums>)
    requires summed0 == Summed(seen)
    ensures summed == Summed(seen + BlockEntries(s, blk, excl))
  {
    summed := summed0;
    var currentModel: Option<string> := None;
    var currentBlade: Option<string> := None;
    ghost var inBlock: seq<Entry> := [];
    assert seen + inBlock == seen;
    var r := FirstDataRow;
    while r <= s.maxRow
      invariant inBlock + ScanFrom(s, blk, excl, r, Labels(currentModel, currentBlade)) == BlockEntries(s, blk, excl)
      invariant summed == Summed(seen + inBlock)
      decreases s.maxRow - r
    {
      ghost var e := ScanRow(RowAt(s, blk, r), Labels(currentModel, currentBlade), excl).1;
      ScanStep(s, blk, excl, r, Labels(currentModel, currentBlade), inBlock);
      SummedAfter(seen, inBlock, e);
      currentModel, currentBlade, summed := SumRow(s, blk, excl, r, currentModel, currentBlade, summed);
      inBlock := inBlock + Emitted(e);
      r := r + 1;
    }
    assert inBlock == BlockEntries(s, blk, excl);
  }

  /** `build_inventory_from_a`: scan the three blocks, each with its own fill-down state, sum the
      quantities per key, then turn every side total that is not positive into None. */
  method BuildInventory(s: SourceSheet, excl: bool) returns (inv: Inventory)
    ensures inv == InventoryOf(AllEntries(s, excl))
    ensures forall k :: Lookup(inv, k) == Totals(Positive(SideSum(AllEntries(s, excl), k, Left)),
                                                 Positive(SideSum(AllEntries(s, excl), k, Right)))
  {
    var summed: map<Key, Sums> := map[];
    ghost var done: seq<Entry> := [];
    for b := 0 to |Blocks|
      invariant done == ScanBlocks(s, Blocks[..b], excl)
      invariant summed == Summed(done)
    {
      summed := SumBlock(s, Blocks[b], excl, summed, done);
      assert Blocks[..b + 1][..b] == Blocks[..b];
      done := done + BlockEntries(s, Blocks[b], excl);
    }
    assert Blocks[..|Blocks|] == Blocks;
    inv := FinalizeAll(summed);
    forall k {
      InventoryTotals(AllEntries(s, excl), k);
    }
  }
}
