/** Reading a cell through the sheet's merged regions. */
module Merged {
  import opened Cells

  /** A merged rectangle, as openpyxl's `CellRange` bounds (all inclusive). */
  datatype Range = Range(minRow: int, minCol: int, maxRow: int, maxCol: int)

  /** `cell.coordinate in rng`. */
  predicate Contains(rng: Range, r: int, c: int) {
    rng.minRow <= r <= rng.maxRow && rng.minCol <= c <= rng.maxCol
  }

  /** `merged_top_left_value`: the ranges are tried in order, and the first that contains the cell
      gives the value of its top-left corner. */
  function MergedTopLeftValue(g: Grid, ranges: seq<Range>, r: int, c: int): (v: Cell)
    ensures v == At(g, r, c)
            || exists k :: 0 <= k < |ranges| && Contains(ranges[k], r, c) && v == At(g, ranges[k].minRow, ranges[k].minCol)
  {
    if |ranges| == 0 then
      At(g, r, c)
    else if Contains(ranges[0], r, c) then
      At(g, ranges[0].minRow, ranges[0].minCol)
    else
      MergedTopLeftValue(g, ranges[1..], r, c)
  }

  /** A cell outside every range reads its own value; a cell inside some range reads the top-left
      corner of the first range that contains it. */
  lemma {:induction false} MergedFirstMatch(g: Grid, ranges: seq<Range>, r: int, c: int)
    ensures (forall j :: 0 <= j < |ranges| ==> !Contains(ranges[j], r, c))
            ==> MergedTopLeftValue(g, ranges, r, c) == At(g, r, c)
    ensures forall k :: 0 <= k < |ranges| && Contains(ranges[k], r, c)
                          && (forall j :: 0 <= j < k ==> !Contains(ranges[j], r, c))
                        ==> MergedTopLeftValue(g, ranges, r, c) == At(g, ranges[k].minRow, ranges[k].minCol)
  {
    if |ranges| > 0 && !Contains(ranges[0], r, c) {
      var tail := ranges[1..];
      MergedFirstMatch(g, tail, r, c);
      if forall j :: 0 <= j < |ranges| ==> !Contains(ranges[j], r, c) {
        forall j | 0 <= j < |tail|
          ensures !Contains(tail[j], r, c)
        {
          assert tail[j] == ranges[j + 1];
        }
      }
      forall k | 0 <= k < |ranges| && Contains(ranges[k], r, c)
                 && (forall j :: 0 <= j < k ==> !Contains(ranges[j], r, c))
        ensures MergedTopLeftValue(g, ranges, r, c) == At(g, ranges[k].minRow, ranges[k].minCol)
      {
        assert tail[k - 1] == ranges[k];
        forall j | 0 <= j < k - 1
          ensures !Contains(tail[j], r, c)
        {
          assert tail[j] == ranges[j + 1];
        }
      }
    }
  }

  /** Merged regions never change what a cell outside all of them reads, and only the top-left cell
      of a region decides what every cell of it reads: two grids that agree on the cell and on the
      corners of the regions containing it give the same value. */
  lemma {:induction false} MergedReadsOnlyCorners(g1: Grid, g2: Grid, ranges: seq<Range>, r: int, c: int)
    requires At(g1, r, c) == At(g2, r, c)
    requires forall k :: 0 <= k < |ranges| && Contains(ranges[k], r, c) ==>
               At(g1, ranges[k].minRow, ranges[k].minCol) == At(g2, ranges[k].minRow, ranges[k].minCol)
    ensures MergedTopLeftValue(g1, ranges, r, c) == MergedTopLeftValue(g2, ranges, r, c)
  {
    if |ranges| > 0 && !Contains(ranges[0], r, c) {
      assert forall k :: 1 <= k < |ranges| ==> ranges[k] == ranges[1..][k - 1];
      MergedReadsOnlyCorners(g1, g2, ranges[1..], r, c);
    }
  }
}
