/** Fill-down of Model and Blade labels while scanning rows top to bottom. */
module FillDown {
  import opened Cells

  /** The running `current_model` and `current_blade` of a scan. */
  datatype Labels = Labels(model: Option<string>, blade: Option<string>)

  const NoLabels := Labels(None, None)

  /** `if model_here: current_model = model_here` and the same for the blade. */
  function Remember(st: Labels, modelHere: Option<string>, bladeHere: Option<string>): Labels {
    Labels(Or(modelHere, st.model), Or(bladeHere, st.blade))
  }

  /** The label in force at row `r` of a scan that started at row `lo`: the one found on the
      nearest row at or above `r` (and not above `lo`) that has a label of its own. */
  function Nearest(f: int -> Option<string>, lo: int, r: int): Option<string>
    decreases r - lo
  {
    if r < lo then None
    else if f(r).Some? then f(r)
    else Nearest(f, lo, r - 1)
  }

  /** The label in force is None exactly when no row from `lo` to `r` has a label, and otherwise it is
      the label of row `q`, the last labelled row: rows after `q` up to `r` have none. */
  lemma {:induction false} NearestIsLastLabel(f: int -> Option<string>, lo: int, r: int, q: int)
    requires lo <= q <= r
    ensures f(q).Some? ==> Nearest(f, lo, r).Some?
    ensures f(q).Some? && (forall q' :: q < q' <= r ==> f(q').None?) ==> Nearest(f, lo, r) == f(q)
    ensures (forall q' :: lo <= q' <= r ==> f(q').None?) ==> Nearest(f, lo, r).None?
    decreases r - lo
  {
    if q < r && f(r).None? {
      NearestIsLastLabel(f, lo, r - 1, q);
    } else if q == r && f(r).None? && lo < r {
      NearestIsLastLabel(f, lo, r - 1, r - 1);
    }
  }

  /** The label in force at a row depends only on the labels of the rows from `lo` to it. */
  lemma {:induction false} NearestFrame(f1: int -> Option<string>, f2: int -> Option<string>, lo: int, r: int)
    requires forall q :: lo <= q <= r ==> f1(q) == f2(q)
    ensures Nearest(f1, lo, r) == Nearest(f2, lo, r)
    decreases r - lo
  {
    if lo <= r && f1(r).None? {
      NearestFrame(f1, f2, lo, r - 1);
    }
  }
}
