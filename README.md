# Renee(A) → Renee(B) inventory converter, modelled in Dafny

The converter reads a loosely laid-out stock sheet ("A") and writes its quantities into a fixed
template ("B"). This project models its extraction-and-reconciliation engine, `transform.py`, and
proves what that engine promises.

- **Normalisers** (`parsing.dfy`, module `Parsing`):
  - `norm_text` / `norm_model` strip a value's text and map a blank result to None.
  - `norm_blade` does the same and upper-cases.
  - `parse_flex` takes the first run of digits.
  - `parse_qty` takes the first run of digits of the stripped text. With defect exclusion on, it
    refuses any text whose stripped form holds a non-ASCII character.
- **Merged cells** (`merged.dfy`, module `Merged`): `merged_top_left_value` reads a cell through
  the first merged range that contains it.
- **Fill-down** (`filldown.dfy`, module `FillDown`): the running "last label seen" state. It comes
  with a reference definition, `Nearest`, the last label at or above a row.
- **Inventory extraction** (`aggregation.dfy`, module `Aggregation`): `build_inventory_from_a`.
  - Three fixed five-column blocks (B-F, H-L, N-R) are scanned from row 5 down to `max_row`.
  - Each block has its own fill-down state.
  - Rows without a complete (model, blade, flex) key are skipped.
  - Left and Right are summed per key in a `defaultdict`.
  - Every side total that is not positive becomes None.
  - The imperative loops are methods (`BuildInventory`, `SumBlock`, `SumRow`, `FinalizeAll`). They
    are proved equal to pure functions (`AllEntries`, `Summed`, `InventoryOf`), and the pure
    functions' properties are proved as lemmas.
- **Template write-back** (`template.dfy`, module `Template`): `apply_to_b_template`.
  - The sheet is a `Worksheet` object whose cells are changed in place.
  - The last-row search, the clear pass and the fill pass are methods with loops.
  - These methods are proved to produce `Reconciled`, the pure description of the three passes.
  - `Reconciled` is proved equal, cell by cell, to `ExpectedCell`. That function describes each
    output cell from the original template alone, with no state carried from row to row.

A worksheet is a map from (row, column) to a `Cell`. A missing entry reads as None. A cell is one
of: None, an integer, a boolean, a text, or any other value given by its `str()` rendering.
`max_row` is given with the sheet.

Points of the code's behaviour worth stating outright:

- The code has no Style/Color column. It does not insert one, does not split a parenthesised style
  out of the model, and does not reset a style when the model changes. Keys are
  (model, blade, flex).
- A side total becomes None when it is not positive: zero, any negative sum, or no contribution at
  all. It is not limited to a sum of exactly zero.
- The last-row search looks at columns B-F (2 to 6), five columns, and stops at row 1.

## Model

| member | source | states |
|---|---|---|
| Parsing.HasNonAscii | transform.py:54-55 | true exactly when some character's code is above 127 |
| Parsing.Strip | transform.py:60 | `str.strip()`: the result is a slice of the input, it is empty exactly when every character is whitespace, its ends are not whitespace, and only whitespace was removed on either side |
| Parsing.StripTrimmed | transform.py:60 | stripping a text whose ends are not whitespace gives it back unchanged |
| Parsing.NatToDecimal | transform.py:60 | `str()` of a natural number: non-empty decimal digits whose value is the number, with no leading zero ("0" only for 0) |
| Parsing.NormText | transform.py:57-61 | None for None; for any other value, the stripped `str(v)` when that is not empty and None when it is; so the result is None or a non-empty text without surrounding whitespace, and an integer gives its decimal text |
| Parsing.NormModel | transform.py:63-64 | `norm_model` is `norm_text`: None for None, otherwise the stripped `str(v)`, or None when nothing is left |
| Parsing.NormBlade | transform.py:66-68 | None exactly when `norm_text` is None; otherwise `norm_text` upper-cased character by character (same length, no lower-case ASCII letter left) |
| Parsing.FirstDigitRun | transform.py:78-79 | None exactly when the text has no digit |
| Parsing.FirstDigitRunSpec | transform.py:78-79 | the value is that of the first maximal run of digits, and such a run exists whenever there is a value |
| Parsing.FirstDigitRunOfStrip | transform.py:98-104 | stripping whitespace first does not change the first digit run |
| Parsing.ParseFlex | transform.py:70-80 | an integer passes unchanged and a boolean gives 1 or 0 (a Python bool is an int); a text gives its first digit run: None exactly when it has no digit, otherwise a non-negative number; None and other values give None |
| Parsing.ParseFlexFirstRun | transform.py:77-79 | for a text, the value is that of the first maximal run of digits, and there is a value only when such a run exists |
| Parsing.FlexOfIntegerText | transform.py:77-79 | parsing the decimal text of a natural number gives the number back |
| Parsing.ParseQty | transform.py:82-105 | an integer passes unchanged and a boolean gives 1 or 0; a blank or whitespace-only text gives None; with exclusion on, a text whose stripped form holds a non-ASCII character gives None; None and other values give None |
| Parsing.ParseQtyAgreesWithFlex | transform.py:97-104 | outside the exclusion case, `parse_qty` gives the same result as `parse_flex` (the first digit run, or None) |
| Merged.MergedTopLeftValue | transform.py:112-120 | the value read is the cell's own or the top-left value of a range that contains the cell; which one is fixed by `MergedFirstMatch` |
| Merged.MergedFirstMatch | transform.py:112-120 | the cell's own value when no range contains it; otherwise the top-left value of the first range that contains it |
| Merged.MergedReadsOnlyCorners | transform.py:117-120 | the result depends only on the cell itself and the top-left cells of the ranges |
| FillDown.NearestIsLastLabel | transform.py:154-160 | the label in force is the last label at or above the row, and it is None exactly when there is no label from the first row down to it |
| FillDown.NearestFrame | transform.py:154-160 | the label in force depends only on the labels from the first row down to the row |
| Aggregation.SideSumAppend | transform.py:170-173 | the sum of one side over two runs of rows is the sum of the two sums |
| Aggregation.SummedIsSideSums | transform.py:166-173 | `summed` holds a key exactly when a complete row with that key has a Left or Right value; its sums are the sums of the non-None quantities of the rows with that key |
| Aggregation.InventoryTotals | transform.py:175-180 | a key is in the inventory exactly when some row with it has a quantity; each side is the side's sum when positive and None when the sum is not positive |
| Aggregation.SideSumPermutation | transform.py:170-173 | the order rows are summed in does not change a side's sum |
| Aggregation.InventoryPermutation | transform.py:169-180 | the same rows in any order give the same inventory |
| Aggregation.RowEntriesAreCompleteRows | transform.py:163-164 | the entries are exactly those of rows with a complete key after fill-down; an incomplete row contributes nothing |
| Aggregation.ScanIsNearestLabel | transform.py:144-161 | the scan with its running labels gives the same entries as keying each row by the nearest labels at or above it |
| Aggregation.BlockEntriesByNearestLabel | transform.py:140-164 | a block starts with no labels: its entries are its complete rows in order, keyed by the labels read in that block's own columns |
| Aggregation.ScanDependsOnlyOnBlock | transform.py:140-149 | what a block contributes depends only on what its own five columns read (Model and Blade through the merged ranges): two sheets whose block rows read the same give the same entries |
| Aggregation.FinalizeAll | transform.py:176-180 | the conversion loop maps every summed key to its totals, with non-positive sides as None, and adds no other key |
| Aggregation.SumRow | transform.py:145-173 | one pass of the row loop: the labels carried on and the new `summed` are those of the scan step for that row |
| Aggregation.SumBlock | transform.py:140-173 | the row loop of one block adds exactly that block's entries to `summed` |
| Aggregation.BuildInventory | transform.py:127-182 | the result is the inventory of all entries of the three blocks; every key's sides are the positive sums of its quantities, None otherwise |
| Template.BlankIsNoLabel | transform.py:246-248 | the blank-cell test used for fill-down holds exactly when the normaliser finds no label |
| Template.LastRow | transform.py:213-215 | at most `max_row` and at least 1 (when `max_row` is); every row after it up to `max_row` is empty in B-F; a last row above 1 is not empty |
| Template.Worksheet.constructor | transform.py:202-203 | the sheet holds the given cells and `max_row` |
| Template.Worksheet.SetValue | transform.py:219-220 | a write changes only that one cell |
| Template.Worksheet.RowHasAny | transform.py:206-211 | true exactly when some column from B to F holds a value other than None or "" |
| Template.Worksheet.LastDataRow | transform.py:213-215 | the loop stops at the last row as characterised above |
| Template.ClearFromAt | transform.py:217-220 | the clear pass blanks Left and Right of rows 2 to the last row and nothing else |
| Template.ClearQuantities | transform.py:217-220 | the clear loop leaves the sheet as the clear pass describes |
| Template.StepRowAt | transform.py:225-258 | one pass of the fill loop writes only its own row, and writes there what the row-by-row description says |
| Template.FillFromAt | transform.py:222-258 | the fill loop writes every row up to the last one as the row-by-row description says and leaves the other rows alone |
| Template.FillRow | transform.py:225-258 | one pass of the fill loop leaves the sheet and the labels as the fill step describes |
| Template.FillRows | transform.py:222-258 | the fill loop leaves the sheet as the fill pass describes |
| Template.ApplyToTemplate | transform.py:189-258 | the sheet ends up as the last-row search, clear pass and fill pass describe; `max_row` is unchanged |
| Template.ReconciledCells | transform.py:217-258 | each data row's Left/Right is the inventory's totals for its key, or blank when the key is incomplete or missing, so no template quantity survives; blank Model/Blade cells get the nearest label when fill-down is on; every other cell is unchanged |
| Template.ReconciledKeepsOtherCells | transform.py:217-258 | the Flex column, the header, rows below the last row and columns outside B-F are unchanged; without fill-down, so are Model and Blade |
| Template.FillDownOnlyIntoBlanks | transform.py:244-249 | a Model or Blade cell changes only with fill-down on, on a data row, when it was blank, and then it takes the label in force |
| Template.TransformQuantity | transform.py:254-258 | from sheet A to the template: a Left/Right cell of a data row holds the positive sum of that side over the source rows with the row's key, and is blank when that sum is not positive or the key is incomplete |

## Left out

- Workbook I/O is not modelled: `load_workbook`, `wb_out.save` and the choice of the active sheet. The sheets are given as values, each with its `max_row`.
- `max_row` is an input. How openpyxl computes it from the cells is not modelled.
- Floating-point cells are not modelled: the float branches of `parse_flex` and `parse_qty`, their rounding, `isfinite` and the 1e-9 tolerance. A float is not one of the modelled cell kinds.
- Python's `\d` also matches non-ASCII decimal digits; here a digit is '0'..'9' only.
- `str.upper()` is modelled for ASCII letters only. Other letters, and upper-casing that changes length, are left as they are.
- `str()` of a date or any other non-text, non-integer value is taken as given (the `Other` case). It is not derived.
- Merged ranges of the template are not modelled. Writing into a cell that is part of a merged range, which openpyxl refuses, is not modelled either.
- `Template.Worksheet.SetValue`: openpyxl also creates a cell object on every read with `ws.cell`. Those reads never reach beyond `max_row` here, so they change nothing observable. They are not modelled.
- The row bodies of `build_inventory_from_a` and of the template fill loop are written inline in Python. Here each is its own method (`Aggregation.SumRow`, `Template.FillRow`), called once per loop pass.
- The three passes of `apply_to_b_template` are likewise separate methods (`Worksheet.LastDataRow`, `ClearQuantities`, `FillRows`), called in the same order.
- `write_diff_csv` is not modelled: it is CSV file output.
- `transform_files`, the command-line `main`, and `main.py` (the web UI, uploads, temporary files and the date) are not modelled: they are plumbing around the engine.
