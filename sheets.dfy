/**
 * The already-fetched spreadsheet: a list of sheets, each a grid of rows of cells.
 * Only what the extractors read is kept: a cell's display text (`formattedValue`,
 * absent for an empty cell), whether the cell carries `effectiveFormat`, and the
 * colour fingerprint that the extractors derive from its background colour.
 */
module Sheets {
  import opened Wrappers
  import opened Strings

  /**
   * `fingerprint` is the string the extractors build from the background colour
   * (red, green and blue, each printed with two decimals); for a cell without a
   * background colour it is the fingerprint of the default colour.
   */
  datatype Cell = Cell(text: Option<string>, hasFormat: bool, fingerprint: string)

  type Row = seq<Cell>

  datatype Sheet = Sheet(title: string, rows: seq<Row>)

  /** The sheet titles every extractor accepts. */
  const Weekdays: seq<string> := ["Monday", "Tuesday", "Wednesday", "Thursday", "Friday"]

  predicate IsWeekday(title: string) {
    title in Weekdays
  }

  /** Number of header rows that carry the batch labels. */
  const HeaderBand: nat := 4

  function Min(a: nat, b: nat): nat {
    if a <= b then a else b
  }

  /** The cells of `rows`, row after row, left to right. */
  function RowsCells(rows: seq<Row>): seq<Cell> {
    if rows == [] then [] else RowsCells(rows[..|rows| - 1]) + rows[|rows| - 1]
  }

  /** The header-band cells of one sheet: rows 0 to 3 of a weekday sheet, nothing otherwise. */
  function SheetHeaderCells(s: Sheet): seq<Cell> {
    if IsWeekday(s.title) then RowsCells(s.rows[..Min(HeaderBand, |s.rows|)]) else []
  }

  /** The header-band cells of all sheets, in the order the extractors visit them. */
  function HeaderCells(sheets: seq<Sheet>): seq<Cell> {
    if sheets == [] then [] else HeaderCells(sheets[..|sheets| - 1]) + SheetHeaderCells(sheets[|sheets| - 1])
  }

  /** `c` is cell `j` of row `r` (within the header band) of weekday sheet `i`. */
  predicate IsHeaderCellAt(sheets: seq<Sheet>, i: int, r: int, j: int, c: Cell) {
    && 0 <= i < |sheets| && IsWeekday(sheets[i].title)
    && 0 <= r < HeaderBand && r < |sheets[i].rows|
    && 0 <= j < |sheets[i].rows[r]| && sheets[i].rows[r][j] == c
  }

  lemma {:induction false} RowsCellsMembership(rows: seq<Row>, c: Cell)
    ensures c in RowsCells(rows) <==> exists r, j :: 0 <= r < |rows| && 0 <= j < |rows[r]| && rows[r][j] == c
  {
    if rows != [] {
      var init := rows[..|rows| - 1];
      RowsCellsMembership(init, c);
      if c in RowsCells(rows) && c !in RowsCells(init) {
        var last := rows[|rows| - 1];
        var j :| 0 <= j < |last| && last[j] == c;
        assert rows[|rows| - 1][j] == c;
      }
      if exists r, j :: 0 <= r < |rows| && 0 <= j < |rows[r]| && rows[r][j] == c {
        var r, j :| 0 <= r < |rows| && 0 <= j < |rows[r]| && rows[r][j] == c;
        if r < |rows| - 1 {
          assert init[r][j] == c;
        } else {
          assert c in rows[|rows| - 1];
        }
      }
    }
  }

  lemma {:induction false} HeaderCellsSound(sheets: seq<Sheet>, c: Cell)
    requires c in HeaderCells(sheets)
    ensures exists i, r, j :: IsHeaderCellAt(sheets, i, r, j, c)
  {
    var init := sheets[..|sheets| - 1];
    var last := sheets[|sheets| - 1];
    if c in HeaderCells(init) {
      HeaderCellsSound(init, c);
      var i, r, j :| IsHeaderCellAt(init, i, r, j, c);
      assert IsHeaderCellAt(sheets, i, r, j, c);
    } else {
      var band := last.rows[..Min(HeaderBand, |last.rows|)];
      RowsCellsMembership(band, c);
      var r, j :| 0 <= r < |band| && 0 <= j < |band[r]| && band[r][j] == c;
      assert IsHeaderCellAt(sheets, |sheets| - 1, r, j, c);
    }
  }

  lemma {:induction false} HeaderCellsComplete(sheets: seq<Sheet>, i: nat, r: nat, j: nat, c: Cell)
    requires IsHeaderCellAt(sheets, i, r, j, c)
    ensures c in HeaderCells(sheets)
  {
    var init := sheets[..|sheets| - 1];
    var last := sheets[|sheets| - 1];
    if i < |sheets| - 1 {
      assert IsHeaderCellAt(init, i, r, j, c);
      HeaderCellsComplete(init, i, r, j, c);
    } else {
      var band := last.rows[..Min(HeaderBand, |last.rows|)];
      RowsCellsMembership(band, c);
      assert band[r][j] == c;
    }
  }

  /** A cell is in the header band exactly when it sits in rows 0-3 of a weekday sheet. */
  lemma HeaderCellsMembership(sheets: seq<Sheet>, c: Cell)
    ensures c in HeaderCells(sheets) <==> exists i, r, j :: IsHeaderCellAt(sheets, i, r, j, c)
  {
    if c in HeaderCells(sheets) {
      HeaderCellsSound(sheets, c);
    }
    if exists i, r, j :: IsHeaderCellAt(sheets, i, r, j, c) {
      var i, r, j :| IsHeaderCellAt(sheets, i, r, j, c);
      HeaderCellsComplete(sheets, i, r, j, c);
    }
  }

  /** A spreadsheet without weekday sheets has an empty header band. */
  lemma {:induction false} NoWeekdayNoHeader(sheets: seq<Sheet>)
    requires forall i :: 0 <= i < |sheets| ==> !IsWeekday(sheets[i].title)
    ensures HeaderCells(sheets) == []
  {
    if sheets != [] {
      NoWeekdayNoHeader(sheets[..|sheets| - 1]);
    }
  }

  /** The prefix of `sheets` one longer adds that sheet's header band. */
  lemma HeaderCellsStep(sheets: seq<Sheet>, i: nat)
    requires i < |sheets|
    ensures HeaderCells(sheets[..i + 1]) == HeaderCells(sheets[..i]) + SheetHeaderCells(sheets[i])
  {
    assert sheets[..i + 1][..i] == sheets[..i];
  }

  lemma RowsCellsStep(rows: seq<Row>, r: nat)
    requires r < |rows|
    ensures RowsCells(rows[..r + 1]) == RowsCells(rows[..r]) + rows[r]
  {
    assert rows[..r + 1][..r] == rows[..r];
  }
}
