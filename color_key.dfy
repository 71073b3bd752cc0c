/**
 * The batch colour key of extract_timetable.py: a dictionary from colour
 * fingerprint to batch label, filled from the header band of the weekday sheets.
 * Python dictionaries keep insertion order and an overwrite keeps the key's
 * original position; the timetable's batch lookup depends on that order, so the
 * dictionary is an insertion-ordered sequence of (fingerprint, label) pairs.
 */
module ColorKey {
  import opened Wrappers
  import opened Strings
  import opened Sheets

  type ColorMap = seq<(string, string)>

  /** No fingerprint appears twice. */
  predicate DistinctKeys(m: ColorMap) {
    forall i, j :: 0 <= i < j < |m| ==> m[i].0 != m[j].0
  }

  /** `m.get(k)` */
  function Lookup(m: ColorMap, k: string): (r: Option<string>)
    ensures r.Some? <==> exists i :: 0 <= i < |m| && m[i].0 == k
    ensures r.Some? ==> exists i :: 0 <= i < |m| && m[i] == (k, r.value)
  {
    if m == [] then None
    else if m[0].0 == k then Some(m[0].1)
    else
      var r := Lookup(m[1..], k);
      assert forall i :: 1 <= i < |m| ==> m[i] == m[1..][i - 1];
      r
  }

  /** `m[k] = v`: overwrite in place when `k` is present, append otherwise. */
  function Put(m: ColorMap, k: string, v: string): (r: ColorMap)
    ensures Lookup(r, k) == Some(v)
    ensures forall k' :: k' != k ==> Lookup(r, k') == Lookup(m, k')
    ensures Lookup(m, k).None? ==> r == m + [(k, v)]
    ensures Lookup(m, k).Some? ==> |r| == |m| && forall i :: 0 <= i < |m| ==> r[i].0 == m[i].0
  {
    if m == [] then [(k, v)]
    else if m[0].0 == k then [(k, v)] + m[1..]
    else
      [m[0]] + Put(m[1..], k, v)
  }

  /** Storing a key keeps the keys distinct. */
  lemma PutDistinct(m: ColorMap, k: string, v: string)
    requires DistinctKeys(m)
    ensures DistinctKeys(Put(m, k, v))
  {
    var r := Put(m, k, v);
    forall i, j | 0 <= i < j < |r| ensures r[i].0 != r[j].0 {
      if Lookup(m, k).None? && j == |m| {
        assert r[i] == m[i];
      }
    }
  }

  /** A header cell whose text contains the batch marker "BS". */
  predicate IsBatchCell(c: Cell) {
    c.text.Some? && Contains(c.text.value, "BS")
  }

  /** The label a batch cell contributes: its text, stripped. */
  function Label(c: Cell): string
    requires IsBatchCell(c)
  {
    Strip(c.text.value)
  }

  /** The dictionary after visiting `cells` in order, starting from an empty one. */
  function KeyFold(cells: seq<Cell>): ColorMap {
    if cells == [] then []
    else
      var m := KeyFold(cells[..|cells| - 1]);
      var c := cells[|cells| - 1];
      if IsBatchCell(c) then Put(m, c.fingerprint, Label(c)) else m
  }

  /** What `extract_batch_colors` returns for `sheets`. */
  function BatchColors(sheets: seq<Sheet>): ColorMap {
    KeyFold(HeaderCells(sheets))
  }

  /** `extract_batch_colors` (extract_timetable.py:1-27). */
  method ExtractBatchColors(sheets: seq<Sheet>) returns (colors: ColorMap)
    ensures colors == BatchColors(sheets)
  {
    colors := [];
    for i := 0 to |sheets|
      invariant colors == KeyFold(HeaderCells(sheets[..i]))
    {
      HeaderCellsStep(sheets, i);
      var sheet := sheets[i];
      if !IsWeekday(sheet.title) {
        assert HeaderCells(sheets[..i + 1]) == HeaderCells(sheets[..i]) + [];
        assert HeaderCells(sheets[..i + 1]) == HeaderCells(sheets[..i]);
        continue;
      }
      assert SheetHeaderCells(sheet) == RowsCells(sheet.rows[..Min(HeaderBand, |sheet.rows|)]);
      colors := ScanHeaderBand(colors, sheet.rows, HeaderCells(sheets[..i]));
      assert HeaderCells(sheets[..i + 1]) == HeaderCells(sheets[..i]) + RowsCells(sheet.rows[..Min(HeaderBand, |sheet.rows|)]);
    }
    assert sheets[..|sheets|] == sheets;
  }

  /** The row loop of `extract_batch_colors`: rows 0-3 of one weekday sheet (extract_timetable.py:14-25). */
  method ScanHeaderBand(colors: ColorMap, grid: seq<Row>, ghost seen: seq<Cell>) returns (result: ColorMap)
    requires colors == KeyFold(seen)
    ensures result == KeyFold(seen + RowsCells(grid[..Min(HeaderBand, |grid|)]))
  {
    result := colors;
    assert seen + RowsCells(grid[..0]) == seen;
    for r := 0 to HeaderBand
      invariant result == KeyFold(seen + RowsCells(grid[..Min(r, |grid|)]))
    {
      if r >= |grid| {
        continue;
      }
      RowsCellsStep(grid, r);
      assert seen + RowsCells(grid[..r + 1]) == (seen + RowsCells(grid[..r])) + grid[r];
      result := ScanHeaderRow(result, grid[r], seen + RowsCells(grid[..r]));
    }
  }

  /** The cell loop of `extract_batch_colors` (extract_timetable.py:18-25). */
  method ScanHeaderRow(colors: ColorMap, row: Row, ghost seen: seq<Cell>) returns (result: ColorMap)
    requires colors == KeyFold(seen)
    ensures result == KeyFold(seen + row)
  {
    result := colors;
    assert seen + row[..0] == seen;
    for j := 0 to |row|
      invariant result == KeyFold(seen + row[..j])
    {
      var cell := row[j];
      assert seen + row[..j + 1] == (seen + row[..j]) + [cell];
      KeyFoldSnoc(seen + row[..j], cell);
      if IsBatchCell(cell) {
        result := Put(result, cell.fingerprint, Label(cell));
      }
    }
    assert row[..|row|] == row;
  }

  lemma KeyFoldSnoc(cells: seq<Cell>, c: Cell)
    ensures KeyFold(cells + [c]) == if IsBatchCell(c) then Put(KeyFold(cells), c.fingerprint, Label(c)) else KeyFold(cells)
  {
    assert (cells + [c])[..|cells|] == cells;
  }

  /** The dictionary never holds a fingerprint twice. */
  lemma {:induction false} KeyFoldDistinct(cells: seq<Cell>)
    ensures DistinctKeys(KeyFold(cells))
  {
    if cells != [] {
      var init := cells[..|cells| - 1];
      var c := cells[|cells| - 1];
      KeyFoldDistinct(init);
      if IsBatchCell(c) {
        PutDistinct(KeyFold(init), c.fingerprint, Label(c));
      }
    }
  }

  /** Every entry comes from a batch cell with that fingerprint and that stripped label. */
  lemma {:induction false} KeyFoldSound(cells: seq<Cell>, k: string, v: string)
    requires Lookup(KeyFold(cells), k) == Some(v)
    ensures exists j :: 0 <= j < |cells| && IsBatchCell(cells[j]) && cells[j].fingerprint == k && Label(cells[j]) == v
  {
    var init := cells[..|cells| - 1];
    var c := cells[|cells| - 1];
    if IsBatchCell(c) && c.fingerprint == k {
      assert Label(cells[|cells| - 1]) == v;
    } else {
      assert Lookup(KeyFold(init), k) == Some(v);
      KeyFoldSound(init, k, v);
      var j :| 0 <= j < |init| && IsBatchCell(init[j]) && init[j].fingerprint == k && Label(init[j]) == v;
      assert cells[j] == init[j];
    }
  }

  /**
   * Last write wins: the label stored for a fingerprint is that of the last batch
   * cell carrying it.
   */
  lemma {:induction false} KeyFoldLastWins(cells: seq<Cell>, j: nat)
    requires j < |cells| && IsBatchCell(cells[j])
    requires forall j' :: j < j' < |cells| && IsBatchCell(cells[j']) ==> cells[j'].fingerprint != cells[j].fingerprint
    ensures Lookup(KeyFold(cells), cells[j].fingerprint) == Some(Label(cells[j]))
  {
    var init := cells[..|cells| - 1];
    if j < |cells| - 1 {
      assert init[j] == cells[j];
      KeyFoldLastWins(init, j);
    }
  }

  /**
   * The colour map holds an entry only for a "BS" cell in rows 0-3 of a weekday
   * sheet, and the entry's label is that cell's stripped text.
   */
  lemma BatchColorsSound(sheets: seq<Sheet>, k: string, v: string)
    requires Lookup(BatchColors(sheets), k) == Some(v)
    ensures exists i, r, j, c :: IsHeaderCellAt(sheets, i, r, j, c) && IsBatchCell(c) && c.fingerprint == k && Label(c) == v
  {
    var cells := HeaderCells(sheets);
    KeyFoldSound(cells, k, v);
    var n :| 0 <= n < |cells| && IsBatchCell(cells[n]) && cells[n].fingerprint == k && Label(cells[n]) == v;
    HeaderCellsMembership(sheets, cells[n]);
  }

  /** Every "BS" cell of the header band has its fingerprint in the map. */
  lemma {:induction false} BatchColorsComplete(sheets: seq<Sheet>, i: nat, r: nat, j: nat, c: Cell)
    requires IsHeaderCellAt(sheets, i, r, j, c) && IsBatchCell(c)
    ensures Lookup(BatchColors(sheets), c.fingerprint).Some?
  {
    var cells := HeaderCells(sheets);
    HeaderCellsMembership(sheets, c);
    var n :| 0 <= n < |cells| && cells[n] == c;
    KeyFoldHas(cells, n);
  }

  lemma {:induction false} KeyFoldHas(cells: seq<Cell>, n: nat)
    requires n < |cells| && IsBatchCell(cells[n])
    ensures Lookup(KeyFold(cells), cells[n].fingerprint).Some?
  {
    var init := cells[..|cells| - 1];
    if n < |cells| - 1 {
      assert init[n] == cells[n];
      KeyFoldHas(init, n);
    }
  }

  /** Header text without "BS" anywhere, or no weekday sheet at all, yields an empty map. */
  lemma {:induction false} NoBatchCellsEmptyMap(sheets: seq<Sheet>)
    requires forall i, r, j, c :: IsHeaderCellAt(sheets, i, r, j, c) ==> !IsBatchCell(c)
    ensures BatchColors(sheets) == []
  {
    var cells := HeaderCells(sheets);
    forall n | 0 <= n < |cells| ensures !IsBatchCell(cells[n]) {
      HeaderCellsMembership(sheets, cells[n]);
    }
    KeyFoldEmpty(cells);
  }

  lemma {:induction false} KeyFoldEmpty(cells: seq<Cell>)
    requires forall n :: 0 <= n < |cells| ==> !IsBatchCell(cells[n])
    ensures KeyFold(cells) == []
  {
    if cells != [] {
      KeyFoldEmpty(cells[..|cells| - 1]);
    }
  }

  lemma NoWeekdayEmptyMap(sheets: seq<Sheet>)
    requires forall i :: 0 <= i < |sheets| ==> !IsWeekday(sheets[i].title)
    ensures BatchColors(sheets) == []
  {
    NoWeekdayNoHeader(sheets);
  }

  /** The first fingerprint, in dictionary order, whose wanted equals `wanted`. */
  function FirstKeyWithValue(m: ColorMap, wanted: string): (r: Option<string>)
    ensures r.None? <==> forall i :: 0 <= i < |m| ==> m[i].1 != wanted
    ensures r.Some? ==> exists i :: 0 <= i < |m| && m[i] == (r.value, wanted) && forall j :: 0 <= j < i ==> m[j].1 != wanted
  {
    if m == [] then None
    else if m[0].1 == wanted then Some(m[0].0)
    else
      var r := FirstKeyWithValue(m[1..], wanted);
      assert forall i :: 1 <= i < |m| ==> m[i] == m[1..][i - 1];
      if r.Some? then
        assert exists i :: 1 <= i < |m| && m[i] == (r.value, wanted) && forall j :: 0 <= j < i ==> m[j].1 != wanted by {
          var i :| 0 <= i < |m[1..]| && m[1..][i] == (r.value, wanted) && forall j :: 0 <= j < i ==> m[1..][j].1 != wanted;
          assert m[i + 1] == (r.value, wanted);
          forall j | 0 <= j < i + 1 ensures m[j].1 != wanted {
            if j > 0 { assert m[j] == m[1..][j - 1]; }
          }
        }
        r
      else r
  }

  /** The lookup loop of `get_timetable` (extract_timetable.py:35-39). */
  method FindTargetColor(colors: ColorMap, batch: string) returns (target: Option<string>)
    ensures target == FirstKeyWithValue(colors, batch)
  {
    target := None;
    var i := 0;
    while i < |colors|
      invariant 0 <= i <= |colors|
      invariant forall j :: 0 <= j < i ==> colors[j].1 != batch
    {
      if colors[i].1 == batch {
        target := Some(colors[i].0);
        break;
      }
      i := i + 1;
    }
    FirstKeyWithValueAt(colors, batch, i);
  }

  lemma {:induction false} FirstKeyWithValueAt(m: ColorMap, wanted: string, i: nat)
    requires i <= |m|
    requires forall j :: 0 <= j < i ==> m[j].1 != wanted
    ensures i < |m| && m[i].1 == wanted ==> FirstKeyWithValue(m, wanted) == Some(m[i].0)
  {
    if i > 0 && i < |m| && m[i].1 == wanted {
      assert m[1..][i - 1] == m[i];
      forall j | 0 <= j < i - 1 ensures m[1..][j].1 != wanted {
        assert m[1..][j] == m[j + 1];
      }
      FirstKeyWithValueAt(m[1..], wanted, i - 1);
    }
  }

  /** With distinct keys, looking up an entry's key finds that entry's value. */
  lemma {:induction false} DistinctLookupAt(m: ColorMap, i: nat)
    requires DistinctKeys(m) && i < |m|
    ensures Lookup(m, m[i].0) == Some(m[i].1)
  {
    if i > 0 {
      assert m[0].0 != m[i].0;
      assert m[1..][i - 1] == m[i];
      DistinctLookupAt(m[1..], i - 1);
    }
  }

  /** Every entry of the colour key comes from a batch cell in the header band. */
  lemma BatchColorsEntrySound(sheets: seq<Sheet>, n: nat)
    requires n < |BatchColors(sheets)|
    ensures var e := BatchColors(sheets)[n];
      exists i, r, j, c :: IsHeaderCellAt(sheets, i, r, j, c) && IsBatchCell(c) && c.fingerprint == e.0 && Label(c) == e.1
  {
    KeyFoldDistinct(HeaderCells(sheets));
    DistinctLookupAt(BatchColors(sheets), n);
    BatchColorsSound(sheets, BatchColors(sheets)[n].0, BatchColors(sheets)[n].1);
  }
}
