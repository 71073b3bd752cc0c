/**
 * `get_timetable` of extract_timetable.py: the batch/section timetable.
 *
 * The batch's colour is looked up in the colour key; every weekday sheet with
 * at least six rows is scanned from row index 5 on; a formatted cell of that
 * colour whose text names the section becomes a session, typed Lab when its row
 * lies at or below the sheet's lab header row; sessions are grouped by sheet
 * title and each day is sorted.
 */
module Timetable {
  import opened Wrappers
  import opened Strings
  import opened Sheets
  import opened ColorKey
  import opened Sorting

  datatype SessionType = Class | Lab

  datatype Session = Session(time: string, room: string, kind: SessionType, course: string)

  /** The text the source stores in the session tuple for its type. */
  function KindName(k: SessionType): string {
    match k
    case Class => "Class"
    case Lab => "Lab"
  }

  /** Sessions are Python tuples (time, room, type, course); `sorted` compares them field by field. */
  function SessionKey(s: Session): seq<string> {
    [s.time, s.room, KindName(s.kind), s.course]
  }

  datatype DaySchedule = DaySchedule(day: string, sessions: seq<Session>)

  /** An insertion-ordered dictionary from sheet title to the sessions found on it. */
  type Table = seq<DaySchedule>

  /** The two "no result" sentinels, and the schedule itself. */
  datatype TimetableResult = BatchNotFound(batch: string) | NoClasses | Schedule(days: Table)

  /** The leading marker the caller tests for to tell an error from a schedule. */
  const Warning: string := "\U{26A0}\U{FE0F}"

  /**
   * The text returned for the two outcomes without a schedule; a schedule is
   * rendered as Markdown tables instead, which is not modelled.
   */
  function Message(r: TimetableResult): (m: Option<string>)
    ensures m.Some? <==> !r.Schedule?
    ensures m.Some? ==> Warning <= m.value
  {
    match r
    case BatchNotFound(b) => Some(Warning + " Batch '" + b + "' not found!")
    case NoClasses => Some(Warning + " No classes found for selected criteria")
    case Schedule(_) => None
  }

  /** The message tells the outcome apart, and a "not found" message names the batch it was asked for. */
  lemma MessageInjective(r1: TimetableResult, r2: TimetableResult)
    requires Message(r1).Some? && Message(r1) == Message(r2)
    ensures r1 == r2
  {
    var m := Message(r1).value;
    assert m[3] == (if r1.BatchNotFound? then 'B' else 'N');
    assert m[3] == (if r2.BatchNotFound? then 'B' else 'N');
    if r1.BatchNotFound? {
      var head := Warning + " Batch '";
      var tail := "' not found!";
      assert m == head + r1.batch + tail == head + r2.batch + tail;
      assert |r1.batch| == |r2.batch|;
      assert r1.batch == m[|head|..|head| + |r1.batch|];
      assert r2.batch == m[|head|..|head| + |r2.batch|];
    }
  }

  const ClassTimeRow: nat := 4
  const FirstDataRow: nat := 5
  const MinRows: nat := 6
  const DefaultLabRow: nat := 42
  const LabProbeStart: nat := 41
  const LabProbeEnd: nat := 45

  // ---------------------------------------------------------------------------
  // Layout: the lab header row

  /** The text of a row's first cell, "" when it has none. */
  function FirstText(row: Row): string {
    if |row| == 0 then "" else row[0].text.GetOr("")
  }

  predicate IsLabHeader(rows: seq<Row>, i: nat) {
    i < |rows| && Contains(FirstText(rows[i]), "Lab")
  }

  function LabRowFrom(rows: seq<Row>, i: nat): nat
    decreases LabProbeEnd - i
  {
    if i >= LabProbeEnd then DefaultLabRow
    else if IsLabHeader(rows, i) then i
    else LabRowFrom(rows, i + 1)
  }

  /** The lab header row of a sheet. */
  function LabRow(rows: seq<Row>): nat {
    LabRowFrom(rows, LabProbeStart)
  }

  /** The lab row is the first row in 41..44 whose first cell contains "Lab", and 42 when there is none. */
  lemma LabRowSpec(rows: seq<Row>)
    ensures var l := LabRow(rows);
      || (41 <= l <= 44 && IsLabHeader(rows, l) && forall i :: 41 <= i < l ==> !IsLabHeader(rows, i))
      || (l == 42 && forall i :: 41 <= i <= 44 ==> !IsLabHeader(rows, i))
  {
  }

  /** The probe loop of `get_timetable` (extract_timetable.py:60-64). */
  method FindLabRow(rows: seq<Row>) returns (labRow: nat)
    ensures labRow == LabRow(rows)
  {
    labRow := DefaultLabRow;
    for i := LabProbeStart to LabProbeEnd
      invariant LabRowFrom(rows, i) == LabRow(rows)
    {
      if i < |rows| && Contains(FirstText(rows[i]), "Lab") {
        labRow := i;
        return;
      }
    }
  }

  // ---------------------------------------------------------------------------
  // One session

  /** The header rows a sheet's times are read from. */
  datatype Layout = Layout(classTimes: Row, labRow: nat, labTimes: Option<Row>)

  function LayoutOf(rows: seq<Row>): Layout
    requires |rows| >= MinRows
  {
    var l := LabRow(rows);
    Layout(rows[ClassTimeRow], l, if |rows| > l then Some(rows[l]) else None)
  }

  /** A cell's text, "" when it has none. */
  function EntryOf(c: Cell): string {
    c.text.GetOr("")
  }

  /** The text names the section as "(S)" or "-S". */
  predicate NamesSection(entry: string, section: string) {
    Contains(entry, "(" + section + ")") || Contains(entry, "-" + section)
  }

  /** A formatted cell of the batch's colour whose non-empty text names the section. */
  predicate IsMatch(c: Cell, target: string, section: string) {
    c.hasFormat && c.fingerprint == target && EntryOf(c) != "" && NamesSection(EntryOf(c), section)
  }

  /** The course name: the text before the first '(' and then before the first '-', stripped. */
  function CleanCourseName(entry: string): string {
    Strip(TakeBefore(TakeBefore(entry, '('), '-'))
  }

  /** The course name holds neither '(' nor '-' and has no surrounding whitespace. */
  lemma CleanCourseNameSpec(entry: string)
    ensures var r := CleanCourseName(entry);
      '(' !in r && '-' !in r && r == Strip(r)
  {
    var a := TakeBefore(entry, '(');
    var b := TakeBefore(a, '-');
    TakeBeforeKeepsOut(a, '-', '(');
    StripKeepsOut(b, '(');
    StripKeepsOut(b, '-');
    StripIdempotent(b);
  }

  /** The room: the row's first cell, stripped, or "Unknown". */
  function RoomOf(row: Row): string {
    if |row| > 0 then Strip(row[0].text.GetOr("Unknown")) else "Unknown"
  }

  /** The time: the header row's cell in the same column, or "Unknown". */
  function TimeOf(timeRow: Option<Row>, col: nat): string {
    if timeRow.Some? && col < |timeRow.value| then timeRow.value[col].text.GetOr("Unknown") else "Unknown"
  }

  /**
   * The session of cell (r, col). The source numbers the row r + 1 and calls it a
   * lab row when that number is at least the lab row + 1, that is when r is at or
   * below the lab header row.
   */
  function SessionAt(rows: seq<Row>, layout: Layout, r: nat, col: nat): Session
    requires r < |rows| && col < |rows[r]|
  {
    var isLab := r + 1 >= layout.labRow + 1;
    Session(
      TimeOf(if isLab then layout.labTimes else Some(layout.classTimes), col),
      RoomOf(rows[r]),
      if isLab then Lab else Class,
      CleanCourseName(EntryOf(rows[r][col])))
  }

  // ---------------------------------------------------------------------------
  // The stream of (day, session) pairs in scan order

  function CellsEmit(sheet: Sheet, layout: Layout, target: string, section: string, r: nat, n: nat): seq<(string, Session)>
    requires r < |sheet.rows| && n <= |sheet.rows[r]|
  {
    if n == 0 then []
    else
      CellsEmit(sheet, layout, target, section, r, n - 1)
      + if IsMatch(sheet.rows[r][n - 1], target, section)
        then [(sheet.title, SessionAt(sheet.rows, layout, r, n - 1))] else []
  }

  function RowsEmit(sheet: Sheet, layout: Layout, target: string, section: string, n: nat): seq<(string, Session)>
    requires FirstDataRow <= n <= |sheet.rows|
  {
    if n == FirstDataRow then []
    else
      RowsEmit(sheet, layout, target, section, n - 1)
      + CellsEmit(sheet, layout, target, section, n - 1, |sheet.rows[n - 1]|)
  }

  /** Weekday sheets with at least six rows are scanned; the others contribute nothing. */
  function SheetEmit(sheet: Sheet, target: string, section: string): seq<(string, Session)> {
    if !IsWeekday(sheet.title) || |sheet.rows| < MinRows then []
    else RowsEmit(sheet, LayoutOf(sheet.rows), target, section, |sheet.rows|)
  }

  function SheetsEmit(sheets: seq<Sheet>, target: string, section: string): seq<(string, Session)> {
    if sheets == [] then []
    else SheetsEmit(sheets[..|sheets| - 1], target, section) + SheetEmit(sheets[|sheets| - 1], target, section)
  }

  // ---------------------------------------------------------------------------
  // Grouping by day

  /** `timetable.setdefault(day, []).append(s)` */
  function AppendSession(t: Table, day: string, s: Session): Table {
    if t == [] then [DaySchedule(day, [s])]
    else if t[0].day == day then [DaySchedule(day, t[0].sessions + [s])] + t[1..]
    else [t[0]] + AppendSession(t[1..], day, s)
  }

  function Group(stream: seq<(string, Session)>): Table {
    if stream == [] then []
    else
      var last := stream[|stream| - 1];
      AppendSession(Group(stream[..|stream| - 1]), last.0, last.1)
  }

  /** Each day has one entry, listing its sessions in the order they were found. */
  function SortDays(t: Table): (r: Table)
    ensures |r| == |t|
    ensures forall k :: 0 <= k < |t| ==> r[k].day == t[k].day
  {
    seq(|t|, k requires 0 <= k < |t| => DaySchedule(t[k].day, SortBy(t[k].sessions, SessionKey)))
  }

  /** The fingerprint of the batch; "" when none, which the source's `if not target_color` also rejects. */
  function Target(sheets: seq<Sheet>, batch: string): string {
    FirstKeyWithValue(BatchColors(sheets), batch).GetOr("")
  }

  /** What `get_timetable` returns. */
  function TimetableOf(sheets: seq<Sheet>, batch: string, section: string): TimetableResult {
    var target := Target(sheets, batch);
    if target == "" then BatchNotFound(batch)
    else
      var table := Group(SheetsEmit(sheets, target, section));
      if table == [] then NoClasses else Schedule(SortDays(table))
  }

  // ---------------------------------------------------------------------------
  // The method

  /** `get_timetable` (extract_timetable.py:30-115), without the Markdown layout. */
  method GetTimetable(sheets: seq<Sheet>, batch: string, section: string) returns (result: TimetableResult)
    ensures result == TimetableOf(sheets, batch, section)
  {
    var colors := ExtractBatchColors(sheets);
    var found := FindTargetColor(colors, batch);
    if found.None? || found.value == "" {
      return BatchNotFound(batch);
    }
    var target := found.value;
    var table := ScanSheets(sheets, target, section);
    if table == [] {
      return NoClasses;
    }
    var days := SortSessions(table);
    result := Schedule(days);
  }

  /** The sheet loop of `get_timetable` (extract_timetable.py:47-103). */
  method ScanSheets(sheets: seq<Sheet>, target: string, section: string) returns (table: Table)
    ensures table == Group(SheetsEmit(sheets, target, section))
  {
    table := [];
    for i := 0 to |sheets|
      invariant table == Group(SheetsEmit(sheets[..i], target, section))
    {
      var sheet := sheets[i];
      ghost var before := SheetsEmit(sheets[..i], target, section);
      SheetsEmitStep(sheets, i, target, section);
      if !IsWeekday(sheet.title) {
        assert before + SheetEmit(sheet, target, section) == before + [] == before;
        continue;
      }
      if |sheet.rows| < MinRows {
        assert before + SheetEmit(sheet, target, section) == before + [] == before;
        continue;
      }
      table := ScanSheet(table, sheet, target, section, before);
    }
    assert sheets[..|sheets|] == sheets;
  }

  lemma SheetsEmitStep(sheets: seq<Sheet>, i: nat, target: string, section: string)
    requires i < |sheets|
    ensures SheetsEmit(sheets[..i + 1], target, section) == SheetsEmit(sheets[..i], target, section) + SheetEmit(sheets[i], target, section)
  {
    assert sheets[..i + 1][..i] == sheets[..i];
  }

  /** The per-day sort of `get_timetable` (extract_timetable.py:107-113). */
  method SortSessions(table: Table) returns (days: Table)
    ensures days == SortDays(table)
  {
    days := [];
    for k := 0 to |table|
      invariant days == SortDays(table[..k])
    {
      days := days + [DaySchedule(table[k].day, SortBy(table[k].sessions, SessionKey))];
    }
    assert table[..|table|] == table;
  }

  /** The row loop of `get_timetable` for one weekday sheet (extract_timetable.py:52-103). */
  method ScanSheet(table: Table, sheet: Sheet, target: string, section: string, ghost before: seq<(string, Session)>)
    returns (result: Table)
    requires IsWeekday(sheet.title) && |sheet.rows| >= MinRows
    requires table == Group(before)
    ensures result == Group(before + SheetEmit(sheet, target, section))
  {
    var grid := sheet.rows;
    var layout := SheetLayout(grid);
    result := table;
    assert before + RowsEmit(sheet, layout, target, section, FirstDataRow) == before by {
      assert RowsEmit(sheet, layout, target, section, FirstDataRow) == [];
    }
    for r := FirstDataRow to |grid|
      invariant result == Group(before + RowsEmit(sheet, layout, target, section, r))
    {
      result := ScanRow(result, sheet, layout, target, section, r, before + RowsEmit(sheet, layout, target, section, r));
      RowStep(sheet, layout, target, section, r, before);
    }
    assert RowsEmit(sheet, layout, target, section, |grid|) == SheetEmit(sheet, target, section) by {
      assert layout == LayoutOf(sheet.rows);
    }
  }

  /** The time rows of a sheet (extract_timetable.py:56-66). */
  method SheetLayout(grid: seq<Row>) returns (layout: Layout)
    requires |grid| >= MinRows
    ensures layout == LayoutOf(grid)
  {
    var classTimes := grid[ClassTimeRow];
    var labRow := FindLabRow(grid);
    var labTimes := if |grid| > labRow then Some(grid[labRow]) else None;
    layout := Layout(classTimes, labRow, labTimes);
  }

  /** The cell loop of `get_timetable` for one data row (extract_timetable.py:73-103). */
  method ScanRow(table: Table, sheet: Sheet, layout: Layout, target: string, section: string, r: nat,
                 ghost before: seq<(string, Session)>)
    returns (result: Table)
    requires r < |sheet.rows|
    requires table == Group(before)
    ensures result == Group(before + CellsEmit(sheet, layout, target, section, r, |sheet.rows[r]|))
  {
    var row := sheet.rows[r];
    var room := RowRoom(row);
    result := table;
    assert before + CellsEmit(sheet, layout, target, section, r, 0) == before + [] == before;
    for col := 0 to |row|
      invariant result == Group(before + CellsEmit(sheet, layout, target, section, r, col))
    {
      ghost var grouped := result;
      result := ScanCell(result, sheet, layout, target, section, r, col, room);
      CellStep(sheet, layout, target, section, r, col, before, grouped, result);
    }
  }

  /** The room of a data row (extract_timetable.py:74). */
  method RowRoom(row: Row) returns (room: string)
    ensures room == RoomOf(row)
  {
    room := if |row| > 0 then Strip(row[0].text.GetOr("Unknown")) else "Unknown";
  }

  /** The body of the cell loop of `get_timetable` (extract_timetable.py:77-103). */
  method ScanCell(table: Table, sheet: Sheet, layout: Layout, target: string, section: string, r: nat, col: nat,
                  room: string)
    returns (result: Table)
    requires r < |sheet.rows| && col < |sheet.rows[r]|
    requires room == RoomOf(sheet.rows[r])
    ensures result == if IsMatch(sheet.rows[r][col], target, section)
      then AppendSession(table, sheet.title, SessionAt(sheet.rows, layout, r, col)) else table
  {
    result := table;
    var cell := sheet.rows[r][col];
    var isLab := r + 1 >= layout.labRow + 1;
    // a cell without `effectiveFormat` is skipped
    if cell.hasFormat && cell.fingerprint == target {
      var entry := cell.text.GetOr("");
      if entry != "" && (Contains(entry, "(" + section + ")") || Contains(entry, "-" + section)) {
        var course := Strip(TakeBefore(TakeBefore(entry, '('), '-'));
        var timeRow := if isLab then layout.labTimes else Some(layout.classTimes);
        var time := "Unknown";
        if timeRow.Some? {
          if |timeRow.value| > col {
            time := timeRow.value[col].text.GetOr("Unknown");
          }
        }
        var session := Session(time, room, if isLab then Lab else Class, course);
        assert IsMatch(cell, target, section);
        SessionAtFields(sheet.rows, layout, r, col, session);
        result := AppendSession(result, sheet.title, session);
      } else {
        assert !IsMatch(cell, target, section);
      }
    } else {
      assert !IsMatch(cell, target, section);
    }
  }

  lemma RowStep(sheet: Sheet, layout: Layout, target: string, section: string, r: nat, before: seq<(string, Session)>)
    requires FirstDataRow <= r < |sheet.rows|
    ensures before + RowsEmit(sheet, layout, target, section, r) + CellsEmit(sheet, layout, target, section, r, |sheet.rows[r]|)
      == before + RowsEmit(sheet, layout, target, section, r + 1)
  {
    AppendAssoc(before, RowsEmit(sheet, layout, target, section, r), CellsEmit(sheet, layout, target, section, r, |sheet.rows[r]|));
  }

  /** One cell of the row scan keeps the table equal to the grouped stream so far. */
  lemma CellStep(sheet: Sheet, layout: Layout, target: string, section: string, r: nat, col: nat,
                 before: seq<(string, Session)>, grouped: Table, result: Table)
    requires r < |sheet.rows| && col < |sheet.rows[r]|
    requires grouped == Group(before + CellsEmit(sheet, layout, target, section, r, col))
    requires result == if IsMatch(sheet.rows[r][col], target, section)
      then AppendSession(grouped, sheet.title, SessionAt(sheet.rows, layout, r, col)) else grouped
    ensures result == Group(before + CellsEmit(sheet, layout, target, section, r, col + 1))
  {
    var matched := IsMatch(sheet.rows[r][col], target, section);
    var x := (sheet.title, SessionAt(sheet.rows, layout, r, col));
    var emitted := CellsEmit(sheet, layout, target, section, r, col);
    CellsEmitStep(sheet, layout, target, section, r, col);
    AppendAssoc(before, emitted, if matched then [x] else []);
    GroupStep(before + emitted, before + CellsEmit(sheet, layout, target, section, r, col + 1), grouped, result, matched, x);
  }

  /** One step of the scan: a matching cell appends its session to its day, any other leaves the table alone. */
  lemma GroupStep(prefix: seq<(string, Session)>, next: seq<(string, Session)>, grouped: Table, result: Table,
                  matched: bool, x: (string, Session))
    requires grouped == Group(prefix)
    requires next == prefix + if matched then [x] else []
    requires result == if matched then AppendSession(grouped, x.0, x.1) else grouped
    ensures result == Group(next)
  {
    if matched {
      GroupSnoc(prefix, x);
    } else {
      assert next == prefix;
    }
  }

  /** A session built field by field from the cell, its row and the layout is that cell's session. */
  lemma SessionAtFields(rows: seq<Row>, layout: Layout, r: nat, col: nat, s: Session)
    requires r < |rows| && col < |rows[r]|
    requires var isLab := r + 1 >= layout.labRow + 1;
      && s.time == TimeOf(if isLab then layout.labTimes else Some(layout.classTimes), col)
      && s.room == RoomOf(rows[r])
      && s.kind == (if isLab then Lab else Class)
      && s.course == CleanCourseName(EntryOf(rows[r][col]))
    ensures s == SessionAt(rows, layout, r, col)
  {
  }

  lemma AppendAssoc<T>(a: seq<T>, b: seq<T>, c: seq<T>)
    ensures a + (b + c) == (a + b) + c
  {
  }

  lemma CellsEmitStep(sheet: Sheet, layout: Layout, target: string, section: string, r: nat, col: nat)
    requires r < |sheet.rows| && col < |sheet.rows[r]|
    ensures CellsEmit(sheet, layout, target, section, r, col + 1)
      == CellsEmit(sheet, layout, target, section, r, col)
         + if IsMatch(sheet.rows[r][col], target, section)
           then [(sheet.title, SessionAt(sheet.rows, layout, r, col))] else []
  {
  }

  lemma GroupSnoc(stream: seq<(string, Session)>, x: (string, Session))
    ensures Group(stream + [x]) == AppendSession(Group(stream), x.0, x.1)
  {
    assert (stream + [x])[..|stream|] == stream;
  }

  // ---------------------------------------------------------------------------
  // What the grouping computes

  /** The sessions of `day` in `stream`, in stream order. */
  function DayFilter(stream: seq<(string, Session)>, day: string): seq<Session> {
    if stream == [] then []
    else
      var last := stream[|stream| - 1];
      DayFilter(stream[..|stream| - 1], day) + if last.0 == day then [last.1] else []
  }

  predicate DistinctDays(t: Table) {
    forall i, j :: 0 <= i < j < |t| ==> t[i].day != t[j].day
  }

  /**
   * `t` is the dictionary built from `stream`: one entry per day that occurs in
   * the stream, each holding exactly that day's sessions in stream order.
   */
  ghost predicate GroupedFrom(t: Table, stream: seq<(string, Session)>) {
    && DistinctDays(t)
    && (forall d :: 0 <= d < |t| ==> t[d].sessions == DayFilter(stream, t[d].day) && t[d].sessions != [])
    && (forall day :: DayFilter(stream, day) != [] ==> exists d :: 0 <= d < |t| && t[d].day == day)
  }

  lemma {:induction false} DayFilterMember(stream: seq<(string, Session)>, day: string, s: Session)
    ensures s in DayFilter(stream, day) <==> (day, s) in stream
  {
    if stream != [] {
      var init := stream[..|stream| - 1];
      DayFilterMember(init, day, s);
      assert stream == init + [stream[|stream| - 1]];
    }
  }

  /** A day not yet in the dictionary is added at its end. */
  lemma {:induction false} AppendSessionNew(t: Table, day: string, s: Session)
    requires forall d :: 0 <= d < |t| ==> t[d].day != day
    ensures AppendSession(t, day, s) == t + [DaySchedule(day, [s])]
  {
    if t != [] {
      assert t[0].day != day;
      forall d | 0 <= d < |t[1..]| ensures t[1..][d].day != day {
        assert t[1..][d] == t[d + 1];
      }
      AppendSessionNew(t[1..], day, s);
      assert t == [t[0]] + t[1..];
    }
  }

  /** The entries of the other days keep their places. */
  lemma {:induction false} AppendSessionOther(t: Table, day: string, s: Session, d: nat)
    requires d < |t| && t[d].day != day
    ensures var r := AppendSession(t, day, s);
      d < |r| && r[d] == t[d]
  {
    if t[0].day != day && d > 0 {
      assert t[1..][d - 1] == t[d];
      AppendSessionOther(t[1..], day, s, d - 1);
    }
  }

  /** With distinct days, the entry of `day` gets `s` appended and the length stays. */
  lemma {:induction false} AppendSessionKnown(t: Table, day: string, s: Session, d: nat)
    requires DistinctDays(t) && d < |t| && t[d].day == day
    ensures var r := AppendSession(t, day, s);
      |r| == |t| && r[d] == DaySchedule(day, t[d].sessions + [s])
  {
    if d > 0 {
      assert t[0].day != day;
      var tail := t[1..];
      assert DistinctDays(tail) by {
        forall i, j | 0 <= i < j < |tail| ensures tail[i].day != tail[j].day {
          assert tail[i] == t[i + 1] && tail[j] == t[j + 1];
        }
      }
      assert tail[d - 1] == t[d];
      AppendSessionKnown(tail, day, s, d - 1);
    }
  }

  /** Appending keeps the days of the dictionary distinct. */
  lemma AppendSessionDistinct(t: Table, day: string, s: Session)
    requires DistinctDays(t)
    ensures DistinctDays(AppendSession(t, day, s))
  {
    var r := AppendSession(t, day, s);
    if d0 :| 0 <= d0 < |t| && t[d0].day == day {
      AppendSessionKnown(t, day, s, d0);
      forall d | 0 <= d < |t| ensures r[d].day == t[d].day {
        if t[d].day != day {
          AppendSessionOther(t, day, s, d);
        } else {
          assert d == d0;
        }
      }
    } else {
      AppendSessionNew(t, day, s);
      forall i, j | 0 <= i < j < |r| ensures r[i].day != r[j].day {
        if j < |t| {
          assert r[i] == t[i] && r[j] == t[j];
        } else {
          assert r[i] == t[i];
        }
      }
    }
  }

  lemma DayFilterSnoc(stream: seq<(string, Session)>, x: (string, Session), day: string)
    ensures DayFilter(stream + [x], day) == DayFilter(stream, day) + if x.0 == day then [x.1] else []
  {
    assert (stream + [x])[..|stream|] == stream;
  }

  /** Appending one more (day, session) pair keeps the dictionary that of the longer stream. */
  lemma GroupedFromSnoc(t: Table, stream: seq<(string, Session)>, x: (string, Session))
    requires GroupedFrom(t, stream)
    ensures GroupedFrom(AppendSession(t, x.0, x.1), stream + [x])
  {
    if exists d :: 0 <= d < |t| && t[d].day == x.0 {
      var d0 :| 0 <= d0 < |t| && t[d0].day == x.0;
      GroupedFromSnocKnownDay(t, stream, x, d0);
    } else {
      GroupedFromSnocNewDay(t, stream, x);
    }
  }

  lemma GroupedFromSnocKnownDay(t: Table, stream: seq<(string, Session)>, x: (string, Session), d0: nat)
    requires GroupedFrom(t, stream)
    requires d0 < |t| && t[d0].day == x.0
    ensures GroupedFrom(AppendSession(t, x.0, x.1), stream + [x])
  {
    var r := AppendSession(t, x.0, x.1);
    var next := stream + [x];
    AppendSessionDistinct(t, x.0, x.1);
    AppendSessionKnown(t, x.0, x.1, d0);
    forall d | 0 <= d < |r| ensures r[d].sessions == DayFilter(next, r[d].day) && r[d].sessions != [] {
      DayFilterSnoc(stream, x, t[d].day);
      if t[d].day != x.0 {
        AppendSessionOther(t, x.0, x.1, d);
      } else {
        assert d == d0;
      }
    }
    forall day | DayFilter(next, day) != [] ensures exists d :: 0 <= d < |r| && r[d].day == day {
      DayFilterSnoc(stream, x, day);
      if day == x.0 {
        assert r[d0].day == day;
      } else {
        var d :| 0 <= d < |t| && t[d].day == day;
        AppendSessionOther(t, x.0, x.1, d);
      }
    }
  }

  lemma GroupedFromSnocNewDay(t: Table, stream: seq<(string, Session)>, x: (string, Session))
    requires GroupedFrom(t, stream)
    requires forall d :: 0 <= d < |t| ==> t[d].day != x.0
    ensures GroupedFrom(AppendSession(t, x.0, x.1), stream + [x])
  {
    var r := AppendSession(t, x.0, x.1);
    var next := stream + [x];
    AppendSessionNew(t, x.0, x.1);
    AppendSessionDistinct(t, x.0, x.1);
    forall d | 0 <= d < |r| ensures r[d].sessions == DayFilter(next, r[d].day) && r[d].sessions != [] {
      DayFilterSnoc(stream, x, r[d].day);
      if d < |t| {
        assert r[d] == t[d];
      } else {
        assert DayFilter(stream, x.0) == [];
      }
    }
    forall day | DayFilter(next, day) != [] ensures exists d :: 0 <= d < |r| && r[d].day == day {
      DayFilterSnoc(stream, x, day);
      if day == x.0 {
        assert r[|t|].day == day;
      } else {
        var d :| 0 <= d < |t| && t[d].day == day;
        assert r[d] == t[d];
      }
    }
  }

  /** `Group` builds exactly the dictionary of its stream. */
  lemma {:induction false} GroupSpec(stream: seq<(string, Session)>)
    ensures GroupedFrom(Group(stream), stream)
  {
    if stream != [] {
      var init := stream[..|stream| - 1];
      var x := stream[|stream| - 1];
      GroupSpec(init);
      GroupedFromSnoc(Group(init), init, x);
      assert init + [x] == stream;
    }
  }

  // ---------------------------------------------------------------------------
  // Which cells become sessions

  /** Cell (r, c) of sheet `i` is scanned and matches the batch colour and the section. */
  predicate MatchAt(sheets: seq<Sheet>, target: string, section: string, i: int, r: int, c: int) {
    && 0 <= i < |sheets| && IsWeekday(sheets[i].title) && |sheets[i].rows| >= MinRows
    && FirstDataRow <= r < |sheets[i].rows| && 0 <= c < |sheets[i].rows[r]|
    && IsMatch(sheets[i].rows[r][c], target, section)
  }

  /** The session cell (r, c) of sheet `i` yields. */
  function MatchSession(sheets: seq<Sheet>, i: nat, r: nat, c: nat): Session
    requires i < |sheets| && |sheets[i].rows| >= MinRows && r < |sheets[i].rows| && c < |sheets[i].rows[r]|
  {
    SessionAt(sheets[i].rows, LayoutOf(sheets[i].rows), r, c)
  }

  /**
   * The session of a matching cell, in terms of its sheet: it is a lab exactly when
   * its row is at or below the lab header row; its time is the text in its column
   * of the lab header row (for a lab) or of row 4 (for a class), "Unknown" when that
   * cell or its text is missing; its room is column 0's text stripped, or "Unknown";
   * its course is the cell's text cut before '(' and '-', holding neither.
   */
  lemma MatchSessionSpec(sheets: seq<Sheet>, target: string, section: string, i: nat, r: nat, c: nat)
    requires MatchAt(sheets, target, section, i, r, c)
    ensures var rows := sheets[i].rows;
      var s := MatchSession(sheets, i, r, c);
      var l := LabRow(rows);
      var timeRow := if r >= l then l else ClassTimeRow;
      && (s.kind == Lab <==> r >= l)
      && s.time == (if timeRow < |rows| && c < |rows[timeRow]| && rows[timeRow][c].text.Some?
                    then rows[timeRow][c].text.value else "Unknown")
      && s.room == (if |rows[r]| > 0 && rows[r][0].text.Some? then Strip(rows[r][0].text.value) else "Unknown")
      && s.course == CleanCourseName(sheets[i].rows[r][c].text.value)
      && '(' !in s.course && '-' !in s.course
  {
    CleanCourseNameSpec(sheets[i].rows[r][c].text.value);
  }

  lemma {:induction false} CellsEmitSound(sheet: Sheet, layout: Layout, target: string, section: string, r: nat, n: nat,
                                          x: (string, Session))
    requires r < |sheet.rows| && n <= |sheet.rows[r]|
    requires x in CellsEmit(sheet, layout, target, section, r, n)
    ensures exists c :: 0 <= c < n && IsMatch(sheet.rows[r][c], target, section) && x == (sheet.title, SessionAt(sheet.rows, layout, r, c))
  {
    CellsEmitStep(sheet, layout, target, section, r, n - 1);
    if x in CellsEmit(sheet, layout, target, section, r, n - 1) {
      CellsEmitSound(sheet, layout, target, section, r, n - 1, x);
    } else {
      assert IsMatch(sheet.rows[r][n - 1], target, section) && x == (sheet.title, SessionAt(sheet.rows, layout, r, n - 1));
    }
  }

  lemma {:induction false} CellsEmitComplete(sheet: Sheet, layout: Layout, target: string, section: string, r: nat, n: nat, c: nat)
    requires r < |sheet.rows| && c < n <= |sheet.rows[r]|
    requires IsMatch(sheet.rows[r][c], target, section)
    ensures (sheet.title, SessionAt(sheet.rows, layout, r, c)) in CellsEmit(sheet, layout, target, section, r, n)
  {
    var x := (sheet.title, SessionAt(sheet.rows, layout, r, c));
    if c + 1 < n {
      CellsEmitComplete(sheet, layout, target, section, r, n - 1, c);
      CellsEmitGrows(sheet, layout, target, section, r, n, x);
    } else {
      CellsEmitStep(sheet, layout, target, section, r, c);
      var prefix := CellsEmit(sheet, layout, target, section, r, c);
      assert CellsEmit(sheet, layout, target, section, r, n) == prefix + [x];
      assert (prefix + [x])[|prefix|] == x;
    }
  }

  lemma CellsEmitGrows(sheet: Sheet, layout: Layout, target: string, section: string, r: nat, n: nat, x: (string, Session))
    requires r < |sheet.rows| && 0 < n <= |sheet.rows[r]|
    requires x in CellsEmit(sheet, layout, target, section, r, n - 1)
    ensures x in CellsEmit(sheet, layout, target, section, r, n)
  {
    CellsEmitStep(sheet, layout, target, section, r, n - 1);
  }

  lemma {:induction false} RowsEmitSound(sheet: Sheet, layout: Layout, target: string, section: string, n: nat,
                                         x: (string, Session))
    requires FirstDataRow <= n <= |sheet.rows|
    requires x in RowsEmit(sheet, layout, target, section, n)
    ensures exists r, c ::
      FirstDataRow <= r < n && 0 <= c < |sheet.rows[r]| && IsMatch(sheet.rows[r][c], target, section)
      && x == (sheet.title, SessionAt(sheet.rows, layout, r, c))
  {
    var row := n - 1;
    if x in RowsEmit(sheet, layout, target, section, row) {
      RowsEmitSound(sheet, layout, target, section, row, x);
    } else {
      CellsEmitSound(sheet, layout, target, section, row, |sheet.rows[row]|, x);
    }
  }

  lemma {:induction false} RowsEmitComplete(sheet: Sheet, layout: Layout, target: string, section: string, n: nat, r: nat, c: nat)
    requires FirstDataRow <= r < n <= |sheet.rows| && c < |sheet.rows[r]|
    requires IsMatch(sheet.rows[r][c], target, section)
    ensures (sheet.title, SessionAt(sheet.rows, layout, r, c)) in RowsEmit(sheet, layout, target, section, n)
  {
    var x := (sheet.title, SessionAt(sheet.rows, layout, r, c));
    if r < n - 1 {
      assert x in RowsEmit(sheet, layout, target, section, n) by {
        RowsEmitComplete(sheet, layout, target, section, n - 1, r, c);
      }
    } else {
      assert x in RowsEmit(sheet, layout, target, section, n) by {
        CellsEmitComplete(sheet, layout, target, section, r, |sheet.rows[r]|, c);
      }
    }
  }

  /** Every (day, session) pair of the scan comes from a matching cell of a scanned sheet. */
  lemma {:induction false} SheetsEmitSound(sheets: seq<Sheet>, target: string, section: string, x: (string, Session))
    requires x in SheetsEmit(sheets, target, section)
    ensures exists i, r, c :: MatchAt(sheets, target, section, i, r, c) && x == (sheets[i].title, MatchSession(sheets, i, r, c))
  {
    var init := sheets[..|sheets| - 1];
    var last := sheets[|sheets| - 1];
    if x in SheetsEmit(init, target, section) {
      SheetsEmitSound(init, target, section, x);
      var i, r, c :| MatchAt(init, target, section, i, r, c) && x == (init[i].title, MatchSession(init, i, r, c));
      assert init[i] == sheets[i];
      assert MatchAt(sheets, target, section, i, r, c);
    } else {
      RowsEmitSound(last, LayoutOf(last.rows), target, section, |last.rows|, x);
      var r, c :| FirstDataRow <= r < |last.rows| && 0 <= c < |last.rows[r]| && IsMatch(last.rows[r][c], target, section)
        && x == (last.title, SessionAt(last.rows, LayoutOf(last.rows), r, c));
      assert MatchAt(sheets, target, section, |sheets| - 1, r, c);
    }
  }

  /** Every matching cell of a scanned sheet contributes its session. */
  lemma {:induction false} SheetsEmitComplete(sheets: seq<Sheet>, target: string, section: string, i: nat, r: nat, c: nat)
    requires MatchAt(sheets, target, section, i, r, c)
    ensures (sheets[i].title, MatchSession(sheets, i, r, c)) in SheetsEmit(sheets, target, section)
  {
    var init := sheets[..|sheets| - 1];
    if i < |sheets| - 1 {
      assert init[i] == sheets[i];
      assert MatchAt(init, target, section, i, r, c);
      SheetsEmitComplete(init, target, section, i, r, c);
    } else {
      var last := sheets[i];
      RowsEmitComplete(last, LayoutOf(last.rows), target, section, |last.rows|, r, c);
    }
  }

  // ---------------------------------------------------------------------------
  // What get_timetable promises

  /** A batch is found only through a header cell labelled with it, whose colour is the target. */
  lemma FoundBatchIsLabelled(sheets: seq<Sheet>, batch: string)
    requires Target(sheets, batch) != ""
    ensures exists i, r, j, c ::
      IsHeaderCellAt(sheets, i, r, j, c) && IsBatchCell(c) && c.fingerprint == Target(sheets, batch) && Label(c) == batch
  {
    var m := BatchColors(sheets);
    var n :| 0 <= n < |m| && m[n] == (Target(sheets, batch), batch) && forall j :: 0 <= j < n ==> m[j].1 != batch;
    BatchColorsEntrySound(sheets, n);
  }

  /**
   * The "not found" text is returned exactly when the colour key yields no colour
   * (or only the empty one) for the batch: no entry of the key carries the batch
   * as its value, or the first that does has an empty fingerprint.
   */
  lemma NotFoundSpec(sheets: seq<Sheet>, batch: string, section: string)
    ensures Message(TimetableOf(sheets, batch, section)) == Message(BatchNotFound(batch)) <==> Target(sheets, batch) == ""
    ensures var m := BatchColors(sheets);
      Target(sheets, batch) == "" <==>
        (forall i :: 0 <= i < |m| ==> m[i].1 != batch) || FirstKeyWithValue(m, batch) == Some("")
  {
    var r := TimetableOf(sheets, batch, section);
    if Target(sheets, batch) != "" && Message(r) == Message(BatchNotFound(batch)) {
      MessageInjective(BatchNotFound(batch), r);
    }
  }

  /** A batch that no header cell is labelled with is reported as not found. */
  lemma UnlabelledBatchNotFound(sheets: seq<Sheet>, batch: string, section: string)
    requires forall i, r, j, c :: IsHeaderCellAt(sheets, i, r, j, c) && IsBatchCell(c) ==> Label(c) != batch
    ensures TimetableOf(sheets, batch, section) == BatchNotFound(batch)
  {
    if Target(sheets, batch) != "" {
      FoundBatchIsLabelled(sheets, batch);
    }
  }

  /**
   * A batch cell of the header band whose colour no later batch cell reuses keeps
   * its label in the colour key, so its batch is found.
   */
  lemma LabelledBatchFound(sheets: seq<Sheet>, n: nat)
    requires n < |HeaderCells(sheets)| && IsBatchCell(HeaderCells(sheets)[n])
    requires var cells := HeaderCells(sheets);
      forall k :: n < k < |cells| && IsBatchCell(cells[k]) ==> cells[k].fingerprint != cells[n].fingerprint
    ensures FirstKeyWithValue(BatchColors(sheets), Label(HeaderCells(sheets)[n])).Some?
  {
    var cells := HeaderCells(sheets);
    KeyFoldLastWins(cells, n);
  }

  /** `Group` is empty exactly when its stream is. */
  lemma GroupEmpty(stream: seq<(string, Session)>)
    ensures Group(stream) == [] <==> stream == []
  {
    if stream != [] {
      GroupSpec(stream);
      var x := stream[|stream| - 1];
      assert x.1 in DayFilter(stream, x.0) by {
        DayFilterMember(stream, x.0, x.1);
      }
    }
  }

  /** "No classes found" is returned exactly when the batch is found but no scanned cell matches. */
  lemma NoClassesSpec(sheets: seq<Sheet>, batch: string, section: string)
    ensures TimetableOf(sheets, batch, section) == NoClasses <==>
      Target(sheets, batch) != "" && forall i, r, c :: !MatchAt(sheets, Target(sheets, batch), section, i, r, c)
  {
    var target := Target(sheets, batch);
    if target != "" {
      var stream := SheetsEmit(sheets, target, section);
      GroupEmpty(stream);
      if stream != [] {
        SheetsEmitSound(sheets, target, section, stream[0]);
      }
      if exists i, r, c :: MatchAt(sheets, target, section, i, r, c) {
        var i, r, c :| MatchAt(sheets, target, section, i, r, c);
        SheetsEmitComplete(sheets, target, section, i, r, c);
      }
    }
  }

  /**
   * A schedule lists each day once; each day's sessions are sorted by (time, room,
   * type, course) and are, with multiplicity, the sessions of that day's matching
   * cells; and every day with a matching cell is listed.
   */
  lemma ScheduleSpec(sheets: seq<Sheet>, batch: string, section: string)
    requires TimetableOf(sheets, batch, section).Schedule?
    ensures var days := TimetableOf(sheets, batch, section).days;
      var stream := SheetsEmit(sheets, Target(sheets, batch), section);
      && DistinctDays(days)
      && (forall d :: 0 <= d < |days| ==> SortedBy(days[d].sessions, SessionKey))
      && (forall d :: 0 <= d < |days| ==> multiset(days[d].sessions) == multiset(DayFilter(stream, days[d].day)))
      && (forall day :: DayFilter(stream, day) != [] <==> exists d :: 0 <= d < |days| && days[d].day == day)
  {
    var target := Target(sheets, batch);
    var stream := SheetsEmit(sheets, target, section);
    var table := Group(stream);
    assert TimetableOf(sheets, batch, section).days == SortDays(table);
    GroupSpec(stream);
    SortDaysSessions(table, stream);
    SortDaysDays(table, stream);
  }

  lemma SortDaysSessions(table: Table, stream: seq<(string, Session)>)
    requires GroupedFrom(table, stream)
    ensures var days := SortDays(table);
      forall d :: 0 <= d < |days| ==>
        SortedBy(days[d].sessions, SessionKey) && multiset(days[d].sessions) == multiset(DayFilter(stream, days[d].day))
  {
    var days := SortDays(table);
    forall d | 0 <= d < |days|
      ensures SortedBy(days[d].sessions, SessionKey)
      ensures multiset(days[d].sessions) == multiset(DayFilter(stream, days[d].day))
    {
      SortByProperties(table[d].sessions, SessionKey);
    }
  }

  lemma SortDaysDays(table: Table, stream: seq<(string, Session)>)
    requires GroupedFrom(table, stream)
    ensures var days := SortDays(table);
      && DistinctDays(days)
      && (forall day :: DayFilter(stream, day) != [] <==> exists d :: 0 <= d < |days| && days[d].day == day)
  {
    var days := SortDays(table);
    assert DistinctDays(days) by {
      forall i, j | 0 <= i < j < |days| ensures days[i].day != days[j].day {
        assert days[i].day == table[i].day && days[j].day == table[j].day;
      }
    }
    forall day ensures DayFilter(stream, day) != [] <==> exists d :: 0 <= d < |days| && days[d].day == day {
      if exists d :: 0 <= d < |days| && days[d].day == day {
        var d :| 0 <= d < |days| && days[d].day == day;
        assert table[d].day == day;
      }
      if DayFilter(stream, day) != [] {
        var d :| 0 <= d < |table| && table[d].day == day;
        assert days[d].day == day;
      }
    }
  }

  /** A session is listed under a day exactly when a matching cell of a sheet with that title yields it. */
  lemma ScheduleSessionsFromCells(sheets: seq<Sheet>, batch: string, section: string, d: nat, s: Session)
    requires TimetableOf(sheets, batch, section).Schedule?
    requires d < |TimetableOf(sheets, batch, section).days|
    ensures var day := TimetableOf(sheets, batch, section).days[d];
      s in day.sessions <==> (exists i, r, c ::
        MatchAt(sheets, Target(sheets, batch), section, i, r, c) && sheets[i].title == day.day && s == MatchSession(sheets, i, r, c))
  {
    var target := Target(sheets, batch);
    var stream := SheetsEmit(sheets, target, section);
    var day := TimetableOf(sheets, batch, section).days[d];
    ScheduleSpec(sheets, batch, section);
    assert s in day.sessions <==> s in multiset(DayFilter(stream, day.day));
    DayFilterMember(stream, day.day, s);
    if (day.day, s) in stream {
      SheetsEmitSound(sheets, target, section, (day.day, s));
    }
    if exists i, r, c :: MatchAt(sheets, target, section, i, r, c) && sheets[i].title == day.day && s == MatchSession(sheets, i, r, c) {
      var i, r, c :| MatchAt(sheets, target, section, i, r, c) && sheets[i].title == day.day && s == MatchSession(sheets, i, r, c);
      SheetsEmitComplete(sheets, target, section, i, r, c);
    }
  }
}
