/**
 * course_extractor_simple.py: the course catalogue whose entries are parsed by
 * looking for literal section patterns letter by letter, and the unsorted
 * course search.
 */
module SimpleCatalog {
  import opened Wrappers
  import opened Strings
  import opened Sheets
  import opened ColorKey
  import opened Courses
  import Catalog

  // ---------------------------------------------------------------------------
  // Parsing a course entry

  /** The letter `chr(65 + n)`. */
  function Letter(n: nat): char
    requires n < 26
  {
    (65 + n) as char
  }

  /** The literal patterns tried for section letter `c`, in order. */
  function LetterPatterns(c: char): seq<string> {
    ["(CS-" + [c] + ")", "-" + [c], "(" + [c] + ")", " " + [c] + " "]
  }

  function OccursIn(entry: string): string -> bool {
    (pat: string) => Contains(entry, pat)
  }

  /** No pattern of letter `n` occurs in `entry`. */
  predicate NoPatternOf(entry: string, n: nat)
    requires n < 26
  {
    forall k :: 0 <= k < 4 ==> !Contains(entry, LetterPatterns(Letter(n))[k])
  }

  /**
   * The first letter from the `n`-th on, alphabetically, one of whose patterns
   * occurs in `entry`, with the index of its first pattern that occurs.
   */
  function FirstLetterHit(entry: string, n: nat): (r: Option<(nat, nat)>)
    requires n <= 26
    ensures r.None? <==> forall m :: n <= m < 26 ==> NoPatternOf(entry, m)
    ensures r.Some? ==>
      && n <= r.value.0 < 26 && r.value.1 < 4
      && Contains(entry, LetterPatterns(Letter(r.value.0))[r.value.1])
      && (forall k :: 0 <= k < r.value.1 ==> !Contains(entry, LetterPatterns(Letter(r.value.0))[k]))
      && (forall m :: n <= m < r.value.0 ==> NoPatternOf(entry, m))
    decreases 26 - n
  {
    if n == 26 then None
    else
      var k := FindFirst(LetterPatterns(Letter(n)), OccursIn(entry));
      if k.Some? then
        assert !NoPatternOf(entry, n) by {
          assert Contains(entry, LetterPatterns(Letter(n))[k.value]);
        }
        Some((n, k.value))
      else
        assert NoPatternOf(entry, n) by {
          forall k' | 0 <= k' < 4 ensures !Contains(entry, LetterPatterns(Letter(n))[k']) {
            assert !OccursIn(entry)(LetterPatterns(Letter(n))[k']);
          }
        }
        FirstLetterHit(entry, n + 1)
  }

  /** The entry with every occurrence of pattern `k` of letter `n` removed, stripped. */
  function RemovePattern(entry: string, n: nat, k: nat): string
    requires n < 26 && k < 4
  {
    Strip(ReplaceAll(entry, LetterPatterns(Letter(n))[k], ""))
  }

  /** The fields `parse_course_entry_simple` returns for a non-empty entry. */
  function ParseSimpleFields(entry: string, batch: string): Parsed {
    var hit := FirstLetterHit(entry, 0);
    var section := if hit.Some? then [Letter(hit.value.0)] else "";
    var name := if hit.Some? then RemovePattern(entry, hit.value.0, hit.value.1) else entry;
    Parsed(CleanupName(name), DepartmentOf(batch), section, batch, entry)
  }

  /** What `parse_course_entry_simple` returns: nothing for an empty entry. */
  function ParseSimpleEntry(entry: string, batch: string): Option<Parsed> {
    if entry == [] then None else Some(ParseSimpleFields(entry, batch))
  }

  /** `parse_course_entry_simple` (course_extractor_simple.py:115-170). */
  method ParseCourseEntrySimple(entry: string, batch: string) returns (result: Option<Parsed>)
    ensures result == ParseSimpleEntry(entry, batch)
  {
    if entry == [] {
      return None;
    }
    var department := DeriveDepartment(batch);
    var section := "";
    var name := entry;
    var i := 0;
    while i < 26
      invariant 0 <= i <= 26
      invariant section == "" && name == entry
      invariant forall m :: 0 <= m < i ==> NoPatternOf(entry, m)
    {
      var letter := (65 + i) as char;
      var patterns := LetterPatterns(letter);
      var k := 0;
      while k < |patterns|
        invariant 0 <= k <= |patterns|
        invariant section == "" && name == entry
        invariant forall k' :: 0 <= k' < k ==> !Contains(entry, patterns[k'])
      {
        if Contains(entry, patterns[k]) {
          section := [letter];
          name := Strip(ReplaceAll(entry, patterns[k], ""));
          break;
        }
        k := k + 1;
      }
      if section != "" {
        FirstLetterHitAt(entry, 0, i, k);
        break;
      }
      i := i + 1;
    }
    name := CleanName(name);
    return Some(Parsed(name, department, section, batch, entry));
  }

  /**
   * The section is empty exactly when no letter's pattern occurs; otherwise it is
   * the alphabetically first letter with a pattern in the entry.
   */
  lemma ParseSimpleSectionSpec(entry: string, batch: string)
    ensures var sec := ParseSimpleFields(entry, batch).section;
      && (sec == "" <==> forall m :: 0 <= m < 26 ==> NoPatternOf(entry, m))
      && (sec != "" ==>
            exists n :: 0 <= n < 26 && sec == [Letter(n)] && !NoPatternOf(entry, n)
              && forall m :: 0 <= m < n ==> NoPatternOf(entry, m))
  {
    var hit := FirstLetterHit(entry, 0);
    if hit.Some? {
      var n := hit.value.0;
      assert !NoPatternOf(entry, n);
    }
  }

  /**
   * The two parsers disagree: "X-B (A)" gets section "B" from the regular
   * expressions, which try "-B" before "(A)", and section "A" from the literal
   * patterns, which try every pattern of "A" before any of "B".
   */
  lemma ParsersDisagree()
    ensures Catalog.ParseFields("X-B (A)", "BS-CS-1").section == "B"
    ensures ParseSimpleFields("X-B (A)", "BS-CS-1").section == "A"
  {
    RegexExample();
    LiteralExample();
  }

  lemma RegexExample()
    ensures Catalog.FirstHitFrom("X-B (A)", 0) == Some((Catalog.DashLetter, 1))
  {
    var e := "X-B (A)";
    forall i: nat ensures !Catalog.MatchesAt(Catalog.CsParen, e, i) {
      if i + 6 <= |e| {
        assert e[i..i + 4][0] == e[i];
        if i == 0 { assert e[0] == 'X'; } else { assert e[1] == '-'; }
      }
    }
    assert Catalog.Search(Catalog.CsParen, e).None?;
    assert !Catalog.MatchesAt(Catalog.DashLetter, e, 0);
    assert Catalog.MatchesAt(Catalog.DashLetter, e, 1);
    assert Catalog.SearchFrom(Catalog.DashLetter, e, 1) == Some(1);
    assert Catalog.Search(Catalog.DashLetter, e) == Some(1);
  }

  lemma LiteralExample()
    ensures FirstLetterHit("X-B (A)", 0) == Some((0, 2))
  {
    var e := "X-B (A)";
    assert Letter(0) == 'A';
    var pats := LetterPatterns('A');
    LiteralNoCsParen();
    LiteralNoDash();
    assert IsAt(e, pats[2], 4);
    ContainsAt(e, pats[2]);
    FirstLetterHitAt(e, 0, 0, 2);
  }

  lemma LiteralNoCsParen()
    ensures !Contains("X-B (A)", LetterPatterns('A')[0])
  {
    var e := "X-B (A)";
    ContainsAt(e, LetterPatterns('A')[0]);
    forall i: nat | i <= |e| ensures !IsAt(e, LetterPatterns('A')[0], i) {
      if i + 6 <= |e| {
        assert e[i..i + 6][0] == e[i];
        if i == 0 { assert e[0] == 'X'; } else { assert e[1] == '-'; }
      }
    }
  }

  lemma LiteralNoDash()
    ensures !Contains("X-B (A)", LetterPatterns('A')[1])
  {
    var e := "X-B (A)";
    ContainsAt(e, LetterPatterns('A')[1]);
    forall i: nat | i <= |e| ensures !IsAt(e, LetterPatterns('A')[1], i) {
      if i + 2 <= |e| {
        assert e[i..i + 2][0] == e[i] && e[i..i + 2][1] == e[i + 1];
        if i == 1 { assert e[2] == 'B'; }
        else if i == 0 { assert e[0] == 'X'; }
        else if i == 2 { assert e[2] == 'B'; }
        else if i == 3 { assert e[3] == ' '; }
        else if i == 4 { assert e[4] == '('; }
        else { assert e[5] == 'A'; }
      }
    }
  }

  // ---------------------------------------------------------------------------
  // Departments and batches

  /** A batch cell whose stripped label contains "BS-" (course_extractor_simple.py:26-35). */
  predicate NamesBatch(c: Cell) {
    IsBatchCell(c) && Contains(Label(c), "BS-")
  }

  lemma MarkerHasDash(s: string)
    requires Contains(s, "BS-")
    ensures '-' in s
  {
    ContainsAt(s, "BS-");
    var k: nat :| k <= |s| && IsAt(s, "BS-", k);
    assert s[k + 2] == "BS-"[2];
  }

  /** The label of a batch-naming cell (course_extractor_simple.py:35-36). */
  function SimpleBatchPick(c: Cell): Option<string> {
    if NamesBatch(c) then Some(Label(c)) else None
  }

  /** The second '-'-separated field of a batch-naming cell's label (course_extractor_simple.py:37-40). */
  function SimpleDepartmentPick(c: Cell): Option<string> {
    if NamesBatch(c) then MarkerHasDash(Label(c)); Some(SecondField(Label(c), '-')) else None
  }

  /** `extract_departments_and_batches_simple` (course_extractor_simple.py:4-42). */
  method ExtractDepartmentsAndBatchesSimple(sheets: seq<Sheet>) returns (departments: set<string>, batches: set<string>)
    ensures departments == Collect(HeaderCells(sheets), SimpleDepartmentPick)
    ensures batches == Collect(HeaderCells(sheets), SimpleBatchPick)
  {
    departments, batches := CollectHeaderValues(sheets, SimpleDepartmentPick, SimpleBatchPick);
  }

  /**
   * Every listed department is the field after the first '-' of a listed batch,
   * and every listed batch yields its department.
   */
  lemma SimpleDepartmentsFromBatches(sheets: seq<Sheet>, d: string)
    ensures d in Collect(HeaderCells(sheets), SimpleDepartmentPick) <==>
      exists b :: b in Collect(HeaderCells(sheets), SimpleBatchPick) && '-' in b && d == SecondField(b, '-')
  {
    var cells := HeaderCells(sheets);
    if d in Collect(cells, SimpleDepartmentPick) {
      SimpleDepartmentSound(cells, d);
    }
    if exists b :: b in Collect(cells, SimpleBatchPick) && '-' in b && d == SecondField(b, '-') {
      var b :| b in Collect(cells, SimpleBatchPick) && '-' in b && d == SecondField(b, '-');
      SimpleDepartmentComplete(cells, b);
    }
  }

  lemma SimpleDepartmentSound(cells: seq<Cell>, d: string)
    requires d in Collect(cells, SimpleDepartmentPick)
    ensures exists b :: b in Collect(cells, SimpleBatchPick) && '-' in b && d == SecondField(b, '-')
  {
    CollectMembership(cells, SimpleDepartmentPick, d);
    var n :| 0 <= n < |cells| && SimpleDepartmentPick(cells[n]) == Some(d);
    var b := Label(cells[n]);
    MarkerHasDash(b);
    CollectMembership(cells, SimpleBatchPick, b);
    assert SimpleBatchPick(cells[n]) == Some(b);
  }

  lemma SimpleDepartmentComplete(cells: seq<Cell>, b: string)
    requires b in Collect(cells, SimpleBatchPick) && '-' in b
    ensures SecondField(b, '-') in Collect(cells, SimpleDepartmentPick)
  {
    CollectMembership(cells, SimpleBatchPick, b);
    var n :| 0 <= n < |cells| && SimpleBatchPick(cells[n]) == Some(b);
    CollectMembership(cells, SimpleDepartmentPick, SecondField(b, '-'));
    assert SimpleDepartmentPick(cells[n]) == Some(SecondField(b, '-'));
  }

  /** A batch is listed exactly when it is the label, containing "BS-", of a header batch cell. */
  lemma SimpleBatchesSpec(sheets: seq<Sheet>, b: string)
    ensures b in Collect(HeaderCells(sheets), SimpleBatchPick) <==>
      Contains(b, "BS-") && exists i, r, j, c :: IsHeaderCellAt(sheets, i, r, j, c) && IsBatchCell(c) && Label(c) == b
  {
    HeaderValuesMembership(sheets, SimpleBatchPick, b);
  }

  // ---------------------------------------------------------------------------
  // The catalogue

  /** The rows of the last weekday sheet: what the sheet loop leaves in `grid_data`. */
  function LastWeekdayRows(sheets: seq<Sheet>): (r: Option<seq<Row>>)
    ensures r.Some? ==> sheets != []
    ensures r.None? <==> forall i :: 0 <= i < |sheets| ==> !IsWeekday(sheets[i].title)
  {
    if sheets == [] then None
    else if IsWeekday(sheets[|sheets| - 1].title) then Some(sheets[|sheets| - 1].rows)
    else
      var r := LastWeekdayRows(sheets[..|sheets| - 1]);
      assert forall i :: 0 <= i < |sheets| - 1 ==> sheets[i] == sheets[..|sheets| - 1][i];
      r
  }

  lemma LastWeekdayRowsStep(sheets: seq<Sheet>, i: nat)
    requires i < |sheets|
    ensures LastWeekdayRows(sheets[..i + 1])
      == if IsWeekday(sheets[i].title) then Some(sheets[i].rows) else LastWeekdayRows(sheets[..i])
  {
    assert sheets[..i + 1][..i] == sheets[..i];
  }

  /**
   * What `extract_all_courses_simple` returns as written: its row loop sits after
   * the sheet loop, so it reads only the last weekday sheet's rows and labels
   * every course with the title of the last sheet of all. Without a weekday sheet
   * `grid_data` is never bound and the function fails (None).
   */
  function SimpleCoursesAsWritten(sheets: seq<Sheet>): Option<seq<Course>> {
    var rows := LastWeekdayRows(sheets);
    if rows.None? then None
    else Some(Dedup(CellsCourses(RowsCells(DataRows(rows.value)), BatchColors(sheets), ParseSimpleFields, sheets[|sheets| - 1].title)))
  }

  /** `extract_all_courses_simple` as written (course_extractor_simple.py:44-113). */
  method ExtractAllCoursesSimple(sheets: seq<Sheet>) returns (courses: Option<seq<Course>>)
    ensures courses == SimpleCoursesAsWritten(sheets)
  {
    var colors := ExtractBatchColors(sheets);
    var sheetName: Option<string> := None;
    var gridData: Option<seq<Row>> := None;
    for i := 0 to |sheets|
      invariant gridData == LastWeekdayRows(sheets[..i])
      invariant sheetName == if i == 0 then None else Some(sheets[i - 1].title)
    {
      LastWeekdayRowsStep(sheets, i);
      sheetName := Some(sheets[i].title);
      if !IsWeekday(sheets[i].title) {
        continue;
      }
      gridData := Some(sheets[i].rows);
    }
    assert sheets[..|sheets|] == sheets;
    if gridData.None? {
      return None;
    }
    var grid := gridData.value;
    var data := if |grid| <= FirstDataRow then [] else grid[FirstDataRow..];
    assert data == DataRows(grid);
    assert [] + CellsCourses(RowsCells(data), colors, ParseSimpleFields, sheetName.value)
      == CellsCourses(RowsCells(data), colors, ParseSimpleFields, sheetName.value);
    var found := ScanCourseRows([], data, colors, ParseSimpleFields, sheetName.value, []);
    return Some(found);
  }

  /**
   * As written, when the last sheet is not a weekday sheet, a course cell of the
   * last weekday sheet yields a course whose day is not a weekday.
   */
  lemma AsWrittenMislabelsDay(sheets: seq<Sheet>, i: nat, r: nat, j: nat)
    requires CourseCellAt(sheets, BatchColors(sheets), 0, i, r, j)
    requires forall i' :: i < i' < |sheets| ==> !IsWeekday(sheets[i'].title)
    requires !IsWeekday(sheets[|sheets| - 1].title)
    ensures SimpleCoursesAsWritten(sheets).Some?
    ensures exists y :: y in SimpleCoursesAsWritten(sheets).value && !IsWeekday(y.day)
  {
    var colors := BatchColors(sheets);
    LastWeekdayRowsAt(sheets, i);
    var cells := RowsCells(DataRows(sheets[i].rows));
    var day := sheets[|sheets| - 1].title;
    var stream := CellsCourses(cells, colors, ParseSimpleFields, day);
    assert SimpleCoursesAsWritten(sheets) == Some(Dedup(stream));
    OfferedFromLastWeekday(sheets, i, r, j, day);
    DedupCovers(stream, 0);
    var y :| y in Dedup(stream) && Identity(y) == Identity(stream[0]);
    DedupSound(stream, y);
    CellsCoursesSound(cells, colors, ParseSimpleFields, day, y);
  }

  /** A course cell of weekday sheet `i` offers a course to the scan of that sheet's rows. */
  lemma OfferedFromLastWeekday(sheets: seq<Sheet>, i: nat, r: nat, j: nat, day: string)
    requires CourseCellAt(sheets, BatchColors(sheets), 0, i, r, j)
    ensures CellsCourses(RowsCells(DataRows(sheets[i].rows)), BatchColors(sheets), ParseSimpleFields, day) != []
  {
    var data := DataRows(sheets[i].rows);
    var cells := RowsCells(data);
    var cell := sheets[i].rows[r][j];
    assert data[r - FirstDataRow] == sheets[i].rows[r];
    RowsCellsMembership(data, cell);
    var n :| 0 <= n < |cells| && cells[n] == cell;
    CellsCoursesComplete(cells, BatchColors(sheets), ParseSimpleFields, day, n);
  }

  lemma {:induction false} FirstLetterHitAt(entry: string, n: nat, i: nat, k: nat)
    requires n <= i < 26 && k < 4
    requires forall m :: n <= m < i ==> NoPatternOf(entry, m)
    requires Contains(entry, LetterPatterns(Letter(i))[k])
    requires forall k' :: 0 <= k' < k ==> !Contains(entry, LetterPatterns(Letter(i))[k'])
    ensures FirstLetterHit(entry, n) == Some((i, k))
    decreases i - n
  {
    if n < i {
      var pats := LetterPatterns(Letter(n));
      assert NoPatternOf(entry, n);
      forall k' | 0 <= k' < |pats| ensures !OccursIn(entry)(pats[k']) {
        assert !Contains(entry, pats[k']);
      }
      assert FindFirst(pats, OccursIn(entry)).None?;
      FirstLetterHitAt(entry, n + 1, i, k);
    } else {
      var pats := LetterPatterns(Letter(i));
      assert OccursIn(entry)(pats[k]);
      forall k' | 0 <= k' < k ensures !OccursIn(entry)(pats[k']) {
        assert !Contains(entry, pats[k']);
      }
    }
  }

  lemma {:induction false} LastWeekdayRowsAt(sheets: seq<Sheet>, i: nat)
    requires i < |sheets| && IsWeekday(sheets[i].title)
    requires forall i' :: i < i' < |sheets| ==> !IsWeekday(sheets[i'].title)
    ensures LastWeekdayRows(sheets) == Some(sheets[i].rows)
  {
    if i < |sheets| - 1 {
      var init := sheets[..|sheets| - 1];
      assert init[i] == sheets[i];
      LastWeekdayRowsAt(init, i);
    }
  }

  /**
   * The evidently intended catalogue: the row loop inside the sheet loop, so that
   * every weekday sheet with at least six rows is read and labelled with its own
   * title.
   */
  function SimpleCourses(sheets: seq<Sheet>): seq<Course> {
    Dedup(SheetsCourses(sheets, BatchColors(sheets), ParseSimpleFields, 6))
  }

  /**
   * No two courses of either catalogue share name, department, section and
   * batch: both end in the same duplicate check.
   */
  lemma SimpleCoursesDistinct(sheets: seq<Sheet>)
    ensures DistinctIdentities(SimpleCourses(sheets))
    ensures SimpleCoursesAsWritten(sheets).Some? ==> DistinctIdentities(SimpleCoursesAsWritten(sheets).value)
  {
    DedupDistinct(SheetsCourses(sheets, BatchColors(sheets), ParseSimpleFields, 6));
    var rows := LastWeekdayRows(sheets);
    if rows.Some? {
      DedupDistinct(CellsCourses(RowsCells(DataRows(rows.value)), BatchColors(sheets), ParseSimpleFields, sheets[|sheets| - 1].title));
    }
  }

  /**
   * Every course of the intended catalogue comes from a course cell of a weekday
   * sheet and carries that sheet's title as its day.
   */
  lemma SimpleCoursesSound(sheets: seq<Sheet>, x: Course)
    requires x in SimpleCourses(sheets)
    ensures IsWeekday(x.day)
    ensures exists i, r, j ::
      CourseCellAt(sheets, BatchColors(sheets), 6, i, r, j) && x == CourseAt(sheets, BatchColors(sheets), ParseSimpleFields, 6, i, r, j)
      && x.day == sheets[i].title
  {
    var colors := BatchColors(sheets);
    DedupSound(SheetsCourses(sheets, colors, ParseSimpleFields, 6), x);
    SheetsCoursesSound(sheets, colors, ParseSimpleFields, 6, x);
  }

  /** Every course cell of a weekday sheet with six rows or more is represented in the intended catalogue. */
  lemma SimpleCoursesComplete(sheets: seq<Sheet>, i: nat, r: nat, j: nat)
    requires CourseCellAt(sheets, BatchColors(sheets), 6, i, r, j)
    ensures exists y ::
      y in SimpleCourses(sheets) && Identity(y) == Identity(CourseAt(sheets, BatchColors(sheets), ParseSimpleFields, 6, i, r, j))
  {
    var colors := BatchColors(sheets);
    var stream := SheetsCourses(sheets, colors, ParseSimpleFields, 6);
    SheetsCoursesComplete(sheets, colors, ParseSimpleFields, 6, i, r, j);
    var k :| 0 <= k < |stream| && stream[k] == CourseAt(sheets, colors, ParseSimpleFields, 6, i, r, j);
    DedupCovers(stream, k);
  }

  // ---------------------------------------------------------------------------
  // Search

  /** `search_courses_simple` (course_extractor_simple.py:182-202): the filters, no sorting. */
  function SearchCoursesSimple(courses: seq<Course>, query: string, department: string, batch: string): (r: seq<Course>)
    ensures r == Keep(courses, MatchesAll(query, department, batch))
  {
    SearchFilterSpec(courses, query, department, batch);
    SearchFilter(courses, query, department, batch)
  }
}
