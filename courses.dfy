/**
 * What the two course extractors (course_extractor.py and
 * course_extractor_simple.py) share: the course record, the department derived
 * from a batch label, the clean-up of a course name, the duplicate check, the scan
 * of the timetable cells for course entries and the search filters.
 */
module Courses {
  import opened Wrappers
  import opened Strings
  import opened Sheets
  import opened ColorKey

  /** The dictionary a course-entry parser returns. */
  datatype Parsed = Parsed(name: string, department: string, section: string, batch: string, fullEntry: string)

  /** A catalogue course: a parsed entry, the sheet (day) it was found on and its colour fingerprint. */
  datatype Course = Course(name: string, department: string, section: string, batch: string,
                           fullEntry: string, day: string, colorCode: string)

  function Place(p: Parsed, day: string, colorCode: string): Course {
    Course(p.name, p.department, p.section, p.batch, p.fullEntry, day, colorCode)
  }

  /** The fields two courses must share to count as the same course. */
  function Identity(c: Course): (string, string, string, string) {
    (c.name, c.department, c.section, c.batch)
  }

  // ---------------------------------------------------------------------------
  // The department of a batch label

  /** `[A-Z]{2,4}` */
  predicate IsDeptCode(w: string) {
    2 <= |w| <= 4 && forall i :: 0 <= i < |w| ==> IsUpper(w[i])
  }

  /** The length of the run of word characters at the front of `s`. */
  function WordRun(s: string): (k: nat)
    ensures k <= |s|
    ensures forall i :: 0 <= i < k ==> IsWordChar(s[i])
    ensures k < |s| ==> !IsWordChar(s[k])
  {
    if s == [] || !IsWordChar(s[0]) then 0
    else
      var k := WordRun(s[1..]);
      assert forall i :: 1 <= i < k + 1 ==> s[i] == s[1..][i - 1];
      1 + k
  }

  /** `t` occurs in `s` at `i` as a whole word: no word character touches it on either side. */
  predicate IsWordAt(s: string, t: string, i: nat) {
    && IsAt(s, t, i)
    && (i == 0 || !IsWordChar(s[i - 1]))
    && (i + |t| == |s| || !IsWordChar(s[i + |t|]))
  }

  /**
   * `re.findall(r"\b[A-Z]{2,4}\b", s)`: a match must start and end at a word
   * boundary, so it is a whole word of `s` made of two to four capitals.
   */
  function Tokens(s: string): seq<string>
    decreases |s|
  {
    if s == [] then []
    else if !IsWordChar(s[0]) then Tokens(s[1..])
    else
      var k := WordRun(s);
      (if IsDeptCode(s[..k]) then [s[..k]] else []) + Tokens(s[k..])
  }

  /** A whole word of a suffix of `s` is a whole word of `s` when nothing joins it on the left. */
  lemma WordAtSuffix(s: string, t: string, k: nat, i: nat)
    requires k <= |s| && IsWordAt(s[k..], t, i)
    requires i > 0 || k == 0 || !IsWordChar(s[k - 1])
    ensures IsWordAt(s, t, k + i)
  {
    assert s[k + i..k + i + |t|] == s[k..][i..i + |t|];
    if i > 0 {
      assert s[k + i - 1] == s[k..][i - 1];
    }
    if k + i + |t| < |s| {
      assert s[k + i + |t|] == s[k..][i + |t|];
    }
  }

  /** A whole word of `s` is a whole word of any suffix of `s` that starts at or before it. */
  lemma WordAtInSuffix(s: string, t: string, k: nat, j: nat)
    requires k <= j && IsWordAt(s, t, j)
    ensures IsWordAt(s[k..], t, j - k)
  {
    assert s[k..][j - k..j - k + |t|] == s[j..j + |t|];
    if j - k > 0 {
      assert s[k..][j - k - 1] == s[j - 1];
    }
    if j + |t| < |s| {
      assert s[k..][j - k + |t|] == s[j + |t|];
    }
  }

  /** What `\b[A-Z]{2,4}\b` matches: `w` stands at `j` as a whole word of two to four capitals. */
  ghost predicate CodeAt(s: string, w: string, j: nat) {
    IsDeptCode(w) && IsWordAt(s, w, j)
  }

  /**
   * In a string that starts with a word, a code-like whole word is either that
   * first word or lies after the character that ends it.
   */
  lemma CodeInRun(s: string, w: string, j: nat)
    requires s != [] && IsWordChar(s[0]) && CodeAt(s, w, j)
    ensures var k := WordRun(s);
      (j == 0 && w == s[..k]) || (k < |s| && k + 1 <= j)
  {
    var k := WordRun(s);
    assert s[j..j + |w|] == w;
    if j == 0 {
      assert forall m :: 0 <= m < |w| ==> IsWordChar(s[m]) by {
        forall m | 0 <= m < |w| ensures IsWordChar(s[m]) {
          assert s[0 + m] == s[m];
        }
      }
      assert k == |w|;
    } else {
      assert IsWordChar(s[j]) && !IsWordChar(s[j - 1]);
    }
  }

  /** Every code-like whole word of `s` is a token. */
  lemma {:induction false} TokensComplete(s: string, w: string, j: nat)
    requires CodeAt(s, w, j)
    ensures w in Tokens(s)
    decreases |s|
  {
    assert s[j..j + |w|] == w;
    assert IsUpper(s[j]);
    if !IsWordChar(s[0]) {
      WordAtInSuffix(s, w, 1, j);
      TokensComplete(s[1..], w, j - 1);
    } else {
      var k := WordRun(s);
      CodeInRun(s, w, j);
      if j != 0 {
        var rest := s[k..];
        assert Tokens(rest) == Tokens(rest[1..]);
        assert rest[1..] == s[k + 1..];
        WordAtInSuffix(s, w, k + 1, j);
        TokensComplete(s[k + 1..], w, j - (k + 1));
      }
    }
  }

  /** Every code-like whole word of `s` that starts before `n` is "BS". */
  ghost predicate OnlyBSBefore(s: string, n: nat) {
    forall w, j: nat :: j < n && CodeAt(s, w, j) ==> w == "BS"
  }

  /** A leftmost non-"BS" code of a suffix stays leftmost in `s` when only "BS" precedes the suffix. */
  lemma LeftmostInSuffix(s: string, k: nat, d: string, i: nat)
    requires k <= |s| && CodeAt(s[k..], d, i) && OnlyBSBefore(s[k..], i) && OnlyBSBefore(s, k)
    requires i > 0 || k == 0 || !IsWordChar(s[k - 1])
    ensures CodeAt(s, d, k + i) && OnlyBSBefore(s, k + i)
  {
    WordAtSuffix(s, d, k, i);
    forall w, j: nat | j < k + i && CodeAt(s, w, j) ensures w == "BS" {
      if j >= k {
        WordAtInSuffix(s, w, k, j);
        assert CodeAt(s[k..], w, j - k);
      }
    }
  }

  /**
   * The first token other than "BS" is the leftmost code-like whole word of `s`
   * other than "BS": every code-like whole word before it is "BS".
   */
  lemma {:induction false} FirstNonBSIsLeftmost(s: string)
    requires FirstNonBS(Tokens(s)).Some?
    ensures exists i: nat :: CodeAt(s, FirstNonBS(Tokens(s)).value, i) && OnlyBSBefore(s, i)
    decreases |s|
  {
    var d := FirstNonBS(Tokens(s)).value;
    if !IsWordChar(s[0]) {
      FirstNonBSIsLeftmost(s[1..]);
      var i: nat :| CodeAt(s[1..], d, i) && OnlyBSBefore(s[1..], i);
      LeftmostInSuffix(s, 1, d, i);
    } else {
      var k := WordRun(s);
      if IsDeptCode(s[..k]) && s[..k] != "BS" {
        assert Tokens(s)[0] == s[..k];
        assert CodeAt(s, d, 0);
      } else {
        FirstNonBSSkipsRun(s);
        var tail := s[k + 1..];
        FirstNonBSIsLeftmost(tail);
        var i: nat :| CodeAt(tail, d, i) && OnlyBSBefore(tail, i);
        forall w, j: nat | j < k + 1 && CodeAt(s, w, j) ensures w == "BS" {
          CodeInRun(s, w, j);
        }
        LeftmostInSuffix(s, k + 1, d, i);
      }
    }
  }

  /** When the first word of `s` is not a code other than "BS", the search goes on after it. */
  lemma FirstNonBSSkipsRun(s: string)
    requires s != [] && IsWordChar(s[0])
    requires !IsDeptCode(s[..WordRun(s)]) || s[..WordRun(s)] == "BS"
    ensures var k := WordRun(s);
      FirstNonBS(Tokens(s)) == if k < |s| then FirstNonBS(Tokens(s[k + 1..])) else None
  {
    var k := WordRun(s);
    var rest := s[k..];
    if IsDeptCode(s[..k]) {
      var ts := Tokens(s);
      assert ts == [s[..k]] + Tokens(rest);
      assert ts[1..] == Tokens(rest);
    } else {
      assert Tokens(s) == Tokens(rest);
    }
    if k < |s| {
      assert Tokens(rest) == Tokens(rest[1..]);
      assert rest[1..] == s[k + 1..];
    }
  }

  /** Every token is a department code standing as a whole word of `s`. */
  lemma {:induction false} TokensSound(s: string, t: string)
    requires t in Tokens(s)
    ensures IsDeptCode(t) && exists i: nat :: IsWordAt(s, t, i)
    decreases |s|
  {
    if !IsWordChar(s[0]) {
      TokensSound(s[1..], t);
      var i: nat :| IsWordAt(s[1..], t, i);
      WordAtSuffix(s, t, 1, i);
    } else {
      var k := WordRun(s);
      if IsDeptCode(s[..k]) && t == s[..k] {
        assert IsWordAt(s, t, 0);
      } else {
        var rest := s[k..];
        assert t in Tokens(rest);
        assert Tokens(rest) == Tokens(rest[1..]);
        assert rest[1..] == s[k + 1..];
        TokensSound(s[k + 1..], t);
        var i: nat :| IsWordAt(s[k + 1..], t, i);
        WordAtSuffix(s, t, k + 1, i);
      }
    }
  }

  /** The first token other than "BS". */
  function FirstNonBS(tokens: seq<string>): (r: Option<string>)
    ensures r.None? <==> forall i :: 0 <= i < |tokens| ==> tokens[i] == "BS"
    ensures r.Some? ==>
      exists i :: 0 <= i < |tokens| && tokens[i] == r.value && r.value != "BS"
        && forall j :: 0 <= j < i ==> tokens[j] == "BS"
  {
    if tokens == [] then None
    else if tokens[0] != "BS" then Some(tokens[0])
    else
      var r := FirstNonBS(tokens[1..]);
      assert forall i :: 1 <= i < |tokens| ==> tokens[i] == tokens[1..][i - 1];
      if r.Some? then
        assert exists i :: 0 <= i < |tokens| && tokens[i] == r.value && forall j :: 0 <= j < i ==> tokens[j] == "BS" by {
          var i :| 0 <= i < |tokens[1..]| && tokens[1..][i] == r.value && forall j :: 0 <= j < i ==> tokens[1..][j] == "BS";
          assert tokens[i + 1] == r.value;
          forall j | 0 <= j < i + 1 ensures tokens[j] == "BS" {
            if j > 0 { assert tokens[j] == tokens[1..][j - 1]; }
          }
        }
        r
      else r
  }

  /**
   * The department a course entry is given: the second '-'-separated field of a
   * batch label with a '-', otherwise its first code-like word other than "BS",
   * otherwise "".
   */
  function DepartmentOf(batch: string): string {
    if '-' in batch then SecondField(batch, '-') else FirstNonBS(Tokens(batch)).GetOr("")
  }

  /** A batch label with a '-' gives the field between its first and second '-'. */
  lemma DepartmentFromDash(batch: string)
    requires '-' in batch
    ensures '-' !in DepartmentOf(batch) && FieldAfterFirst(batch, DepartmentOf(batch), '-')
  {
    SecondFieldSpec(batch, '-');
  }

  /**
   * A batch label without '-' gives "" exactly when all its code-like whole
   * words are "BS", and otherwise the leftmost code-like whole word other than "BS".
   */
  lemma DepartmentFromWords(batch: string)
    requires '-' !in batch
    ensures var d := DepartmentOf(batch);
      && (d == "" <==> forall t :: t in Tokens(batch) ==> t == "BS")
      && (d == "" <==> forall w, j: nat :: CodeAt(batch, w, j) ==> w == "BS")
      && (d != "" ==> d != "BS" && exists i: nat :: CodeAt(batch, d, i) && OnlyBSBefore(batch, i))
  {
    var tokens := Tokens(batch);
    var r := FirstNonBS(tokens);
    if r.Some? {
      var i :| 0 <= i < |tokens| && tokens[i] == r.value && r.value != "BS";
      TokensSound(batch, tokens[i]);
      var j: nat :| IsWordAt(batch, r.value, j);
      assert CodeAt(batch, r.value, j);
      FirstNonBSIsLeftmost(batch);
    } else {
      forall t | t in tokens ensures t == "BS" {
        var i :| 0 <= i < |tokens| && tokens[i] == t;
      }
      forall w, j: nat | CodeAt(batch, w, j) ensures w == "BS" {
        TokensComplete(batch, w, j);
        var i :| 0 <= i < |tokens| && tokens[i] == w;
      }
    }
  }

  /** The department lookup of `parse_course_entry` (course_extractor.py:109-121). */
  method DeriveDepartment(batch: string) returns (department: string)
    ensures department == DepartmentOf(batch)
  {
    department := "";
    if '-' in batch {
      department := SecondField(batch, '-');
    } else {
      var tokens := Tokens(batch);
      var i := 0;
      while i < |tokens|
        invariant 0 <= i <= |tokens|
        invariant forall j :: 0 <= j < i ==> tokens[j] == "BS"
      {
        if tokens[i] != "BS" {
          department := tokens[i];
          break;
        }
        i := i + 1;
      }
    }
  }

  // ---------------------------------------------------------------------------
  // The clean-up of a course name

  /** Drop every "()", strip, then drop one trailing '-' and strip again. */
  function CleanupName(name: string): string {
    var n := Strip(ReplaceAll(name, "()", ""));
    if EndsWith(n, '-') then Strip(n[..|n| - 1]) else n
  }

  /** The clean-up steps of the course-entry parsers (course_extractor.py:143-146). */
  method CleanName(name: string) returns (r: string)
    ensures r == CleanupName(name)
  {
    r := Strip(ReplaceAll(name, "()", ""));
    if EndsWith(r, '-') {
      r := Strip(r[..|r| - 1]);
    }
  }

  /** The cleaned name is stripped and no longer than the input. */
  lemma CleanupNameSpec(name: string)
    ensures var r := CleanupName(name);
      Strip(r) == r && |r| <= |name|
  {
    var m := ReplaceAll(name, "()", "");
    var n := Strip(m);
    RemoveShortens(name, "()");
    StripShortens(m);
    StripIdempotent(m);
    if EndsWith(n, '-') {
      StripShortens(n[..|n| - 1]);
      StripIdempotent(n[..|n| - 1]);
    }
  }

  /** A name that is already clean is kept as it is. */
  lemma CleanupNameKeepsClean(name: string)
    requires Strip(name) == name && !Contains(name, "()") && !EndsWith(name, '-')
    ensures CleanupName(name) == name
  {
    ReplaceAbsent(name, "()", "");
  }

  // ---------------------------------------------------------------------------
  // The duplicate check

  /** The index of the first element of `s` satisfying `p`. */
  function FindFirst<T>(s: seq<T>, p: T -> bool): (r: Option<nat>)
    ensures r.None? <==> forall i :: 0 <= i < |s| ==> !p(s[i])
    ensures r.Some? ==> r.value < |s| && p(s[r.value]) && forall j :: 0 <= j < r.value ==> !p(s[j])
  {
    if s == [] then None
    else if p(s[0]) then Some(0)
    else
      var r := FindFirst(s[1..], p);
      assert forall i :: 1 <= i < |s| ==> s[i] == s[1..][i - 1];
      if r.Some? then Some(r.value + 1) else None
  }

  function SameAs(c: Course): Course -> bool {
    (x: Course) => Identity(x) == Identity(c)
  }

  /** What `find_existing_course` returns: the first course with the identity of `c`. */
  function Existing(courses: seq<Course>, c: Course): (r: Option<Course>)
    ensures r.None? <==> forall i :: 0 <= i < |courses| ==> Identity(courses[i]) != Identity(c)
    ensures r.Some? ==>
      exists i :: 0 <= i < |courses| && courses[i] == r.value && Identity(r.value) == Identity(c)
        && forall j :: 0 <= j < i ==> Identity(courses[j]) != Identity(c)
  {
    var i := FindFirst(courses, SameAs(c));
    if i.Some? then Some(courses[i.value]) else None
  }

  /** `find_existing_course` (course_extractor.py:156-164, course_extractor_simple.py:172-180). */
  method FindExistingCourse(courses: seq<Course>, c: Course) returns (found: Option<Course>)
    ensures found == Existing(courses, c)
  {
    for i := 0 to |courses|
      invariant forall j :: 0 <= j < i ==> Identity(courses[j]) != Identity(c)
    {
      var course := courses[i];
      if course.name == c.name && course.department == c.department
        && course.section == c.section && course.batch == c.batch
      {
        return Some(course);
      }
    }
    return None;
  }

  /** The course list after offering `stream` in order, each only if no course with its identity is there yet. */
  function Dedup(stream: seq<Course>): seq<Course> {
    if stream == [] then []
    else
      var kept := Dedup(stream[..|stream| - 1]);
      var c := stream[|stream| - 1];
      if Existing(kept, c).None? then kept + [c] else kept
  }

  lemma DedupSnoc(stream: seq<Course>, c: Course)
    ensures Dedup(stream + [c]) == if Existing(Dedup(stream), c).None? then Dedup(stream) + [c] else Dedup(stream)
  {
    assert (stream + [c])[..|stream|] == stream;
  }

  /** No course before index `k` of `s` has the identity of `s[k]`. */
  predicate FirstOfIdentity(s: seq<Course>, k: nat)
    requires k < |s|
  {
    forall j :: 0 <= j < k ==> Identity(s[j]) != Identity(s[k])
  }

  /** No two courses of the list share an identity. */
  predicate DistinctIdentities(s: seq<Course>) {
    forall i, j :: 0 <= i < j < |s| ==> Identity(s[i]) != Identity(s[j])
  }

  lemma {:induction false} DedupDistinct(stream: seq<Course>)
    ensures DistinctIdentities(Dedup(stream))
  {
    if stream != [] {
      DedupDistinct(stream[..|stream| - 1]);
    }
  }

  /** Every offered course has a course with its identity in the list. */
  lemma {:induction false} DedupCovers(stream: seq<Course>, k: nat)
    requires k < |stream|
    ensures exists y :: y in Dedup(stream) && Identity(y) == Identity(stream[k])
  {
    var init := stream[..|stream| - 1];
    var kept := Dedup(init);
    if k < |stream| - 1 {
      DedupCovers(init, k);
      var y :| y in kept && Identity(y) == Identity(init[k]);
      assert y in Dedup(stream);
    } else if Existing(kept, stream[k]).Some? {
      var y := Existing(kept, stream[k]).value;
      assert y in kept;
    } else {
      assert stream[k] in Dedup(stream);
    }
  }

  /** A listed course is the first offered course with its identity. */
  lemma {:induction false} DedupSound(stream: seq<Course>, x: Course)
    requires x in Dedup(stream)
    ensures exists k :: 0 <= k < |stream| && stream[k] == x && FirstOfIdentity(stream, k)
  {
    var init := stream[..|stream| - 1];
    var kept := Dedup(init);
    var c := stream[|stream| - 1];
    if x in kept {
      DedupSound(init, x);
      var k :| 0 <= k < |init| && init[k] == x && FirstOfIdentity(init, k);
      assert forall j :: 0 <= j <= k ==> stream[j] == init[j];
      assert FirstOfIdentity(stream, k);
    } else {
      DedupNewIsFirst(init, c);
      assert stream == init + [c];
    }
  }

  /** A course the list takes in has no identity in common with anything offered before it. */
  lemma DedupNewIsFirst(init: seq<Course>, c: Course)
    requires Existing(Dedup(init), c).None?
    ensures forall j :: 0 <= j < |init| ==> Identity(init[j]) != Identity(c)
  {
    forall j | 0 <= j < |init| ensures Identity(init[j]) != Identity(c) {
      DedupNewIsFirstAt(init, c, j);
    }
  }

  lemma DedupNewIsFirstAt(init: seq<Course>, c: Course, j: nat)
    requires Existing(Dedup(init), c).None? && j < |init|
    ensures Identity(init[j]) != Identity(c)
  {
    var kept := Dedup(init);
    DedupCovers(init, j);
    var y :| y in kept && Identity(y) == Identity(init[j]);
    var i :| 0 <= i < |kept| && kept[i] == y;
    assert Identity(kept[i]) != Identity(c);
  }

  /** The first offered course of each identity is listed. */
  lemma {:induction false} DedupComplete(stream: seq<Course>, k: nat)
    requires k < |stream| && FirstOfIdentity(stream, k)
    ensures stream[k] in Dedup(stream)
  {
    var init := stream[..|stream| - 1];
    var kept := Dedup(init);
    if k < |stream| - 1 {
      assert FirstOfIdentity(init, k);
      DedupComplete(init, k);
    } else {
      forall y | y in kept ensures Identity(y) != Identity(stream[k]) {
        DedupSound(init, y);
      }
    }
  }

  // ---------------------------------------------------------------------------
  // The scan of the timetable cells for courses

  /** A course-entry parser: the entry and the batch label give the parsed fields. */
  type Parser = (string, string) -> Parsed

  /** Index of the first timetable row the course extractors read. */
  const FirstDataRow: nat := 5

  /** `grid[5:]` */
  function DataRows(rows: seq<Row>): seq<Row> {
    if |rows| <= FirstDataRow then [] else rows[FirstDataRow..]
  }

  /** A cell that holds a course: formatted, in a batch colour, with text that is not blank. */
  predicate IsCourseCell(cell: Cell, colors: ColorMap) {
    cell.hasFormat && Lookup(colors, cell.fingerprint).Some? && cell.text.Some? && Strip(cell.text.value) != []
  }

  /** The course a course cell of sheet `day` yields. */
  function CourseOf(cell: Cell, colors: ColorMap, parse: Parser, day: string): Course
    requires IsCourseCell(cell, colors)
  {
    Place(parse(Strip(cell.text.value), Lookup(colors, cell.fingerprint).value), day, cell.fingerprint)
  }

  /** The courses `cells` of sheet `day` offer, in order. */
  function CellsCourses(cells: seq<Cell>, colors: ColorMap, parse: Parser, day: string): seq<Course> {
    if cells == [] then []
    else
      var c := cells[|cells| - 1];
      CellsCourses(cells[..|cells| - 1], colors, parse, day)
        + (if IsCourseCell(c, colors) then [CourseOf(c, colors, parse, day)] else [])
  }

  /** Whether the course scan reads sheet `s`: a weekday sheet with at least `minRows` rows. */
  predicate ScannedSheet(s: Sheet, minRows: nat) {
    IsWeekday(s.title) && |s.rows| >= minRows
  }

  /** The courses the scanned sheets offer, sheet after sheet. */
  function SheetsCourses(sheets: seq<Sheet>, colors: ColorMap, parse: Parser, minRows: nat): seq<Course> {
    if sheets == [] then []
    else
      var s := sheets[|sheets| - 1];
      SheetsCourses(sheets[..|sheets| - 1], colors, parse, minRows)
        + (if ScannedSheet(s, minRows) then CellsCourses(RowsCells(DataRows(s.rows)), colors, parse, s.title) else [])
  }

  lemma SheetsCoursesStep(sheets: seq<Sheet>, i: nat, colors: ColorMap, parse: Parser, minRows: nat)
    requires i < |sheets|
    ensures SheetsCourses(sheets[..i + 1], colors, parse, minRows)
      == SheetsCourses(sheets[..i], colors, parse, minRows)
         + (if ScannedSheet(sheets[i], minRows) then CellsCourses(RowsCells(DataRows(sheets[i].rows)), colors, parse, sheets[i].title) else [])
  {
    assert sheets[..i + 1][..i] == sheets[..i];
  }

  lemma {:induction false} CellsCoursesAppend(a: seq<Cell>, b: seq<Cell>, colors: ColorMap, parse: Parser, day: string)
    ensures CellsCourses(a + b, colors, parse, day) == CellsCourses(a, colors, parse, day) + CellsCourses(b, colors, parse, day)
    decreases |b|
  {
    if b == [] {
      assert a + b == a;
    } else {
      var init := b[..|b| - 1];
      assert (a + b)[..|a + b| - 1] == a + init;
      CellsCoursesAppend(a, init, colors, parse, day);
    }
  }

  lemma CellsCoursesStep(seen: seq<Course>, row: Row, j: nat, colors: ColorMap, parse: Parser, day: string)
    requires j < |row|
    ensures seen + CellsCourses(row[..j + 1], colors, parse, day)
      == seen + CellsCourses(row[..j], colors, parse, day)
         + (if IsCourseCell(row[j], colors) then [CourseOf(row[j], colors, parse, day)] else [])
  {
    assert row[..j + 1][..j] == row[..j];
  }

  /** A course the cells offer comes from a course cell. */
  lemma {:induction false} CellsCoursesSound(cells: seq<Cell>, colors: ColorMap, parse: Parser, day: string, x: Course)
    requires x in CellsCourses(cells, colors, parse, day)
    ensures exists n :: 0 <= n < |cells| && IsCourseCell(cells[n], colors) && x == CourseOf(cells[n], colors, parse, day)
  {
    var init := cells[..|cells| - 1];
    if x in CellsCourses(init, colors, parse, day) {
      CellsCoursesSound(init, colors, parse, day, x);
      var n :| 0 <= n < |init| && IsCourseCell(init[n], colors) && x == CourseOf(init[n], colors, parse, day);
      assert cells[n] == init[n];
    }
  }

  /** Every course cell offers its course. */
  lemma {:induction false} CellsCoursesComplete(cells: seq<Cell>, colors: ColorMap, parse: Parser, day: string, n: nat)
    requires n < |cells| && IsCourseCell(cells[n], colors)
    ensures CourseOf(cells[n], colors, parse, day) in CellsCourses(cells, colors, parse, day)
  {
    var init := cells[..|cells| - 1];
    if n < |cells| - 1 {
      assert init[n] == cells[n];
      CellsCoursesComplete(init, colors, parse, day, n);
    }
  }

  /** Cell `j` of row `r` of sheet `i` is a course cell on a scanned sheet, below the header rows. */
  predicate CourseCellAt(sheets: seq<Sheet>, colors: ColorMap, minRows: nat, i: int, r: int, j: int) {
    && 0 <= i < |sheets| && ScannedSheet(sheets[i], minRows)
    && FirstDataRow <= r < |sheets[i].rows|
    && 0 <= j < |sheets[i].rows[r]| && IsCourseCell(sheets[i].rows[r][j], colors)
  }

  /** The course the cell at (`i`, `r`, `j`) yields. */
  function CourseAt(sheets: seq<Sheet>, colors: ColorMap, parse: Parser, minRows: nat, i: nat, r: nat, j: nat): Course
    requires CourseCellAt(sheets, colors, minRows, i, r, j)
  {
    CourseOf(sheets[i].rows[r][j], colors, parse, sheets[i].title)
  }

  lemma DataCellsSound(rows: seq<Row>, c: Cell)
    requires c in RowsCells(DataRows(rows))
    ensures exists r, j :: FirstDataRow <= r < |rows| && 0 <= j < |rows[r]| && rows[r][j] == c
  {
    var data := DataRows(rows);
    RowsCellsMembership(data, c);
    var r, j :| 0 <= r < |data| && 0 <= j < |data[r]| && data[r][j] == c;
    assert rows[r + FirstDataRow] == data[r];
  }

  /** A course the scanned sheets offer comes from a course cell of a scanned sheet, and carries its title as day. */
  lemma {:induction false} SheetsCoursesSound(sheets: seq<Sheet>, colors: ColorMap, parse: Parser, minRows: nat, x: Course)
    requires x in SheetsCourses(sheets, colors, parse, minRows)
    ensures exists i, r, j :: CourseCellAt(sheets, colors, minRows, i, r, j) && x == CourseAt(sheets, colors, parse, minRows, i, r, j)
  {
    var init := sheets[..|sheets| - 1];
    var s := sheets[|sheets| - 1];
    if x in SheetsCourses(init, colors, parse, minRows) {
      SheetsCoursesSound(init, colors, parse, minRows, x);
      var i, r, j :| CourseCellAt(init, colors, minRows, i, r, j) && x == CourseAt(init, colors, parse, minRows, i, r, j);
      assert sheets[i] == init[i];
      assert CourseCellAt(sheets, colors, minRows, i, r, j);
    } else {
      var cells := RowsCells(DataRows(s.rows));
      CellsCoursesSound(cells, colors, parse, s.title, x);
      var n :| 0 <= n < |cells| && IsCourseCell(cells[n], colors) && x == CourseOf(cells[n], colors, parse, s.title);
      DataCellsSound(s.rows, cells[n]);
      var r, j :| FirstDataRow <= r < |s.rows| && 0 <= j < |s.rows[r]| && s.rows[r][j] == cells[n];
      assert CourseCellAt(sheets, colors, minRows, |sheets| - 1, r, j);
    }
  }

  /** Every course cell of a scanned sheet offers its course. */
  lemma {:induction false} SheetsCoursesComplete(sheets: seq<Sheet>, colors: ColorMap, parse: Parser, minRows: nat, i: nat, r: nat, j: nat)
    requires CourseCellAt(sheets, colors, minRows, i, r, j)
    ensures CourseAt(sheets, colors, parse, minRows, i, r, j) in SheetsCourses(sheets, colors, parse, minRows)
  {
    var init := sheets[..|sheets| - 1];
    var s := sheets[|sheets| - 1];
    if i < |sheets| - 1 {
      assert init[i] == sheets[i];
      assert CourseCellAt(init, colors, minRows, i, r, j);
      SheetsCoursesComplete(init, colors, parse, minRows, i, r, j);
    } else {
      var data := DataRows(s.rows);
      assert data[r - FirstDataRow] == s.rows[r];
      RowsCellsMembership(data, s.rows[r][j]);
      var cells := RowsCells(data);
      var n :| 0 <= n < |cells| && cells[n] == s.rows[r][j];
      CellsCoursesComplete(cells, colors, parse, s.title, n);
    }
  }

  /** Offers one course: appended unless a course with its identity is listed (course_extractor.py:97-100). */
  method AddIfNew(courses: seq<Course>, c: Course, ghost seen: seq<Course>) returns (result: seq<Course>)
    requires courses == Dedup(seen)
    ensures result == Dedup(seen + [c])
  {
    DedupSnoc(seen, c);
    var existing := FindExistingCourse(courses, c);
    result := courses;
    if existing.None? {
      result := courses + [c];
    }
  }

  /** The cell loop of the course scan (course_extractor.py:76-100). */
  method ScanCourseRow(courses: seq<Course>, row: Row, colors: ColorMap, parse: Parser, day: string, ghost seen: seq<Course>)
    returns (result: seq<Course>)
    requires courses == Dedup(seen)
    ensures result == Dedup(seen + CellsCourses(row, colors, parse, day))
  {
    result := courses;
    assert seen + CellsCourses(row[..0], colors, parse, day) == seen;
    for j := 0 to |row|
      invariant result == Dedup(seen + CellsCourses(row[..j], colors, parse, day))
    {
      CellsCoursesStep(seen, row, j, colors, parse, day);
      result := ScanCourseCell(result, row[j], colors, parse, day, seen + CellsCourses(row[..j], colors, parse, day));
    }
    assert row[..|row|] == row;
  }

  /** One cell of the course scan (course_extractor.py:77-100). */
  method ScanCourseCell(courses: seq<Course>, cell: Cell, colors: ColorMap, parse: Parser, day: string, ghost seen: seq<Course>)
    returns (result: seq<Course>)
    requires courses == Dedup(seen)
    ensures result == Dedup(seen + if IsCourseCell(cell, colors) then [CourseOf(cell, colors, parse, day)] else [])
  {
    assert seen + [] == seen;
    result := courses;
    if !cell.hasFormat {
      return;
    }
    var batchLabel := Lookup(colors, cell.fingerprint);
    if batchLabel.Some? && cell.text.Some? {
      var entry := Strip(cell.text.value);
      if entry != [] {
        var info := parse(entry, batchLabel.value);
        result := AddIfNew(result, Place(info, day, cell.fingerprint), seen);
      }
    }
  }

  lemma ScanRowsStep(seen: seq<Course>, rows: seq<Row>, r: nat, colors: ColorMap, parse: Parser, day: string)
    requires r < |rows|
    ensures seen + CellsCourses(RowsCells(rows[..r + 1]), colors, parse, day)
      == (seen + CellsCourses(RowsCells(rows[..r]), colors, parse, day)) + CellsCourses(rows[r], colors, parse, day)
  {
    RowsCellsStep(rows, r);
    CellsCoursesAppend(RowsCells(rows[..r]), rows[r], colors, parse, day);
  }

  /** The row loop of the course scan (course_extractor.py:73-100). */
  method ScanCourseRows(courses: seq<Course>, rows: seq<Row>, colors: ColorMap, parse: Parser, day: string, ghost seen: seq<Course>)
    returns (result: seq<Course>)
    requires courses == Dedup(seen)
    ensures result == Dedup(seen + CellsCourses(RowsCells(rows), colors, parse, day))
  {
    result := courses;
    assert seen + CellsCourses(RowsCells(rows[..0]), colors, parse, day) == seen;
    for r := 0 to |rows|
      invariant result == Dedup(seen + CellsCourses(RowsCells(rows[..r]), colors, parse, day))
    {
      ghost var before := seen + CellsCourses(RowsCells(rows[..r]), colors, parse, day);
      ScanRowsStep(seen, rows, r, colors, parse, day);
      result := ScanCourseRow(result, rows[r], colors, parse, day, before);
    }
    assert rows[..|rows|] == rows;
  }

  // ---------------------------------------------------------------------------
  // Search filters

  /** `[x for x in s if p(x)]` */
  function Keep<T(!new)>(s: seq<T>, p: T -> bool): (r: seq<T>)
    ensures |r| <= |s|
    ensures forall x :: x in r <==> x in s && p(x)
  {
    if s == [] then []
    else
      assert s == s[..|s| - 1] + [s[|s| - 1]];
      Keep(s[..|s| - 1], p) + (if p(s[|s| - 1]) then [s[|s| - 1]] else [])
  }

  lemma {:induction false} KeepAppend<T(!new)>(a: seq<T>, b: seq<T>, p: T -> bool)
    ensures Keep(a + b, p) == Keep(a, p) + Keep(b, p)
    decreases |b|
  {
    if b == [] {
      assert a + b == a;
    } else {
      assert (a + b)[..|a + b| - 1] == a + b[..|b| - 1];
      KeepAppend(a, b[..|b| - 1], p);
    }
  }

  /** Filtering twice is filtering once by both conditions, in the same order. */
  lemma {:induction false} KeepKeep<T(!new)>(s: seq<T>, p: T -> bool, q: T -> bool, pq: T -> bool)
    requires forall x :: pq(x) == (p(x) && q(x))
    ensures Keep(Keep(s, p), q) == Keep(s, pq)
  {
    if s != [] {
      var init := s[..|s| - 1];
      var last := s[|s| - 1];
      KeepKeep(init, p, q, pq);
      KeepAppend(Keep(init, p), if p(last) then [last] else [], q);
      assert Keep([last], q) == Keep([], q) + (if q(last) then [last] else []);
    }
  }

  /** A filter by a condition that every element meets keeps the list. */
  lemma {:induction false} KeepAll<T(!new)>(s: seq<T>, p: T -> bool)
    requires forall x :: x in s ==> p(x)
    ensures Keep(s, p) == s
  {
    if s != [] {
      KeepAll(s[..|s| - 1], p);
      assert s == s[..|s| - 1] + [s[|s| - 1]];
    }
  }

  /** Filters by conditions that agree on every element give the same list. */
  lemma {:induction false} KeepSame<T(!new)>(s: seq<T>, p: T -> bool, q: T -> bool)
    requires forall x :: p(x) == q(x)
    ensures Keep(s, p) == Keep(s, q)
  {
    if s != [] {
      KeepSame(s[..|s| - 1], p, q);
    }
  }

  /** The free-text query matches the lower-cased name, department or section. */
  predicate QueryHit(c: Course, query: string) {
    var q := Lower(query);
    Contains(Lower(c.name), q) || Contains(Lower(c.department), q) || Contains(Lower(c.section), q)
  }

  function InDepartment(department: string): Course -> bool {
    (c: Course) => c.department == department
  }

  function InBatch(batch: string): Course -> bool {
    (c: Course) => c.batch == batch
  }

  function HitBy(query: string): Course -> bool {
    (c: Course) => QueryHit(c, query)
  }

  /** The three filters of `search_courses`, one after the other; an empty filter value is no filter. */
  function SearchFilter(courses: seq<Course>, query: string, department: string, batch: string): seq<Course> {
    var byDepartment := if department != "" then Keep(courses, InDepartment(department)) else courses;
    var byBatch := if batch != "" then Keep(byDepartment, InBatch(batch)) else byDepartment;
    if query != "" then Keep(byBatch, HitBy(query)) else byBatch
  }

  /** A course passes the search when it meets every filter that is set. */
  predicate Matches(c: Course, query: string, department: string, batch: string) {
    && (department == "" || c.department == department)
    && (batch == "" || c.batch == batch)
    && (query == "" || QueryHit(c, query))
  }

  function MatchesAll(query: string, department: string, batch: string): Course -> bool {
    (c: Course) => Matches(c, query, department, batch)
  }

  /**
   * The successive filters keep exactly the courses that meet every set filter,
   * in their original order.
   */
  lemma SearchFilterSpec(courses: seq<Course>, query: string, department: string, batch: string)
    ensures SearchFilter(courses, query, department, batch) == Keep(courses, MatchesAll(query, department, batch))
  {
    var p1 := (c: Course) => department == "" || c.department == department;
    var p2 := (c: Course) => p1(c) && (batch == "" || c.batch == batch);
    var byDepartment := if department != "" then Keep(courses, InDepartment(department)) else courses;
    assert byDepartment == Keep(courses, p1) by {
      if department == "" {
        KeepAll(courses, p1);
      } else {
        KeepSame(courses, InDepartment(department), p1);
      }
    }
    var byBatch := if batch != "" then Keep(byDepartment, InBatch(batch)) else byDepartment;
    assert byBatch == Keep(courses, p2) by {
      if batch == "" {
        KeepSame(courses, p1, p2);
      } else {
        KeepKeep(courses, p1, InBatch(batch), p2);
      }
    }
    if query == "" {
      KeepSame(courses, p2, MatchesAll(query, department, batch));
    } else {
      KeepKeep(courses, p2, HitBy(query), MatchesAll(query, department, batch));
    }
  }

  // ---------------------------------------------------------------------------
  // Departments and batches named in the header band

  /** The values `pick` yields over `cells`. */
  function Collect(cells: seq<Cell>, pick: Cell -> Option<string>): set<string> {
    if cells == [] then {}
    else
      var c := cells[|cells| - 1];
      Collect(cells[..|cells| - 1], pick) + (if pick(c).Some? then {pick(c).value} else {})
  }

  lemma {:induction false} CollectAppend(a: seq<Cell>, b: seq<Cell>, pick: Cell -> Option<string>)
    ensures Collect(a + b, pick) == Collect(a, pick) + Collect(b, pick)
    decreases |b|
  {
    if b == [] {
      assert a + b == a;
    } else {
      assert (a + b)[..|a + b| - 1] == a + b[..|b| - 1];
      CollectAppend(a, b[..|b| - 1], pick);
    }
  }

  lemma {:induction false} CollectMembership(cells: seq<Cell>, pick: Cell -> Option<string>, v: string)
    ensures v in Collect(cells, pick) <==> exists n :: 0 <= n < |cells| && pick(cells[n]) == Some(v)
  {
    if cells != [] {
      var init := cells[..|cells| - 1];
      CollectMembership(init, pick, v);
      if exists n :: 0 <= n < |cells| && pick(cells[n]) == Some(v) {
        var n :| 0 <= n < |cells| && pick(cells[n]) == Some(v);
        if n < |init| {
          assert init[n] == cells[n];
        }
      }
      if v in Collect(init, pick) {
        var n :| 0 <= n < |init| && pick(init[n]) == Some(v);
        assert cells[n] == init[n];
      }
    }
  }

  /** A value is collected from the header band exactly when a header cell yields it. */
  lemma HeaderValuesMembership(sheets: seq<Sheet>, pick: Cell -> Option<string>, v: string)
    ensures v in Collect(HeaderCells(sheets), pick) <==> exists i, r, j, c :: IsHeaderCellAt(sheets, i, r, j, c) && pick(c) == Some(v)
  {
    var cells := HeaderCells(sheets);
    CollectMembership(cells, pick, v);
    if v in Collect(cells, pick) {
      var n :| 0 <= n < |cells| && pick(cells[n]) == Some(v);
      HeaderCellsSound(sheets, cells[n]);
    }
    if exists i, r, j, c :: IsHeaderCellAt(sheets, i, r, j, c) && pick(c) == Some(v) {
      var i, r, j, c :| IsHeaderCellAt(sheets, i, r, j, c) && pick(c) == Some(v);
      HeaderCellsComplete(sheets, i, r, j, c);
      var n :| 0 <= n < |cells| && cells[n] == c;
    }
  }

  /**
   * The header scan shared by both department-and-batch extractors: rows 0-3 of
   * every weekday sheet, each cell offered to both pickers.
   */
  method CollectHeaderValues(sheets: seq<Sheet>, departmentPick: Cell -> Option<string>, batchPick: Cell -> Option<string>)
    returns (departments: set<string>, batches: set<string>)
    ensures departments == Collect(HeaderCells(sheets), departmentPick)
    ensures batches == Collect(HeaderCells(sheets), batchPick)
  {
    departments, batches := {}, {};
    for i := 0 to |sheets|
      invariant departments == Collect(HeaderCells(sheets[..i]), departmentPick)
      invariant batches == Collect(HeaderCells(sheets[..i]), batchPick)
    {
      HeaderCellsStep(sheets, i);
      CollectAppend(HeaderCells(sheets[..i]), SheetHeaderCells(sheets[i]), departmentPick);
      CollectAppend(HeaderCells(sheets[..i]), SheetHeaderCells(sheets[i]), batchPick);
      var sheet := sheets[i];
      if !IsWeekday(sheet.title) {
        continue;
      }
      var grid := sheet.rows;
      for r := 0 to HeaderBand
        invariant departments == Collect(HeaderCells(sheets[..i]), departmentPick) + Collect(RowsCells(grid[..Min(r, |grid|)]), departmentPick)
        invariant batches == Collect(HeaderCells(sheets[..i]), batchPick) + Collect(RowsCells(grid[..Min(r, |grid|)]), batchPick)
      {
        if r >= |grid| {
          continue;
        }
        RowsCellsStep(grid, r);
        CollectAppend(RowsCells(grid[..r]), grid[r], departmentPick);
        CollectAppend(RowsCells(grid[..r]), grid[r], batchPick);
        var found, named := CollectRow(grid[r], departmentPick, batchPick);
        departments, batches := departments + found, batches + named;
      }
    }
    assert sheets[..|sheets|] == sheets;
  }

  /** The cell loop of the header scan. */
  method CollectRow(row: Row, departmentPick: Cell -> Option<string>, batchPick: Cell -> Option<string>)
    returns (departments: set<string>, batches: set<string>)
    ensures departments == Collect(row, departmentPick) && batches == Collect(row, batchPick)
  {
    departments, batches := {}, {};
    for j := 0 to |row|
      invariant departments == Collect(row[..j], departmentPick) && batches == Collect(row[..j], batchPick)
    {
      assert row[..j + 1][..j] == row[..j];
      var cell := row[j];
      var d := departmentPick(cell);
      if d.Some? {
        departments := departments + {d.value};
      }
      var b := batchPick(cell);
      if b.Some? {
        batches := batches + {b.value};
      }
    }
    assert row[..|row|] == row;
  }
}
