/**
 * course_extractor.py: the course catalogue whose entries are parsed with regular
 * expressions, the departments and batches named in the header band, and the
 * sorted course search.
 */
module Catalog {
  import opened Wrappers
  import opened Strings
  import opened Sheets
  import opened ColorKey
  import opened Sorting
  import opened Courses

  // ---------------------------------------------------------------------------
  // Section patterns

  /** The section patterns of `parse_course_entry`, each capturing one capital letter. */
  datatype SectionPattern =
    | CsParen       // \(CS-([A-Z])\)
    | DashLetter    // -([A-Z])\b
    | ParenLetter   // \(([A-Z])\)
    | SpacedLetter  // \s([A-Z])\s

  /** The order in which the patterns are tried. */
  const SectionPatterns: seq<SectionPattern> := [CsParen, DashLetter, ParenLetter, SpacedLetter]

  /** The number of characters a match consumes. */
  function PatternLength(p: SectionPattern): nat {
    match p
    case CsParen => 6
    case DashLetter => 2
    case ParenLetter => 3
    case SpacedLetter => 3
  }

  /** Where, within a match, the captured letter sits. */
  function LetterOffset(p: SectionPattern): nat {
    if p == CsParen then 4 else 1
  }

  /** `p` matches `s` at index `i`. */
  predicate MatchesAt(p: SectionPattern, s: string, i: nat) {
    && i + PatternLength(p) <= |s|
    && IsUpper(s[i + LetterOffset(p)])
    && match p
       case CsParen => s[i..i + 4] == "(CS-" && s[i + 5] == ')'
       case DashLetter => s[i] == '-' && (i + 2 == |s| || !IsWordChar(s[i + 2]))
       case ParenLetter => s[i] == '(' && s[i + 2] == ')'
       case SpacedLetter => IsSpace(s[i]) && IsSpace(s[i + 2])
  }

  /** The leftmost match of `p` in `s` at or after `from`. */
  function SearchFrom(p: SectionPattern, s: string, from: nat): (r: Option<nat>)
    ensures r.Some? ==>
      from <= r.value && MatchesAt(p, s, r.value) && forall j: nat :: from <= j < r.value ==> !MatchesAt(p, s, j)
    ensures r.None? ==> forall j: nat :: from <= j ==> !MatchesAt(p, s, j)
    decreases |s| - from
  {
    if from >= |s| then None
    else if MatchesAt(p, s, from) then Some(from)
    else SearchFrom(p, s, from + 1)
  }

  /** `re.search(p, s)`: the index of the leftmost match. */
  function Search(p: SectionPattern, s: string): Option<nat> {
    SearchFrom(p, s, 0)
  }

  /** `re.sub(p, '', s)` from index `i`: matches are deleted left to right, without overlapping. */
  function RemoveFrom(p: SectionPattern, s: string, i: nat): string
    decreases |s| - i
  {
    if i >= |s| then []
    else if MatchesAt(p, s, i) then RemoveFrom(p, s, i + PatternLength(p))
    else [s[i]] + RemoveFrom(p, s, i + 1)
  }

  function RemoveAll(p: SectionPattern, s: string): string {
    RemoveFrom(p, s, 0)
  }

  lemma {:induction false} RemoveFromSpec(p: SectionPattern, s: string, i: nat)
    requires i <= |s|
    ensures |RemoveFrom(p, s, i)| <= |s| - i
    ensures SearchFrom(p, s, i).None? ==> RemoveFrom(p, s, i) == s[i..]
    ensures SearchFrom(p, s, i).Some? ==> |RemoveFrom(p, s, i)| <= |s| - i - PatternLength(p)
    decreases |s| - i
  {
    if i < |s| {
      if MatchesAt(p, s, i) {
        RemoveFromSpec(p, s, i + PatternLength(p));
      } else {
        RemoveFromSpec(p, s, i + 1);
        if SearchFrom(p, s, i).None? {
          assert s[i..] == [s[i]] + s[i + 1..];
        }
      }
    }
  }

  /**
   * `re.sub` keeps the text up to the leftmost match, deletes the match and
   * carries on right after it.
   */
  lemma {:induction false} RemoveFromStep(p: SectionPattern, s: string, i: nat, j: nat)
    requires SearchFrom(p, s, i) == Some(j)
    ensures j + PatternLength(p) <= |s|
    ensures RemoveFrom(p, s, i) == s[i..j] + RemoveFrom(p, s, j + PatternLength(p))
    decreases |s| - i
  {
    if i < j {
      RemoveFromStep(p, s, i + 1, j);
      assert s[i..j] == [s[i]] + s[i + 1..j];
    }
  }

  /** Deleting the matches leaves a string without a match unchanged and shortens any other by at least one match. */
  lemma RemoveAllSpec(p: SectionPattern, s: string)
    ensures Search(p, s).None? ==> RemoveAll(p, s) == s
    ensures Search(p, s).Some? ==> |RemoveAll(p, s)| <= |s| - PatternLength(p)
  {
    RemoveFromSpec(p, s, 0);
  }

  /** The first pattern from the `k`-th on that matches `entry`, with its leftmost match. */
  function FirstHitFrom(entry: string, k: nat): (r: Option<(SectionPattern, nat)>)
    requires k <= |SectionPatterns|
    ensures r.None? <==> forall j :: k <= j < |SectionPatterns| ==> Search(SectionPatterns[j], entry).None?
    ensures r.Some? ==>
      exists j :: k <= j < |SectionPatterns| && SectionPatterns[j] == r.value.0
        && Search(r.value.0, entry) == Some(r.value.1)
        && forall j' :: k <= j' < j ==> Search(SectionPatterns[j'], entry).None?
    decreases |SectionPatterns| - k
  {
    if k == |SectionPatterns| then None
    else
      var m := Search(SectionPatterns[k], entry);
      if m.Some? then Some((SectionPatterns[k], m.value)) else FirstHitFrom(entry, k + 1)
  }

  // ---------------------------------------------------------------------------
  // Parsing a course entry

  /** The captured letter of the first pattern that matches, or "". */
  function SectionOf(entry: string): string {
    var hit := FirstHitFrom(entry, 0);
    if hit.Some? then [entry[hit.value.1 + LetterOffset(hit.value.0)]] else ""
  }

  /** The fields `parse_course_entry` returns for a non-empty entry. */
  function ParseFields(entry: string, batch: string): Parsed {
    var hit := FirstHitFrom(entry, 0);
    var section := SectionOf(entry);
    var name := if hit.Some? then Strip(RemoveAll(hit.value.0, entry)) else entry;
    Parsed(CleanupName(name), DepartmentOf(batch), section, batch, entry)
  }

  /** What `parse_course_entry` returns: nothing for an empty entry. */
  function ParseEntry(entry: string, batch: string): Option<Parsed> {
    if entry == [] then None else Some(ParseFields(entry, batch))
  }

  /** `parse_course_entry` (course_extractor.py:104-154). */
  method ParseCourseEntry(entry: string, batch: string) returns (result: Option<Parsed>)
    ensures result == ParseEntry(entry, batch)
  {
    if entry == [] {
      return None;
    }
    var department := DeriveDepartment(batch);
    var section := "";
    var name := entry;
    var k := 0;
    while k < |SectionPatterns|
      invariant 0 <= k <= |SectionPatterns|
      invariant forall j :: 0 <= j < k ==> Search(SectionPatterns[j], entry).None?
      invariant section == "" && name == entry
    {
      var pattern := SectionPatterns[k];
      var m := Search(pattern, entry);
      if m.Some? {
        section := [entry[m.value + LetterOffset(pattern)]];
        name := Strip(RemoveAll(pattern, name));
        FirstHitAt(entry, 0, k);
        break;
      }
      k := k + 1;
    }
    name := CleanName(name);
    return Some(Parsed(name, department, section, batch, entry));
  }

  /** The first pattern, from the `n`-th on, with a match is the `k`-th when those between have none. */
  lemma {:induction false} FirstHitAt(entry: string, n: nat, k: nat)
    requires n <= k < |SectionPatterns|
    requires forall j :: n <= j < k ==> Search(SectionPatterns[j], entry).None?
    requires Search(SectionPatterns[k], entry).Some?
    ensures FirstHitFrom(entry, n) == Some((SectionPatterns[k], Search(SectionPatterns[k], entry).value))
    decreases k - n
  {
    if n < k {
      FirstHitAt(entry, n + 1, k);
    }
  }

  /** No pattern matches `entry` anywhere. */
  predicate NoSectionPattern(entry: string) {
    forall p, i | p in SectionPatterns && 0 <= i < |entry| :: !MatchesAt(p, entry, i)
  }

  /** The section is empty exactly when no pattern matches, and then the name is the cleaned entry. */
  lemma ParseSectionEmpty(entry: string, batch: string)
    ensures var r := ParseFields(entry, batch);
      && (r.section == "" <==> NoSectionPattern(entry))
      && (r.section == "" ==> r.name == CleanupName(entry))
  {
    var hit := FirstHitFrom(entry, 0);
    if hit.Some? {
      var p := hit.value.0;
      var i := hit.value.1;
      var k :| 0 <= k < |SectionPatterns| && SectionPatterns[k] == p && Search(p, entry) == Some(i);
      assert MatchesAt(p, entry, i) && i < |entry|;
    } else {
      forall p, i | p in SectionPatterns && 0 <= i < |entry| ensures !MatchesAt(p, entry, i) {
        var j :| 0 <= j < |SectionPatterns| && SectionPatterns[j] == p;
        assert Search(p, entry).None?;
      }
    }
  }

  /**
   * A non-empty section is the capital captured by the leftmost match of the
   * first pattern, in pattern order, that matches the entry.
   */
  /**
   * Pattern `k` matches `entry` leftmost at `i`, and no earlier pattern matches
   * anywhere.
   */
  ghost predicate FirstMatch(entry: string, k: nat, i: nat) {
    && k < |SectionPatterns| && MatchesAt(SectionPatterns[k], entry, i)
    && (forall j: nat, i': nat :: j < k ==> !MatchesAt(SectionPatterns[j], entry, i'))
    && (forall i': nat :: i' < i ==> !MatchesAt(SectionPatterns[k], entry, i'))
  }

  lemma ParseSectionFound(entry: string)
    requires SectionOf(entry) != ""
    ensures var sec := SectionOf(entry);
      && |sec| == 1 && IsUpper(sec[0])
      && exists k: nat, i: nat :: FirstMatch(entry, k, i) && sec[0] == entry[i + LetterOffset(SectionPatterns[k])]
  {
    var hit := FirstHitFrom(entry, 0);
    var p := hit.value.0;
    var i := hit.value.1;
    var k: nat :| k < |SectionPatterns| && SectionPatterns[k] == p && Search(p, entry) == Some(i)
      && forall j' :: 0 <= j' < k ==> Search(SectionPatterns[j'], entry).None?;
    SearchSpec(p, entry);
    forall j: nat, i': nat | j < k ensures !MatchesAt(SectionPatterns[j], entry, i') {
      SearchSpec(SectionPatterns[j], entry);
    }
    assert FirstMatch(entry, k, i);
  }

  /** What `Search` promises, from index 0. */
  lemma SearchSpec(p: SectionPattern, s: string)
    ensures var r := Search(p, s);
      && (r.Some? ==> MatchesAt(p, s, r.value) && forall j: nat :: j < r.value ==> !MatchesAt(p, s, j))
      && (r.None? ==> forall j: nat :: !MatchesAt(p, s, j))
  {
  }

  /** The name is stripped and no longer than the entry. */
  lemma ParseNameSpec(entry: string, batch: string)
    ensures var r := ParseFields(entry, batch);
      Strip(r.name) == r.name && |r.name| <= |entry|
  {
    var hit := FirstHitFrom(entry, 0);
    if hit.Some? {
      RemoveAllSpec(hit.value.0, entry);
      StripSpec(RemoveAll(hit.value.0, entry));
      CleanupNameSpec(Strip(RemoveAll(hit.value.0, entry)));
    } else {
      CleanupNameSpec(entry);
    }
  }

  /**
   * Deleting the matches can leave a new match behind: the name parsed from
   * "((CS-A)CS-A))" still has "(CS-A)" at its front.
   */
  lemma NameCanKeepPattern(batch: string)
    ensures var r := ParseFields("((CS-A)CS-A))", batch);
      r.section == "A" && r.name == "(CS-A))" && MatchesAt(CsParen, r.name, 0)
  {
    var e := "((CS-A)CS-A))";
    ExampleHit();
    ExampleRemove();
    ExampleClean();
    assert ParseFields(e, batch).section == [e[5]];
    ExampleLeftover();
  }

  lemma ExampleLeftover()
    ensures MatchesAt(CsParen, "(CS-A))", 0)
  {
    var n := "(CS-A))";
    assert n[0..4] == "(CS-";
  }

  lemma ExampleHit()
    ensures FirstHitFrom("((CS-A)CS-A))", 0) == Some((CsParen, 1))
  {
    var e := "((CS-A)CS-A))";
    assert e[0..4] != "(CS-" by { assert e[1] != 'C'; }
    assert !MatchesAt(CsParen, e, 0);
    assert e[1..5] == "(CS-";
    assert MatchesAt(CsParen, e, 1);
    assert SearchFrom(CsParen, e, 1) == Some(1);
    assert Search(CsParen, e) == Some(1);
  }

  lemma ExampleRemove()
    ensures RemoveAll(CsParen, "((CS-A)CS-A))") == "(CS-A))"
  {
    var e := "((CS-A)CS-A))";
    assert e[0..4] != "(CS-" by { assert e[1] != 'C'; }
    assert e[1..5] == "(CS-";
    assert RemoveFrom(CsParen, e, 0) == [e[0]] + RemoveFrom(CsParen, e, 1);
    assert RemoveFrom(CsParen, e, 1) == RemoveFrom(CsParen, e, 7);
    assert !MatchesAt(CsParen, e, 7) by { assert e[7] != '('; }
    assert SearchFrom(CsParen, e, 7).None?;
    RemoveFromSpec(CsParen, e, 7);
  }

  lemma ExampleClean()
    ensures CleanupName(Strip("(CS-A))")) == "(CS-A))"
  {
    var n := "(CS-A))";
    assert !IsSpace(n[0]) && !IsSpace(n[|n| - 1]);
    assert TrimStart(n) == n;
    assert Strip(n) == n;
    ContainsAt(n, "()");
    forall i: nat | i <= |n| ensures !IsAt(n, "()", i) {
      if i + 2 <= |n| {
        assert n[i..i + 2][0] == n[i] && n[i..i + 2][1] == n[i + 1];
        if i == 0 { assert n[1] == 'C'; }
        else if i == 1 { assert n[1] == 'C'; }
        else if i == 2 { assert n[2] == 'S'; }
        else if i == 3 { assert n[3] == '-'; }
        else if i == 4 { assert n[4] == 'A'; }
        else { assert n[5] == ')'; }
      }
    }
    CleanupNameKeepsClean(n);
  }

  // ---------------------------------------------------------------------------
  // Departments and batches

  /** A header cell names a department when its stripped text is two to four capitals (course_extractor.py:29-30). */
  function DepartmentPick(c: Cell): Option<string> {
    if c.text.Some? && IsDeptCode(Strip(c.text.value)) then Some(Strip(c.text.value)) else None
  }

  /** A header cell names a batch when its stripped text contains "BS-" (course_extractor.py:33-34). */
  function BatchPick(c: Cell): Option<string> {
    if c.text.Some? && Contains(Strip(c.text.value), "BS-") && '-' in Strip(c.text.value) then Some(Strip(c.text.value)) else None
  }

  /** `extract_departments_and_batches` (course_extractor.py:5-36). */
  method ExtractDepartmentsAndBatches(sheets: seq<Sheet>) returns (departments: set<string>, batches: set<string>)
    ensures departments == Collect(HeaderCells(sheets), DepartmentPick)
    ensures batches == Collect(HeaderCells(sheets), BatchPick)
  {
    departments, batches := CollectHeaderValues(sheets, DepartmentPick, BatchPick);
  }

  /** A department is listed exactly when some header cell's stripped text is that code. */
  lemma DepartmentsSpec(sheets: seq<Sheet>, d: string)
    ensures d in Collect(HeaderCells(sheets), DepartmentPick) <==>
      IsDeptCode(d) && exists i, r, j, c :: IsHeaderCellAt(sheets, i, r, j, c) && c.text.Some? && Strip(c.text.value) == d
  {
    HeaderValuesMembership(sheets, DepartmentPick, d);
  }

  /** A batch is listed exactly when it is the stripped text, containing "BS-", of some header cell. */
  lemma BatchesSpec(sheets: seq<Sheet>, b: string)
    ensures b in Collect(HeaderCells(sheets), BatchPick) <==>
      Contains(b, "BS-") && exists i, r, j, c :: IsHeaderCellAt(sheets, i, r, j, c) && c.text.Some? && Strip(c.text.value) == b
  {
    HeaderValuesMembership(sheets, BatchPick, b);
    if Contains(b, "BS-") {
      ContainsAt(b, "BS-");
      var k: nat :| k <= |b| && IsAt(b, "BS-", k);
      assert b[k + 2] == '-';
    }
  }

  // ---------------------------------------------------------------------------
  // The catalogue

  /** What `extract_all_courses` returns: every weekday sheet's courses, the first of each identity. */
  function AllCourses(sheets: seq<Sheet>): seq<Course> {
    Dedup(SheetsCourses(sheets, BatchColors(sheets), ParseFields, 0))
  }

  /** `extract_all_courses` (course_extractor.py:38-102). */
  method ExtractAllCourses(sheets: seq<Sheet>) returns (courses: seq<Course>)
    ensures courses == AllCourses(sheets)
  {
    var colors := ExtractBatchColors(sheets);
    courses := [];
    for i := 0 to |sheets|
      invariant courses == Dedup(SheetsCourses(sheets[..i], colors, ParseFields, 0))
    {
      ghost var before := SheetsCourses(sheets[..i], colors, ParseFields, 0);
      SheetsCoursesStep(sheets, i, colors, ParseFields, 0);
      var sheet := sheets[i];
      if !IsWeekday(sheet.title) {
        assert SheetsCourses(sheets[..i + 1], colors, ParseFields, 0) == before + [] == before;
        continue;
      }
      var grid := sheet.rows;
      var data := if |grid| <= FirstDataRow then [] else grid[FirstDataRow..];
      assert data == DataRows(grid);
      courses := ScanCourseRows(courses, data, colors, ParseFields, sheet.title, before);
    }
    assert sheets[..|sheets|] == sheets;
  }

  /** No two courses of the catalogue share name, department, section and batch. */
  lemma AllCoursesDistinct(sheets: seq<Sheet>)
    ensures DistinctIdentities(AllCourses(sheets))
  {
    DedupDistinct(SheetsCourses(sheets, BatchColors(sheets), ParseFields, 0));
  }

  /**
   * Every catalogue course is parsed from a formatted, batch-coloured, non-blank
   * cell below the header rows of a weekday sheet: its day is that sheet's title,
   * its entry the cell's stripped text, and its batch the label the colour key
   * gives the cell's colour.
   */
  lemma AllCoursesSound(sheets: seq<Sheet>, x: Course)
    requires x in AllCourses(sheets)
    ensures exists i, r, j ::
      && CourseCellAt(sheets, BatchColors(sheets), 0, i, r, j)
      && x == CourseAt(sheets, BatchColors(sheets), ParseFields, 0, i, r, j)
      && x.day == sheets[i].title && x.colorCode == sheets[i].rows[r][j].fingerprint
      && x.fullEntry == Strip(sheets[i].rows[r][j].text.value)
      && Lookup(BatchColors(sheets), x.colorCode) == Some(x.batch)
  {
    var colors := BatchColors(sheets);
    var stream := SheetsCourses(sheets, colors, ParseFields, 0);
    DedupSound(stream, x);
    SheetsCoursesSound(sheets, colors, ParseFields, 0, x);
  }

  /** Every course cell's course is in the catalogue, or a course with the same identity is. */
  lemma AllCoursesComplete(sheets: seq<Sheet>, i: nat, r: nat, j: nat)
    requires CourseCellAt(sheets, BatchColors(sheets), 0, i, r, j)
    ensures exists y ::
      y in AllCourses(sheets) && Identity(y) == Identity(CourseAt(sheets, BatchColors(sheets), ParseFields, 0, i, r, j))
  {
    var colors := BatchColors(sheets);
    var stream := SheetsCourses(sheets, colors, ParseFields, 0);
    SheetsCoursesComplete(sheets, colors, ParseFields, 0, i, r, j);
    var k :| 0 <= k < |stream| && stream[k] == CourseAt(sheets, colors, ParseFields, 0, i, r, j);
    DedupCovers(stream, k);
  }

  // ---------------------------------------------------------------------------
  // Search

  /** The sort key of `search_courses`: lower-cased name, then department, then section. */
  function SearchKey(c: Course): seq<string> {
    [Lower(c.name), c.department, c.section]
  }

  /** `search_courses` (course_extractor.py:166-189). */
  function SearchCourses(courses: seq<Course>, query: string, department: string, batch: string): seq<Course> {
    SortBy(SearchFilter(courses, query, department, batch), SearchKey)
  }

  /** The result is ordered by the key and holds exactly the courses that pass every set filter, each as often. */
  lemma SearchCoursesSpec(courses: seq<Course>, query: string, department: string, batch: string)
    ensures var r := SearchCourses(courses, query, department, batch);
      && SortedBy(r, SearchKey)
      && multiset(r) == multiset(Keep(courses, MatchesAll(query, department, batch)))
      && forall x :: x in r <==> x in courses && Matches(x, query, department, batch)
  {
    var filtered := SearchFilter(courses, query, department, batch);
    SearchFilterSpec(courses, query, department, batch);
    SortByProperties(filtered, SearchKey);
    forall x ensures x in SearchCourses(courses, query, department, batch) <==> x in filtered {
      assert x in multiset(filtered) <==> x in filtered;
    }
  }
}
