# Timetable extraction, course catalogue and course selection

A Dafny model of the core of a university-timetable tool. The tool reads a
colour-coded spreadsheet with one sheet per weekday. Each batch of students has a
background colour, announced by a labelled cell (such as `BS-CS-1`) in the first
four rows of a weekday sheet. Every timetable cell below is painted in the colour
of the batch it belongs to, and its text names the course and section.

The model covers:

- **Colour key** (`extract_batch_colors`): the map from a cell's colour
  fingerprint to the batch label. It is an insertion-ordered dictionary in which a
  later label overwrites an earlier one with the same colour (module `ColorKey`).
- **Batch timetable** (`get_timetable`): finds the batch's colour and locates the
  lab header row among rows 41–44. It then collects the matching cells of every
  weekday sheet as (time, room, type, course) sessions, grouped by day and sorted,
  or returns one of two messages (module `Timetable`).
- **Course catalogue, regular-expression variant** (`course_extractor.py`): the
  departments and batches of the header band, the de-duplicated list of all
  courses, the parser of a cell's text into name / department / section, the
  duplicate lookup, and the filtered and sorted search (modules `Courses` and
  `Catalog`).
- **Course catalogue, substring variant** (`course_extractor_simple.py`): the same
  operations, with the letter-by-letter section search and the unsorted search
  (module `SimpleCatalog`).
- **Course selection** (`user_preferences.py`): the selected-course list, with
  key-based add, remove, membership test and clear, the summary of the selection,
  and the one-line display string of a course (module `Selection`, class
  `CourseSelection`).

A spreadsheet is a sequence of `Sheet`s. Each sheet has a title and rows of
`Cell`s. A cell has an optional displayed text, a flag for whether it carries a
format, and an opaque colour fingerprint (module `Sheets`). The loops of the source
are `method`s. Each method is proved equal to a specification function folded over
the same input, in the same order. The properties are lemmas about those functions.
Shared string operations (Python's `strip`, `split`, `replace`, `in`, `lower`,
string ordering) are in `Strings`. The generic sort used for both `sorted(...)`
calls is in `Sorting`.

## Model

| member | source | states |
|---|---|---|
| ColorKey.ExtractBatchColors | extract_timetable.py:1-27 | the colour key built by the nested sheet/row/cell loop equals `BatchColors`, the fold of the header band's cells in scan order |
| ColorKey.ScanHeaderBand | extract_timetable.py:13-25 | scanning rows 0–3 (fewer when the grid is shorter) extends the key by exactly those rows' cells |
| ColorKey.ScanHeaderRow | extract_timetable.py:18-25 | scanning one row extends the key by exactly that row's cells |
| ColorKey.Put | extract_timetable.py:25 | dictionary assignment: the key now maps to the new label, every other key keeps its lookup, a new key goes at the end, an existing key keeps its position |
| ColorKey.PutDistinct | extract_timetable.py:25 | assignment never creates a second entry for one fingerprint |
| ColorKey.Lookup | course_extractor.py:85 | membership and lookup of a fingerprint: found iff some entry has that key, and the value found is that entry's |
| ColorKey.KeyFoldDistinct | extract_timetable.py:3-25 | the colour key has at most one entry per fingerprint |
| ColorKey.KeyFoldSound | extract_timetable.py:19-25 | every entry of the key comes from a cell containing "BS", whose fingerprint is the key and whose stripped text is the value |
| ColorKey.KeyFoldLastWins | extract_timetable.py:25 | a batch cell whose colour no later batch cell reuses keeps its label in the key |
| ColorKey.BatchColorsSound | extract_timetable.py:6-25 | every colour-key entry comes from a "BS" cell in rows 0–3 of a sheet titled Monday to Friday |
| ColorKey.BatchColorsEntrySound | extract_timetable.py:6-27 | each positional entry of the key comes from such a header cell |
| ColorKey.BatchColorsComplete | extract_timetable.py:6-25 | every "BS" cell in the header band of a weekday sheet puts its colour into the key |
| ColorKey.NoBatchCellsEmptyMap | extract_timetable.py:3-27 | with no "BS" cell in any header band the key is empty (no error) |
| ColorKey.NoWeekdayEmptyMap | extract_timetable.py:6-9 | with no weekday sheet the key is empty |
| ColorKey.FirstKeyWithValue | extract_timetable.py:35-39 | the colour of the first entry whose label equals the batch, or none when no label does |
| ColorKey.FindTargetColor | extract_timetable.py:35-39 | the early-exit search loop returns that first colour |
| ColorKey.FirstKeyWithValueAt | extract_timetable.py:36-39 | an entry with the batch label and no such entry before it gives the search's result |
| ColorKey.DistinctLookupAt | extract_timetable.py:25 | in a key without repeated fingerprints, each entry's fingerprint looks up its own label |
| Sheets.RowsCellsMembership | extract_timetable.py:18-19 | a cell is in the row-major cell sequence iff it is at some row and column |
| Sheets.HeaderCellsSound | extract_timetable.py:6-19 | every scanned header cell is in rows 0–3 of a weekday sheet |
| Sheets.HeaderCellsComplete | extract_timetable.py:6-19 | every cell in rows 0–3 of a weekday sheet is scanned |
| Sheets.HeaderCellsMembership | extract_timetable.py:6-19 | both directions together: the header scan visits exactly the header band of the weekday sheets |
| Sheets.NoWeekdayNoHeader | extract_timetable.py:7-9 | sheets not titled Monday to Friday are skipped entirely |
| Timetable.Message | extract_timetable.py:41-42 | only the two non-schedule outcomes have a message text, and it starts with the warning sign |
| Timetable.MessageInjective | extract_timetable.py:115 | the two messages are different, and a "not found" message determines the batch it names |
| Timetable.NotFoundSpec | extract_timetable.py:35-42 | the "Batch '…' not found!" text is returned exactly when no key entry carries the batch label, or the first one has an empty colour |
| Timetable.FoundBatchIsLabelled | extract_timetable.py:35-42 | a found batch's colour is that of a header cell labelled with exactly that batch |
| Timetable.UnlabelledBatchNotFound | extract_timetable.py:35-42 | a batch that labels no header cell gives the "not found" result |
| Timetable.LabelledBatchFound | extract_timetable.py:35-42 | a batch labelling a header cell whose colour no later batch cell reuses is found |
| Timetable.LabRowSpec | extract_timetable.py:60-64 | the lab row is the first of rows 41–44 whose first cell contains "Lab", or 42 when there is none |
| Timetable.FindLabRow | extract_timetable.py:60-64 | the probing loop with `break` returns that row |
| Timetable.SheetLayout | extract_timetable.py:56-66 | the class-time row, lab row and lab-time row found by the code are those of `LayoutOf` |
| Timetable.CleanCourseNameSpec | extract_timetable.py:89 | the cleaned course name contains neither '(' nor '-' and has no surrounding white space |
| Timetable.GetTimetable | extract_timetable.py:30-115 | the result is `TimetableOf`: "not found" without a colour, "no classes" without sessions, otherwise the grouped and sorted days |
| Timetable.ScanSheets | extract_timetable.py:47-103 | the loop over sheets builds the grouping of the session stream of the weekday sheets with at least six rows |
| Timetable.ScanSheet | extract_timetable.py:52-103 | scanning one sheet appends that sheet's sessions to the grouping |
| Timetable.ScanRow | extract_timetable.py:69-103 | scanning one row appends that row's matching cells, in column order |
| Timetable.RowRoom | extract_timetable.py:73-74 | the room is column 0's text stripped, or "Unknown" |
| Timetable.ScanCell | extract_timetable.py:77-103 | a cell adds a session iff it has a format, the target colour and a non-empty text containing "(S)" or "-S" |
| Timetable.MatchSessionSpec | extract_timetable.py:69-103 | for a matching cell at row r, column c: the session is a Lab iff r is at or past the detected lab row; its time is the text at column c of the lab time row (for labs) or of row 4 (for classes), or "Unknown" when that row or cell or text is missing; its room is column 0's text stripped, or "Unknown"; its course is the cleaned entry and holds no '(' and no '-' |
| Timetable.SortSessions | extract_timetable.py:107-111 | the output loop sorts each day's sessions and keeps the days in first-seen order |
| Timetable.SortDays | extract_timetable.py:107-111 | sorting keeps the number of days and each day's name in place |
| Timetable.CellsEmitSound | extract_timetable.py:77-87 | every session emitted from a row comes from a matching cell of that row |
| Timetable.CellsEmitComplete | extract_timetable.py:77-87 | every matching cell of a row emits its session |
| Timetable.RowsEmitSound | extract_timetable.py:69-87 | every session of a sheet comes from a matching cell at row 5 or below |
| Timetable.RowsEmitComplete | extract_timetable.py:69-87 | every matching cell at row 5 or below emits its session |
| Timetable.SheetsEmitSound | extract_timetable.py:47-87 | every session comes from a matching cell of a weekday sheet with at least six rows |
| Timetable.SheetsEmitComplete | extract_timetable.py:47-87 | every matching cell of such a sheet emits its session |
| Timetable.AppendSessionNew | extract_timetable.py:100-103 | a session for a day not yet listed opens a new day at the end |
| Timetable.AppendSessionOther | extract_timetable.py:100-103 | appending a session leaves the other days unchanged |
| Timetable.AppendSessionKnown | extract_timetable.py:100-103 | a session for a listed day is appended to that day's list |
| Timetable.AppendSessionDistinct | extract_timetable.py:100-101 | the grouping never lists a day twice |
| Timetable.DayFilterMember | extract_timetable.py:100-103 | a session is filed under a day iff it was emitted for that day |
| Timetable.GroupSpec | extract_timetable.py:99-103 | the grouping lists each day once, with exactly that day's sessions in emission order, and lists every day that has one |
| Timetable.GroupedFromSnoc | extract_timetable.py:99-103 | adding one session keeps the grouping faithful to the stream |
| Timetable.GroupEmpty | extract_timetable.py:115 | the grouping is empty iff no session was emitted |
| Timetable.NoClassesSpec | extract_timetable.py:44-115 | "No classes found" is returned iff the batch is found and no cell matches |
| Timetable.ScheduleSpec | extract_timetable.py:99-111 | a schedule lists distinct days, each sorted by (time, room, type, course), holding with multiplicity that day's matched sessions, and lists every day with a match |
| Timetable.SortDaysSessions | extract_timetable.py:107-111 | each day's output is sorted and a permutation of that day's sessions |
| Timetable.SortDaysDays | extract_timetable.py:107 | sorting keeps the days distinct and lists exactly the days with sessions |
| Timetable.ScheduleSessionsFromCells | extract_timetable.py:77-103 | a session is listed under a day iff some matching cell of that day's sheet produced it |
| Sorting.KeyLeTotal | extract_timetable.py:111 | tuple-of-strings comparison is total |
| Sorting.KeyLeTransitive | extract_timetable.py:111 | tuple-of-strings comparison is transitive |
| Sorting.InsertProperties | extract_timetable.py:111 | inserting into a sorted list keeps it sorted and adds exactly that element |
| Sorting.SortByProperties | extract_timetable.py:111 | the sort returns a sorted permutation of its input |
| Sorting.SortedPairwise | extract_timetable.py:111 | in a sorted list every earlier element is at most every later one |
| Strings.StrLeTotal | extract_timetable.py:111 | string comparison is total |
| Strings.StrLeTransitive | extract_timetable.py:111 | string comparison is transitive |
| Strings.StrLeAntisymmetric | extract_timetable.py:111 | strings each at most the other are equal |
| Strings.ContainsAt | extract_timetable.py:20 | substring test `t in s` holds iff `t` occurs at some position |
| Strings.TrimStartSpec | course_extractor.py:26 | left strip removes exactly the leading white space |
| Strings.TrimEndSpec | course_extractor.py:26 | right strip removes exactly the trailing white space |
| Strings.StripSpec | course_extractor.py:26 | `strip` gives the contiguous part of the text between its leading and trailing white space: everything before and after it is white space, and it starts and ends with a non-space |
| Strings.StripShortens | course_extractor.py:26 | `strip` never lengthens |
| Strings.StripIdempotent | course_extractor.py:144 | stripping twice is stripping once |
| Strings.TakeBefore | extract_timetable.py:89 | `split(c)[0]` is the longest prefix without `c`, the whole string when `c` is absent |
| Strings.TakeBeforeKeepsOut | extract_timetable.py:89 | taking the part before '-' keeps '(' out when it was already out |
| Strings.StripKeepsOut | extract_timetable.py:89 | stripping adds no character |
| Strings.SecondField | course_extractor.py:112-114 | `split(c)[1]` contains no `c` |
| Strings.SecondFieldSpec | course_extractor.py:112-114 | `split(c)[1]` is the text between the first `c` and the next `c` or the end |
| Strings.ReplaceAtFirst | course_extractor.py:144 | `replace` keeps the text before the first occurrence, puts the replacement in its place and goes on right after the occurrence |
| Strings.ReplaceAbsent | course_extractor.py:144 | removing an absent pattern changes nothing |
| Strings.RemoveShortens | course_extractor.py:144 | removing a pattern never lengthens, and shortens when it occurs |
| Strings.Lower | course_extractor.py:180 | `lower` maps each character in place and keeps the length |
| Catalog.ExtractDepartmentsAndBatches | course_extractor.py:5-36 | the two sets are the departments and batches picked from the header band |
| Catalog.DepartmentsSpec | course_extractor.py:25-30 | a department is exactly a stripped header text of 2–4 capital letters |
| Catalog.BatchesSpec | course_extractor.py:25-34 | a batch is exactly a stripped header text containing "BS-" |
| Courses.CollectHeaderValues | course_extractor.py:11-34 | the nested loop collects exactly the picked values of the header band |
| Courses.CollectRow | course_extractor.py:24-34 | the cell loop collects exactly the picked values of one row |
| Courses.CollectMembership | course_extractor.py:24-34 | a value is collected iff some cell yields it |
| Courses.HeaderValuesMembership | course_extractor.py:11-34 | a value is collected iff some header-band cell of a weekday sheet yields it |
| Catalog.ExtractAllCourses | course_extractor.py:38-102 | the catalogue built by the loops is `AllCourses`: the course cells of all weekday sheets, parsed, de-duplicated in scan order |
| Catalog.AllCoursesDistinct | course_extractor.py:97-100 | no two catalogue records share (name, department, section, batch) |
| Catalog.AllCoursesSound | course_extractor.py:77-95 | every record comes from a formatted cell of a key colour with non-empty text; its batch is the key's label, its day the sheet title, its entry the stripped text |
| Catalog.AllCoursesComplete | course_extractor.py:73-100 | every course cell is represented by a record with its identity |
| Courses.ScanCourseRows | course_extractor.py:73-100 | the row loop adds the rows' courses, de-duplicated, to the catalogue |
| Courses.ScanCourseRow | course_extractor.py:76-100 | the cell loop adds one row's courses, de-duplicated |
| Courses.ScanCourseCell | course_extractor.py:77-100 | one cell adds its course when it is a course cell |
| Courses.AddIfNew | course_extractor.py:97-100 | a course is appended unless one with its identity is already listed |
| Courses.DedupDistinct | course_extractor.py:97-100 | de-duplication leaves distinct identities |
| Courses.DedupCovers | course_extractor.py:97-100 | every offered course has a listed course with its identity |
| Courses.DedupSound | course_extractor.py:97-100 | every listed course is the first offered one with its identity |
| Courses.DedupComplete | course_extractor.py:97-100 | the first offered course of each identity is listed |
| Courses.DedupNewIsFirst | course_extractor.py:97-100 | a course taken in has no identity in common with any course offered earlier |
| Courses.CellsCoursesSound | course_extractor.py:76-95 | every course of a cell sequence comes from a course cell in it |
| Courses.CellsCoursesComplete | course_extractor.py:76-95 | every course cell yields its course |
| Courses.DataCellsSound | course_extractor.py:73 | the data cells are those at row index 5 and below |
| Courses.SheetsCoursesSound | course_extractor.py:65-95 | every offered course comes from a course cell of a scanned weekday sheet, at row 5 or below |
| Courses.SheetsCoursesComplete | course_extractor.py:65-95 | every such course cell offers its course |
| Courses.FindFirst | course_extractor.py:158-164 | the first index satisfying a test, or none when no element does |
| Courses.Existing | course_extractor.py:156-164 | the first listed course with the same (name, department, section, batch), or none exactly when there is none |
| Courses.FindExistingCourse | course_extractor.py:156-164 | the early-return loop returns that course |
| Catalog.ParseCourseEntry | course_extractor.py:104-154 | None for an empty entry; otherwise the fields of `ParseFields`, with the full entry and the batch passed through |
| Catalog.ParseSectionEmpty | course_extractor.py:123-146 | the section is empty iff none of the four patterns matches anywhere, and then the name is the cleaned-up entry |
| Catalog.ParseSectionFound | course_extractor.py:127-141 | a found section is one capital letter, the captured letter of the leftmost match of the first pattern that matches |
| Catalog.ParseNameSpec | course_extractor.py:139-146 | the parsed name is stripped and no longer than the entry |
| Catalog.NameCanKeepPattern | course_extractor.py:140 | removing the matches of a pattern can create a new match: "((CS-A)CS-A))" parses to name "(CS-A))", which still matches `(CS-X)` |
| Catalog.SearchFrom | course_extractor.py:136 | the leftmost match of a pattern from a position, or none when there is none |
| Catalog.SearchSpec | course_extractor.py:136 | `re.search` finds the leftmost match, and finds none only when no position matches |
| Catalog.RemoveFromSpec | course_extractor.py:140 | `re.sub` with "" leaves the text unchanged without a match and removes at least one match's length otherwise |
| Catalog.RemoveFromStep | course_extractor.py:140 | `re.sub` with "" keeps the text up to the leftmost match, drops the match and goes on right after it |
| Catalog.RemoveAllSpec | course_extractor.py:140 | the same, from the start of the text |
| Catalog.FirstHitFrom | course_extractor.py:135-141 | the first pattern, in list order, that matches, with its leftmost match position |
| Catalog.FirstHitAt | course_extractor.py:135-141 | a pattern that matches, when no earlier one does, is the one chosen |
| Courses.WordRun | course_extractor.py:117 | the length of the maximal run of word characters at the start |
| Courses.TokensSound | course_extractor.py:117 | each token is 2–4 capital letters standing as a whole word |
| Courses.TokensComplete | course_extractor.py:117 | every whole word of 2–4 capital letters is a token |
| Courses.FirstNonBSIsLeftmost | course_extractor.py:117-121 | the first token other than "BS" stands as a whole word, and every whole 2–4-capital word to its left is "BS" |
| Courses.FirstNonBS | course_extractor.py:118-121 | the first token other than "BS", or none when all tokens are "BS" |
| Courses.DepartmentFromDash | course_extractor.py:111-114 | with a '-' in the batch, the department is the field between the first and the second '-' |
| Courses.DepartmentFromWords | course_extractor.py:115-121 | without a '-', the department is "" iff every whole 2–4-capital word of the batch is "BS"; otherwise it is such a word other than "BS" and every such word to its left is "BS" |
| Courses.DeriveDepartment | course_extractor.py:109-121 | the branching code computes `DepartmentOf` |
| Courses.CleanName | course_extractor.py:143-146 | the cleanup statements compute `CleanupName` |
| Courses.CleanupNameSpec | course_extractor.py:143-146 | the cleaned name is stripped and no longer than before |
| Courses.CleanupNameKeepsClean | course_extractor.py:143-146 | cleanup leaves a stripped name without "()" and without a trailing '-' unchanged |
| Courses.Keep | course_extractor.py:172 | a list comprehension keeps exactly the elements passing its test |
| Courses.KeepAppend | course_extractor.py:172 | filtering distributes over concatenation |
| Courses.KeepKeep | course_extractor.py:172-176 | two successive filters are one filter by the conjunction |
| Courses.KeepAll | course_extractor.py:172 | a filter every element passes changes nothing |
| Courses.KeepSame | course_extractor.py:172 | filters by equivalent tests agree |
| Courses.SearchFilterSpec | course_extractor.py:168-184 | the three successive filters keep exactly the courses matching every non-empty filter, in input order |
| Catalog.SearchCoursesSpec | course_extractor.py:166-189 | the search returns a permutation of the matching courses, sorted by (lowercased name, department, section); a course is returned iff it is in the input and matches |
| SimpleCatalog.ExtractDepartmentsAndBatchesSimple | course_extractor_simple.py:4-42 | the two sets are those picked from the "BS" cells of the header band |
| SimpleCatalog.SimpleDepartmentsFromBatches | course_extractor_simple.py:35-40 | a department is exactly the second '-' field of a collected batch |
| SimpleCatalog.SimpleDepartmentSound | course_extractor_simple.py:35-40 | every department comes from a collected batch |
| SimpleCatalog.SimpleDepartmentComplete | course_extractor_simple.py:35-40 | every collected batch contributes its department |
| SimpleCatalog.SimpleBatchesSpec | course_extractor_simple.py:26-36 | a batch is exactly the stripped label of a header cell containing "BS", when it contains "BS-" |
| SimpleCatalog.MarkerHasDash | course_extractor_simple.py:35-38 | a label containing "BS-" always has a '-' to split on |
| SimpleCatalog.ExtractAllCoursesSimple | course_extractor_simple.py:44-113 | as written: only the last weekday sheet's rows are scanned, every course is dated with the last sheet's title, and no weekday sheet gives no result |
| SimpleCatalog.LastWeekdayRows | course_extractor_simple.py:73-83 | the rows left in the loop variable: none iff no sheet is a weekday sheet |
| SimpleCatalog.LastWeekdayRowsAt | course_extractor_simple.py:73-83 | those are the rows of the last weekday sheet |
| SimpleCatalog.AsWrittenMislabelsDay | course_extractor_simple.py:73-106 | when the list ends with a non-weekday sheet, a course from the last weekday sheet is dated with that sheet's non-weekday title |
| SimpleCatalog.OfferedFromLastWeekday | course_extractor_simple.py:83-111 | a course cell on a sheet yields a course when that sheet's rows are scanned |
| SimpleCatalog.SimpleCoursesDistinct | course_extractor_simple.py:108-111 | no two records of the corrected or the as-written catalogue share (name, department, section, batch) |
| SimpleCatalog.SimpleCoursesSound | course_extractor_simple.py:73-111 | corrected catalogue: every record is dated with a weekday and comes from a course cell of its sheet |
| SimpleCatalog.SimpleCoursesComplete | course_extractor_simple.py:73-111 | corrected catalogue: every course cell of every weekday sheet with six or more rows is represented |
| SimpleCatalog.ParseCourseEntrySimple | course_extractor_simple.py:115-170 | None for an empty entry; otherwise the fields of `ParseSimpleFields` |
| SimpleCatalog.FirstLetterHit | course_extractor_simple.py:141-157 | the smallest letter with an occurring pattern and, for it, the first pattern in list order; none when no letter has one |
| SimpleCatalog.FirstLetterHitAt | course_extractor_simple.py:141-157 | a letter and pattern that occur, with no earlier letter or pattern occurring, are the ones chosen |
| SimpleCatalog.ParseSimpleSectionSpec | course_extractor_simple.py:135-157 | the section is empty iff no pattern of any letter occurs; otherwise it is the smallest letter with one |
| SimpleCatalog.ParsersDisagree | course_extractor_simple.py:141-157 | letter order beats pattern order: on "X-B (A)" this parser picks section A, the regular-expression parser picks B |
| SimpleCatalog.LiteralExample | course_extractor_simple.py:141-157 | on "X-B (A)" the first hit is letter A with the pattern "(A)" |
| SimpleCatalog.RegexExample | course_extractor.py:135-141 | on "X-B (A)" the first matching pattern is `-X\b`, at position 1 |
| SimpleCatalog.SearchCoursesSimple | course_extractor_simple.py:182-202 | the courses matching every non-empty filter, in their original order, unsorted |
| Selection.FirstYearFrom | user_preferences.py:14 | the leftmost position from a start at which "20" and two digits occur |
| Selection.YearOf | user_preferences.py:14-15 | the first "20dd" of the batch, or the whole batch when there is none |
| Selection.Split | user_preferences.py:17 | splitting always gives at least one field |
| Selection.SplitJoinWords | user_preferences.py:17 | splitting the space-joined words on ' ' gives the words back |
| Selection.JoinWordsEmpty | user_preferences.py:16-17 | joining non-empty words is empty iff there are no words |
| Selection.DisplayEmpty | user_preferences.py:9-17 | the display string is empty iff name, department, section and year are all empty |
| Selection.DisplayWords | user_preferences.py:9-17 | without inner spaces, the display string splits back into the non-empty parts in order |
| Selection.SameIdentitySameKey | user_preferences.py:39 | courses with equal (name, department, section, batch) have equal keys |
| Selection.KeyCollision | user_preferences.py:39-45 | two courses with different identities can share a key, and then the second is refused |
| Selection.AfterRemove | user_preferences.py:55-62 | removal deletes exactly the first entry with the key, keeping the others in order; without one it changes nothing |
| Selection.AddKeepsDistinct | user_preferences.py:41-48 | adding keeps the selected keys distinct |
| Selection.AddSelects | user_preferences.py:41-49 | after adding, the course's key is selected and nothing was lost |
| Selection.RemoveAfterAdd | user_preferences.py:51-62 | removing a course just added restores the selection |
| Selection.RemoveUnselects | user_preferences.py:55-62 | with distinct keys, after removal the key is no longer selected and keys stay distinct |
| Selection.ImageMembership | user_preferences.py:116-118 | a value is in the set comprehension iff some selected course has it |
| Selection.ImageBound | user_preferences.py:116-118 | such a set has no more elements than the selection |
| Selection.SummarySpec | user_preferences.py:106-125 | the total is the number selected, and each set holds exactly the departments / batches / sections of the selection |
| Selection.SummaryAfterAdd | user_preferences.py:36-49 | an accepted add raises the total by one and adds the course's fields to the sets; a refused one changes nothing |
| Selection.SummaryAfterRemove | user_preferences.py:51-62 | a successful removal lowers the total by one; otherwise it is unchanged |
| Selection.CourseSelection.constructor | user_preferences.py:19-22 | a new selection is empty |
| Selection.CourseSelection.Add | user_preferences.py:36-49 | returns False and changes nothing when the key is selected; otherwise appends the course and returns True |
| Selection.CourseSelection.Remove | user_preferences.py:51-62 | returns True iff the key was selected, and removes exactly its first entry |
| Selection.CourseSelection.Clear | user_preferences.py:64-67 | the selection is empty afterwards |
| Selection.CourseSelection.IsSelected | user_preferences.py:95-104 | true iff some selected course has the same key |
| Selection.CourseSelection.Summary | user_preferences.py:106-125 | the summary of the current selection, zero and empty sets when nothing is selected |

## Left out

- The web interface (`app.py`) and the spreadsheet client (`google_sheets.py`) are not part of this model. They do network I/O with credentials. The spreadsheet reaches the model as a value.
- The colour fingerprint is an opaque string on each cell. The floating-point formatting of the red/green/blue components into that string is not modelled.
- The Markdown and emoji layout of a schedule is not modelled. The model returns the grouped, sorted sessions per day. The two message texts are modelled exactly (`Timetable.Message`).
- The nested-dictionary access to rows and cells, and the `isinstance` checks, become typed datatypes. A cell without `effectiveFormat` is a cell whose `hasFormat` is false.
- Timetable.GetTimetable: a row among 41–44 that carries an explicit empty `values` list makes the source raise an IndexError at the "Lab" probe (extract_timetable.py:62). The model reads such a row like a row without values: it holds no "Lab". A row with no `values` key gets the default `[{}]` in the source and is probed the same way.
- The notifications (`st.warning`, `st.success`), the session-state initialisation, and the getters and setters of search filters and saved results are left out. They are user-interface side effects. The selection list is the `selected` field of `CourseSelection`.
- Catalog.SearchCoursesSpec: states that the result is sorted and a permutation of the matches. It does not state the stability of Python's sort among courses with equal (lowercased name, department, section).
- Strings.Lower: maps ASCII letters only. Python's `lower()` also maps other Unicode letters.
- Courses.Tokens: the word-character class of `\b` is ASCII letters, digits and `_`. Python's `\w` also includes other Unicode word characters.
- Selection.YearOf: `\d` is taken as the ASCII digits 0–9. Python also accepts other Unicode decimal digits.
- SimpleCatalog.ExtractAllCoursesSimple: when no sheet is a weekday sheet, the source fails with an unbound-variable error. The model returns `None`.
- The two test scripts exercise functions that are absent from the modelled files, so they give no behaviour to model.
- Embedded "HH:MM" times, a room-keyword fallback for the room column, room-text cleanup, a custom timetable for selected courses and lab/lecture de-duplication are not in the modelled files, so none is modelled.
- A cleaned course name can still contain a section pattern: `Catalog.NameCanKeepPattern` shows one, so the model claims no such absence.
- Catalog.MatchesAt: the `\b` after `-X` takes word characters to be ASCII letters, digits and `_`. Python's `\w` also counts other Unicode letters and digits, so on "X-Bé" Python finds no match where the model finds one.
- The selection key joins the four fields with "_", so it is weaker than the field tuple (`Selection.KeyCollision`). The model keeps the source's key.

## Findings

| source | as written | input that shows it | evidently intended | confidence | as-written member | corrected member |
|---|---|---|---|---|---|---|
| course_extractor_simple.py:83-111 | the row loop is dedented out of the sheet loop. It scans only the grid left over from the last weekday sheet, even one with fewer than six rows, and dates every course with the title of the last sheet in the list | sheets Monday (with a course cell) then "Notes": the course is dated "Notes", and no other weekday is scanned | scan every weekday sheet with at least six rows and date each course with its own sheet's title, as `extract_all_courses` does | not executed | SimpleCatalog.AsWrittenMislabelsDay | SimpleCatalog.SimpleCourses |
