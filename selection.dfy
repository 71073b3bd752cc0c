/**
 * The user's course selection (user_preferences.py): the list of selected
 * courses kept in the session state, with key-based add, remove, membership
 * test and clear, the summary of the selection, and the one-line display
 * string of a course.
 */
module Selection {
  import opened Wrappers
  import opened Strings
  import opened Courses

  // ---------------------------------------------------------------------------
  // Display string

  /** Position `j` of `b` starts a year: "20" followed by two digits. */
  predicate YearAt(b: string, j: int) {
    0 <= j && j + 4 <= |b| && b[j] == '2' && b[j + 1] == '0' && IsDigit(b[j + 2]) && IsDigit(b[j + 3])
  }

  /** The leftmost year position at or after `i`. */
  function FirstYearFrom(b: string, i: nat): (r: Option<nat>)
    ensures r.None? ==> forall j :: i <= j ==> !YearAt(b, j)
    ensures r.Some? ==> i <= r.value && YearAt(b, r.value) && forall j :: i <= j < r.value ==> !YearAt(b, j)
    decreases |b| - i
  {
    if |b| < i + 4 then None
    else if YearAt(b, i) then Some(i)
    else FirstYearFrom(b, i + 1)
  }

  /** `re.search(r"(20\d{2})", b)`'s group, or all of `b` when there is no match. */
  function YearOf(b: string): (r: string)
    ensures (forall j :: !YearAt(b, j)) ==> r == b
    ensures (exists j :: YearAt(b, j)) ==>
      exists j :: YearAt(b, j) && (forall j' :: 0 <= j' < j ==> !YearAt(b, j')) && r == b[j..j + 4]
  {
    match FirstYearFrom(b, 0)
    case None => b
    case Some(j) => b[j..j + 4]
  }

  /** The four candidate parts of the display string, before empty ones are dropped. */
  function Parts(c: Course): seq<string> {
    [Strip(c.name), Strip(c.department), Strip(c.section), YearOf(Strip(c.batch))]
  }

  predicate Present(part: string) {
    part != ""
  }

  /** `" ".join(parts)` */
  function JoinWords(parts: seq<string>): string {
    if parts == [] then ""
    else if |parts| == 1 then parts[0]
    else parts[0] + " " + JoinWords(parts[1..])
  }

  /** `s.split(sep)` */
  function Split(s: string, sep: char): (r: seq<string>)
    ensures r != []
    decreases |s|
  {
    if sep !in s then [s]
    else
      var head := TakeBefore(s, sep);
      [head] + Split(s[|head| + 1..], sep)
  }

  /** `format_course_display`: the non-empty parts joined by single spaces. */
  function FormatCourseDisplay(c: Course): string {
    JoinWords(Keep(Parts(c), Present))
  }

  /** Splitting `a + [sep] + b` at its first `sep` gives back `a` when `a` has none. */
  lemma TakeBeforeJoined(a: string, sep: char, b: string)
    requires sep !in a
    ensures TakeBefore(a + [sep] + b, sep) == a
  {
    var s := a + [sep] + b;
    var r := TakeBefore(s, sep);
    assert |r| == |a| by {
      assert forall k :: 0 <= k < |a| ==> s[k] == a[k];
      assert s[|a|] == sep;
    }
  }

  /** Splitting at spaces undoes joining with spaces, when no part has a space. */
  lemma {:induction false} SplitJoinWords(parts: seq<string>)
    requires parts != []
    requires forall p :: p in parts ==> ' ' !in p
    ensures Split(JoinWords(parts), ' ') == parts
  {
    if |parts| > 1 {
      var rest := parts[1..];
      var tail := JoinWords(rest);
      var s := parts[0] + " " + tail;
      assert s == parts[0] + [' '] + tail;
      TakeBeforeJoined(parts[0], ' ', tail);
      assert s[|parts[0]| + 1..] == tail;
      assert ' ' in s by {
        assert s[|parts[0]|] == ' ';
      }
      forall p | p in rest ensures ' ' !in p {
        assert p in parts;
      }
      SplitJoinWords(rest);
      assert parts == [parts[0]] + rest;
    }
  }

  /** Joining non-empty words gives the empty string only for no words. */
  lemma {:induction false} JoinWordsEmpty(parts: seq<string>)
    requires forall p :: p in parts ==> p != ""
    ensures JoinWords(parts) == "" <==> parts == []
  {
    if |parts| > 1 {
      assert parts[0] in parts;
      assert |JoinWords(parts)| >= |parts[0]|;
    } else if |parts| == 1 {
      assert parts[0] in parts;
    }
  }

  /** The display string is empty exactly when all four parts are. */
  lemma DisplayEmpty(c: Course)
    ensures FormatCourseDisplay(c) == "" <==> forall p :: p in Parts(c) ==> p == ""
  {
    var kept := Keep(Parts(c), Present);
    JoinWordsEmpty(kept);
    if kept == [] {
      forall p | p in Parts(c) ensures p == "" {
        assert p !in kept;
      }
    } else {
      assert kept[0] in Parts(c) && kept[0] != "";
    }
  }

  /**
   * When no part holds a space, splitting the display string at spaces gives
   * back exactly the non-empty parts, in the order name, department, section,
   * year.
   */
  lemma DisplayWords(c: Course)
    requires exists p :: p in Parts(c) && p != ""
    requires forall p :: p in Parts(c) ==> ' ' !in p
    ensures Split(FormatCourseDisplay(c), ' ') == Keep(Parts(c), Present)
  {
    var kept := Keep(Parts(c), Present);
    var p :| p in Parts(c) && p != "";
    assert p in kept;
    SplitJoinWords(kept);
  }

  // ---------------------------------------------------------------------------
  // Selection keys

  /** The key `f"{name}_{department}_{section}_{batch}"` that selected courses are compared by. */
  function Key(c: Course): string {
    c.name + "_" + c.department + "_" + c.section + "_" + c.batch
  }

  function KeyIs(key: string): Course -> bool {
    (c: Course) => Key(c) == key
  }

  predicate HasKey(s: seq<Course>, key: string) {
    exists i :: 0 <= i < |s| && Key(s[i]) == key
  }

  /** No two entries of `s` have the same key. */
  predicate DistinctKeys(s: seq<Course>) {
    forall i, j :: 0 <= i < j < |s| ==> Key(s[i]) != Key(s[j])
  }

  /** Courses with the same identity have the same key. */
  lemma SameIdentitySameKey(a: Course, b: Course)
    requires Identity(a) == Identity(b)
    ensures Key(a) == Key(b)
  {
  }

  /**
   * The key does not tell apart every pair of identities: "a_b" in department
   * "c" and "a" in department "b_c" get the same key, so adding the second to a
   * selection holding the first is refused.
   */
  lemma KeyCollision()
    ensures var x := Course("a_b", "c", "A", "BS-CS-1", "", "", "");
      var y := Course("a", "b_c", "A", "BS-CS-1", "", "", "");
      Identity(x) != Identity(y) && Key(x) == Key(y) && AfterAdd([x], y) == [x]
  {
    var x := Course("a_b", "c", "A", "BS-CS-1", "", "", "");
    var y := Course("a", "b_c", "A", "BS-CS-1", "", "", "");
    assert Key(x) == "a_b_c_A_BS-CS-1";
    assert Key(y) == "a_b_c_A_BS-CS-1";
    assert Identity(x).0 != Identity(y).0 by {
      assert |x.name| != |y.name|;
    }
    assert HasKey([x], Key(y)) by {
      assert Key([x][0]) == Key(y);
    }
  }

  // ---------------------------------------------------------------------------
  // The selection as a value

  /** The list after `add_course_to_selection(c)`. */
  function AfterAdd(s: seq<Course>, c: Course): seq<Course> {
    if HasKey(s, Key(c)) then s else s + [c]
  }

  /** The list after `remove_course_from_selection` of a course with key `key`. */
  function AfterRemove(s: seq<Course>, key: string): (r: seq<Course>)
    ensures !HasKey(s, key) ==> r == s
    ensures HasKey(s, key) ==> |r| == |s| - 1
    ensures HasKey(s, key) ==>
      exists i :: 0 <= i < |s| && Key(s[i]) == key && (forall j :: 0 <= j < i ==> Key(s[j]) != key)
        && r == s[..i] + s[i + 1..]
  {
    var f := FindFirst(s, KeyIs(key));
    if f.None? then
      assert !HasKey(s, key) by {
        forall i | 0 <= i < |s| ensures Key(s[i]) != key {
          assert !KeyIs(key)(s[i]);
        }
      }
      s
    else
      var i := f.value;
      assert Key(s[i]) == key by {
        assert KeyIs(key)(s[i]);
      }
      assert forall j :: 0 <= j < i ==> Key(s[j]) != key by {
        forall j | 0 <= j < i ensures Key(s[j]) != key {
          assert !KeyIs(key)(s[j]);
        }
      }
      s[..i] + s[i + 1..]
  }

  /** Adding keeps the keys of the selection distinct. */
  lemma AddKeepsDistinct(s: seq<Course>, c: Course)
    requires DistinctKeys(s)
    ensures DistinctKeys(AfterAdd(s, c))
  {
    if !HasKey(s, Key(c)) {
      var t := s + [c];
      forall i, j | 0 <= i < j < |t| ensures Key(t[i]) != Key(t[j]) {
        if j == |s| {
          assert Key(s[i]) != Key(c);
        }
      }
    }
  }

  /** After adding, the course is selected, and nothing that was selected is lost. */
  lemma AddSelects(s: seq<Course>, c: Course)
    ensures HasKey(AfterAdd(s, c), Key(c))
    ensures forall x :: x in s ==> x in AfterAdd(s, c)
  {
    if !HasKey(s, Key(c)) {
      assert (s + [c])[|s|] == c;
    }
  }

  /** Removing a course just added restores the selection. */
  lemma RemoveAfterAdd(s: seq<Course>, c: Course)
    requires !HasKey(s, Key(c))
    ensures AfterRemove(AfterAdd(s, c), Key(c)) == s
  {
    var t := s + [c];
    assert HasKey(t, Key(c)) by {
      assert t[|s|] == c;
    }
    var i :| 0 <= i < |t| && Key(t[i]) == Key(c) && (forall j :: 0 <= j < i ==> Key(t[j]) != Key(c))
      && AfterRemove(t, Key(c)) == t[..i] + t[i + 1..];
    assert t[..|s|] == s;
  }

  /** Entry `k` of `s` with entry `i` removed is entry `k` or `k + 1` of `s`. */
  lemma RemovedEntry(s: seq<Course>, i: nat, k: nat)
    requires i < |s| && k < |s| - 1
    ensures (s[..i] + s[i + 1..])[k] == if k < i then s[k] else s[k + 1]
  {
  }

  /** With distinct keys, removing a key leaves no entry with that key, and keys stay distinct. */
  lemma RemoveUnselects(s: seq<Course>, key: string)
    requires DistinctKeys(s)
    ensures !HasKey(AfterRemove(s, key), key)
    ensures DistinctKeys(AfterRemove(s, key))
  {
    if HasKey(s, key) {
      var i :| 0 <= i < |s| && Key(s[i]) == key && (forall j :: 0 <= j < i ==> Key(s[j]) != key)
        && AfterRemove(s, key) == s[..i] + s[i + 1..];
      var r := s[..i] + s[i + 1..];
      forall k | 0 <= k < |r| ensures Key(r[k]) != key {
        RemovedEntry(s, i, k);
      }
      forall a, b | 0 <= a < b < |r| ensures Key(r[a]) != Key(r[b]) {
        RemovedEntry(s, i, a);
        RemovedEntry(s, i, b);
      }
    }
  }

  // ---------------------------------------------------------------------------
  // Summary

  datatype SelectionSummary = SelectionSummary(total: nat, departments: set<string>,
                                               batches: set<string>, sections: set<string>)

  function DepartmentField(c: Course): string { c.department }
  function BatchField(c: Course): string { c.batch }
  function SectionField(c: Course): string { c.section }

  /** `set(f(c) for c in s)` */
  function Image(s: seq<Course>, f: Course -> string): set<string> {
    if s == [] then {} else Image(s[..|s| - 1], f) + {f(s[|s| - 1])}
  }

  lemma {:induction false} ImageMembership(s: seq<Course>, f: Course -> string, v: string)
    ensures v in Image(s, f) <==> exists i :: 0 <= i < |s| && f(s[i]) == v
  {
    if s != [] {
      var init := s[..|s| - 1];
      ImageMembership(init, f, v);
      if exists i :: 0 <= i < |s| && f(s[i]) == v {
        var i :| 0 <= i < |s| && f(s[i]) == v;
        if i < |init| {
          assert init[i] == s[i];
        }
      }
      if v in Image(init, f) {
        var i :| 0 <= i < |init| && f(init[i]) == v;
        assert s[i] == init[i];
      }
    }
  }

  /** There are never more distinct values than selected courses. */
  lemma {:induction false} ImageBound(s: seq<Course>, f: Course -> string)
    ensures |Image(s, f)| <= |s|
  {
    if s != [] {
      ImageBound(s[..|s| - 1], f);
    }
  }

  /** `get_selection_summary` on the list `s`. */
  function SummaryOf(s: seq<Course>): SelectionSummary {
    SelectionSummary(|s|, Image(s, DepartmentField), Image(s, BatchField), Image(s, SectionField))
  }

  /**
   * The summary counts the courses, and each of its sets holds exactly the
   * departments, batches or sections of the selected courses, never more of
   * them than there are courses.
   */
  lemma SummarySpec(s: seq<Course>, v: string)
    ensures var r := SummaryOf(s);
      && r.total == |s|
      && (v in r.departments <==> exists i :: 0 <= i < |s| && s[i].department == v)
      && (v in r.batches <==> exists i :: 0 <= i < |s| && s[i].batch == v)
      && (v in r.sections <==> exists i :: 0 <= i < |s| && s[i].section == v)
      && |r.departments| <= r.total && |r.batches| <= r.total && |r.sections| <= r.total
  {
    ImageMembership(s, DepartmentField, v);
    ImageMembership(s, BatchField, v);
    ImageMembership(s, SectionField, v);
    ImageBound(s, DepartmentField);
    ImageBound(s, BatchField);
    ImageBound(s, SectionField);
  }

  /** An accepted add counts one more course and adds its department, batch and section. */
  lemma SummaryAfterAdd(s: seq<Course>, c: Course)
    ensures var before := SummaryOf(s);
      var after := SummaryOf(AfterAdd(s, c));
      if HasKey(s, Key(c)) then after == before
      else after == SelectionSummary(before.total + 1, before.departments + {c.department},
                                     before.batches + {c.batch}, before.sections + {c.section})
  {
    if !HasKey(s, Key(c)) {
      assert (s + [c])[..|s|] == s;
    }
  }

  /** An accepted remove counts one course fewer. */
  lemma SummaryAfterRemove(s: seq<Course>, key: string)
    ensures SummaryOf(AfterRemove(s, key)).total == if HasKey(s, key) then |s| - 1 else |s|
  {
  }

  // ---------------------------------------------------------------------------
  // The selection in the session state

  /** `st.session_state.selected_courses` and the operations on it. */
  class CourseSelection {
    var selected: seq<Course>

    /** `initialize_session_state`: the selection starts empty. */
    constructor()
      ensures selected == []
    {
      selected := [];
    }

    /** `add_course_to_selection`: refused when a course with the same key is selected. */
    method Add(c: Course) returns (added: bool)
      modifies this
      ensures added <==> !HasKey(old(selected), Key(c))
      ensures selected == AfterAdd(old(selected), c)
    {
      var key := Key(c);
      for i := 0 to |selected|
        invariant forall j :: 0 <= j < i ==> Key(selected[j]) != key
      {
        if Key(selected[i]) == key {
          return false;
        }
      }
      selected := selected + [c];
      return true;
    }

    /** `remove_course_from_selection`: drops the first course with the same key. */
    method Remove(c: Course) returns (removed: bool)
      modifies this
      ensures removed <==> HasKey(old(selected), Key(c))
      ensures selected == AfterRemove(old(selected), Key(c))
    {
      var key := Key(c);
      var s := selected;
      for i := 0 to |s|
        invariant selected == s
        invariant forall j :: 0 <= j < i ==> Key(s[j]) != key
      {
        if Key(s[i]) == key {
          assert FindFirst(s, KeyIs(key)) == Some(i) by {
            assert KeyIs(key)(s[i]);
          }
          selected := s[..i] + s[i + 1..];
          return true;
        }
      }
      return false;
    }

    /** `clear_all_selections` */
    method Clear()
      modifies this
      ensures selected == []
    {
      selected := [];
    }

    /** `is_course_selected`: some selected course has the same key. */
    method IsSelected(c: Course) returns (b: bool)
      ensures b <==> HasKey(selected, Key(c))
    {
      var key := Key(c);
      for i := 0 to |selected|
        invariant forall j :: 0 <= j < i ==> Key(selected[j]) != key
      {
        if Key(selected[i]) == key {
          return true;
        }
      }
      return false;
    }

    /** `get_selection_summary`: an empty selection has a zero count and empty sets. */
    function Summary(): (r: SelectionSummary)
      reads this
      ensures r == SummaryOf(selected)
      ensures selected == [] ==> r == SelectionSummary(0, {}, {}, {})
    {
      if selected == [] then SelectionSummary(0, {}, {}, {})
      else SummaryOf(selected)
    }
  }
}
