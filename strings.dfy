/**
 * The Python `str` operations the timetable code relies on: `strip`, `in`,
 * `split(c)[0]`, `replace`, `endswith`, `lower` and the code-point ordering that
 * `sorted` uses on strings.
 */
module Strings {

  /** Characters for which Python's `str.isspace()` holds; `strip()` and `\s` use this set. */
  predicate IsSpace(c: char) {
    c == ' ' || c == '\t' || c == '\n' || c == '\r' || c == '\U{000B}' || c == '\U{000C}'
    || ('\U{001C}' <= c <= '\U{001F}') || c == '\U{0085}' || c == '\U{00A0}' || c == '\U{1680}'
    || ('\U{2000}' <= c <= '\U{200A}') || c == '\U{2028}' || c == '\U{2029}' || c == '\U{202F}'
    || c == '\U{205F}' || c == '\U{3000}'
  }

  /** `[A-Z]` */
  predicate IsUpper(c: char) { 'A' <= c <= 'Z' }

  /** `\d`, restricted to ASCII digits. */
  predicate IsDigit(c: char) { '0' <= c <= '9' }

  /** `\w`, restricted to ASCII letters, digits and the underscore. */
  predicate IsWordChar(c: char) {
    IsUpper(c) || ('a' <= c <= 'z') || IsDigit(c) || c == '_'
  }

  /** `t` occurs in `s` starting at index `i`. */
  predicate IsAt(s: string, t: string, i: nat) {
    i + |t| <= |s| && s[i..i + |t|] == t
  }

  /** Python's `t in s`: `t` starts at the front of `s` or somewhere in its tail. */
  predicate Contains(s: string, t: string)
    decreases |s|
  {
    |t| <= |s| && (s[..|t|] == t || (s != [] && Contains(s[1..], t)))
  }

  /** `t in s` exactly when `t` occurs at some index of `s`. */
  lemma {:induction false} ContainsAt(s: string, t: string)
    ensures Contains(s, t) <==> exists i: nat | i <= |s| :: IsAt(s, t, i)
    decreases |s|
  {
    if |t| <= |s| && s[..|t|] == t {
      assert IsAt(s, t, 0);
    }
    if s != [] {
      ContainsAt(s[1..], t);
      if Contains(s[1..], t) {
        var i: nat :| i <= |s[1..]| && IsAt(s[1..], t, i);
        assert s[i + 1..i + 1 + |t|] == s[1..][i..i + |t|];
        assert IsAt(s, t, i + 1);
      }
      if exists i: nat | i <= |s| :: IsAt(s, t, i) {
        var i: nat :| i <= |s| && IsAt(s, t, i);
        if i > 0 {
          assert s[1..][i - 1..i - 1 + |t|] == s[i..i + |t|];
          assert IsAt(s[1..], t, i - 1);
        }
      }
    }
  }

  /** `s.lstrip()` */
  function TrimStart(s: string): string {
    if s != [] && IsSpace(s[0]) then TrimStart(s[1..]) else s
  }

  /** `s.lstrip()` drops exactly the leading whitespace. */
  lemma {:induction false} TrimStartSpec(s: string)
    ensures var r := TrimStart(s);
      && |r| <= |s| && r == s[|s| - |r|..]
      && (forall i :: 0 <= i < |s| - |r| ==> IsSpace(s[i]))
      && (r != [] ==> !IsSpace(r[0]))
  {
    if s != [] && IsSpace(s[0]) {
      TrimStartSpec(s[1..]);
      var r := TrimStart(s);
      forall i | 0 <= i < |s| - |r| ensures IsSpace(s[i]) {
        if i > 0 { assert s[i] == s[1..][i - 1]; }
      }
    }
  }

  /** `s.rstrip()` */
  function TrimEnd(s: string): string {
    if s != [] && IsSpace(s[|s| - 1]) then TrimEnd(s[..|s| - 1]) else s
  }

  /** `s.rstrip()` drops exactly the trailing whitespace. */
  lemma {:induction false} TrimEndSpec(s: string)
    ensures var r := TrimEnd(s);
      && |r| <= |s| && r == s[..|r|]
      && (forall i :: |r| <= i < |s| ==> IsSpace(s[i]))
      && (r != [] ==> !IsSpace(r[|r| - 1]))
  {
    if s != [] && IsSpace(s[|s| - 1]) {
      TrimEndSpec(s[..|s| - 1]);
      var r := TrimEnd(s);
      forall i | |r| <= i < |s| ensures IsSpace(s[i]) {
        if i < |s| - 1 { assert s[i] == s[..|s| - 1][i]; }
      }
    }
  }

  /** `s.strip()` */
  function Strip(s: string): string {
    TrimEnd(TrimStart(s))
  }

  /**
   * `s.strip()` is the infix of `s` left once the leading and the trailing
   * whitespace are dropped: it starts and ends with a non-space.
   */
  lemma StripSpec(s: string)
    ensures var r := Strip(s);
      var a := |s| - |TrimStart(s)|;
      && |r| <= |s|
      && 0 <= a && a + |r| <= |s| && r == s[a..a + |r|]
      && (forall i :: 0 <= i < a ==> IsSpace(s[i]))
      && (forall i :: a + |r| <= i < |s| ==> IsSpace(s[i]))
      && (r != [] ==> !IsSpace(r[0]) && !IsSpace(r[|r| - 1]))
      && ((forall i :: 0 <= i < |s| ==> IsSpace(s[i])) <==> r == [])
      && (forall i :: 0 <= i < |r| ==> r[i] in s)
  {
    var t := TrimStart(s);
    var r := TrimEnd(t);
    var a := |s| - |t|;
    TrimStartSpec(s);
    TrimEndSpec(t);
    assert forall i :: 0 <= i < |r| ==> r[i] == s[a + i];
    forall i | a + |r| <= i < |s| ensures IsSpace(s[i]) {
      assert s[i] == t[i - a];
    }
    if r != [] {
      assert r[0] == t[0];
    }
    if t != [] {
      assert t[0] == s[a];
    }
  }

  lemma StripShortens(s: string)
    ensures |Strip(s)| <= |s|
  {
    TrimStartSpec(s);
    TrimEndSpec(TrimStart(s));
  }

  /** Stripping a string that is already stripped changes nothing. */
  lemma StripIdempotent(s: string)
    ensures Strip(Strip(s)) == Strip(s)
  {
    var r := Strip(s);
    StripSpec(s);
    if r != [] {
      assert TrimStart(r) == r;
      assert TrimEnd(r) == r;
    }
  }

  /** `s.split(c)[0]`: everything before the first `c`, or all of `s`. */
  function TakeBefore(s: string, c: char): (r: string)
    ensures |r| <= |s| && r == s[..|r|]
    ensures c !in r
    ensures |r| < |s| ==> s[|r|] == c
  {
    if s == [] || s[0] == c then [] else [s[0]] + TakeBefore(s[1..], c)
  }

  /** Taking a prefix keeps a character out. */
  lemma TakeBeforeKeepsOut(s: string, c: char, ch: char)
    requires ch !in s
    ensures ch !in TakeBefore(s, c)
  {
    var r := TakeBefore(s, c);
    assert forall i :: 0 <= i < |r| ==> r[i] == s[i];
  }

  /** Stripping keeps a character out. */
  lemma StripKeepsOut(s: string, ch: char)
    requires ch !in s
    ensures ch !in Strip(s)
  {
    StripSpec(s);
  }

  /** `s.split(c)[1]`, for a string that contains `c`: the text between the first and the second `c`. */
  function SecondField(s: string, c: char): (r: string)
    requires c in s
    ensures c !in r
  {
    TakeBefore(s[|TakeBefore(s, c)| + 1..], c)
  }

  /** `r` stands in `s` right after the first `c`, and is followed by another `c` or the end. */
  predicate FieldAfterFirst(s: string, r: string, c: char) {
    exists i :: 0 <= i < |s| && s[i] == c && c !in s[..i] && IsAt(s, r, i + 1)
      && (i + 1 + |r| == |s| || s[i + 1 + |r|] == c)
  }

  /** `s.split(c)[1]` is the text after the first `c`, up to the next `c` or the end. */
  lemma SecondFieldSpec(s: string, c: char)
    requires c in s
    ensures FieldAfterFirst(s, SecondField(s, c), c)
  {
    var head := TakeBefore(s, c);
    var i := |head|;
    assert s[i] == c;
    var r := SecondField(s, c);
    assert s[i + 1..][..|r|] == r;
    assert s[i + 1..i + 1 + |r|] == r;
    assert IsAt(s, r, i + 1);
  }

  /** `s.replace(pat, rep)`: every leftmost, non-overlapping occurrence of `pat` replaced. */
  function ReplaceAll(s: string, pat: string, rep: string): string
    requires pat != []
    decreases |s|
  {
    if |s| < |pat| then s
    else if s[..|pat|] == pat then rep + ReplaceAll(s[|pat|..], pat, rep)
    else [s[0]] + ReplaceAll(s[1..], pat, rep)
  }

  /** An occurrence in the tail of `s` is an occurrence in `s`, one index later. */
  lemma IsAtTail(s: string, t: string, k: nat)
    requires s != []
    ensures IsAt(s[1..], t, k) <==> IsAt(s, t, k + 1)
  {
    if k + 1 + |t| <= |s| {
      assert s[1..][k..k + |t|] == s[k + 1..k + 1 + |t|];
    }
  }

  /**
   * `s.replace(pat, rep)` keeps the text before the first occurrence of `pat`,
   * puts `rep` in its place and carries on right after it.
   */
  lemma {:induction false} ReplaceAtFirst(s: string, pat: string, rep: string, j: nat)
    requires pat != [] && IsAt(s, pat, j)
    requires forall k: nat :: k < j ==> !IsAt(s, pat, k)
    ensures ReplaceAll(s, pat, rep) == s[..j] + rep + ReplaceAll(s[j + |pat|..], pat, rep)
    decreases j
  {
    if j == 0 {
      assert s[..|pat|] == s[0..|pat|];
    } else {
      var tail := s[1..];
      assert !IsAt(s, pat, 0);
      assert s[..|pat|] == s[0..|pat|];
      assert ReplaceAll(s, pat, rep) == [s[0]] + ReplaceAll(tail, pat, rep);
      forall k: nat | k < j - 1 ensures !IsAt(tail, pat, k) {
        IsAtTail(s, pat, k);
      }
      IsAtTail(s, pat, j - 1);
      ReplaceAtFirst(tail, pat, rep, j - 1);
      assert tail[j - 1 + |pat|..] == s[j + |pat|..];
      assert s[..j] == [s[0]] + tail[..j - 1];
    }
  }

  /** Replacing a pattern that does not occur returns the string unchanged. */
  lemma {:induction false} ReplaceAbsent(s: string, pat: string, rep: string)
    requires pat != [] && !Contains(s, pat)
    ensures ReplaceAll(s, pat, rep) == s
    decreases |s|
  {
    if |s| >= |pat| {
      ReplaceAbsent(s[1..], pat, rep);
    }
  }

  /** Deleting occurrences never lengthens a string, and deleting one that occurs shortens it. */
  lemma {:induction false} RemoveShortens(s: string, pat: string)
    requires pat != []
    ensures |ReplaceAll(s, pat, "")| <= |s|
    ensures Contains(s, pat) ==> |ReplaceAll(s, pat, "")| < |s|
    decreases |s|
  {
    if |s| >= |pat| {
      if s[..|pat|] == pat {
        RemoveShortens(s[|pat|..], pat);
      } else {
        RemoveShortens(s[1..], pat);
      }
    }
  }

  /** `s.endswith(c)` for a one-character suffix. */
  predicate EndsWith(s: string, c: char) {
    |s| > 0 && s[|s| - 1] == c
  }

  function LowerChar(c: char): char {
    if IsUpper(c) then (c as int + 32) as char else c
  }

  /** `s.lower()`, restricted to ASCII letters. */
  function Lower(s: string): (r: string)
    ensures |r| == |s|
    ensures forall i :: 0 <= i < |s| ==> r[i] == LowerChar(s[i])
  {
    seq(|s|, i requires 0 <= i < |s| => LowerChar(s[i]))
  }

  /** Python's `a <= b` on strings: lexicographic by code point. */
  predicate StrLe(a: string, b: string) {
    if a == [] then true
    else if b == [] then false
    else if a[0] != b[0] then a[0] < b[0]
    else StrLe(a[1..], b[1..])
  }

  lemma {:induction false} StrLeTotal(a: string, b: string)
    ensures StrLe(a, b) || StrLe(b, a)
  {
    if a != [] && b != [] && a[0] == b[0] {
      StrLeTotal(a[1..], b[1..]);
    }
  }

  lemma {:induction false} StrLeTransitive(a: string, b: string, c: string)
    requires StrLe(a, b) && StrLe(b, c)
    ensures StrLe(a, c)
  {
    if a != [] && b != [] && c != [] && a[0] == b[0] && b[0] == c[0] {
      StrLeTransitive(a[1..], b[1..], c[1..]);
    }
  }

  lemma {:induction false} StrLeAntisymmetric(a: string, b: string)
    requires StrLe(a, b) && StrLe(b, a)
    ensures a == b
  {
    if a != [] && b != [] {
      StrLeAntisymmetric(a[1..], b[1..]);
    }
  }
}
