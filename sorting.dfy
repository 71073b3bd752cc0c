/**
 * Python's `sorted` / `list.sort` over records compared by a tuple of strings:
 * `get_timetable` sorts (time, room, type, course) tuples and `search_courses`
 * sorts by (lower-cased name, department, section). The sort here is an insertion
 * sort that, like Python's, keeps records with equal keys in their input order.
 */
module Sorting {
  import opened Strings

  /** Python's `a <= b` on tuples of strings. */
  predicate KeyLe(a: seq<string>, b: seq<string>) {
    if a == [] then true
    else if b == [] then false
    else if a[0] != b[0] then StrLe(a[0], b[0])
    else KeyLe(a[1..], b[1..])
  }

  lemma {:induction false} KeyLeTotal(a: seq<string>, b: seq<string>)
    ensures KeyLe(a, b) || KeyLe(b, a)
  {
    if a != [] && b != [] {
      if a[0] != b[0] {
        StrLeTotal(a[0], b[0]);
      } else {
        KeyLeTotal(a[1..], b[1..]);
      }
    }
  }

  lemma {:induction false} KeyLeTransitive(a: seq<string>, b: seq<string>, c: seq<string>)
    requires KeyLe(a, b) && KeyLe(b, c)
    ensures KeyLe(a, c)
  {
    if a != [] && b != [] && c != [] {
      if a[0] == b[0] && b[0] == c[0] {
        KeyLeTransitive(a[1..], b[1..], c[1..]);
      } else if a[0] == b[0] {
        // a[0] == b[0] != c[0]
      } else if b[0] == c[0] {
        // a[0] != b[0] == c[0]
      } else {
        StrLeTransitive(a[0], b[0], c[0]);
        if a[0] == c[0] {
          StrLeAntisymmetric(a[0], b[0]);
        }
      }
    }
  }

  /** Every record is no greater than the next one. */
  predicate SortedBy<T>(s: seq<T>, key: T -> seq<string>) {
    forall i :: 0 < i < |s| ==> KeyLe(key(s[i - 1]), key(s[i]))
  }

  /** Places `x` after every record of `s` whose key is not greater than its own. */
  function Insert<T>(x: T, s: seq<T>, key: T -> seq<string>): seq<T> {
    if s == [] || !KeyLe(key(s[0]), key(x)) then [x] + s
    else [s[0]] + Insert(x, s[1..], key)
  }

  /** `sorted(s, key=key)` */
  function SortBy<T>(s: seq<T>, key: T -> seq<string>): seq<T> {
    if s == [] then [] else Insert(s[|s| - 1], SortBy(s[..|s| - 1], key), key)
  }

  lemma {:induction false} InsertProperties<T>(x: T, s: seq<T>, key: T -> seq<string>)
    requires SortedBy(s, key)
    ensures SortedBy(Insert(x, s, key), key)
    ensures multiset(Insert(x, s, key)) == multiset(s) + multiset{x}
    ensures |Insert(x, s, key)| == |s| + 1
    ensures Insert(x, s, key)[0] == x || (s != [] && Insert(x, s, key)[0] == s[0])
  {
    if s == [] || !KeyLe(key(s[0]), key(x)) {
      if s != [] {
        KeyLeTotal(key(s[0]), key(x));
      }
    } else {
      var tail := s[1..];
      assert SortedBy(tail, key) by {
        forall i | 0 < i < |tail| ensures KeyLe(key(tail[i - 1]), key(tail[i])) {
          assert tail[i - 1] == s[i] && tail[i] == s[i + 1];
        }
      }
      InsertProperties(x, tail, key);
      var r := Insert(x, s, key);
      assert s == [s[0]] + tail;
      forall i | 0 < i < |r| ensures KeyLe(key(r[i - 1]), key(r[i])) {
        if i == 1 {
          if tail != [] && r[1] == tail[0] {
            assert tail[0] == s[1];
          }
        } else {
          assert r[i - 1] == Insert(x, tail, key)[i - 2];
        }
      }
    }
  }

  /** The result is ordered by the key and is a permutation of the input. */
  lemma {:induction false} SortByProperties<T>(s: seq<T>, key: T -> seq<string>)
    ensures SortedBy(SortBy(s, key), key)
    ensures multiset(SortBy(s, key)) == multiset(s)
    ensures |SortBy(s, key)| == |s|
  {
    if s != [] {
      var init := s[..|s| - 1];
      SortByProperties(init, key);
      InsertProperties(s[|s| - 1], SortBy(init, key), key);
      assert s == init + [s[|s| - 1]];
    }
  }

  /** In a sorted sequence every earlier record is no greater than every later one. */
  lemma {:induction false} SortedPairwise<T>(s: seq<T>, key: T -> seq<string>, i: nat, j: nat)
    requires SortedBy(s, key) && i <= j < |s|
    ensures KeyLe(key(s[i]), key(s[j]))
    decreases j - i
  {
    if i == j {
      KeyLeTotal(key(s[i]), key(s[i]));
    } else {
      SortedPairwise(s, key, i, j - 1);
      KeyLeTransitive(key(s[i]), key(s[j - 1]), key(s[j]));
    }
  }
}
