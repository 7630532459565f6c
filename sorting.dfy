/**
 * Stable ascending sort under a total preorder: the model of `list.sort(key=...)`
 * and of `DataFrame.sort_values` (whose tie order pandas leaves open; this
 * model fixes it to input order). Sorting by an integer key is the common case.
 */
module Sorting {
  import Text

  /** Any two elements compare, and comparisons chain. */
  ghost predicate TotalPreorder<T(!new)>(le: (T, T) -> bool)
  {
    (forall a, b :: le(a, b) || le(b, a))
    && (forall a, b, c :: le(a, b) && le(b, c) ==> le(a, c))
  }

  predicate Sorted<T(!new)>(s: seq<T>, le: (T, T) -> bool)
  {
    forall i, j :: 0 <= i < j < |s| ==> le(s[i], s[j])
  }

  /** Inserts `x` in front of the first element it is not above. */
  function Insert<T(!new)>(x: T, s: seq<T>, le: (T, T) -> bool): (r: seq<T>)
    requires TotalPreorder(le) && Sorted(s, le)
    ensures |r| == |s| + 1
    ensures multiset(r) == multiset(s) + multiset{x}
    ensures Sorted(r, le)
  {
    if s == [] || le(x, s[0]) then
      assert forall j :: 0 < j < |s| ==> le(s[0], s[j]);
      [x] + s
    else
      var rest := Insert(x, s[1..], le);
      assert s == [s[0]] + s[1..];
      assert le(s[0], x);
      forall i | 0 <= i < |rest| ensures le(s[0], rest[i]) {
        assert rest[i] in multiset(rest);
        if rest[i] != x {
          assert rest[i] in multiset(s[1..]);
          var j :| 0 <= j < |s[1..]| && s[1..][j] == rest[i];
          assert s[j + 1] == rest[i];
        }
      }
      [s[0]] + rest
  }

  /** Stable insertion sort; sorted, and a permutation of its input. */
  function SortWith<T(!new)>(s: seq<T>, le: (T, T) -> bool): (r: seq<T>)
    requires TotalPreorder(le)
    ensures |r| == |s|
    ensures multiset(r) == multiset(s)
    ensures Sorted(r, le)
  {
    if s == [] then []
    else
      assert s == [s[0]] + s[1..];
      Insert(s[0], SortWith(s[1..], le), le)
  }

  /** The elements of `s` satisfying `p`, in their order in `s`. */
  function Select<T(!new)>(s: seq<T>, p: T -> bool): (r: seq<T>)
    ensures |r| <= |s|
  {
    if s == [] then []
    else (if p(s[0]) then [s[0]] else []) + Select(s[1..], p)
  }

  /** `p` picks out elements that all compare equal. */
  ghost predicate Tied<T(!new)>(le: (T, T) -> bool, p: T -> bool)
  {
    forall a, b :: p(a) && p(b) ==> le(a, b)
  }

  lemma {:induction false} InsertKeepsTies<T(!new)>(x: T, s: seq<T>, le: (T, T) -> bool, p: T -> bool)
    requires TotalPreorder(le) && Sorted(s, le) && Tied(le, p)
    ensures Select(Insert(x, s, le), p) == (if p(x) then [x] else []) + Select(s, p)
  {
    if s == [] || le(x, s[0]) {
      assert Insert(x, s, le) == [x] + s;
      assert ([x] + s)[1..] == s;
    } else {
      var rest := Insert(x, s[1..], le);
      assert Insert(x, s, le) == [s[0]] + rest;
      InsertKeepsTies(x, s[1..], le, p);
      assert ([s[0]] + rest)[1..] == rest;
      var head := if p(s[0]) then [s[0]] else [];
      assert Select([s[0]] + rest, p) == head + Select(rest, p);
      assert Select(s, p) == head + Select(s[1..], p);
      if p(x) {
        assert !p(s[0]);
      }
    }
  }

  /**
   * Stability: the sort keeps the input order of elements that compare
   * equal, so the subsequence of any group of tied elements is unchanged.
   */
  lemma {:induction false} SortWithIsStable<T(!new)>(s: seq<T>, le: (T, T) -> bool, p: T -> bool)
    requires TotalPreorder(le) && Tied(le, p)
    ensures Select(SortWith(s, le), p) == Select(s, p)
  {
    if s != [] {
      SortWithIsStable(s[1..], le, p);
      InsertKeepsTies(s[0], SortWith(s[1..], le), le, p);
    }
  }

  /** Sorting what is already sorted changes nothing. */
  lemma {:induction false} SortWithSorted<T(!new)>(s: seq<T>, le: (T, T) -> bool)
    requires TotalPreorder(le) && Sorted(s, le)
    ensures SortWith(s, le) == s
  {
    if s != [] {
      assert Sorted(s[1..], le);
      SortWithSorted(s[1..], le);
      if |s| > 1 { assert le(s[0], s[1]); }
      assert [s[0]] + s[1..] == s;
    }
  }

  // ---- string keys (Python string order) ----

  function ByString<T>(key: T -> string): (T, T) -> bool
  {
    (a, b) => Text.LexLe(key(a), key(b))
  }

  lemma ByStringIsTotalPreorder<T(!new)>(key: T -> string)
    ensures TotalPreorder(ByString(key))
  {
    forall a, b ensures Text.LexLe(key(a), key(b)) || Text.LexLe(key(b), key(a)) {
      Text.LexLessTrichotomy(key(a), key(b));
    }
    forall a, b, c | Text.LexLe(key(a), key(b)) && Text.LexLe(key(b), key(c))
      ensures Text.LexLe(key(a), key(c))
    {
      if key(a) != key(b) && key(b) != key(c) {
        Text.LexLessTransitive(key(a), key(b), key(c));
      }
    }
  }

  // ---- integer keys ----

  function ByKey<T(!new)>(key: T -> int): (T, T) -> bool
  {
    (a, b) => key(a) <= key(b)
  }

  lemma ByKeyIsTotalPreorder<T(!new)>(key: T -> int)
    ensures TotalPreorder(ByKey(key))
  {
  }

  predicate SortedBy<T(!new)>(s: seq<T>, key: T -> int)
  {
    forall i, j :: 0 <= i < j < |s| ==> key(s[i]) <= key(s[j])
  }

  /** Stable ascending sort by an integer key. */
  function SortBy<T(!new)>(s: seq<T>, key: T -> int): (r: seq<T>)
    ensures |r| == |s|
    ensures multiset(r) == multiset(s)
    ensures SortedBy(r, key)
  {
    ByKeyIsTotalPreorder(key);
    SortWith(s, ByKey(key))
  }

  /** Elements with the same key keep their input order. */
  lemma SortByIsStable<T(!new)>(s: seq<T>, key: T -> int, k: int)
    ensures Select(SortBy(s, key), x => key(x) == k) == Select(s, x => key(x) == k)
  {
    ByKeyIsTotalPreorder(key);
    SortWithIsStable(s, ByKey(key), x => key(x) == k);
  }

  lemma SortBySorted<T(!new)>(s: seq<T>, key: T -> int)
    requires SortedBy(s, key)
    ensures SortBy(s, key) == s
  {
    ByKeyIsTotalPreorder(key);
    SortWithSorted(s, ByKey(key));
  }
}
