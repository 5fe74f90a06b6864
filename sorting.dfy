/**
 * Ordering used by the listings: `ORDER BY` clauses of the server's queries
 * and the client's `sort_by`. The model sorts with a stable insertion sort
 * under a caller-given "may come before" relation; a query's order between
 * equal keys is not fixed by SQL, so only sortedness and "same rows" are
 * promised about it.
 */
module Sorting {

  /** `before` is total and transitive: every pair is comparable. */
  ghost predicate TotalPreorder<T(!new)>(before: (T, T) -> bool) {
    && (forall a, b :: before(a, b) || before(b, a))
    && (forall a, b, c :: before(a, b) && before(b, c) ==> before(a, c))
  }

  ghost predicate SortedBy<T>(s: seq<T>, before: (T, T) -> bool) {
    forall i, j :: 0 <= i < j < |s| ==> before(s[i], s[j])
  }

  function Insert<T(!new)>(x: T, s: seq<T>, before: (T, T) -> bool): (r: seq<T>)
    requires TotalPreorder(before)
    requires SortedBy(s, before)
    ensures multiset(r) == multiset(s) + multiset{x}
    ensures SortedBy(r, before)
  {
    if s == [] then [x]
    else if before(x, s[0]) then [x] + s
    else
      var rest := Insert(x, s[1..], before);
      InsertHeadFirst(x, s, rest, before);
      [s[0]] + rest
  }

  lemma InsertHeadFirst<T(!new)>(x: T, s: seq<T>, rest: seq<T>, before: (T, T) -> bool)
    requires TotalPreorder(before)
    requires s != [] && !before(x, s[0]) && SortedBy(s, before)
    requires multiset(rest) == multiset(s[1..]) + multiset{x}
    requires SortedBy(rest, before)
    ensures multiset([s[0]] + rest) == multiset(s) + multiset{x}
    ensures SortedBy([s[0]] + rest, before)
  {
    assert s == [s[0]] + s[1..];
    forall j | 0 <= j < |rest| ensures before(s[0], rest[j]) {
      assert rest[j] in multiset(rest);
      if rest[j] != x {
        assert rest[j] in multiset(s[1..]);
        var k :| 0 <= k < |s[1..]| && s[1..][k] == rest[j];
        assert s[k + 1] == rest[j];
      }
    }
    var r := [s[0]] + rest;
    forall i, j | 0 <= i < j < |r| ensures before(r[i], r[j]) {
      if i == 0 {
        assert r[j] == rest[j - 1];
      } else {
        assert r[i] == rest[i - 1] && r[j] == rest[j - 1];
      }
    }
  }

  /** Stable insertion sort: the result is ordered and holds exactly the input's elements. */
  function SortBy<T(!new)>(s: seq<T>, before: (T, T) -> bool): (r: seq<T>)
    requires TotalPreorder(before)
    ensures multiset(r) == multiset(s)
    ensures SortedBy(r, before)
  {
    if s == [] then []
    else
      assert s == [s[0]] + s[1..];
      Insert(s[0], SortBy(s[1..], before), before)
  }

  /**
   * Keeping a prefix of a sorted sequence keeps the best elements: nothing
   * left out comes strictly before anything kept.
   */
  lemma PrefixIsBest<T(!new)>(s: seq<T>, before: (T, T) -> bool, k: nat)
    requires k <= |s|
    requires SortedBy(s, before)
    ensures forall i, j :: 0 <= i < k <= j < |s| ==> before(s[i], s[j])
  {
  }

  /** Lexicographic order on strings, by character code (SQLite's BINARY collation). */
  predicate StrLe(a: string, b: string) {
    if a == [] then true
    else if b == [] then false
    else if a[0] != b[0] then a[0] < b[0]
    else StrLe(a[1..], b[1..])
  }

  lemma {:induction false} StrLeTotal(a: string, b: string)
    ensures StrLe(a, b) || StrLe(b, a)
  {
    if a != [] && b != [] && a[0] == b[0] {
      StrLeTotal(a[1..], b[1..]);
    }
  }

  lemma {:induction false} StrLeTransitive(a: string, b: string, c: string)
    requires StrLe(a, b) && StrLe(b, c)
    ensures StrLe(a, c)
  {
    if a != [] && b != [] && c != [] && a[0] == b[0] && b[0] == c[0] {
      StrLeTransitive(a[1..], b[1..], c[1..]);
    }
  }

  lemma StrLeIsTotalPreorder()
    ensures TotalPreorder((a: string, b: string) => StrLe(a, b))
  {
    forall a: string, b: string ensures StrLe(a, b) || StrLe(b, a) {
      StrLeTotal(a, b);
    }
    forall a: string, b: string, c: string | StrLe(a, b) && StrLe(b, c) ensures StrLe(a, c) {
      StrLeTransitive(a, b, c);
    }
  }
}
