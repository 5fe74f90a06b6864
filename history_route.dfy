/**
 * The history listings (patchpilot_server/src/routes/history.rs): the 500
 * most recent history rows, newest first, as a bare list (`get_history`) or
 * under the key "history" (`api_history`).
 */
module HistoryRoute {
  import opened Wrappers
  import opened Models
  import opened Http
  import opened Sorting

  const HistoryLimit: nat := 500

  /** `ORDER BY created_at DESC`: `a` may come before `b`. */
  predicate NewerOrSame(a: HistoryRow, b: HistoryRow) { a.createdAt >= b.createdAt }

  /** `ORDER BY created_at DESC LIMIT 500`: min(table size, 500) rows, newest first, all from the table. */
  function Recent(history: seq<HistoryRow>): (r: seq<HistoryRow>)
    ensures |r| == if |history| < HistoryLimit then |history| else HistoryLimit
    ensures |history| <= HistoryLimit ==> multiset(r) == multiset(history)
    ensures multiset(r) <= multiset(history)
    ensures forall i, j :: 0 <= i < j < |r| ==> r[i].createdAt >= r[j].createdAt
  {
    var sorted := SortBy(history, NewerOrSame);
    var n := Kept(|history|);
    PrefixFacts(history, sorted, n);
    sorted[..n]
  }

  /** How many rows the limit keeps. */
  function Kept(total: nat): (n: nat)
    ensures n <= total && n <= HistoryLimit
    ensures total <= HistoryLimit ==> n == total
  {
    if total < HistoryLimit then total else HistoryLimit
  }

  /** A prefix of a permutation of `s` holds part of `s`, and the rest is the tail. */
  lemma PrefixFacts<T>(s: seq<T>, sorted: seq<T>, n: nat)
    requires multiset(sorted) == multiset(s) && n <= |s|
    ensures |sorted| == |s|
    ensures multiset(sorted[..n]) <= multiset(s)
    ensures n == |s| ==> sorted[..n] == sorted
    ensures multiset(s) - multiset(sorted[..n]) == multiset(sorted[n..])
  {
    assert |sorted| == |multiset(sorted)| == |s|;
    assert sorted == sorted[..n] + sorted[n..];
  }

  /**
   * The rows returned are the most recent ones: min(table size, 500) of
   * them, and no row left out is newer than a row returned.
   */
  lemma RecentAreNewest(history: seq<HistoryRow>)
    ensures |Recent(history)| == if |history| < HistoryLimit then |history| else HistoryLimit
    ensures forall x, y :: x in Recent(history) && y in multiset(history) - multiset(Recent(history)) ==>
      x.createdAt >= y.createdAt
  {
    var sorted := SortBy(history, NewerOrSame);
    var n := Kept(|history|);
    PrefixFacts(history, sorted, n);
    var r := Recent(history);
    assert r == sorted[..n];
    PrefixIsBest(sorted, NewerOrSame, n);
    forall x, y | x in r && y in multiset(sorted[n..])
      ensures x.createdAt >= y.createdAt
    {
      var i :| 0 <= i < n && sorted[i] == x;
      var j :| 0 <= j < |sorted[n..]| && sorted[n..][j] == y;
      assert NewerOrSame(sorted[i], sorted[n + j]);
    }
  }

  /** `get_history`: the recent rows, or the error text of the failed step. */
  function GetHistory(history: seq<HistoryRow>, connOk: bool, queryOk: bool, errText: string): (r: Result<seq<HistoryRow>, string>)
    ensures connOk && queryOk <==> r.Ok?
    ensures r.Ok? ==> r.value == Recent(history)
    ensures r.Err? ==> r.error == errText
  {
    if connOk && queryOk then Ok(Recent(history)) else Err(errText)
  }

  /** The JSON object `{"history": rows}`. */
  datatype HistoryEnvelope = HistoryEnvelope(key: string, rows: seq<HistoryRow>)

  /** `api_history`: the same rows as `get_history`, wrapped under "history". */
  function ApiHistory(history: seq<HistoryRow>, connOk: bool, queryOk: bool): (r: Result<HistoryEnvelope, Status>)
    ensures r.Ok? <==> GetHistory(history, connOk, queryOk, "").Ok?
    ensures r.Ok? ==> r.value.key == "history" && r.value.rows == GetHistory(history, connOk, queryOk, "").value
    ensures r.Err? ==> r.error == InternalServerError
  {
    if connOk && queryOk then Ok(HistoryEnvelope("history", Recent(history))) else Err(InternalServerError)
  }
}
