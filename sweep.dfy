/**
 * The table statements shared by the two action-expiry sweeps
 * (patchpilot_server/src/action_ttl.rs and
 * patchpilot_server/src/tasks/action_ttl.rs): select the expired,
 * uncanceled actions, set `canceled` on one action id, and move one action's
 * "pending" targets to "expired". A sweep applies the last two to each
 * selected id in turn; `CancelAll`, `ExpireAll` and `SweepAudits` are those
 * runs as left folds over the selected ids, and the pointwise lemmas say what
 * a whole run does to each row.
 */
module Sweep {
  import opened Wrappers
  import opened Models
  import opened Text

  const SweepPending: string := "pending"
  const SweepExpired: string := "expired"

  /** Selected by the sweep: not canceled and expired, with `<` or `<=` against now. */
  predicate Due(a: Action, now: Timestamp, inclusive: bool) {
    !a.canceled && (if inclusive then a.expiresAt <= now else a.expiresAt < now)
  }

  /** `SELECT id FROM actions WHERE expires_at < now (or <=) AND NOT canceled`, in table order. */
  function DueIds(actions: seq<Action>, now: Timestamp, inclusive: bool): (ids: seq<int>)
    ensures |ids| <= |actions|
    ensures forall id :: id in ids <==> exists a :: a in actions && a.id == id && Due(a, now, inclusive)
  {
    if actions == [] then []
    else
      var rest := DueIds(actions[1..], now, inclusive);
      assert forall a :: a in actions <==> a == actions[0] || a in actions[1..];
      if Due(actions[0], now, inclusive) then [actions[0].id] + rest else rest
  }

  /** `UPDATE actions SET canceled = true WHERE id = id`. */
  function CancelById(actions: seq<Action>, id: int): seq<Action> {
    seq(|actions|, k requires 0 <= k < |actions| =>
      if actions[k].id == id then actions[k].(canceled := true) else actions[k])
  }

  /**
   * `UPDATE action_targets SET status = 'expired' [, last_update = stamp]
   * WHERE action_id = id AND status = 'pending'`.
   */
  function ExpireTargetsOf(targets: seq<ActionTarget>, id: int, stamp: Option<Timestamp>): seq<ActionTarget> {
    seq(|targets|, k requires 0 <= k < |targets| =>
      var t := targets[k];
      if t.actionId == id && t.status == SweepPending
      then t.(status := SweepExpired, lastUpdate := stamp.GetOr(t.lastUpdate))
      else t)
  }

  /** The cancel statement run for each id in turn, skipping the ids whose update fails. */
  function CancelAll(actions: seq<Action>, ids: seq<int>, fails: set<int>): (r: seq<Action>)
    ensures |r| == |actions|
    ensures forall k :: 0 <= k < |r| ==> r[k].(canceled := actions[k].canceled) == actions[k]
    ensures forall k :: 0 <= k < |r| && r[k] != actions[k] ==> r[k].canceled && actions[k].id in ids
    decreases |ids|
  {
    if ids == [] then actions
    else
      var before := CancelAll(actions, ids[..|ids| - 1], fails);
      var id := ids[|ids| - 1];
      if id in fails then before else CancelById(before, id)
  }

  /** The target statement run for each id in turn, except the ids in `skip`. */
  function ExpireAll(targets: seq<ActionTarget>, ids: seq<int>, skip: set<int>, stamp: Option<Timestamp>): (r: seq<ActionTarget>)
    ensures |r| == |targets|
    ensures forall k :: 0 <= k < |r| ==>
      r[k].(status := targets[k].status, lastUpdate := targets[k].lastUpdate) == targets[k]
    ensures forall k :: 0 <= k < |r| && targets[k].status != SweepPending ==> r[k] == targets[k]
    decreases |ids|
  {
    if ids == [] then targets
    else
      var before := ExpireAll(targets, ids[..|ids| - 1], skip, stamp);
      var id := ids[|ids| - 1];
      if id in skip then before else ExpireTargetsOf(before, id, stamp)
  }

  /** The audit row the fairing writes for one expired action. */
  function TtlAudit(id: int, now: Timestamp): AuditRow {
    AuditRow("system", "action.ttl_expired", Some(IntToString(id)),
             Some("Action automatically canceled due to TTL expiration"), now)
  }

  /** One audit row per id in turn, except the ids in `skip`. */
  function SweepAudits(ids: seq<int>, skip: set<int>, now: Timestamp): (r: seq<AuditRow>)
    ensures |r| <= |ids|
    ensures forall row :: row in r ==> row.actor == "system" && row.actionType == "action.ttl_expired" && row.createdAt == now
    decreases |ids|
  {
    if ids == [] then []
    else
      var id := ids[|ids| - 1];
      SweepAudits(ids[..|ids| - 1], skip, now) + (if id in skip then [] else [TtlAudit(id, now)])
  }

  /** Extending the processed prefix by one id runs the three statements for that id alone. */
  lemma PrefixStep(actions: seq<Action>, targets: seq<ActionTarget>, ids: seq<int>, i: nat,
                   cancelFails: set<int>, skip: set<int>, auditSkip: set<int>, stamp: Option<Timestamp>, now: Timestamp)
    requires i < |ids|
    ensures CancelAll(actions, ids[..i + 1], cancelFails)
         == if ids[i] in cancelFails then CancelAll(actions, ids[..i], cancelFails)
            else CancelById(CancelAll(actions, ids[..i], cancelFails), ids[i])
    ensures ExpireAll(targets, ids[..i + 1], skip, stamp)
         == if ids[i] in skip then ExpireAll(targets, ids[..i], skip, stamp)
            else ExpireTargetsOf(ExpireAll(targets, ids[..i], skip, stamp), ids[i], stamp)
    ensures SweepAudits(ids[..i + 1], auditSkip, now)
         == SweepAudits(ids[..i], auditSkip, now) + (if ids[i] in auditSkip then [] else [TtlAudit(ids[i], now)])
  {
    assert ids[..i + 1][..i] == ids[..i];
  }

  lemma LastSplit(ids: seq<int>)
    requires ids != []
    ensures forall x :: x in ids <==> x in ids[..|ids| - 1] || x == ids[|ids| - 1]
  {
    assert ids == ids[..|ids| - 1] + [ids[|ids| - 1]];
  }

  /**
   * A run of cancels marks exactly the rows whose id was selected and did
   * not fail; every other row, and every other field, is unchanged.
   */
  lemma {:induction false} CancelAllPointwise(actions: seq<Action>, ids: seq<int>, fails: set<int>)
    ensures |CancelAll(actions, ids, fails)| == |actions|
    ensures forall k :: 0 <= k < |actions| ==>
      CancelAll(actions, ids, fails)[k] ==
        if actions[k].id in ids && actions[k].id !in fails then actions[k].(canceled := true) else actions[k]
    decreases |ids|
  {
    if ids != [] {
      CancelAllPointwise(actions, ids[..|ids| - 1], fails);
      LastSplit(ids);
    }
  }

  /**
   * A run of target updates expires exactly the "pending" rows of the
   * processed ids (stamping `last_update` when a stamp is given); every other
   * row is unchanged. A row already "expired" is not touched again, so an id
   * listed twice changes nothing more.
   */
  lemma {:induction false} ExpireAllPointwise(targets: seq<ActionTarget>, ids: seq<int>, skip: set<int>, stamp: Option<Timestamp>)
    ensures |ExpireAll(targets, ids, skip, stamp)| == |targets|
    ensures forall k :: 0 <= k < |targets| ==>
      ExpireAll(targets, ids, skip, stamp)[k] ==
        if targets[k].actionId in ids && targets[k].actionId !in skip && targets[k].status == SweepPending
        then targets[k].(status := SweepExpired, lastUpdate := stamp.GetOr(targets[k].lastUpdate))
        else targets[k]
    decreases |ids|
  {
    if ids != [] {
      ExpireAllPointwise(targets, ids[..|ids| - 1], skip, stamp);
      LastSplit(ids);
    }
  }

  /** The audit rows are exactly one `TtlAudit` per processed id, in selection order. */
  lemma {:induction false} SweepAuditsExactly(ids: seq<int>, skip: set<int>, now: Timestamp)
    ensures |SweepAudits(ids, skip, now)| <= |ids|
    ensures forall row :: row in SweepAudits(ids, skip, now) <==>
      exists id :: id in ids && id !in skip && row == TtlAudit(id, now)
    ensures (forall id :: id in ids ==> id !in skip) ==> |SweepAudits(ids, skip, now)| == |ids|
    ensures (forall id :: id in ids ==> id !in skip) ==>
      SweepAudits(ids, skip, now) == seq(|ids|, i requires 0 <= i < |ids| => TtlAudit(ids[i], now))
    decreases |ids|
  {
    if ids != [] {
      SweepAuditsExactly(ids[..|ids| - 1], skip, now);
      LastSplit(ids);
    }
    if forall id :: id in ids ==> id !in skip {
      SweepAuditsNoneSkipped(ids, skip, now);
    }
  }

  /** With nothing skipped, row i is the audit row of the i-th id. */
  lemma {:induction false} SweepAuditsNoneSkipped(ids: seq<int>, skip: set<int>, now: Timestamp)
    requires forall id :: id in ids ==> id !in skip
    ensures SweepAudits(ids, skip, now) == seq(|ids|, i requires 0 <= i < |ids| => TtlAudit(ids[i], now))
    decreases |ids|
  {
    if ids != [] {
      var init := ids[..|ids| - 1];
      LastSplit(ids);
      SweepAuditsNoneSkipped(init, skip, now);
      var r := SweepAudits(ids, skip, now);
      assert r == SweepAudits(init, skip, now) + [TtlAudit(ids[|ids| - 1], now)];
      assert |r| == |ids|;
      forall i | 0 <= i < |ids|
        ensures r[i] == TtlAudit(ids[i], now)
      {
        if i < |init| {
          assert init[i] == ids[i];
        }
      }
    }
  }

  /**
   * The audit rows follow the selection order: the rows of two consecutive
   * stretches of ids are those of the first, then those of the second,
   * whichever ids are skipped.
   */
  lemma {:induction false} SweepAuditsAppend(a: seq<int>, b: seq<int>, skip: set<int>, now: Timestamp)
    ensures SweepAudits(a + b, skip, now) == SweepAudits(a, skip, now) + SweepAudits(b, skip, now)
    decreases |b|
  {
    if b == [] {
      assert a + b == a;
    } else {
      var b' := b[..|b| - 1];
      assert (a + b)[..|a + b| - 1] == a + b';
      SweepAuditsAppend(a, b', skip, now);
    }
  }

  /**
   * After a run over the due ids, an id that is due again at the same
   * instant is one whose cancel failed; with no failures nothing is due.
   */
  lemma RerunFindsOnlyFailed(actions: seq<Action>, now: Timestamp, inclusive: bool, fails: set<int>)
    ensures forall id :: id in DueIds(CancelAll(actions, DueIds(actions, now, inclusive), fails), now, inclusive) ==> id in fails
    ensures fails == {} ==> DueIds(CancelAll(actions, DueIds(actions, now, inclusive), fails), now, inclusive) == []
  {
    var ids := DueIds(actions, now, inclusive);
    var after := CancelAll(actions, ids, fails);
    CancelAllPointwise(actions, ids, fails);
    forall id | id in DueIds(after, now, inclusive)
      ensures id in fails
    {
      var a :| a in after && a.id == id && Due(a, now, inclusive);
      var k :| 0 <= k < |after| && after[k] == a;
      assert actions[k] in actions;
    }
    if fails == {} && DueIds(after, now, inclusive) != [] {
      assert DueIds(after, now, inclusive)[0] in DueIds(after, now, inclusive);
    }
  }

  /**
   * A target created by `NewActionTarget::pending` carries "Pending", which
   * the sweeps' `status = 'pending'` filter does not match: no sweep ever
   * expires it.
   */
  lemma CreatedTargetsNeverExpire(actionId: int, deviceId: int, created: Timestamp,
                                  ids: seq<int>, skip: set<int>, stamp: Option<Timestamp>)
    ensures ExpireAll([PendingTarget(actionId, deviceId, created)], ids, skip, stamp)
            == [PendingTarget(actionId, deviceId, created)]
  {
    var t := PendingTarget(actionId, deviceId, created);
    ExpireAllPointwise([t], ids, skip, stamp);
    assert t.status != SweepPending by {
      assert t.status[0] == 'P';
    }
  }
}
