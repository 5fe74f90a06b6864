/**
 * One iteration of the `ActionTtlFairing` background loop
 * (patchpilot_server/src/action_ttl.rs): with action polling on and a
 * connection at hand, select the actions that expired strictly before now
 * and are not canceled, and for each in turn cancel it, expire its "pending"
 * targets stamping `last_update`, and write one audit row. A failed cancel
 * skips the rest of that action; a failed target update or audit is only
 * logged.
 */
module ActionTtlFairing {
  import opened Wrappers
  import opened Models
  import opened Db
  import opened Text
  import opened Sweep

  /** The ids the iteration works on: none unless polling is on and the connection and select succeed. */
  function Selected(actions: seq<Action>, pollingEnabled: bool, connOk: bool, selectOk: bool, now: Timestamp): (ids: seq<int>)
    ensures forall id :: id in ids <==>
      pollingEnabled && connOk && selectOk && exists a :: a in actions && a.id == id && a.expiresAt < now && !a.canceled
  {
    if pollingEnabled && connOk && selectOk then DueIds(actions, now, false) else []
  }

  /**
   * The sweep iteration. `cancelFails`, `targetFails` and `auditFails` are
   * the action ids whose cancel, target update or audit statement fails;
   * `hasAudit` says whether an audit closure is attached to the state.
   */
  method SweepOnce(db: Database, pollingEnabled: bool, connOk: bool, selectOk: bool, hasAudit: bool,
                   cancelFails: set<int>, targetFails: set<int>, auditFails: set<int>, now: Timestamp)
    modifies db`actions, db`targets, db`audit
    ensures var ids := Selected(old(db.actions), pollingEnabled, connOk, selectOk, now);
      && db.actions == CancelAll(old(db.actions), ids, cancelFails)
      && db.targets == ExpireAll(old(db.targets), ids, cancelFails + targetFails, Some(now))
      && db.audit == old(db.audit) + (if hasAudit then SweepAudits(ids, cancelFails + auditFails, now) else [])
  {
    var ids := Selected(db.actions, pollingEnabled, connOk, selectOk, now);
    ghost var actions0, targets0, audit0 := db.actions, db.targets, db.audit;
    var i := 0;
    while i < |ids|
      invariant 0 <= i <= |ids|
      invariant db.actions == CancelAll(actions0, ids[..i], cancelFails)
      invariant db.targets == ExpireAll(targets0, ids[..i], cancelFails + targetFails, Some(now))
      invariant db.audit == audit0 + (if hasAudit then SweepAudits(ids[..i], cancelFails + auditFails, now) else [])
    {
      PrefixStep(actions0, targets0, ids, i, cancelFails, cancelFails + targetFails, cancelFails + auditFails, Some(now), now);
      ExpireOne(db, ids[i], hasAudit, cancelFails, targetFails, auditFails, now);
      i := i + 1;
    }
    assert ids[..i] == ids;
  }

  /**
   * The body of the sweep for one selected action id: cancel it; unless the
   * cancel failed, expire its pending targets and write its audit row.
   */
  method ExpireOne(db: Database, id: int, hasAudit: bool,
                   cancelFails: set<int>, targetFails: set<int>, auditFails: set<int>, now: Timestamp)
    modifies db`actions, db`targets, db`audit
    ensures db.actions == if id in cancelFails then old(db.actions) else CancelById(old(db.actions), id)
    ensures db.targets == if id in cancelFails + targetFails then old(db.targets)
                          else ExpireTargetsOf(old(db.targets), id, Some(now))
    ensures db.audit == old(db.audit) + (if hasAudit && id !in cancelFails + auditFails then [TtlAudit(id, now)] else [])
  {
    if id !in cancelFails {
      db.actions := CancelById(db.actions, id);
      if id !in targetFails {
        db.targets := ExpireTargetsOf(db.targets, id, Some(now));
      }
      if hasAudit {
        var row := TtlAudit(id, now);
        var _ := db.LogAudit(row.actor, row.actionType, row.target, row.details, now, id !in auditFails);
      }
    }
  }

  /**
   * In a table with distinct ids (the primary key), exactly the due actions
   * (strictly expired, not canceled) whose cancel succeeded end canceled; no other action and no other field changes.
   * With polling off nothing changes.
   */
  lemma SweepCancelsExactlyDue(actions: seq<Action>, pollingEnabled: bool, connOk: bool, selectOk: bool,
                               cancelFails: set<int>, now: Timestamp)
    requires UniqueActionIds(actions)
    ensures var newActions := CancelAll(actions, Selected(actions, pollingEnabled, connOk, selectOk, now), cancelFails);
      && |newActions| == |actions|
      && forall k :: 0 <= k < |actions| ==>
           newActions[k] == if pollingEnabled && connOk && selectOk && Due(actions[k], now, false) && actions[k].id !in cancelFails
                            then actions[k].(canceled := true) else actions[k]
  {
    var ids := Selected(actions, pollingEnabled, connOk, selectOk, now);
    CancelAllPointwise(actions, ids, cancelFails);
    forall k | 0 <= k < |actions|
      ensures actions[k].id in ids <==> pollingEnabled && connOk && selectOk && Due(actions[k], now, false)
    {
      assert actions[k] in actions;
      if actions[k].id in ids {
        var a :| a in actions && a.id == actions[k].id && Due(a, now, false);
        var j :| 0 <= j < |actions| && actions[j] == a;
        assert j == k;
      }
    }
  }

  /**
   * Exactly the "pending" targets of the processed actions become "expired"
   * with `last_update` now; every other target is unchanged.
   */
  lemma SweepExpiresExactlyPending(targets: seq<ActionTarget>, ids: seq<int>, cancelFails: set<int>, targetFails: set<int>,
                                   now: Timestamp)
    ensures var newTargets := ExpireAll(targets, ids, cancelFails + targetFails, Some(now));
      && |newTargets| == |targets|
      && forall k :: 0 <= k < |targets| ==>
           newTargets[k] == if targets[k].actionId in ids && targets[k].actionId !in cancelFails
                               && targets[k].actionId !in targetFails && targets[k].status == "pending"
                            then targets[k].(status := "expired", lastUpdate := now) else targets[k]
  {
    ExpireAllPointwise(targets, ids, cancelFails + targetFails, Some(now));
  }

  /**
   * The audit rows written are exactly one "action.ttl_expired" row by
   * "system", targeting the action id, per canceled action whose audit
   * succeeded.
   */
  lemma SweepAuditsCanceled(ids: seq<int>, cancelFails: set<int>, auditFails: set<int>, now: Timestamp)
    ensures forall row :: row in SweepAudits(ids, cancelFails + auditFails, now) <==>
      exists id :: id in ids && id !in cancelFails && id !in auditFails && row == AuditRow(
        "system", "action.ttl_expired", Some(IntToString(id)), Some("Action automatically canceled due to TTL expiration"), now)
  {
    SweepAuditsExactly(ids, cancelFails + auditFails, now);
  }

  /**
   * A second iteration at the same instant selects only actions whose
   * cancel failed the first time. When none failed, a whole second
   * `SweepOnce`, whatever its flags and faults, leaves the actions, the
   * targets and the audit log as they are.
   */
  lemma SecondSweepIsQuiet(actions: seq<Action>, targets: seq<ActionTarget>, audit: seq<AuditRow>, now: Timestamp,
                           pollingEnabled: bool, connOk: bool, selectOk: bool, hasAudit: bool,
                           cancelFails: set<int>, targetFails: set<int>, auditFails: set<int>)
    ensures var after := CancelAll(actions, Selected(actions, true, true, true, now), cancelFails);
      forall id :: id in Selected(after, true, true, true, now) ==> id in cancelFails
    ensures var after := CancelAll(actions, Selected(actions, true, true, true, now), {});
      var ids := Selected(after, pollingEnabled, connOk, selectOk, now);
      && CancelAll(after, ids, cancelFails) == after
      && ExpireAll(targets, ids, cancelFails + targetFails, Some(now)) == targets
      && audit + (if hasAudit then SweepAudits(ids, cancelFails + auditFails, now) else []) == audit
  {
    RerunFindsOnlyFailed(actions, now, false, cancelFails);
    RerunFindsOnlyFailed(actions, now, false, {});
    var after := CancelAll(actions, Selected(actions, true, true, true, now), {});
    var ids := Selected(after, pollingEnabled, connOk, selectOk, now);
    assert ids == [];
    assert audit + [] == audit;
  }
}
