/**
 * One iteration of `spawn_action_ttl_sweeper`
 * (patchpilot_server/src/tasks/action_ttl.rs): with a connection and a
 * successful select, load the actions expired at or before now and not
 * canceled, and for each cancel it and expire its "pending" targets. Both
 * updates ignore their own failure; `last_update` is not touched and no
 * audit or history row is written.
 */
module ActionTtlTask {
  import opened Wrappers
  import opened Models
  import opened Db
  import opened Sweep

  /** The loaded actions' ids: none when the connection or the select fails. */
  function Selected(actions: seq<Action>, connOk: bool, selectOk: bool, now: Timestamp): (ids: seq<int>)
    ensures forall id :: id in ids <==>
      connOk && selectOk && exists a :: a in actions && a.id == id && a.expiresAt <= now && !a.canceled
  {
    if connOk && selectOk then DueIds(actions, now, true) else []
  }

  /** The sweep iteration; `cancelFails` and `targetFails` are the ids whose update fails. */
  method SweepOnce(db: Database, connOk: bool, selectOk: bool, cancelFails: set<int>, targetFails: set<int>, now: Timestamp)
    modifies db`actions, db`targets
    ensures var ids := Selected(old(db.actions), connOk, selectOk, now);
      && db.actions == CancelAll(old(db.actions), ids, cancelFails)
      && db.targets == ExpireAll(old(db.targets), ids, targetFails, None)
  {
    var ids := Selected(db.actions, connOk, selectOk, now);
    ghost var actions0, targets0 := db.actions, db.targets;
    var i := 0;
    while i < |ids|
      invariant 0 <= i <= |ids|
      invariant db.actions == CancelAll(actions0, ids[..i], cancelFails)
      invariant db.targets == ExpireAll(targets0, ids[..i], targetFails, None)
    {
      var id := ids[i];
      assert ids[..i + 1][..i] == ids[..i];
      if id !in cancelFails {
        db.actions := CancelById(db.actions, id);
      }
      if id !in targetFails {
        db.targets := ExpireTargetsOf(db.targets, id, None);
      }
      i := i + 1;
    }
    assert ids[..i] == ids;
  }

  /**
   * The target update of an action runs even when its cancel failed, and
   * changes only the status: exactly the "pending" targets of the selected
   * ids whose update succeeded become "expired"; `last_update` and every
   * other field stay.
   */
  lemma TaskExpiresWithoutStamp(targets: seq<ActionTarget>, ids: seq<int>, targetFails: set<int>)
    ensures var newTargets := ExpireAll(targets, ids, targetFails, None);
      && |newTargets| == |targets|
      && forall k :: 0 <= k < |targets| ==>
           newTargets[k] == if targets[k].actionId in ids && targets[k].actionId !in targetFails && targets[k].status == "pending"
                            then targets[k].(status := "expired") else targets[k]
  {
    ExpireAllPointwise(targets, ids, targetFails, None);
  }

  /** Re-running at the same instant selects only actions whose cancel failed; with none failed it selects nothing. */
  lemma RerunSelectsOnlyFailed(actions: seq<Action>, now: Timestamp, cancelFails: set<int>)
    ensures var after := CancelAll(actions, Selected(actions, true, true, now), cancelFails);
      forall id :: id in Selected(after, true, true, now) ==> id in cancelFails
    ensures Selected(CancelAll(actions, Selected(actions, true, true, now), {}), true, true, now) == []
  {
    RerunFindsOnlyFailed(actions, now, true, cancelFails);
    RerunFindsOnlyFailed(actions, now, true, {});
  }

  /**
   * The two sweeps differ on an action that expires exactly now: this one
   * selects it, the fairing's strict comparison does not.
   */
  lemma BoundaryOnlyHere(a: Action, now: Timestamp)
    requires a.expiresAt == now && !a.canceled
    ensures Selected([a], true, true, now) == [a.id]
    ensures DueIds([a], now, false) == []
  {
  }
}
