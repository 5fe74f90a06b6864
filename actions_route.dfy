/**
 * The action routes (patchpilot_server/src/routes/actions.rs). Each handler
 * runs its statements in order and stops at the first failing one, keeping
 * the effects of those before it (there is no transaction). `failAt` says how
 * many of the handler's statements succeed; taking the pool connection is
 * statement 0.
 */
module ActionRoutes {
  import opened Wrappers
  import opened Models
  import opened Http
  import opened Db
  import opened Text
  import opened Sorting

  const DefaultTtlSeconds: int := 3600
  const StatusCompleted: string := "completed"

  datatype SubmitActionForm = SubmitActionForm(command: string, targetDeviceId: int, ttlSeconds: Option<int>)

  function ActionIds(actions: seq<Action>): (ids: seq<int>)
    ensures forall a :: a in actions ==> a.id in ids
  {
    if actions == [] then [] else [actions[0].id] + ActionIds(actions[1..])
  }

  /** The id the action insert receives. */
  function NextActionId(actions: seq<Action>): (id: int)
    ensures forall a :: a in actions ==> a.id < id
  {
    NextRowId(ActionIds(actions))
  }

  /** `ORDER BY id DESC` then `.first()`: the largest id, if any. */
  function MaxActionId(actions: seq<Action>): (r: Option<int>)
    ensures r.None? <==> actions == []
    ensures r.Some? ==> (exists a :: a in actions && a.id == r.value) && forall a :: a in actions ==> a.id <= r.value
  {
    if actions == [] then None
    else
      match MaxActionId(actions[1..])
      case None => Some(actions[0].id)
      case Some(m) => Some(if actions[0].id > m then actions[0].id else m)
  }

  /** The action row `submit_action` inserts. */
  function NewAction(form: SubmitActionForm, username: string, now: Timestamp, id: int): (a: Action)
    ensures a.id == id && a.actionType == form.command && !a.canceled && a.author == Some(username) && a.createdAt == now
    ensures form.ttlSeconds.None? ==> a.expiresAt == now + 3600
    ensures form.ttlSeconds.Some? ==> a.expiresAt - a.createdAt == form.ttlSeconds.value
  {
    var ttl := form.ttlSeconds.GetOr(DefaultTtlSeconds);
    Action(id, form.command, None, Some(username), now, now + ttl, false)
  }

  /**
   * Reading back the largest id right after appending a row with the next
   * id yields that row's id.
   */
  lemma ReadBackIsNewId(actions: seq<Action>, a: Action)
    requires a.id == NextActionId(actions)
    ensures MaxActionId(actions + [a]) == Some(a.id)
  {
    var all := actions + [a];
    var m := MaxActionId(all);
    assert a in all;
    var b :| b in all && b.id == m.value;
    assert b == a || b in actions;
  }

  /**
   * The new action expires `ttl` seconds (default 3600) after creation, is
   * not canceled, names the submitter as author, and its id is above every
   * existing id.
   */
  lemma NewActionShape(actions: seq<Action>, form: SubmitActionForm, username: string, now: Timestamp)
    ensures var a := NewAction(form, username, now, NextActionId(actions));
      && a.expiresAt == now + (if form.ttlSeconds.None? then 3600 else form.ttlSeconds.value)
      && !a.canceled && a.author == Some(username) && a.createdAt == now && a.actionType == form.command
      && forall b :: b in actions ==> b.id < a.id
  {
  }

  /** `UPDATE action_targets SET response, status = 'completed', last_update WHERE action_id AND device_id`. */
  function MarkCompleted(targets: seq<ActionTarget>, actionId: int, deviceId: int, body: string, now: Timestamp)
    : (r: seq<ActionTarget>)
    ensures |r| == |targets|
    ensures forall i :: 0 <= i < |r| ==>
      if targets[i].actionId == actionId && targets[i].deviceId == deviceId
      then r[i] == targets[i].(response := Some(body), status := StatusCompleted, lastUpdate := now)
      else r[i] == targets[i]
  {
    seq(|targets|, i requires 0 <= i < |targets| =>
      var t := targets[i];
      if t.actionId == actionId && t.deviceId == deviceId
      then t.(response := Some(body), status := StatusCompleted, lastUpdate := now)
      else t)
  }

  predicate CompletedBefore(t: ActionTarget, cutoff: Timestamp) {
    t.status == StatusCompleted && t.lastUpdate < cutoff
  }

  /**
   * `DELETE FROM action_targets WHERE status = 'completed' AND last_update < cutoff`:
   * exactly those rows go, the others stay in order.
   */
  function DeleteCompleted(targets: seq<ActionTarget>, cutoff: Timestamp): (r: seq<ActionTarget>)
    ensures forall t :: t in r <==> t in targets && !CompletedBefore(t, cutoff)
    ensures forall t :: multiset(r)[t] == if CompletedBefore(t, cutoff) then 0 else multiset(targets)[t]
    ensures |r| <= |targets|
  {
    if targets == [] then []
    else
      assert targets == [targets[0]] + targets[1..];
      if CompletedBefore(targets[0], cutoff) then DeleteCompleted(targets[1..], cutoff)
      else [targets[0]] + DeleteCompleted(targets[1..], cutoff)
  }

  /**
   * The delete works row by row: on two consecutive stretches of the table
   * it keeps the survivors of the first, then those of the second, so the
   * survivors keep their table order.
   */
  lemma {:induction false} DeleteCompletedAppend(a: seq<ActionTarget>, b: seq<ActionTarget>, cutoff: Timestamp)
    ensures DeleteCompleted(a + b, cutoff) == DeleteCompleted(a, cutoff) + DeleteCompleted(b, cutoff)
  {
    if a == [] {
      assert a + b == b;
    } else {
      assert (a + b)[1..] == a[1..] + b;
      DeleteCompletedAppend(a[1..], b, cutoff);
    }
  }

  /** A target reported at `reported` is removed by any cleanup at a later instant. */
  lemma ReportedTargetsAreCleanedLater(targets: seq<ActionTarget>, actionId: int, deviceId: int, body: string,
                                       reported: Timestamp, cutoff: Timestamp)
    requires reported < cutoff
    ensures forall t :: t in DeleteCompleted(MarkCompleted(targets, actionId, deviceId, body, reported), cutoff) ==>
      !(t.actionId == actionId && t.deviceId == deviceId)
  {
    var marked := MarkCompleted(targets, actionId, deviceId, body, reported);
    forall t | t in DeleteCompleted(marked, cutoff)
      ensures !(t.actionId == actionId && t.deviceId == deviceId)
    {
      var i :| 0 <= i < |marked| && marked[i] == t;
    }
  }

  /** `SELECT device_id, status, response FROM action_targets WHERE action_id = id`, in table order. */
  function TargetsOf(targets: seq<ActionTarget>, actionId: int): (r: seq<(int, string, Option<string>)>)
    ensures |r| <= |targets|
    ensures forall x :: x in r <==> exists t :: t in targets && t.actionId == actionId && x == (t.deviceId, t.status, t.response)
  {
    if targets == [] then []
    else
      var rest := TargetsOf(targets[1..], actionId);
      var t := targets[0];
      assert forall u :: u in targets <==> u == t || u in targets[1..];
      if t.actionId == actionId then [(t.deviceId, t.status, t.response)] + rest else rest
  }

  /**
   * The query reads the table row by row: on two consecutive stretches of
   * the table it returns the first stretch's rows, then the second's, one
   * per matching target, so duplicates and table order are kept.
   */
  lemma {:induction false} TargetsOfAppend(a: seq<ActionTarget>, b: seq<ActionTarget>, actionId: int)
    ensures TargetsOf(a + b, actionId) == TargetsOf(a, actionId) + TargetsOf(b, actionId)
  {
    if a == [] {
      assert a + b == b;
    } else {
      assert (a + b)[1..] == a[1..] + b;
      TargetsOfAppend(a[1..], b, actionId);
    }
  }

  /** One target yields its own row when it belongs to the action, and none otherwise. */
  lemma TargetsOfOne(t: ActionTarget, actionId: int)
    ensures TargetsOf([t], actionId) == if t.actionId == actionId then [(t.deviceId, t.status, t.response)] else []
  {
    assert [t][1..] == [];
  }

  /** `created_at DESC`: `a` may be listed before `b`. */
  predicate NewerFirst(a: Action, b: Action) { a.createdAt >= b.createdAt }

  /**
   * `list_actions`: every action, newest first.
   */
  function ListActions(db: Database, connOk: bool): (r: Result<seq<Action>, Status>)
    reads db
    ensures !connOk ==> r == Err(InternalServerError)
    ensures connOk ==> (r.Ok? && multiset(r.value) == multiset(db.actions)
      && forall i, j :: 0 <= i < j < |r.value| ==> r.value[i].createdAt >= r.value[j].createdAt)
  {
    if !connOk then Err(InternalServerError)
    else Ok(SortBy(db.actions, NewerFirst))
  }

  /** `list_action_targets`: the action's targets as (device id, status, response). */
  function ListActionTargets(db: Database, actionId: int, connOk: bool): (r: Result<seq<(int, string, Option<string>)>, Status>)
    reads db
    ensures !connOk ==> r == Err(InternalServerError)
    ensures connOk ==> r == Ok(TargetsOf(db.targets, actionId))
  {
    if !connOk then Err(InternalServerError) else Ok(TargetsOf(db.targets, actionId))
  }

  function SubmitDetails(form: SubmitActionForm): string {
    "Target device: " + IntToString(form.targetDeviceId)
  }

  /** The "action.submit" history row. */
  function SubmitHistory(id: int, form: SubmitActionForm, username: string, now: Timestamp): HistoryRow {
    HistoryRow(id, None, Some(username), "action.submit", Some(SubmitDetails(form)), now)
  }

  /** The "action.submit" audit row, naming the action id as target. */
  function SubmitAudit(id: int, form: SubmitActionForm, username: string, now: Timestamp): AuditRow {
    AuditRow(username, "action.submit", Some(IntToString(id)), Some(SubmitDetails(form)), now)
  }

  /**
   * `submit_action`: insert the action (TTL defaulting to 3600), read its id
   * back as the largest id, insert one "Pending" target and one
   * "action.submit" history row; then try one audit row, whose outcome does
   * not change the answer.
   */
  method SubmitAction(db: Database, form: SubmitActionForm, username: string, now: Timestamp, failAt: nat)
    returns (r: Result<Status, Status>)
    modifies db`actions, db`targets, db`history, db`audit
    ensures failAt >= 5 <==> r.Ok?
    ensures r.Ok? ==> r == Ok(Created)
    ensures r.Err? ==> r.error == InternalServerError
    ensures failAt < 2 ==> db.actions == old(db.actions)
    ensures failAt >= 2 ==> db.actions == old(db.actions) + [NewAction(form, username, now, NextActionId(old(db.actions)))]
    ensures failAt < 4 ==> db.targets == old(db.targets)
    ensures failAt >= 4 ==> db.targets == old(db.targets) + [PendingTarget(NextActionId(old(db.actions)), form.targetDeviceId, now)]
    ensures failAt < 5 ==> db.history == old(db.history)
    ensures failAt >= 5 ==> db.history == old(db.history) + [SubmitHistory(NextActionId(old(db.actions)), form, username, now)]
    ensures failAt < 6 ==> db.audit == old(db.audit)
    ensures failAt >= 6 ==> db.audit == old(db.audit) + [SubmitAudit(NextActionId(old(db.actions)), form, username, now)]
  {
    if failAt < 1 {
      return Err(InternalServerError);
    }
    var id := NextActionId(db.actions);
    var action := NewAction(form, username, now, id);
    ReadBackIsNewId(db.actions, action);
    if failAt < 2 {
      return Err(InternalServerError);
    }
    db.actions := db.actions + [action];
    if failAt < 3 {
      return Err(InternalServerError);
    }
    var readBack := MaxActionId(db.actions);
    var actionId := readBack.value;
    assert actionId == id;
    r := RecordSubmission(db, actionId, form, username, now, failAt);
  }

  /**
   * The rows `submit_action` writes after the action itself: the pending
   * target, the history row and then the audit row, stopping at the first
   * failure of the first two.
   */
  method RecordSubmission(db: Database, actionId: int, form: SubmitActionForm, username: string, now: Timestamp, failAt: nat)
    returns (r: Result<Status, Status>)
    modifies db`targets, db`history, db`audit
    ensures failAt >= 5 <==> r.Ok?
    ensures r.Ok? ==> r == Ok(Created)
    ensures r.Err? ==> r.error == InternalServerError
    ensures db.targets == if failAt >= 4 then old(db.targets) + [PendingTarget(actionId, form.targetDeviceId, now)] else old(db.targets)
    ensures db.history == if failAt >= 5 then old(db.history) + [SubmitHistory(actionId, form, username, now)] else old(db.history)
    ensures db.audit == if failAt >= 6 then old(db.audit) + [SubmitAudit(actionId, form, username, now)] else old(db.audit)
  {
    if failAt < 4 {
      return Err(InternalServerError);
    }
    db.targets := db.targets + [PendingTarget(actionId, form.targetDeviceId, now)];
    var h := db.InsertHistory(SubmitHistory(actionId, form, username, now), failAt >= 5);
    if h.Err? {
      return Err(InternalServerError);
    }
    var audit := SubmitAudit(actionId, form, username, now);
    var _ := db.LogAudit(audit.actor, audit.actionType, audit.target, audit.details, now, failAt >= 6);
    r := Ok(Created);
  }

  /**
   * `cancel_action`: pull `expires_at` back to now on the matching action
   * (nothing else on it, and no target, changes) and append one
   * "action.cancel" history row; then try one audit row.
   */
  method CancelAction(db: Database, actionId: int, username: string, now: Timestamp, failAt: nat)
    returns (r: Result<Status, Status>)
    modifies db`actions, db`history, db`audit
    ensures failAt >= 3 <==> r.Ok?
    ensures r.Ok? ==> r == Ok(OK)
    ensures r.Err? ==> r.error == InternalServerError
    ensures db.actions == if failAt >= 2 then SetExpiry(old(db.actions), actionId, now) else old(db.actions)
    ensures db.history == if failAt >= 3 then old(db.history) + [HistoryRow(actionId, None, Some(username), "action.cancel", None, now)]
                          else old(db.history)
    ensures db.audit == if failAt >= 4 then old(db.audit) + [AuditRow(username, "action.cancel", Some(IntToString(actionId)), None, now)]
                        else old(db.audit)
  {
    if failAt < 2 {
      return Err(InternalServerError);
    }
    db.actions := SetExpiry(db.actions, actionId, now);
    var h := db.InsertHistory(HistoryRow(actionId, None, Some(username), "action.cancel", None, now), failAt >= 3);
    if h.Err? {
      return Err(InternalServerError);
    }
    var _ := db.LogAudit(username, "action.cancel", Some(IntToString(actionId)), None, now, failAt >= 4);
    r := Ok(OK);
  }

  /**
   * `update_action_ttl` route: read the settings row (a missing row is an
   * error here, not a default) and apply the clamped TTL.
   */
  method UpdateActionTtlRoute(db: Database, actionId: int, requested: int, now: Timestamp, failAt: nat)
    returns (r: Result<Status, Status>)
    modifies db`actions
    ensures r.Ok? <==> failAt >= 3 && old(db.settingsTable) != []
    ensures r.Ok? ==> r.value == OK
    ensures r.Err? ==> r.error == InternalServerError
    ensures r.Ok? ==> db.actions == SetExpiry(old(db.actions), actionId,
                                      now + ClampTtl(requested, old(db.settingsTable)[0].defaultActionTtlSeconds))
    ensures r.Err? ==> db.actions == old(db.actions)
  {
    if failAt < 2 || db.settingsTable == [] {
      return Err(InternalServerError);
    }
    var row := db.settingsTable[0];
    var u := db.UpdateActionTtl(actionId, requested, row, now, failAt >= 3);
    if u.Err? {
      return Err(InternalServerError);
    }
    r := Ok(OK);
  }

  /** `get_action_ttl`: the remaining seconds; an unknown id is an internal error here. */
  function GetActionTtl(db: Database, actionId: int, now: Timestamp, failAt: nat): (r: Result<nat, Status>)
    reads db
    ensures r.Ok? <==> failAt >= 2 && exists a :: a in db.actions && a.id == actionId
    ensures r.Err? ==> r.error == InternalServerError
    ensures r.Ok? ==> r.value == Remaining(FindAction(db.actions, actionId).value.expiresAt, now)
  {
    if failAt < 1 then Err(InternalServerError)
    else
      match db.FetchActionTtl(actionId, now, failAt >= 2)
      case Ok(n) => Ok(n)
      case Err(_) => Err(InternalServerError)
  }

  /**
   * `pending_cleanup`: delete every completed target last updated strictly
   * before now; then try one "action.pending_cleanup" audit row.
   */
  method PendingCleanup(db: Database, username: string, now: Timestamp, failAt: nat)
    returns (r: Result<Status, Status>)
    modifies db`targets, db`audit
    ensures failAt >= 2 <==> r.Ok?
    ensures r.Ok? ==> r == Ok(OK)
    ensures r.Err? ==> r.error == InternalServerError
    ensures db.targets == if failAt >= 2 then DeleteCompleted(old(db.targets), now) else old(db.targets)
    ensures db.audit == if failAt >= 3 then old(db.audit) + [AuditRow(username, "action.pending_cleanup", None, None, now)]
                        else old(db.audit)
  {
    if failAt < 2 {
      return Err(InternalServerError);
    }
    db.targets := DeleteCompleted(db.targets, now);
    var _ := db.LogAudit(username, "action.pending_cleanup", None, None, now, failAt >= 3);
    r := Ok(OK);
  }

  /**
   * `report_action_result`: every target of (action, device) gets the body
   * as response, status "completed" and `last_update` now; Ok even when no
   * row matches.
   */
  method ReportActionResult(db: Database, actionId: int, deviceId: int, body: string, now: Timestamp, failAt: nat)
    returns (r: Result<Status, Status>)
    modifies db`targets
    ensures failAt >= 2 <==> r.Ok?
    ensures r.Ok? ==> r == Ok(OK)
    ensures r.Err? ==> r.error == InternalServerError
    ensures db.targets == if failAt >= 2 then MarkCompleted(old(db.targets), actionId, deviceId, body, now) else old(db.targets)
  {
    if failAt < 2 {
      return Err(InternalServerError);
    }
    db.targets := MarkCompleted(db.targets, actionId, deviceId, body, now);
    r := Ok(OK);
  }
}
