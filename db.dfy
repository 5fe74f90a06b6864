/**
 * The server's SQLite store (patchpilot_server/src/db.rs). Each table is a
 * sequence of rows in rowid order; a statement's effect is a function over
 * those sequences, and the `Database` class applies it in place. Whether a
 * statement fails is an input (`ok`), since the model has no real database.
 */
module Db {
  import opened Wrappers
  import opened Models

  datatype DbError = RowNotFound | QueryFailed

  /** The id SQLite gives a new row: one more than the largest id so far, 1 in an empty table. */
  function NextRowId(ids: seq<int>): (n: int)
    ensures forall i :: i in ids ==> i < n
    ensures ids == [] ==> n == 1
  {
    if ids == [] then 1
    else
      var rest := NextRowId(ids[1..]);
      assert forall i :: i in ids ==> i == ids[0] || i in ids[1..];
      if ids[0] + 1 > rest then ids[0] + 1 else rest
  }

  /** The row `load_settings` inserts when the table is empty. */
  const DefaultSettings: ServerSettings :=
    ServerSettings(1, false, true, 30, 3600, true, "8.8.8.8", false)

  /**
   * `replace_into`: the row replaces any row with the same id and is
   * appended, as SQLite's REPLACE deletes the old row and inserts a new one;
   * no caller depends on where the row ends up.
   */
  function ReplaceRow(table: seq<ServerSettings>, row: ServerSettings): (r: seq<ServerSettings>)
    ensures |r| > 0 && r[|r| - 1] == row
    ensures forall x :: x in r && x.id != row.id <==> x in table && x.id != row.id
    ensures forall x :: x in r && x.id == row.id ==> x == row
  {
    if table == [] then [row]
    else if table[0].id == row.id then ReplaceRow(table[1..], row)
    else [table[0]] + ReplaceRow(table[1..], row)
  }

  /** The TTL `update_action_ttl` applies: the request, capped at the server default. */
  function ClampTtl(requested: int, serverDefault: int): (t: int)
    ensures t <= requested && t <= serverDefault
    ensures t == requested || t == serverDefault
  {
    if requested < serverDefault then requested else serverDefault
  }

  /** Seconds left before `expiresAt`, floored at zero (`fetch_action_ttl`). */
  function Remaining(expiresAt: Timestamp, now: Timestamp): (r: nat)
    ensures r == 0 <==> expiresAt <= now
    ensures expiresAt > now ==> now + r == expiresAt
  {
    if expiresAt > now then expiresAt - now else 0
  }

  /** `UPDATE actions SET expires_at = at WHERE id = id`. */
  function SetExpiry(actions: seq<Action>, id: int, at: Timestamp): (r: seq<Action>)
    ensures |r| == |actions|
    ensures forall i :: 0 <= i < |r| ==>
      r[i] == if actions[i].id == id then actions[i].(expiresAt := at) else actions[i]
  {
    seq(|actions|, i requires 0 <= i < |actions| =>
      if actions[i].id == id then actions[i].(expiresAt := at) else actions[i])
  }

  /** `SELECT ... FROM actions WHERE id = id` then `.first()`. */
  function FindAction(actions: seq<Action>, id: int): (r: Option<Action>)
    ensures r.Some? ==> r.value in actions && r.value.id == id
    ensures r.None? <==> forall a :: a in actions ==> a.id != id
  {
    if actions == [] then None
    else if actions[0].id == id then Some(actions[0])
    else FindAction(actions[1..], id)
  }

  /**
   * A TTL update followed by a TTL query at the same instant reports the
   * clamped TTL, floored at zero.
   */
  lemma UpdateThenFetchTtl(actions: seq<Action>, id: int, requested: int, serverDefault: int, now: Timestamp)
    requires UniqueActionIds(actions)
    requires exists a :: a in actions && a.id == id
    ensures var after := SetExpiry(actions, id, now + ClampTtl(requested, serverDefault));
      var found := FindAction(after, id);
      found.Some? && Remaining(found.value.expiresAt, now) == if ClampTtl(requested, serverDefault) > 0 then ClampTtl(requested, serverDefault) else 0
  {
    var at := now + ClampTtl(requested, serverDefault);
    var after := SetExpiry(actions, id, at);
    var k :| 0 <= k < |actions| && actions[k].id == id;
    assert after[k].id == id;
    var found := FindAction(after, id);
    var j :| 0 <= j < |after| && after[j] == found.value;
    assert actions[j].id == id;
    assert j == k;
  }

  /** Every table the server's handlers touch. */
  class Database {
    var actions: seq<Action>
    var targets: seq<ActionTarget>
    var history: seq<HistoryRow>
    var audit: seq<AuditRow>
    var settingsTable: seq<ServerSettings>
    var devices: seq<Device>
    var users: seq<User>
    var groups: seq<Group>
    var userGroups: seq<UserGroup>
    var roles: seq<Role>
    var userRoles: seq<UserRole>

    constructor ()
      ensures actions == [] && targets == [] && history == [] && audit == []
      ensures settingsTable == [] && devices == [] && users == [] && groups == []
      ensures userGroups == [] && roles == [] && userRoles == []
    {
      actions, targets, history, audit := [], [], [], [];
      settingsTable, devices, users, groups := [], [], [], [];
      userGroups, roles, userRoles := [], [], [];
    }

    /**
     * `load_settings`: the first row when there is one; on an empty table,
     * insert the default row and return it; any other read error is returned
     * as is, with nothing inserted.
     */
    method LoadSettings(readOk: bool, insertOk: bool) returns (r: Result<ServerSettings, DbError>)
      modifies this`settingsTable
      ensures !readOk ==> r == Err(QueryFailed) && settingsTable == old(settingsTable)
      ensures readOk && old(settingsTable) != [] ==>
        r == Ok(old(settingsTable)[0]) && settingsTable == old(settingsTable)
      ensures readOk && old(settingsTable) == [] && insertOk ==>
        r == Ok(DefaultSettings) && settingsTable == [DefaultSettings]
      ensures readOk && old(settingsTable) == [] && !insertOk ==>
        r == Err(QueryFailed) && settingsTable == []
    {
      if !readOk {
        return Err(QueryFailed);
      }
      if settingsTable != [] {
        return Ok(settingsTable[0]);
      }
      if !insertOk {
        return Err(QueryFailed);
      }
      settingsTable := settingsTable + [DefaultSettings];
      r := Ok(DefaultSettings);
    }

    /** `save_settings`: replace the row with the same id. */
    method SaveSettings(row: ServerSettings, ok: bool) returns (r: Result<(), DbError>)
      modifies this`settingsTable
      ensures ok ==> r.Ok? && settingsTable == ReplaceRow(old(settingsTable), row)
      ensures !ok ==> r == Err(QueryFailed) && settingsTable == old(settingsTable)
    {
      if !ok {
        return Err(QueryFailed);
      }
      settingsTable := ReplaceRow(settingsTable, row);
      r := Ok(());
    }

    /** `insert_history`: append one row. */
    method InsertHistory(row: HistoryRow, ok: bool) returns (r: Result<(), DbError>)
      modifies this`history
      ensures ok ==> r.Ok? && history == old(history) + [row]
      ensures !ok ==> r == Err(QueryFailed) && history == old(history)
    {
      if !ok {
        return Err(QueryFailed);
      }
      history := history + [row];
      r := Ok(());
    }

    /** `log_audit`: append one audit row with the given fields, stamped `now`. */
    method LogAudit(actor: string, action: string, target: Option<string>, details: Option<string>,
                    now: Timestamp, ok: bool) returns (r: Result<(), DbError>)
      modifies this`audit
      ensures ok ==> r.Ok? && audit == old(audit) + [AuditRow(actor, action, target, details, now)]
      ensures !ok ==> r == Err(QueryFailed) && audit == old(audit)
    {
      if !ok {
        return Err(QueryFailed);
      }
      audit := audit + [AuditRow(actor, action, target, details, now)];
      r := Ok(());
    }

    /**
     * `update_action_ttl`: move the action's expiry to `now` plus the
     * requested TTL capped at the server default; other rows are untouched.
     */
    method UpdateActionTtl(id: int, requested: int, settings: ServerSettings, now: Timestamp, ok: bool)
      returns (r: Result<(), DbError>)
      modifies this`actions
      ensures ok ==> r.Ok? && actions == SetExpiry(old(actions), id, now + ClampTtl(requested, settings.defaultActionTtlSeconds))
      ensures !ok ==> r == Err(QueryFailed) && actions == old(actions)
    {
      if !ok {
        return Err(QueryFailed);
      }
      var ttl := ClampTtl(requested, settings.defaultActionTtlSeconds);
      actions := SetExpiry(actions, id, now + ttl);
      r := Ok(());
    }

    /** `fetch_action_ttl`: the remaining seconds, never negative; RowNotFound for an unknown id. */
    function FetchActionTtl(id: int, now: Timestamp, ok: bool): (r: Result<nat, DbError>)
      reads this
      ensures !ok ==> r == Err(QueryFailed)
      ensures ok && (forall a :: a in actions ==> a.id != id) ==> r == Err(RowNotFound)
      ensures r.Ok? ==> exists a :: a in actions && a.id == id && r.value == Remaining(a.expiresAt, now)
      ensures ok && FindAction(actions, id).Some? ==> r == Ok(Remaining(FindAction(actions, id).value.expiresAt, now))
    {
      if !ok then Err(QueryFailed)
      else
        match FindAction(actions, id)
        case None => Err(RowNotFound)
        case Some(a) => Ok(Remaining(a.expiresAt, now))
    }
  }

  /**
   * Saving and then loading gives back the saved row whenever the table
   * holds no row with another id (the server keeps a single row).
   */
  lemma {:induction false} LoadAfterSave(table: seq<ServerSettings>, row: ServerSettings)
    requires forall x :: x in table ==> x.id == row.id
    ensures ReplaceRow(table, row) == [row]
  {
    if table != [] {
      LoadAfterSave(table[1..], row);
    }
  }
}
