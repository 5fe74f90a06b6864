/**
 * `update_settings` (patchpilot_server/src/routes/settings.rs): load the
 * settings row, overwrite each field the form carries, save the row, mirror
 * it into the shared in-memory settings, and try one "update_settings"
 * audit row.
 */
module SettingsRoute {
  import opened Wrappers
  import opened Models
  import opened Http
  import opened Db
  import opened State

  datatype SettingsForm = SettingsForm(
    autoApproveDevices: Option<bool>,
    autoRefreshEnabled: Option<bool>,
    autoRefreshSeconds: Option<int>,
    defaultActionTtlSeconds: Option<int>,
    actionPollingEnabled: Option<bool>,
    pingTargetIp: Option<string>,
    forceHttps: Option<bool>)

  const EmptyForm: SettingsForm := SettingsForm(None, None, None, None, None, None, None)

  /** The row after the form is applied: a present field wins, an absent one keeps the loaded value. */
  function Merge(row: ServerSettings, form: SettingsForm): (r: ServerSettings)
    ensures r.id == row.id
    ensures r.autoApproveDevices == form.autoApproveDevices.GetOr(row.autoApproveDevices)
    ensures r.autoRefreshEnabled == form.autoRefreshEnabled.GetOr(row.autoRefreshEnabled)
    ensures r.autoRefreshSeconds == form.autoRefreshSeconds.GetOr(row.autoRefreshSeconds)
    ensures r.defaultActionTtlSeconds == form.defaultActionTtlSeconds.GetOr(row.defaultActionTtlSeconds)
    ensures r.actionPollingEnabled == form.actionPollingEnabled.GetOr(row.actionPollingEnabled)
    ensures r.pingTargetIp == form.pingTargetIp.GetOr(row.pingTargetIp)
    ensures r.forceHttps == form.forceHttps.GetOr(row.forceHttps)
  {
    ServerSettings(
      row.id,
      form.autoApproveDevices.GetOr(row.autoApproveDevices),
      form.autoRefreshEnabled.GetOr(row.autoRefreshEnabled),
      form.autoRefreshSeconds.GetOr(row.autoRefreshSeconds),
      form.defaultActionTtlSeconds.GetOr(row.defaultActionTtlSeconds),
      form.actionPollingEnabled.GetOr(row.actionPollingEnabled),
      form.pingTargetIp.GetOr(row.pingTargetIp),
      form.forceHttps.GetOr(row.forceHttps))
  }

  /** An all-absent form leaves the row as it was. */
  lemma EmptyFormKeepsRow(row: ServerSettings)
    ensures Merge(row, EmptyForm) == row
  {
  }

  /** Submitting the same form twice is the same as once. */
  lemma MergeIdempotent(row: ServerSettings, form: SettingsForm)
    ensures Merge(Merge(row, form), form) == Merge(row, form)
  {
  }

  /** A form with every field present determines the row apart from its id. */
  lemma FullFormOverwrites(a: ServerSettings, b: ServerSettings, form: SettingsForm)
    requires form.autoApproveDevices.Some? && form.autoRefreshEnabled.Some? && form.autoRefreshSeconds.Some?
    requires form.defaultActionTtlSeconds.Some? && form.actionPollingEnabled.Some? && form.pingTargetIp.Some?
    requires form.forceHttps.Some? && a.id == b.id
    ensures Merge(a, form) == Merge(b, form)
  {
  }

  /** The row `load_settings` yields when it succeeds. */
  function Loaded(table: seq<ServerSettings>): ServerSettings {
    if table == [] then DefaultSettings else table[0]
  }

  /** Whether `load_settings` succeeds: the read succeeds, and on an empty table the default insert too. */
  predicate LoadSucceeds(table: seq<ServerSettings>, readOk: bool, insertOk: bool) {
    readOk && (table != [] || insertOk)
  }

  /** The handler's field-by-field overwrite of the loaded row: each present field replaces the row's. */
  method ApplyForm(loaded: ServerSettings, form: SettingsForm) returns (row: ServerSettings)
    ensures row == Merge(loaded, form)
  {
    row := loaded;
    row := row.(autoApproveDevices := form.autoApproveDevices.GetOr(row.autoApproveDevices));
    row := row.(autoRefreshEnabled := form.autoRefreshEnabled.GetOr(row.autoRefreshEnabled));
    row := row.(autoRefreshSeconds := form.autoRefreshSeconds.GetOr(row.autoRefreshSeconds));
    row := row.(defaultActionTtlSeconds := form.defaultActionTtlSeconds.GetOr(row.defaultActionTtlSeconds));
    row := row.(actionPollingEnabled := form.actionPollingEnabled.GetOr(row.actionPollingEnabled));
    row := row.(pingTargetIp := form.pingTargetIp.GetOr(row.pingTargetIp));
    row := row.(forceHttps := form.forceHttps.GetOr(row.forceHttps));
  }

  /**
   * The handler. The flags say whether taking a connection, reading,
   * inserting the default, saving, taking the write lock and auditing
   * succeed.
   */
  method UpdateSettings(db: Database, state: AppState, form: SettingsForm, username: string, now: Timestamp,
                        connOk: bool, readOk: bool, insertOk: bool, saveOk: bool, lockOk: bool, auditOk: bool)
    returns (status: Status)
    modifies db`settingsTable, db`audit, state`settings
    ensures var ok := connOk && LoadSucceeds(old(db.settingsTable), readOk, insertOk) && saveOk;
      status == if ok then OK else InternalServerError
    ensures var merged := Merge(Loaded(old(db.settingsTable)), form);
      && (connOk && LoadSucceeds(old(db.settingsTable), readOk, insertOk) && saveOk ==>
            db.settingsTable == ReplaceRow(if old(db.settingsTable) == [] then [DefaultSettings] else old(db.settingsTable), merged)
            && state.settings == (if lockOk then merged else old(state.settings))
            && db.audit == old(db.audit) + (if auditOk then [AuditRow(username, "update_settings", None, Some("Updated server settings"), now)] else []))
      && (status != OK ==> state.settings == old(state.settings) && db.audit == old(db.audit))
    ensures !connOk ==> db.settingsTable == old(db.settingsTable)
    ensures connOk && !(LoadSucceeds(old(db.settingsTable), readOk, insertOk) && saveOk) ==>
      db.settingsTable == (if old(db.settingsTable) == [] && readOk && insertOk then [DefaultSettings] else old(db.settingsTable))
  {
    if !connOk {
      return InternalServerError;
    }
    var loaded := db.LoadSettings(readOk, insertOk);
    if loaded.Err? {
      return InternalServerError;
    }
    var row := ApplyForm(loaded.value, form);
    var saved := db.SaveSettings(row, saveOk);
    if saved.Err? {
      return InternalServerError;
    }
    if lockOk {
      state.settings := row;
    }
    var _ := db.LogAudit(username, "update_settings", None, Some("Updated server settings"), now, auditOk);
    status := OK;
  }

  /**
   * With the usual single settings row, a later load returns exactly what
   * was saved, which is also what the in-memory mirror holds.
   */
  lemma MirrorMatchesStore(row0: ServerSettings, form: SettingsForm)
    ensures Loaded(ReplaceRow([row0], Merge(Loaded([row0]), form))) == Merge(row0, form)
  {
    LoadAfterSave([row0], Merge(row0, form));
  }
}
