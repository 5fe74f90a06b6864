/**
 * Rows of the server's tables (patchpilot_server/src/models.rs, and the
 * settings row of patchpilot_server/src/db.rs). Timestamps are whole seconds.
 * Columns that no modelled operation reads or writes are left out; surrogate
 * ids are kept only where an operation selects by them.
 */
module Models {
  import opened Wrappers

  type Timestamp = int

  /** A row of `actions`. */
  datatype Action = Action(
    id: int,
    actionType: string,
    parameters: Option<string>,
    author: Option<string>,
    createdAt: Timestamp,
    expiresAt: Timestamp,
    canceled: bool)

  /** A row of `action_targets`: one device's view of one action. */
  datatype ActionTarget = ActionTarget(
    actionId: int,
    deviceId: int,
    status: string,
    lastUpdate: Timestamp,
    response: Option<string>)

  /** A row of `history_log`. */
  datatype HistoryRow = HistoryRow(
    actionId: int,
    deviceName: Option<string>,
    actor: Option<string>,
    actionType: string,
    details: Option<string>,
    createdAt: Timestamp)

  /** A row of `audit`. */
  datatype AuditRow = AuditRow(
    actor: string,
    actionType: string,
    target: Option<string>,
    details: Option<string>,
    createdAt: Timestamp)

  /**
   * The single row of `server_settings`; the in-memory `ServerSettings`
   * carries the same eight fields and is modelled by the same type.
   */
  datatype ServerSettings = ServerSettings(
    id: int,
    autoApproveDevices: bool,
    autoRefreshEnabled: bool,
    autoRefreshSeconds: int,
    defaultActionTtlSeconds: int,
    actionPollingEnabled: bool,
    pingTargetIp: string,
    forceHttps: bool)

  /**
   * A row of `devices`, reduced to what the device routes use. `uuid` is the
   * column those routes filter on; the system-information columns are one
   * opaque value that no route inspects.
   */
  datatype Device = Device(
    id: int,
    uuid: string,
    deviceName: string,
    hostname: string,
    lastCheckin: Timestamp,
    approved: bool,
    systemInfo: string)

  datatype User = User(id: int, username: string, passwordHash: string)
  datatype Group = Group(id: int, name: string, description: Option<string>)
  datatype UserGroup = UserGroup(userId: int, groupId: int)
  datatype Role = Role(id: int, name: string)
  datatype UserRole = UserRole(userId: int, roleId: int)

  /** The status string a freshly submitted target carries (capital P). */
  const StatusPending: string := "Pending"

  /**
   * `NewActionTarget::pending`: the target row for `deviceId` of action
   * `actionId`, stamped with the current time and without a response.
   */
  function PendingTarget(actionId: int, deviceId: int, now: Timestamp): (t: ActionTarget)
    ensures t.actionId == actionId && t.deviceId == deviceId
    ensures t.status == StatusPending && t.response == None && t.lastUpdate == now
  {
    ActionTarget(actionId, deviceId, StatusPending, now, None)
  }

  /** Primary keys are unique. */
  predicate UniqueActionIds(actions: seq<Action>) {
    forall i, j :: 0 <= i < j < |actions| ==> actions[i].id != actions[j].id
  }
}
