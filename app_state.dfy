/**
 * The server-wide state (patchpilot_server/src/state.rs): the map of
 * pending devices to the instant of their last heartbeat, the shared
 * settings, and an optional audit closure. Instants are integers in
 * nanoseconds, so that `as_secs()` truncation is explicit; whether a lock is
 * poisoned is an input.
 */
module State {
  import opened Wrappers
  import opened Models
  import opened Db

  type Instant = int

  const NanosPerSec: int := 1_000_000_000

  /** `now.duration_since(t)` in nanoseconds: saturates at zero when `t` is later than now. */
  function Elapsed(now: Instant, t: Instant): (d: nat)
    ensures t <= now ==> d == now - t
    ensures now <= t ==> d == 0
  {
    if now > t then now - t else 0
  }

  /** `now.duration_since(t).as_secs()`: whole seconds, rounded down. */
  function AgeSecs(now: Instant, t: Instant): (s: nat)
    ensures s * NanosPerSec <= Elapsed(now, t) < (s + 1) * NanosPerSec
  {
    Elapsed(now, t) / NanosPerSec
  }

  /** `retain(|_, t| age(t) < max_age_secs)`: the entries younger than the limit, with their instants. */
  function RetainFresh(pending: map<string, Instant>, maxAgeSecs: nat, now: Instant): (r: map<string, Instant>)
    ensures r.Keys <= pending.Keys
    ensures forall id :: id in r <==> id in pending && AgeSecs(now, pending[id]) < maxAgeSecs
    ensures forall id :: id in r ==> r[id] == pending[id]
  {
    map id | id in pending && AgeSecs(now, pending[id]) < maxAgeSecs :: pending[id]
  }

  /** Cleaning up twice at the same instant is the same as once. */
  lemma RetainFreshIdempotent(pending: map<string, Instant>, maxAgeSecs: nat, now: Instant)
    ensures RetainFresh(RetainFresh(pending, maxAgeSecs, now), maxAgeSecs, now) == RetainFresh(pending, maxAgeSecs, now)
  {
  }

  /** A device that has just sent a heartbeat survives any cleanup with a positive limit at that instant. */
  lemma HeartbeatSurvivesCleanup(pending: map<string, Instant>, id: string, maxAgeSecs: nat, now: Instant)
    requires maxAgeSecs > 0
    ensures id in RetainFresh(pending[id := now], maxAgeSecs, now)
  {
    assert AgeSecs(now, now) == 0;
  }

  class AppState {
    var pendingDevices: map<string, Instant>
    var settings: ServerSettings
    /** Whether an audit closure is attached (`log_audit` is `Some`). */
    const hasAudit: bool

    constructor (settings0: ServerSettings, hasAudit0: bool)
      ensures pendingDevices == map[] && settings == settings0 && hasAudit == hasAudit0
    {
      pendingDevices := map[];
      settings := settings0;
      hasAudit := hasAudit0;
    }

    /**
     * `update_pending_device`: record the heartbeat instant, inserting or
     * overwriting; a poisoned lock leaves the map as it was.
     */
    method UpdatePendingDevice(id: string, now: Instant, lockOk: bool)
      modifies this`pendingDevices
      ensures pendingDevices == if lockOk then old(pendingDevices)[id := now] else old(pendingDevices)
    {
      if lockOk {
        pendingDevices := pendingDevices[id := now];
      }
    }

    /**
     * `cleanup_stale_devices`: keep exactly the entries younger than
     * `maxAgeSecs` whole seconds; a poisoned lock leaves the map as it was.
     */
    method CleanupStaleDevices(maxAgeSecs: nat, now: Instant, lockOk: bool)
      modifies this`pendingDevices
      ensures pendingDevices == if lockOk then RetainFresh(old(pendingDevices), maxAgeSecs, now) else old(pendingDevices)
    {
      if lockOk {
        pendingDevices := RetainFresh(pendingDevices, maxAgeSecs, now);
      }
    }

    /**
     * `log_audit`: without a closure, Ok and nothing written; with one, the
     * closure's outcome (the closure being `db::log_audit`).
     */
    method LogAudit(db: Database, actor: string, actionType: string, target: Option<string>, details: Option<string>,
                    now: Timestamp, ok: bool) returns (r: Result<(), DbError>)
      modifies db`audit
      ensures !hasAudit ==> r.Ok? && db.audit == old(db.audit)
      ensures hasAudit && ok ==> r.Ok? && db.audit == old(db.audit) + [AuditRow(actor, actionType, target, details, now)]
      ensures hasAudit && !ok ==> r.Err? && db.audit == old(db.audit)
    {
      if hasAudit {
        r := db.LogAudit(actor, actionType, target, details, now, ok);
      } else {
        r := Ok(());
      }
    }
  }
}
