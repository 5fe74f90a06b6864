/**
 * One pass of the `spawn_pending_cleanup` loop
 * (patchpilot_server/src/tasks/pending_cleanup.rs). The task keeps its own
 * `last_checkin` map across passes; each pass stamps every pending device
 * with now, keeps the pending devices whose stamp is under 15 seconds old,
 * and forgets the stamps of devices no longer pending. A poisoned lock makes
 * `unwrap` panic, which ends the task with nothing changed.
 */
module PendingCleanupTask {
  import opened Wrappers
  import opened State

  const WindowNanos: int := 15 * NanosPerSec

  /** `last_checkin` after the stamping loop: every given key at now, other entries as they were. */
  function Stamp(lastCheckin: map<string, Instant>, keys: set<string>, now: Instant): (r: map<string, Instant>)
    ensures r.Keys == lastCheckin.Keys + keys
    ensures forall id :: id in keys ==> r[id] == now
    ensures forall id :: id in lastCheckin && id !in keys ==> r[id] == lastCheckin[id]
  {
    map id | id in lastCheckin.Keys + keys :: if id in keys then now else lastCheckin[id]
  }

  /** Stamping one more device is one more update of the map. */
  lemma StampOneMore(lastCheckin: map<string, Instant>, keys: set<string>, id: string, now: Instant)
    ensures Stamp(lastCheckin, keys, now)[id := now] == Stamp(lastCheckin, keys + {id}, now)
  {
    var a := Stamp(lastCheckin, keys, now)[id := now];
    var b := Stamp(lastCheckin, keys + {id}, now);
    assert a.Keys == b.Keys;
    forall k | k in a.Keys ensures a[k] == b[k] {
    }
  }

  /** The pending retain: the devices whose stamp exists and is less than 15 s old. */
  function RetainStamped(pending: map<string, Instant>, lastCheckin: map<string, Instant>, now: Instant): (r: map<string, Instant>)
    ensures forall id :: id in r <==> id in pending && id in lastCheckin && Elapsed(now, lastCheckin[id]) < WindowNanos
    ensures forall id :: id in r ==> r[id] == pending[id]
  {
    map id | id in pending && id in lastCheckin && Elapsed(now, lastCheckin[id]) < WindowNanos :: pending[id]
  }

  /** The `last_checkin` retain: the stamps of devices still pending. */
  function Forget(lastCheckin: map<string, Instant>, pending: map<string, Instant>): (r: map<string, Instant>)
    ensures r.Keys == lastCheckin.Keys * pending.Keys
    ensures forall id :: id in r ==> r[id] == lastCheckin[id]
  {
    map id | id in lastCheckin && id in pending :: lastCheckin[id]
  }

  /**
   * A whole pass: the pending map comes out unchanged (the retain cannot
   * evict a device it has just stamped with now), and `last_checkin` holds
   * exactly the pending devices, all stamped with now.
   */
  lemma PassNeverEvicts(pending: map<string, Instant>, lastCheckin: map<string, Instant>, now: Instant)
    ensures var stamped := Stamp(lastCheckin, pending.Keys, now);
      var kept := RetainStamped(pending, stamped, now);
      && kept == pending
      && Forget(stamped, kept).Keys == pending.Keys
      && forall id :: id in Forget(stamped, kept) ==> Forget(stamped, kept)[id] == now
  {
    var stamped := Stamp(lastCheckin, pending.Keys, now);
    forall id | id in pending
      ensures Elapsed(now, stamped[id]) < WindowNanos
    {
      assert stamped[id] == now;
    }
  }

  /**
   * The pass. The outcome is None when the lock is poisoned (the task
   * panics), otherwise the new `last_checkin`.
   */
  method PendingCleanupPass(state: AppState, lastCheckin: map<string, Instant>, now: Instant, lockOk: bool)
    returns (r: Option<map<string, Instant>>)
    modifies state`pendingDevices
    ensures !lockOk ==> r == None && state.pendingDevices == old(state.pendingDevices)
    ensures lockOk ==> r.Some?
    ensures lockOk ==>
      state.pendingDevices == RetainStamped(old(state.pendingDevices), Stamp(lastCheckin, old(state.pendingDevices).Keys, now), now)
    ensures r.Some? ==> r.value == Forget(Stamp(lastCheckin, old(state.pendingDevices).Keys, now), state.pendingDevices)
  {
    if !lockOk {
      return None;
    }
    var pending := state.pendingDevices;
    var checkins := lastCheckin;
    var todo := pending.Keys;
    while todo != {}
      invariant todo <= pending.Keys
      invariant checkins == Stamp(lastCheckin, pending.Keys - todo, now)
      decreases todo
    {
      var id :| id in todo;
      StampOneMore(lastCheckin, pending.Keys - todo, id, now);
      assert (pending.Keys - todo) + {id} == pending.Keys - (todo - {id});
      checkins := checkins[id := now];
      todo := todo - {id};
    }
    assert pending.Keys - todo == pending.Keys;
    state.pendingDevices := RetainStamped(pending, checkins, now);
    checkins := Forget(checkins, state.pendingDevices);
    r := Some(checkins);
  }
}
