/**
 * One iteration of `PendingCleanupFairing`
 * (patchpilot_server/src/pending_cleanup.rs): derive the age limit from the
 * shared settings and clean the pending-device map once with it.
 */
module PendingCleanupFairing {
  import opened Models
  import opened State

  /**
   * The age limit: the auto-refresh interval but at least 30 s, or 60 s when
   * the settings lock is poisoned. It is never below 30, so the cast to
   * `u64` never sees a negative value.
   */
  function MaxAge(settingsReadable: bool, autoRefreshSeconds: int): (r: nat)
    ensures r >= 30
    ensures settingsReadable ==> r >= autoRefreshSeconds && (r == autoRefreshSeconds || r == 30)
    ensures !settingsReadable ==> r == 60
  {
    if !settingsReadable then 60
    else if autoRefreshSeconds > 30 then autoRefreshSeconds else 30
  }

  /** The iteration: one `cleanup_stale_devices` with the derived limit. */
  method CleanupIteration(state: AppState, settingsReadable: bool, now: Instant, pendingLockOk: bool)
    modifies state`pendingDevices
    ensures state.pendingDevices ==
      if pendingLockOk then RetainFresh(old(state.pendingDevices), MaxAge(settingsReadable, state.settings.autoRefreshSeconds), now)
      else old(state.pendingDevices)
  {
    var maxAge := MaxAge(settingsReadable, state.settings.autoRefreshSeconds);
    state.CleanupStaleDevices(maxAge, now, pendingLockOk);
  }

  /** A device seen within the last 30 whole seconds is never removed by this fairing. */
  lemma RecentDevicesSurvive(pending: map<string, Instant>, settingsReadable: bool, autoRefreshSeconds: int,
                             id: string, now: Instant)
    requires id in pending && AgeSecs(now, pending[id]) < 30
    ensures id in RetainFresh(pending, MaxAge(settingsReadable, autoRefreshSeconds), now)
  {
  }
}
