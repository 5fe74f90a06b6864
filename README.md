# PatchPilot core, modelled in Dafny

PatchPilot is a patch-management system. A Rust (Rocket + Diesel/SQLite) server keeps devices, actions, per-device action targets, history and an audit trail. An older Flask server (`server.py`) keeps a registry of clients and their pending updates. Rust clients poll the server for commands, run them under signature, kind and whitelist gates, and post the results back. Two small updaters swap a binary in place and restart it.

This project models the sequential logic of those pieces:

- **Tables.** Each SQLite table is a `seq` of rows, held as a field of the `Db.Database` class. The handlers are methods that change exactly the tables they name in `modifies`. Statement failures are inputs: a `failAt` count, or one boolean flag per statement.
- **Pending devices.** The server's map from pending device to last heartbeat is a `map` field of `State.AppState`. Its audit closure, which `main.rs` builds around `db::log_audit`, is a parameter.
- **The Flask registry.** `LegacyServer.ClientRegistry` holds the `client` and `client_update` tables.
- **Client-side logic.** Command decoding, gating and result shaping are functions over a small JSON value type (`Json.Value`). The polling loops and the updaters' retry loops are methods with `while` loops. Each runs over a finite list of poll outcomes or attempt outcomes.
- **Time.** Clocks are integer parameters: seconds on the server, and nanoseconds for `Instant`, so that truncation by `as_secs()` is explicit.
- **Foreign code as parameters.** HMAC, base64, bcrypt, serde serialisation, script-file existence, the effective uid, token generation and the admin check of `server.py` are all parameters.

Each operation is paired with what it promises. The pairs are:

- frame conditions: only the matching rows change, nothing else is written;
- exact selection sets for the sweeps and deletes;
- idempotence: approving twice, cleaning up twice at one instant, re-running a sweep;
- round trips: decode after encode, parse after render, lines after join, load after save;
- ordering and limit properties of the listings;
- the decision trees of the gates, in both directions.

## Model

| member | source | states |
|---|---|---|
| Models.PendingTarget | patchpilot_server/src/models.rs:115-122 | a new target has the given action and device, status "Pending" (capital P), no response, and last_update = now |
| Db.NextRowId | patchpilot_server/src/routes/actions.rs:48-51 | the id SQLite gives a new row is above every existing id, and 1 in an empty table |
| Db.ReplaceRow | patchpilot_server/src/db.rs:86-92 | `replace_into` leaves rows with other ids as they were, and leaves `row` as the only row with its id |
| Db.LoadAfterSave | patchpilot_server/src/db.rs:86-92 | with the single settings row, saving `row` leaves exactly `[row]`, so a later load returns what was saved |
| Db.Database.LoadSettings | patchpilot_server/src/db.rs:61-83 | returns the existing row unchanged; on an empty table, inserts and returns the default row (id 1, false, true, 30, 3600, true, "8.8.8.8", false); any other read error is returned and nothing is inserted |
| Db.Database.SaveSettings | patchpilot_server/src/db.rs:86-92 | on success the table becomes ReplaceRow(old, row); on failure it is unchanged |
| Db.Database.InsertHistory | patchpilot_server/src/db.rs:107-111 | appends exactly one history row on success, and none on failure |
| Db.Database.LogAudit | patchpilot_server/src/db.rs:133-151 | appends exactly one audit row carrying the given actor, action, target and details |
| Db.ClampTtl | patchpilot_server/src/db.rs:162 | the TTL applied is the requested one capped at the server default: it is at most both, and equal to one of them |
| Db.Remaining | patchpilot_server/src/db.rs:176-178 | remaining seconds are never negative: zero exactly when expiry is not after now, otherwise now + r = expiry |
| Db.SetExpiry | patchpilot_server/src/db.rs:164-166 | only the action with the id gets the new expires_at; every other row and field is unchanged |
| Db.FindAction | patchpilot_server/src/db.rs:172-175 | finds a row with that id exactly when one exists |
| Db.Database.UpdateActionTtl | patchpilot_server/src/db.rs:155-167 | on success the actions become SetExpiry(old, id, now + min(requested, default)); on failure nothing changes |
| Db.Database.FetchActionTtl | patchpilot_server/src/db.rs:170-179 | no connection is QueryFailed; an unknown id is RowNotFound; an existing id yields Ok of the floored remaining time of its first row, never negative |
| Db.UpdateThenFetchTtl | patchpilot_server/src/db.rs:155-179 | a TTL update followed by a query at the same instant reports max(0, min(requested, default)) |
| ActionRoutes.NextActionId | patchpilot_server/src/routes/actions.rs:48-51 | the inserted action's id is above every existing action id |
| ActionRoutes.MaxActionId | patchpilot_server/src/routes/actions.rs:53-57 | `ORDER BY id DESC` then first: None exactly for an empty table, otherwise an existing id that is at least every id |
| ActionRoutes.ReadBackIsNewId | patchpilot_server/src/routes/actions.rs:48-57 | reading back the largest id right after the insert yields the new row's id |
| ActionRoutes.NewAction | patchpilot_server/src/routes/actions.rs:35-46 | the new action has the given id and command, the submitter as author, created now, not canceled, and expires 3600 s later without a TTL or TTL seconds later with one |
| ActionRoutes.NewActionShape | patchpilot_server/src/routes/actions.rs:35-46 | the new action expires TTL seconds after creation (3600 when no TTL is given), is not canceled, names the submitter as author, and has an id above every existing id |
| ActionRoutes.SubmitAction | patchpilot_server/src/routes/actions.rs:23-92 | statements run in order and stop at the first failure. The action row exists after statement 2, the "Pending" target after 4, the "action.submit" history row after 5 (then Created), and the audit row after 6. Each table gains exactly that row or stays as it was |
| ActionRoutes.RecordSubmission | patchpilot_server/src/routes/actions.rs:60-92 | the writes after the action row. The "Pending" target exists after statement 4 and the history row after 5 (then Created). The audit row exists after 6. A failed target or history insert answers 500 and stops; a failed audit is ignored |
| ActionRoutes.ListActions | patchpilot_server/src/routes/actions.rs:96-112 | every action, each exactly once, newest created_at first; a missing connection is a 500 |
| ActionRoutes.TargetsOf | patchpilot_server/src/routes/actions.rs:159-163 | a (device, status, response) triple is returned exactly when some target row of the action carries it; no more rows than targets |
| ActionRoutes.TargetsOfAppend | patchpilot_server/src/routes/actions.rs:159-163 | the query distributes over consecutive stretches of the table, so its rows keep table order and one row per matching target |
| ActionRoutes.TargetsOfOne | patchpilot_server/src/routes/actions.rs:159-163 | a single target yields its own (device, status, response) row exactly when it belongs to the action |
| ActionRoutes.ListActionTargets | patchpilot_server/src/routes/actions.rs:152-169 | returns TargetsOf for the action, or a 500 without a connection |
| ActionRoutes.CancelAction | patchpilot_server/src/routes/actions.rs:116-148 | only expires_at of the matching action becomes now, and no target changes; one "action.cancel" history row; then one audit row, whose failure is ignored |
| ActionRoutes.UpdateActionTtlRoute | patchpilot_server/src/routes/actions.rs:173-190 | a missing settings row is a 500 here, not a default; otherwise applies the clamped TTL to the action |
| ActionRoutes.GetActionTtl | patchpilot_server/src/routes/actions.rs:194-206 | Ok exactly when the connection is up and the action exists, and then its value is the remaining time of that action; every failure, an unknown id included, is a 500 |
| ActionRoutes.MarkCompleted | patchpilot_server/src/routes/actions.rs:248-257 | exactly the rows with the (action, device) pair get the body as response, status "completed" and last_update now; every other row is unchanged |
| ActionRoutes.ReportActionResult | patchpilot_server/src/routes/actions.rs:239-265 | on success the targets become MarkCompleted(...); the answer is Ok even when no row matches |
| ActionRoutes.DeleteCompleted | patchpilot_server/src/routes/actions.rs:220-226 | exactly the targets that are "completed" with last_update strictly before the cutoff are removed; every other row keeps its number of copies |
| ActionRoutes.DeleteCompletedAppend | patchpilot_server/src/routes/actions.rs:220-226 | the delete acts row by row: on a table split in two, the survivors are those of the first part followed by those of the second, so table order is kept |
| ActionRoutes.PendingCleanup | patchpilot_server/src/routes/actions.rs:210-235 | deletes DeleteCompleted(targets, now), then tries one "action.pending_cleanup" audit row |
| ActionRoutes.ReportedTargetsAreCleanedLater | patchpilot_server/src/routes/actions.rs:219-257 | a target reported as completed is removed by any later cleanup |
| Sweep.DueIds | patchpilot_server/src/action_ttl.rs:52-57 | an id is selected exactly when its action is not canceled and expires before now (strictly, or inclusively for the task) |
| Sweep.CancelAll | patchpilot_server/src/action_ttl.rs:59-68 | the table keeps its length; only the canceled flag can change, and a changed row is canceled and was selected |
| Sweep.CancelAllPointwise | patchpilot_server/src/action_ttl.rs:59-68 | a run of cancels sets `canceled` exactly on the selected ids whose update succeeded; every other row and field is unchanged |
| Sweep.ExpireAll | patchpilot_server/src/action_ttl.rs:70-78 | the table keeps its length; only status and last_update can change, and rows that are not "pending" are kept whole |
| Sweep.ExpireAllPointwise | patchpilot_server/src/action_ttl.rs:70-78 | exactly the "pending" targets of the processed ids become "expired", with last_update stamped if a stamp is given; every other target is unchanged |
| Sweep.SweepAudits | patchpilot_server/src/action_ttl.rs:87-96 | at most one row per selected id, each by "system" with type "action.ttl_expired" stamped now |
| Sweep.SweepAuditsExactly | patchpilot_server/src/action_ttl.rs:87-96 | one TtlAudit row per processed id, and no other rows; with nothing skipped, row i is the audit of the i-th selected id |
| Sweep.SweepAuditsNoneSkipped | patchpilot_server/src/action_ttl.rs:87-96 | when no selected id is skipped, the audit rows are exactly one per id in selection order: row i is the audit of the i-th id |
| Sweep.SweepAuditsAppend | patchpilot_server/src/action_ttl.rs:87-96 | the audit rows follow the selection order: the rows of two consecutive stretches of ids are those of the first, then those of the second, whichever ids are skipped |
| Sweep.PrefixStep | patchpilot_server/src/action_ttl.rs:59-102 | processing one more selected id applies the cancel, target and audit statements for that id alone to what the earlier ids produced |
| Sweep.RerunFindsOnlyFailed | patchpilot_server/src/tasks/action_ttl.rs:19-28 | after a run, an id still due at the same instant is one whose cancel failed; with no failures nothing is due |
| Sweep.CreatedTargetsNeverExpire | patchpilot_server/src/models.rs:119 | a target created as "Pending" is never expired by either sweep, whose filter is "pending" |
| ActionTtlFairing.Selected | patchpilot_server/src/action_ttl.rs:35-57 | nothing is selected unless polling is on and the connection and the select succeed; then the strictly expired, uncanceled actions are selected |
| ActionTtlFairing.SweepOnce | patchpilot_server/src/action_ttl.rs:26-110 | one iteration: cancel the selected actions; expire the pending targets of those whose cancel succeeded, stamped with now; one audit per canceled action when a closure is attached |
| ActionTtlFairing.ExpireOne | patchpilot_server/src/action_ttl.rs:59-102 | one selected id: a failed cancel leaves all three tables alone; otherwise the action is canceled, its pending targets expire stamped now unless that update fails, and one audit row is added when a closure is attached and its insert succeeds |
| ActionTtlFairing.SweepCancelsExactlyDue | patchpilot_server/src/action_ttl.rs:52-68 | with unique ids, exactly the due actions whose cancel succeeded end canceled; with polling off nothing changes |
| ActionTtlFairing.SweepExpiresExactlyPending | patchpilot_server/src/action_ttl.rs:65-78 | a failed cancel skips that action's targets; exactly the other actions' "pending" targets become "expired" with last_update now |
| ActionTtlFairing.SweepAuditsCanceled | patchpilot_server/src/action_ttl.rs:87-96 | the audit rows are exactly the ("system", "action.ttl_expired", id) rows of the canceled actions whose audit succeeded |
| ActionTtlFairing.SecondSweepIsQuiet | patchpilot_server/src/action_ttl.rs:52-96 | a second iteration at the same now selects only actions whose cancel failed; when none failed, a whole second pass, whatever its flags and faults, leaves actions, targets and audit log unchanged |
| ActionTtlTask.Selected | patchpilot_server/src/tasks/action_ttl.rs:16-23 | nothing is selected without a connection and select; otherwise the actions expired at or before now and not canceled |
| ActionTtlTask.SweepOnce | patchpilot_server/src/tasks/action_ttl.rs:10-43 | cancel each selected action and expire its "pending" targets, ignoring each failure; last_update untouched; no audit and no history |
| ActionTtlTask.TaskExpiresWithoutStamp | patchpilot_server/src/tasks/action_ttl.rs:30-36 | the target update runs even after a failed cancel, and changes only the status of "pending" targets |
| ActionTtlTask.RerunSelectsOnlyFailed | patchpilot_server/src/tasks/action_ttl.rs:19-28 | re-running at the same now selects only actions whose cancel failed, and nothing when none failed |
| ActionTtlTask.BoundaryOnlyHere | patchpilot_server/src/tasks/action_ttl.rs:21 | an action expiring exactly now is selected by the task (`<=`) but not by the fairing (`<`) |
| State.Elapsed | patchpilot_server/src/state.rs:103 | `duration_since` is now − t, saturating at zero for a later t |
| State.AgeSecs | patchpilot_server/src/state.rs:103 | `as_secs()` is the whole number of seconds, rounded down |
| State.RetainFresh | patchpilot_server/src/state.rs:100-105 | keeps exactly the entries whose age in whole seconds is below the limit; adds no key and alters no surviving instant |
| State.RetainFreshIdempotent | patchpilot_server/src/state.rs:100-105 | cleaning up twice at one instant equals cleaning up once |
| State.HeartbeatSurvivesCleanup | patchpilot_server/src/state.rs:93-105 | a device that has just sent a heartbeat survives a cleanup with any positive limit |
| State.AppState.constructor | patchpilot_server/src/state.rs:52-72 | starts with no pending devices, the given settings and the given audit closure |
| State.AppState.UpdatePendingDevice | patchpilot_server/src/state.rs:93-97 | pending[id] := now, inserting or overwriting; a poisoned lock changes nothing |
| State.AppState.CleanupStaleDevices | patchpilot_server/src/state.rs:100-105 | the map becomes RetainFresh(old, limit, now); a poisoned lock changes nothing |
| State.AppState.LogAudit | patchpilot_server/src/state.rs:77-90 | Ok with no effect when no closure is attached; otherwise the closure's result and effect |
| PendingCleanupFairing.MaxAge | patchpilot_server/src/pending_cleanup.rs:29-33 | max(auto_refresh_seconds, 30), or 60 when the lock is poisoned; always at least 30 |
| PendingCleanupFairing.CleanupIteration | patchpilot_server/src/pending_cleanup.rs:29-35 | one cleanup with MaxAge as the limit |
| PendingCleanupFairing.RecentDevicesSurvive | patchpilot_server/src/pending_cleanup.rs:29-35 | a device seen within the last 30 whole seconds is never removed |
| PendingCleanupTask.Stamp | patchpilot_server/src/tasks/pending_cleanup.rs:17-19 | every pending key gets last_checkin = now; other entries keep their values |
| PendingCleanupTask.RetainStamped | patchpilot_server/src/tasks/pending_cleanup.rs:21-26 | keeps the pending entries whose stamp exists and is under 15 s old, with their values |
| PendingCleanupTask.Forget | patchpilot_server/src/tasks/pending_cleanup.rs:28 | last_checkin keeps exactly the keys still pending |
| PendingCleanupTask.PassNeverEvicts | patchpilot_server/src/tasks/pending_cleanup.rs:17-28 | a whole pass leaves `pending` unchanged; afterwards last_checkin has exactly the pending keys, all stamped now |
| PendingCleanupTask.PendingCleanupPass | patchpilot_server/src/tasks/pending_cleanup.rs:8-31 | the stamping loop plus both retains; a poisoned lock ends the task and changes nothing |
| SettingsRoute.Merge | patchpilot_server/src/routes/settings.rs:68-89 | each present form field overwrites its row field; absent fields keep the loaded value; the id never changes |
| SettingsRoute.EmptyFormKeepsRow | patchpilot_server/src/routes/settings.rs:68-89 | an all-absent form leaves the row unchanged |
| SettingsRoute.MergeIdempotent | patchpilot_server/src/routes/settings.rs:68-89 | applying the same form twice equals applying it once |
| SettingsRoute.FullFormOverwrites | patchpilot_server/src/routes/settings.rs:68-89 | a form with every field present decides every field except the id |
| SettingsRoute.ApplyForm | patchpilot_server/src/routes/settings.rs:65-89 | the field-by-field overwrite yields Merge(loaded, form) |
| SettingsRoute.UpdateSettings | patchpilot_server/src/routes/settings.rs:52-119 | Ok exactly when the connection, the load and the save succeed, and then the merged row is saved. The mirror is set only when the write lock is taken. One "update_settings" audit row is written whether or not the form changed anything. On failure the shared settings are untouched, and the settings table is unchanged, except that a default row inserted by the load stays when the save then fails |
| SettingsRoute.MirrorMatchesStore | patchpilot_server/src/routes/settings.rs:91-107 | with a single settings row, a later load returns the merged row, which is also what the in-memory mirror holds |
| DevicesRoute.HostnameOrderIsTotalPreorder | patchpilot_server/src/routes/devices.rs:14-15 | ordering by hostname is total and transitive, so it is a sound sort key |
| DevicesRoute.GetDevices | patchpilot_server/src/routes/devices.rs:10-20 | every device exactly once, in ascending hostname order; a failure is a 500 |
| DevicesRoute.FindByUuid | patchpilot_server/src/routes/devices.rs:28-30 | finds a device with that uuid exactly when one exists, and then it is the first such device in the table |
| DevicesRoute.GetDeviceDetails | patchpilot_server/src/routes/devices.rs:22-35 | 500 without a connection; NotFound when the query fails; with a working query, NotFound exactly when no device has the uuid and otherwise Ok(the first device with it) |
| DevicesRoute.ApproveWhere | patchpilot_server/src/routes/devices.rs:43-46 | sets approved on the matching devices only; every other row and field is unchanged |
| DevicesRoute.ApproveIdempotent | patchpilot_server/src/routes/devices.rs:43-46 | approving twice equals approving once |
| DevicesRoute.ApproveDevice | patchpilot_server/src/routes/devices.rs:37-49 | Ok exactly when the connection and the update succeed, even if no row matches; on error nothing changes |
| HistoryRoute.Recent | patchpilot_server/src/routes/history.rs:15-19 | exactly min(table size, 500) rows, all from the table (all of it when it has at most 500), ordered by created_at descending |
| HistoryRoute.RecentAreNewest | patchpilot_server/src/routes/history.rs:17-18 | min(table size, 500) rows are returned and no row left out is newer than a row returned: they are the newest rows |
| HistoryRoute.GetHistory | patchpilot_server/src/routes/history.rs:10-25 | returns the recent rows when the connection and the query succeed, and the error text otherwise |
| HistoryRoute.ApiHistory | patchpilot_server/src/routes/history.rs:28-41 | the same rows as get_history, under the key "history" |
| Auth.AsStr | patchpilot_server/src/auth.rs:36-41 | Admin is "Admin" and User is "User", in both directions |
| Auth.HasRole | patchpilot_server/src/auth.rs:45-50 | has_role(User) always holds; has_role(Admin) holds exactly when the role string is "Admin" |
| Auth.FirstUserWithId | patchpilot_server/src/auth.rs:90-95 | finds a user with the id exactly when one exists |
| Auth.FirstUserNamed | patchpilot_server/src/auth.rs:122-127 | finds a user with the name exactly when one exists |
| Auth.RoleName | patchpilot_server/src/auth.rs:93 | the name of the first role with that id, found exactly when such a role exists |
| Auth.JoinedRole | patchpilot_server/src/auth.rs:92-94 | no role for a user without a role row; otherwise the name of the role named by the user's first role row (None when that role is missing) |
| Auth.FromRequest | patchpilot_server/src/auth.rs:66-108 | a missing or non-i32 cookie is Unauthorized; with a parsed cookie, a missing pool or connection is InternalServerError, and a failed query or an unknown user is Unauthorized; Ok exactly when the cookie parses, the pool, connection and query succeed and the user exists, carrying that user's id, name and joined role, defaulting to "User" |
| Auth.Login | patchpilot_server/src/auth.rs:112-152 | an unknown user, a wrong password or a bcrypt error redirects to /login with no cookie and no audit; success sets the user_id cookie, redirects to /dashboard and tries one "login" audit |
| Auth.LoginRoleDefaultsToUser | patchpilot_server/src/auth.rs:146 | a user without a role row logs in with the User role, not Admin |
| Auth.Logout | patchpilot_server/src/auth.rs:155-183 | always removes the cookie and redirects to /login; a "logout" audit is tried only for a cookie naming an existing user |
| Auth.LoginCookieRoundTrip | patchpilot_server/src/auth.rs:139-141 | the cookie login sets is parsed back by the request guard to the same user |
| Text.IntToString | patchpilot_server/src/routes/actions.rs:145 | the decimal rendering is non-empty and starts with '-' exactly for negative values |
| Text.ParseI32 | patchpilot_server/src/auth.rs:71 | `parse::<i32>()` yields only values within the i32 range, and nothing for the empty string |
| Text.DigitsValueOfNatToString | patchpilot_server/src/auth.rs:139 | the digits written for n have value n |
| Text.ParseI32OfIntToString | patchpilot_server/src/auth.rs:68-75 | parsing a rendered i32 gives the same value back |
| Text.IntToStringInjective | patchpilot_server/src/routes/actions.rs:145 | distinct ids render to distinct strings |
| UsersGroupsRoute.MembershipRows | patchpilot_server/src/routes/users_groups.rs:35-39 | a row is present exactly when some membership of that user carries it (the copies and the order are fixed by MembershipRowsAppend and MembershipRowsOne) |
| UsersGroupsRoute.MembershipRowsAppend | patchpilot_server/src/routes/users_groups.rs:35-39 | the join rows of a split user_groups table are those of the first part followed by those of the second |
| UsersGroupsRoute.MembershipRowsOne | patchpilot_server/src/routes/users_groups.rs:35-39 | one membership row gives one (group, user, name) row when it belongs to the user, none otherwise; with the append lemma, exactly one row per membership, in table order |
| UsersGroupsRoute.Joined | patchpilot_server/src/routes/users_groups.rs:35-39 | a row is present exactly when some existing user has a membership carrying it (copies and order fixed by JoinedAppend and JoinedOne) |
| UsersGroupsRoute.JoinedAppend | patchpilot_server/src/routes/users_groups.rs:35-39 | the join goes user by user: on a split users table, the rows of the first part come first |
| UsersGroupsRoute.JoinedOne | patchpilot_server/src/routes/users_groups.rs:35-39 | one user contributes exactly its membership rows; with the append lemma, exactly one row per membership whose user exists |
| UsersGroupsRoute.MembersOf | patchpilot_server/src/routes/users_groups.rs:41-43 | a group's members are exactly the (user, name) pairs of its join rows |
| UsersGroupsRoute.NonEmptyIffMemberRow | patchpilot_server/src/routes/users_groups.rs:41-43 | a group has members exactly when some join row names it |
| UsersGroupsRoute.GroupUsers | patchpilot_server/src/routes/users_groups.rs:34-43 | the map has an entry exactly for each group with a joined row, holding its members in join order |
| UsersGroupsRoute.ListUsersGroups | patchpilot_server/src/routes/users_groups.rs:23-51 | non-admins get "unauthorized"; admins get every group plus the grouped members, with a failed load giving an empty part |
| UsersGroupsRoute.AddGroup | patchpilot_server/src/routes/users_groups.rs:54-67 | admins only: inserts one group, then one "add_group" audit naming it; non-admins change nothing |
| UsersGroupsRoute.AddUserDetails | patchpilot_server/src/routes/users_groups.rs:97 | the details are "group_id: N" exactly when a group was given |
| UsersGroupsRoute.AddUser | patchpilot_server/src/routes/users_groups.rs:70-104 | admins only: inserts one user, adds a membership only when group_id is given, then one "add_user" audit |
| UsersGroupsRoute.DropGroupMembers | patchpilot_server/src/routes/users_groups.rs:117-119 | removes exactly the memberships of the group; every other membership keeps its number of copies |
| UsersGroupsRoute.DropGroupMembersAppend | patchpilot_server/src/routes/users_groups.rs:117-119 | the delete acts row by row: on a split table the survivors of the first part come before those of the second, so table order is kept |
| UsersGroupsRoute.DropUserMembers | patchpilot_server/src/routes/users_groups.rs:141-143 | removes exactly the memberships of the user; every other membership keeps its number of copies |
| UsersGroupsRoute.DropUserMembersAppend | patchpilot_server/src/routes/users_groups.rs:141-143 | the delete acts row by row: on a split table the survivors of the first part come before those of the second, so table order is kept |
| UsersGroupsRoute.DropGroup | patchpilot_server/src/routes/users_groups.rs:120-122 | removes exactly the group rows with the id; every other group row keeps its number of copies |
| UsersGroupsRoute.DropGroupAppend | patchpilot_server/src/routes/users_groups.rs:120-122 | the delete acts row by row: on a split table the survivors of the first part come before those of the second, so table order is kept |
| UsersGroupsRoute.DropUser | patchpilot_server/src/routes/users_groups.rs:144-146 | removes exactly the user rows with the id; every other user row keeps its number of copies |
| UsersGroupsRoute.DropUserAppend | patchpilot_server/src/routes/users_groups.rs:144-146 | the delete acts row by row: on a split table the survivors of the first part come before those of the second, so table order is kept |
| UsersGroupsRoute.GroupNameOr | patchpilot_server/src/routes/users_groups.rs:111-115 | with a working lookup, the name of the first group with the id; "unknown" when the lookup fails or no group has the id |
| UsersGroupsRoute.UserNameOr | patchpilot_server/src/routes/users_groups.rs:135-139 | with a working lookup, the username of the first user with the id; "unknown" when the lookup fails or no user has the id |
| UsersGroupsRoute.DeleteGroup | patchpilot_server/src/routes/users_groups.rs:107-128 | admins only: drops the group's memberships, then the group, then writes one "delete_group" audit naming it; nothing else changes |
| UsersGroupsRoute.DeleteUser | patchpilot_server/src/routes/users_groups.rs:131-152 | admins only: drops the user's memberships, then the user, then writes one "delete_user" audit naming them |
| UsersGroupsRoute.DeletedGroupHasNoMembers | patchpilot_server/src/routes/users_groups.rs:117-119 | after the cascade, the listing has no member row for the deleted group |
| RolesRoute.ListRoles | patchpilot_server/src/routes/roles.rs:21-41 | "unauthorized" exactly for non-admins; an error page for an admin without a connection; otherwise the role page with every role, or with none when the load fails |
| RolesRoute.AddRole | patchpilot_server/src/routes/roles.rs:45-70 | admins only: inserts one role; the "add_role" audit is attempted even when the insert failed |
| RolesRoute.DropRoleAssignments | patchpilot_server/src/routes/roles.rs:93-97 | removes exactly the user_roles rows of the role; every other assignment keeps its number of copies |
| RolesRoute.DropRoleAssignmentsAppend | patchpilot_server/src/routes/roles.rs:93-97 | the delete acts row by row: on a split table the survivors of the first part come before those of the second, so table order is kept |
| RolesRoute.DropRole | patchpilot_server/src/routes/roles.rs:99-103 | removes exactly the role rows with the id; every other role row keeps its number of copies |
| RolesRoute.DropRoleAppend | patchpilot_server/src/routes/roles.rs:99-103 | the delete acts row by row: on a split table the survivors of the first part come before those of the second, so table order is kept |
| RolesRoute.RoleNameOr | patchpilot_server/src/routes/roles.rs:87-91 | with a working lookup, the name of the first role with the id; "" when the lookup fails or no role has the id |
| RolesRoute.DeleteRole | patchpilot_server/src/routes/roles.rs:74-110 | admins only. It drops the assignments, then the role, then attempts one "delete_role" audit naming the role. Each step runs whatever the previous one did |
| RolesRoute.DeletedRoleIsUnassigned | patchpilot_server/src/routes/roles.rs:93-103 | after the delete, no assignment names the role, and no session can get its name from it |
| LegacyServer.IsOnline | server.py:62-65 | offline without a check-in; online from the check-in to three minutes after it, offline later |
| LegacyServer.OnlineBackwards | server.py:62-65 | a client online now was online at every earlier instant since its check-in, and is offline once three minutes and one second have passed |
| LegacyServer.MatchesSearch | server.py:135-146 | an empty search matches every client, and a client whose id contains the search, ignoring case, always matches |
| LegacyServer.Filtered | server.py:135-146 | keeps exactly the clients matching the search, each with its number of copies, so the length is the number of matching clients; an empty search keeps all of them |
| LegacyServer.FilteredAppend | server.py:135-146 | the filter goes client by client: on a split table the matches of the first part come first, so table order is kept |
| LegacyServer.IdOrderIsTotalPreorder | server.py:148 | ordering by id is total and transitive |
| LegacyServer.Window | server.py:148 | `OFFSET start LIMIT length`: skips `start` rows and keeps at most `length` (a negative length means no limit) |
| LegacyServer.OrDash | server.py:155-159 | None and the empty string both show as "—" |
| LegacyServer.TableRow | server.py:153-165 | eleven cells, the id first and last, with the online marker from is_online |
| LegacyServer.ApiClients | server.py:128-170 | echoes draw; recordsTotal == recordsFiltered == the number of matching clients; row i is the table row of client start + i of the matching clients sorted by id (a negative start counts as 0); exactly min(length, matches − start) rows, none past the end, all of them for a negative length |
| LegacyServer.SortedById | server.py:148 | a permutation of the matching clients, in ascending id order |
| LegacyServer.ApiClientsPage | server.py:147-165 | the page is Window(sorted matching clients, start, length): ascending by id, all matching, one row per client |
| LegacyServer.ApiClientsOrdered | server.py:148-165 | the rows ascend by client id |
| LegacyServer.ApiClientsMatch | server.py:135-165 | every row shows a client that matches the search |
| LegacyServer.GetOr | server.py:289-298 | `payload.get(key, current)`: the payload's value when the key is present, else the current one |
| LegacyServer.IndexOfId | server.py:251 | finds the client with the id exactly when one exists |
| LegacyServer.IndexOfSerial | server.py:254 | finds a client with the serial number (NULL matching NULL) exactly when one exists |
| LegacyServer.NewClient | server.py:265-272 | a new client has the id, token, address and serial number; its name defaults to "Unnamed Client"; it is unapproved, allowed to check in, not forced, with no updates flagged and no check-in; the seven system-information columns start empty |
| LegacyServer.Checkin | server.py:289-298 | present fields overwrite, absent ones are kept; the address and last_checkin = now are set; the id, token, serial, approval, allow_checkin, force_update and updates_available are kept |
| LegacyServer.CheckinMakesOnline | server.py:62-65 | a client that has just checked in is online for the next three minutes |
| LegacyServer.CheckinWithoutFields | server.py:289-298 | a payload with only the token changes just the address and the check-in time |
| LegacyServer.PresentedToken | server.py:285 | the payload's token when truthy, otherwise the Authorization header |
| LegacyServer.FirstUpdateIndex | server.py:233 | the first update row of the client for the package, if any |
| LegacyServer.MarkSelected | server.py:231-235 | the table keeps its length; only status can change, and a changed row is this client's row for a listed package, now "installing" |
| LegacyServer.MarkSelectedPointwise | server.py:231-235 | for each listed package, exactly the client's first row becomes "installing"; every other row is unchanged |
| LegacyServer.SameKeysSameFirst | server.py:233 | status changes do not move the first row for a package |
| LegacyServer.MarkAllPending | server.py:236-238 | row k becomes "installing" exactly when it is this client's and "pending"; every other row is kept whole, status included |
| LegacyServer.ClientRegistry.constructor | server.py:38-60 | an empty registry |
| LegacyServer.ClientRegistry.AddClient | server.py:245-275 | no body or no id: 400 and no change. Known id: 400 "Client already exists" and no change. Unknown id with a matching serial: only that client changes, getting the new token, the payload's name (else its old one) and the caller's address; the table keeps its length; a token held by another client is a 500 with no change. Unknown id and no serial match: a null id or a token already in use is a 500 with no change; otherwise 200 with the token, and exactly one NewClient is appended |
| LegacyServer.ClientRegistry.ClientCheckin | server.py:277-301 | unknown id: 404; empty body: 400; token mismatch: 401, all with no change; otherwise the client becomes Checkin(...) |
| LegacyServer.ClientRegistry.ApproveClient | server.py:190-195 | 404 for an unknown id; otherwise only that client's approved flag is set (204) |
| LegacyServer.ClientRegistry.ForceUpdateClient | server.py:197-202 | 404 for an unknown id; otherwise only that client's force_update flag is set (204) |
| LegacyServer.ClientRegistry.ForceAllClients | server.py:211-219 | 401 without admin; otherwise every client gets force_update and nothing else changes |
| LegacyServer.ClientRegistry.SendCommand | server.py:221-243 | 404 / 401 as in the source. "install_all_updates" gives MarkAllPending. "install_selected_updates" with a non-empty list gives MarkSelected. Anything else is 400 with no change |
| LegacyServer.ClientRegistry.QueueSelected | server.py:231-235 | the update table after the loop over the listed packages is MarkSelected of the table before |
| LegacyServer.ClientRegistry.QueueAll | server.py:236-238 | the update table after the loop over the client's pending rows is MarkAllPending of the table before |
| RemoteCmd.Canonical | patchpilot_client/src/remote_cmd.rs:84-87 | the serialised command with its signature blanked, so an unsigned command is its own canonical payload |
| RemoteCmd.CanonicalIgnoresSignature | patchpilot_client/src/remote_cmd.rs:84-87 | the canonical payload does not depend on the signature carried |
| RemoteCmd.VerifySignature | patchpilot_client/src/remote_cmd.rs:38-46 | accepted exactly when the signature decodes to the HMAC of the canonical payload |
| RemoteCmd.ServerSignedVerifies | patchpilot_client/src/remote_cmd.rs:38-46 | a command signed by the server with the shared secret verifies |
| RemoteCmd.JoinPath | patchpilot_client/src/remote_cmd.rs:50 | Unix `Path::join`: an absolute name replaces the base |
| RemoteCmd.AllowedScriptPathAsWritten | patchpilot_client/src/remote_cmd.rs:49-62 | the joined path, when it is an existing file |
| RemoteCmd.AbsoluteNameEscapes | patchpilot_client/src/remote_cmd.rs:49-62 | the script name "/bin/sh" is allowed as written, yet lies outside the scripts directory |
| RemoteCmd.AllowedScriptPath | patchpilot_client/src/remote_cmd.rs:49-62 | only a plain name of an existing file directly inside the scripts directory is allowed; on plain names it agrees with the code as written |
| RemoteCmd.Finished | patchpilot_client/src/remote_cmd.rs:187-221 | status "ok" / "failed" / "timeout" exactly for completed / spawn error / timeout; exit code and output only when completed |
| RemoteCmd.ExecuteRemoteCommand | patchpilot_client/src/remote_cmd.rs:89-221 | as written: a bad signature is rejected and nothing runs; scripts are gated by AllowedScriptPathAsWritten; anything launched uses the given args and timeout (60 s by default), and its result is Finished(...) |
| RemoteCmd.Dispatch | patchpilot_client/src/remote_cmd.rs:89-174 | the decision tree for a given signature verdict and script path: unverified is rejected; "script" runs the path when there is one; "exec" only whitelisted binaries; other kinds are rejected |
| RemoteCmd.OnlyWhitelistedRuns | patchpilot_client/src/remote_cmd.rs:112-174 | with the corrected script check, whatever is launched is a whitelisted binary or an existing file directly inside the scripts directory, and only after the signature verified |
| RemoteCmd.KindGates | patchpilot_client/src/remote_cmd.rs:112-174 | as written, with a valid signature: "script" runs exactly when the joined path is an existing file, and runs that path; "exec" runs exactly whitelisted binaries; any other kind is rejected |
| RemoteCmd.AsWrittenLaunchesOutside | patchpilot_client/src/remote_cmd.rs:49-62 | as written, a verified "script" command named "/bin/sh" launches /bin/sh, which is not directly inside the scripts directory |
| RemoteCmd.ExecuteRemoteCommandCorrected | patchpilot_client/src/remote_cmd.rs:89-221 | the executor with the corrected script check; identical to the code as written for every command except a script whose name is not a plain file name |
| CommandEngine.CommandId | patchpilot_client/src/command.rs:21-25 | the string "id" member, else "unknown" |
| CommandEngine.CommandText | patchpilot_client/src/command.rs:27-32 | the string "exec" member, else the string "script" member, else "" |
| CommandEngine.CommandKind | patchpilot_client/src/command.rs:49-53 | the string "kind" member, else "exec" |
| CommandEngine.ResultUrl | patchpilot_client/src/command.rs:130-133 | the result URL is server + "/api/devices/" + device + "/commands/" + id + "/result" |
| CommandEngine.ResultUrlInjective | patchpilot_client/src/command.rs:130-133 | for slash-free ids, equal URLs mean equal device and command ids |
| CommandEngine.ExecuteCommand | patchpilot_client/src/command.rs:19-118 | no text: an error payload and nothing runs. Otherwise the text runs and a panic is reported as "panic: ...". The report echoes the kind, and ok holds exactly when the process started |
| CommandEngine.KindOnlyEchoed | patchpilot_client/src/command.rs:49-57 | the kind never changes what runs |
| CommandEngine.PollItems | patchpilot_client/src/command.rs:176-188 | the items dispatched are the elements of an array body, and nothing otherwise |
| CommandEngine.Dispatched | patchpilot_client/src/command.rs:176-188 | one spawn per array element: the number dispatched is the total length of the array bodies; DispatchedAppend gives the order |
| CommandEngine.DispatchedAppend | patchpilot_client/src/command.rs:176-188 | dispatch over consecutive polls is the concatenation, in order |
| CommandEngine.DispatchedCount | patchpilot_client/src/command.rs:176-188 | a poll whose body is not an array dispatches nothing, and a run of such polls dispatches nothing |
| CommandEngine.CommandPollLoop | patchpilot_client/src/command.rs:150-196 | stops at the first poll with the flag cleared; what it spawns is Dispatched of the polls before that |
| ClientAction.OptU64 | patchpilot_client/src/action.rs:28-43 | a decoded u64 field is below 2^64 |
| ClientAction.Strings | patchpilot_client/src/action.rs:28-43 | a list decodes element by element to strings |
| ClientAction.DecodeSpec | patchpilot_client/src/action.rs:28-43 | a "type" other than "shell" or "script" is refused; a decoded shell spec carries the "command" string and a script spec the "name" string, under the "type" that names it |
| ClientAction.DecodeCommand | patchpilot_client/src/action.rs:46-52 | an object decodes exactly when "id" is a string, "spec" decodes and created_at/run_as_root are absent, null or of their type, and the command carries those values; an array decodes exactly when it has the four fields in declaration order, each of its type, and the command carries them; anything else is refused; every decoded number fits u64 |
| ClientAction.DecodeArrayForm | patchpilot_client/src/action.rs:46-52 | the array form [id, spec, created_at, run_as_root] reads back as the command, in declaration order |
| ClientAction.EncodeCommand | patchpilot_client/src/action.rs:46-52 | the command is sent as an object with exactly the members id, spec, created_at and run_as_root, the id as a string; DecodeEncode proves it reads back |
| ClientAction.DecodeEncode | patchpilot_client/src/action.rs:28-52 | decoding what the server encodes gives the command back, for both variants |
| ClientAction.DecodeEncodeSpec | patchpilot_client/src/action.rs:28-43 | the internally tagged spec round-trips |
| ClientAction.UnknownTypeRefused | patchpilot_client/src/action.rs:28-43 | a spec whose "type" is neither "shell" nor "script" is refused |
| ClientAction.ValidCommands | patchpilot_client/src/action.rs:97-105 | never more commands than entries, and every kept command fits u64; ValidCommandsAppend, ValidCommandsFrom and AllValidKeptWhole fix which and in what order |
| ClientAction.ValidCommandsAppend | patchpilot_client/src/action.rs:97-105 | filtering is compositional, so the order of the batch is kept |
| ClientAction.ValidCommandsFrom | patchpilot_client/src/action.rs:97-105 | every command kept decodes from some received entry |
| ClientAction.AllValidKeptWhole | patchpilot_client/src/action.rs:97-105 | a batch with no invalid entry is kept whole, entry by entry |
| ClientAction.PollForCommandsOnce | patchpilot_client/src/action.rs:80-106 | a send error is the error; a non-success status is Ok([]); a body that is not a JSON array is an error; otherwise the valid commands in order |
| ClientAction.CheckRoot | patchpilot_client/src/action.rs:67-72 | fails exactly when root is required and the euid is not 0 |
| ClientAction.ExecuteAction | patchpilot_client/src/action.rs:109-154 | skipped exactly when run_as_root is true and the euid is not 0. A result is posted exactly when it ran and the engine succeeded; the result's success means exit code 0 |
| ClientAction.RootGate | patchpilot_client/src/action.rs:115-123 | a root process is never skipped, and a command not asking for root is never skipped |
| ClientAction.ActionLoop | patchpilot_client/src/action.rs:157-185 | stops at a cleared flag or at the first poll error, which it returns; spawns every command of the polls before that, in order |
| SystemInfo.WrappingSub | patchpilot_client/src/system_info.rs:87 | release-build u64 subtraction wraps modulo 2^64 |
| SystemInfo.RamFigures | patchpilot_client/src/system_info.rs:85-88 | total and used in KiB-to-MiB (÷1024); cached = used; free = total − used, wrapping modulo 2^64 when used > total |
| SystemInfo.RamFreeWithinOne | patchpilot_client/src/system_info.rs:85-88 | the free figure is within one unit of the true free memory ÷ 1024 |
| SystemInfo.DiskEntry | patchpilot_client/src/system_info.rs:93-99 | total and free in MiB; used = (total − available) in MiB, with the difference wrapping modulo 2^64 when available > total |
| SystemInfo.DiskEntryAddsUp | patchpilot_client/src/system_info.rs:93-99 | used + free is the total, short of at most one MiB of rounding |
| SystemInfo.Disks | patchpilot_client/src/system_info.rs:93-99 | one entry per disk, in order |
| SystemInfo.NetworkInterfaces | patchpilot_client/src/system_info.rs:102-111 | one entry per interface, in order, with the name and traffic counters; the MAC is never filled in |
| SystemInfo.ProcessEntry | patchpilot_client/src/system_info.rs:114-119 | the pid as `u32 as i32` (the same value mod 2^32, in i32 range); memory in MiB |
| SystemInfo.MoreMemoryIsTotalPreorder | patchpilot_client/src/system_info.rs:126 | the memory order is total and transitive |
| SystemInfo.TopByMemory | patchpilot_client/src/system_info.rs:125-127 | min(5, n) processes taken from the list, by descending memory |
| SystemInfo.TopByMemoryIsBest | patchpilot_client/src/system_info.rs:125-127 | no process left out uses more memory than one kept |
| MissingUpdates.IndexOfNewline | patchpilot_client_rust/src/system_info.rs:33 | the first '\n', if any |
| MissingUpdates.StripCr | patchpilot_client_rust/src/system_info.rs:33 | `lines()` drops the '\r' of a line ended by "\r\n" |
| MissingUpdates.Lines | patchpilot_client_rust/src/system_info.rs:33 | no line contains '\n'; a text with no '\n' is one line, kept whole, a trailing '\r' included |
| MissingUpdates.LinesOfJoin | patchpilot_client_rust/src/system_info.rs:33 | lines written with a '\n' after each read back as the same lines |
| MissingUpdates.NonBlank | patchpilot_client_rust/src/system_info.rs:31-36 | keeps exactly the lines that are not all whitespace, untrimmed and in order |
| MissingUpdates.NonBlankAppend | patchpilot_client_rust/src/system_info.rs:31-36 | the filter is compositional, so order is kept |
| MissingUpdates.NonBlankIdempotent | patchpilot_client_rust/src/system_info.rs:31-36 | filtering twice equals filtering once |
| MissingUpdates.GetMissingWindowsUpdates | patchpilot_client_rust/src/system_info.rs:22-65 | Ok([]) off Windows; a start failure or a failed script is an error carrying the message; otherwise the non-blank lines of stdout |
| MissingUpdates.TitlesComeBack | patchpilot_client_rust/src/system_info.rs:22-38 | titles written one per line come back as the non-blank titles, in order |
| Updater.FirstSuccess | patchpilot_client_rust/src/patchpilot_updater.rs:23-36 | the first successful attempt among the first `limit`, or none |
| Updater.RustUpdaterMain | patchpilot_client_rust/src/patchpilot_updater.rs:10-47 | Exit 1 unless exactly two arguments are given. At most 5 rename attempts. All failing: exit 1, no restart. Success at attempt k: retries = 5 − k > 0; the old path is restarted exactly when the spawn succeeds, exiting 0, and a failed spawn starts nothing and exits 101 |
| Updater.BashUpdaterAsWritten | patchpilot_client/src/patchpilot_updater.rs:12-56 | the as-written run equals BashRunAsWritten: a successful mv reaches the unparsable line 51, so exit 2 and no restart |
| Updater.BashRunAsWritten | patchpilot_client/src/patchpilot_updater.rs:12-56 | no run of the script as written restarts the application or exits 0; after a successful mv at attempt k it exits 2 after k + 1 attempts |
| Updater.AsWrittenNeverRestarts | patchpilot_client/src/patchpilot_updater.rs:48-56 | with two arguments and a first mv that succeeds, the script as written exits 2 with no restart, while the intended script restarts after one attempt and exits 0 |
| Updater.MoveLoop | patchpilot_client/src/patchpilot_updater.rs:26-39 | stops at the first successful mv; retries = 0 exactly when all 5 failed |
| Updater.BashRun | patchpilot_client/src/patchpilot_updater.rs:12-56 | the intended script: restarts exactly when the argument count is right and some mv succeeds, and exits 0 exactly then |
| Updater.BashUpdater | patchpilot_client/src/patchpilot_updater.rs:12-56 | the run equals BashRun: exit 1 on a wrong argument count; restarts exactly when some mv succeeds (exit 0), otherwise exits 1 |

## Left out

- Concurrency: tokio tasks, `spawn_blocking`, the client semaphore, RwLock/Mutex and the infinite timers. One sweep or loop pass is modelled, with lock poisoning as an input.
- Wall-clock time is an integer parameter. Each handler reads the clock once; where the source reads it twice (`db::log_audit` stamps its own `now`), both reads are taken as equal.
- Floating point: CPU averages, the CPU sort, battery parsing, ping timing and `duration_secs`.
- Windows-only paths: the PowerShell branch is modelled by its output; `check_admin`, the Windows script paths and Windows path joining are out.
- HMAC-SHA256, base64, bcrypt, serde serialisation, token generation, `auth_admin`, script-file existence and the effective uid are all parameters.
- LegacyServer.ClientRegistry.AddClient, LegacyServer.ClientRegistry.ForceAllClients and LegacyServer.ClientRegistry.SendCommand: `server.py` neither defines nor imports `generate_token` (called at lines 256 and 265) or `auth_admin` (lines 214 and 225). As written, each call raises NameError and Flask answers 500: on every request to `force_all_clients` and `send_command`, and in `add_client` whenever it reaches a token. The model reads both helpers as the functions their names describe, given as parameters.
- `patchpilot_server/src/settings.rs` and `patchpilot_server/src/routes/auth.rs` are not part of this model. They duplicate the modelled `routes/settings.rs` and `auth.rs`.
- The `server.py` routes `allow_checkin_client`, `force_reinstall_client`, `sse_clients`, `health_check`, `index`, `client_detail` and the templates are not part of this model.
- LegacyServer.MatchesSearch: SQL `ILIKE` wildcards (`%`, `_`) inside the search text are not interpreted; the search is a plain case-insensitive substring test with ASCII lower-casing.
- LegacyServer.ApiClients: `int()` of a non-numeric `draw`/`start`/`length` raises in the source; the model takes integers.
- LegacyServer.Payload: JSON values other than strings and null (numbers, booleans) in `server.py` payloads are not modelled.
- ClientAction.ExecuteAction: `action.rs` calls `command::execute_command` and a four-argument `post_command_result`, which `command.rs` does not define. The engine's outcome is an input, and posting is reduced to the result posted.
- CommandEngine.CommandPollLoop and ClientAction.ActionLoop: the infinite loops run over a finite list of poll outcomes, and the sleeps are dropped.
- ClientAction.DecodeSpec: the internally tagged `CommandSpec` is decoded from its object form only. serde also accepts a sequence whose first element is the tag (`["shell", "ls", null]`), and that form is not modelled. ClientAction.DecodeCommand models both the object and the array form of the outer command.
- Auth.FromRequest: `UserRole::from_name` is not shown; the joined role name is taken as the role string.
- SystemInfo.RamFigures and SystemInfo.DiskEntry: in a debug build `total - used` (RAM) and `total - available` (disk, system_info.rs:93-99) panic on underflow instead of wrapping; only the release-build wrap is modelled.
- DevicesRoute.GetDevices, LegacyServer.SortedById and SystemInfo.TopByMemory promise the order and the permutation, but not the stable tie order of the underlying sort.
- The "Pending" / "pending" mismatch between `NewActionTarget::pending` and both sweeps is kept as in the code and stated by `Sweep.CreatedTargetsNeverExpire`, not corrected.
- The `uuid` column filtered on by `routes/devices.rs` is modelled as a device column, as that file uses it.
- ActionRoutes.SubmitAction, ActionRoutes.NewActionShape, Db.Database.UpdateActionTtl and ActionRoutes.UpdateActionTtlRoute: chrono's range is not modelled. A TTL too large in magnitude for `Duration::seconds` or for the date type panics in the source, so nothing is inserted or updated; the model stores now + TTL as an unbounded integer and answers as for any other TTL.
- ActionRoutes.SubmitAction, ActionRoutes.RecordSubmission, ActionRoutes.CancelAction and ActionRoutes.PendingCleanup: `routes/actions.rs` calls `crate::routes::history::log_audit`, which `routes/history.rs` does not define. Each call is read as `db::log_audit`: one audit row stamped now, and its failure is ignored as the `let _ =` ignores it.
- Diesel's connection pool, logging, route tables and static pages are plumbing and are not modelled.

## Findings

| source | as written | input that shows it | evidently intended | confidence | as-written member | corrected member |
|---|---|---|---|---|---|---|
| patchpilot_client/src/remote_cmd.rs:49-62 | the script name is joined onto the scripts directory with `Path::join`, then only checked to be an existing file | script name "/bin/sh": the join yields "/bin/sh" itself, which is outside the scripts directory and is run (lemmas RemoteCmd.AbsoluteNameEscapes and RemoteCmd.AsWrittenLaunchesOutside) | only files directly inside the scripts directory may run | not executed | RemoteCmd.AllowedScriptPathAsWritten | RemoteCmd.AllowedScriptPath |
| patchpilot_client/src/patchpilot_updater.rs:51 | `if "$OLD_PATH" &; then` is a bash syntax error; bash runs the script command by command and stops with status 2 when it reaches that line, so the restart never happens | any run with two arguments whose first `mv` succeeds (lemma Updater.AsWrittenNeverRestarts) | after a successful move, restart the old path in the background and exit 0 | not executed | Updater.BashUpdaterAsWritten | Updater.BashUpdater |
