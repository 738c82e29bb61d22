# Pgfy, modelled and proved

Pgfy runs PostgreSQL projects on one host. It keeps PostgreSQL, an object-store
bucket, a SQLite file and host files in agreement while processes crash, calls
fail half-way and other installations write to the same bucket. This project
models its small transactional machines in Dafny and proves what they keep.

`dafny verify dfyconfig.toml` covers the whole project.

- **Records, Retention, Cache, BucketProtocol**: which backups retention keeps,
  the reconciled view of a bucket folder, and the protocol that publishes, lists,
  retains and deletes backups. The worker is a class whose calls may fail with or
  without effect; a `lucky` call does not fail. Unless the worker is `alone`, anyone
  may rewrite the bucket between two calls. A failed call ends the operation, as a
  crash would, since only the worker's fields outlive it.
- **Calendar, Layout, Listing, Folders**: folder names as UTC seconds, bucket keys,
  the manifest check, the classification of a listing, and its agreement with the
  bucket of the protocol.
- **Schedule, Jobs**: when a project is due, backoff, fairness, and the job queue
  with its single worker.
- **Lifecycle**: provisioning, password rotation, deletion and access-policy sync
  of one project, as a state machine over single calls. All interleavings are
  action sequences; who holds the project's lock and the policy lock, how far it
  got, and who found the maintenance flag off, is part of the state.
- **SignIn**: the token machine, one-time codes, lockout and sessions. Each method
  is one transaction, so concurrent requests are an order of calls.
- **Alerts**: the alert conditions and the history of recorded deliveries.
- **Update**: the host update and its rollback, with a raise or a death anywhere.
- **Maintenance**: the queue, the worker, the alert engine and a project's
  lifecycle side by side, held quiet by the flag a host update sets.
- **Hba**: allowlists, rendered rules, PostgreSQL's first-match evaluation, and the
  synchronisation that ties projects to what PostgreSQL admits.

Assumptions: a SQLite transaction is atomic; the clock does not go back; a backup
starts in a second of which its database has no folder yet; hashes and seals are
injective, random tokens fresh; removing an absent object succeeds; a call that
reported failure takes no effect later.

Where a stated intention is not what the code does, the model follows the code:

- The owners of a folder are told apart by joining two ids with a bar, which can
  make two owners look like one (`Cache.MixedCanMissTwoOwners`; exactly when, in
  `Cache.MixedMisses`).
- Backoff does not always grow with failures (`Schedule.BackoffGrowsExactlyWhen`).
- An automatically finished rotation is audited under the request that was listed,
  which may be an earlier one (`Lifecycle.AuditCanNameAnEarlierRequest`; exactly
  when, in `Lifecycle.AutomaticAuditRequest`).
- A deletion never finishes when the database belongs to a foreign role of the
  same name (`Lifecycle.DeletionConverges`), a state that is reachable
  (`Lifecycle.DeletionCanBeStuck`).
- A listing that cannot be stored leaves deletion marks in place, so an archive can
  be removed although a complete listing saw its manifest after the proof of
  ownership (`BucketProtocol.UnstoredListingEscapes`; exactly when, in
  `BucketProtocol.StrongExactlyWhen`). It never happens in a run that stores every
  complete listing (`BucketProtocol.StrongWhenAllStored`).
- An exception just after meta.json is removed makes `update` report a failure
  although the new release is committed
  (`Update.Host.FailureIsReportedThoughCommitted`; exactly when, in
  `Update.Host.Update`).
- An error while the store lists the sources of waiting alerts is dropped, so a
  condition can be announced as resolved although a pass did not look at its source
  (`Alerts.LostSourceResolves`; exactly when, in `Alerts.WaitSurvivesExactlyWhen`).
- A rollback starts the old release before it removes the snapshot. Cut off in
  between, it leaves the snapshot and meta.json, and the rollback that `update` then
  asks for takes back what the old release wrote since
  (`Update.RerunLosesWrites`; exactly when a rollback keeps all of storage, in
  `Update.Host.Rollback`).
- A rollback is refused exactly when the snapshot is missing or damaged, or a
  saved copy is gone; the files are then already the old ones
  (`Update.Host.Rollback`, `Update.Host.UpdateAndRecover`).
- The managed access file could decide a local connection of two system roles
  (`Hba.SystemRolesArePinned`); rendered rules never contain local lines.
- Setting the maintenance flag does not interrupt what is under way
  (`Lifecycle.FlagDoesNotInterrupt`); the application is stopped before the flag is
  relied on (`Maintenance.Installation.PauseForUpdate`).

## Model

| member | source | states |
|---|---|---|
| `Retention.SelectExpired` | internal/jobs/retention.go:241-282 | the one-pass loop expires exactly the complete rows whose second is outside the declarative keep set (newest, last day, newest of the n latest days, then of the n latest other weeks) |
| `Retention.ChooseKept` | internal/jobs/retention.go:251-274 | the loop over rows marks the directories of exactly the seconds that the fold keeps |
| `Retention.LoopKeeps` | internal/jobs/retention.go:254-274 | for every newest-first list the fold's day slots, week slots and keep set equal their set definitions |
| `Retention.KeepShrinksWithTime` | internal/jobs/retention.go:253-258 | as time passes the keep set only loses members |
| `Retention.KeepSandwich` | internal/jobs/retention.go:241-282 | any set between what a history keeps and the history keeps exactly the same |
| `Retention.OnceExpiredAlwaysExpired` | internal/jobs/retention.go:241-282 | a newer backup never brings an expired one back |
| `Retention.BetweenOverRun` | internal/jobs/retention.go:215-219 | over any run of arrivals and partial passes what is present stays between the keep set and the history |
| `Retention.IncrementalEqualsBatch` | internal/jobs/retention.go:215-219 | whatever the interleaving of arrivals and partial passes, a final pass leaves exactly what the policy keeps of the full history |
| `Cache.RowFor` | internal/jobs/retention.go:132-150 | the row of one folder: owner from memory, else from a checked manifest, else damaged |
| `Cache.Describe` | internal/jobs/retention.go:128-168 | one loop over the listing yields every row from memory and counters and mixed flag that describe exactly those rows |
| `Cache.OrderDoesNotMatter` | internal/jobs/retention.go:131-163 | the view does not depend on the order of the listing |
| `Cache.MixedMeans` | internal/jobs/retention.go:154-164 | counting distinct owner keys above one is the same as two complete rows with different keys |
| `Cache.MarksDoNotCount` | internal/store/backups.go:310-371 | the counters are independent of carried deletion marks |
| `Cache.PassIsDirect` | internal/jobs/retention.go:115-169 | with true memories a pass equals the memoryless classification of listing and manifests, and leaves true memories |
| `Cache.PassRefines` | internal/jobs/retention.go:131-150 | a pass that could read only some manifests classifies by the manifests known after it: those it read, and those remembered while they stayed listed |
| `Cache.CacheRefinesBucket` | internal/jobs/retention.go:115-169 | after any number of passes from an empty cache, with any manifest unreadable in any of them, the rows are the direct classification of the last listing by the manifests known then; manifests are write-once |
| `Cache.KnownIsEnough` | internal/jobs/retention.go:115-169 | with every listed manifest known, by all manifests ever written |
| `Cache.JoinedKeysCollide` | internal/jobs/retention.go:154 | two joined owner keys are equal exactly when the owners are equal or one pair runs into the other across a bar |
| `Cache.KeysTellApart` | internal/jobs/retention.go:154 | the joined keys of two complete backups differ exactly when their owners differ and neither pair runs into the other |
| `Cache.MixedIsToldApart` | internal/jobs/retention.go:154-164 | the mixed flag is on exactly when two complete backups have different owners whose joined keys differ |
| `Cache.MixedMisses` | internal/jobs/retention.go:154-164 | the flag never invents a second owner, and misses one exactly when every two different owners run into each other |
| `Cache.MixedIsTwoOwners` | internal/jobs/retention.go:164 | without a bar in installation ids the mixed flag means two owners |
| `Cache.MixedCanMissTwoOwners` | internal/jobs/retention.go:154-164 | two owners whose keys collide, with the flag off |
| `BucketProtocol.ProvenMeans` | internal/jobs/retention.go:287-314 | "proven" is: a read-back naming us at some point, and no recorded listing since saw the manifest |
| `BucketProtocol.EveryRemovalAuthorised` | internal/jobs/retention.go:197-351 | in a trace every manifest was removed directly after a read-back naming us, and every archive when proven ours, with no stored listing since seeing its manifest, or claimed in this store by a failed or interrupted job |
| `BucketProtocol.StrongExactlyWhen` | internal/jobs/retention.go:171-221 | a proof the protocol acts on holds against every complete listing, stored or not, exactly when no unstored listing since the latest read-back saw the manifest |
| `BucketProtocol.StrongWhenAllStored` | internal/jobs/retention.go:115-169 | in a run that stores every complete listing, every removal was claimed, or no complete listing since its proof saw the manifest |
| `BucketProtocol.UnstoredListingEscapes` | internal/jobs/retention.go:287-314 | the run in which that fails: marked, manifest removal failed, a listing not stored, the manifest removed by others, the half-delete finished |
| `BucketProtocol.RecordingQuiet` | internal/jobs/retention.go:115-169 | with no other writer, storing a listing keeps the quiet invariant, and without damaged rows the rows say exactly what the bucket holds |
| `BucketProtocol.NewestNeverExpires` | internal/jobs/retention.go:251 | the newest complete row is never selected |
| `BucketProtocol.ExactlyKept` | internal/jobs/retention.go:215-219 | removing the expired rows leaves exactly the kept seconds in the bucket |
| `BucketProtocol.LosingExpiredKeeps` | internal/jobs/retention.go:215-219 | a pass cut off anywhere has removed nothing the policy keeps |
| `BucketProtocol.StepTracks` | internal/jobs/retention.go:197-221 | each pass, publication or restart of the worker is one event of a retention run |
| `BucketProtocol.NoArchiveLeaks` | internal/store/backups.go:522-543 | after a pass that ended well, a lone archive older than a day is claimed by a job of ours that has not been over for a day |
| `BucketProtocol.Worker.ReadManifest` | internal/jobs/retention.go:292-295 | a read-back is recorded in the trace exactly when it succeeded |
| `BucketProtocol.Worker.MarkDeleting` | internal/store/backups.go:479-487 | the mark goes on that row only, for a proven folder |
| `BucketProtocol.Worker.RemoveManifest` | internal/jobs/retention.go:307-309 | asked for only directly after the read-back that named us, and recorded in the trace; alone, only this manifest may go and a backup at least as new as all remains |
| `BucketProtocol.Worker.MarkArchiveOnly` | internal/store/backups.go:489-493 | only the state of that row changes |
| `BucketProtocol.Worker.RemoveArchive` | internal/jobs/retention.go:316-319 | an archive goes only when proven or claimed, and the removal is in the trace |
| `BucketProtocol.Worker.ForgetRow` | internal/store/backups.go:495-499 | the cache row goes, and with no other writer only once its archive is gone |
| `BucketProtocol.Worker.FinishDelete` | internal/jobs/retention.go:316-324 | archive, cache row and history row go in that order; on success all three are gone |
| `BucketProtocol.Worker.RemoveBackup` | internal/jobs/retention.go:304-313 | intent, manifest, archive, rows: any prefix keeps every invariant and the newest backup; on success nothing of the folder is left |
| `BucketProtocol.Worker.DeleteBackup` | internal/jobs/retention.go:287-314 | ownership is read back first; a folder that could not be read, or no longer names us, loses its cache row at most and nothing is removed; alone, calls that succeed leave nothing of the folder |
| `BucketProtocol.Worker.PrefixBackups` | internal/store/backups.go:454-469 | exactly the rows of the folder, each once, newest first |
| `BucketProtocol.Worker.FinishHalfDeletes` | internal/jobs/retention.go:202-210 | when calls succeed exactly the marked lone archives and their rows are gone; no manifest is touched |
| `BucketProtocol.Worker.BlockedByForeignContent` | internal/jobs/retention.go:223-235 | true exactly when some row is damaged or another installation's |
| `BucketProtocol.Worker.DeleteExpired` | internal/jobs/retention.go:215-219 | when calls succeed exactly the expired folders lost manifest and archive; cut off anywhere nothing else did, and the newest stays |
| `BucketProtocol.Worker.AbandonedUpload` | internal/store/backups.go:519-527 | true exactly when a failed or interrupted job finished before the cutoff claims this folder in this store |
| `BucketProtocol.Worker.CleanOne` | internal/jobs/retention.go:331-348 | a lone, unmarked, old enough, abandoned archive goes with its row; anything else is untouched |
| `BucketProtocol.Worker.CleanAbandoned` | internal/jobs/retention.go:326-351 | when calls succeed exactly the abandoned leftovers of the list are gone |
| `BucketProtocol.Worker.RetainDatabase` | internal/jobs/retention.go:197-221 | blocking content means no manifest is removed; with no other writer a pass cut off anywhere removed nothing the policy keeps, and one whose calls succeed ends well and leaves exactly the kept seconds, nothing of started deletions and no abandoned archive |
| `BucketProtocol.Worker.ReplacePrefix` | internal/store/backups.go:306-371 | rows become exactly the listing's, marks carried only for lone archives |
| `BucketProtocol.Worker.ReconcilePrefix` | internal/jobs/retention.go:113-169 | a failed or unstored listing changes no row; otherwise counters describe the rows; when calls succeed it is stored and, alone, every manifest was read |
| `BucketProtocol.Worker.Tombstone` | internal/store/backups.go:376-402 | a folder gone from the store ends with no rows |
| `BucketProtocol.Worker.ForgetLostLocalBackups` | internal/store/backups.go:507-517 | history keeps exactly what the cache shows complete |
| `BucketProtocol.Worker.SetTargetReconciled` | internal/store/backups.go:261-271 | the reconciliation time moves only after a complete view |
| `BucketProtocol.Worker.Reconcile` | internal/jobs/retention.go:63-111 | an incomplete view changes nothing that decides about backups; under maintenance or without bucket protection nothing is removed; with no other writer the next pass whose calls succeed leaves exactly the kept seconds, no object, cache row or history row of any started deletion, and no lone archive older than a day that no open job claims |
| `BucketProtocol.Worker.ActOnView` | internal/jobs/retention.go:171-195 | retention acts only on a protected bucket, or one whose provider cannot tell and the operator accepted it, and never under maintenance; on a clean view, calls that succeed end retained |
| `BucketProtocol.Worker.PruneJobs` | internal/store/backups.go:529-543 | only jobs finished before the cutoff, claiming no listed lone archive, in a store read since, are pruned |
| `BucketProtocol.Worker.Upload` | internal/jobs/jobs.go:385-392 | archive before manifest: with no other writer a manifest always has its archive |
| `BucketProtocol.Worker.Publish` | internal/jobs/jobs.go:371-397 | the claim comes first; when calls succeed the new backup is complete, newest, and in the history; on any failure the newest before survives |
| `BucketProtocol.Worker.Restart` | internal/store/jobs.go:186-231 | running jobs become interrupted; provenance is kept |
| `BucketProtocol.Worker.AnyRun` | internal/jobs/jobs.go:131-177 | over any number of reconciliations, publications and restarts every removal of a manifest or an archive stays authorised and, with no other writer, the newest backup survives |
| `BucketProtocol.Worker.RetentionOverRun` | internal/jobs/jobs.go:131-177 | alone and under one policy, after any publications, cut-off passes and restarts, a pass whose calls succeed leaves exactly what the policy keeps of every second ever published |
| `Calendar.NewYearInUnixTime` | internal/storage/layout.go:42-48 | the count of seconds agrees with the closed form of every new year; 1970 begins at zero and the year 1 at Go's zero time |
| `Calendar.DateOfSecond` | internal/storage/storage.go:153-156 | every second of the years 0000 to 9999 is the second of its date |
| `Calendar.SecondsFollowDates` | internal/storage/layout.go:150-159 | dates and seconds have the same order |
| `Layout.FolderReadsBack` | internal/storage/layout.go:42-48 | parsing the folder name of any second of the range gives that second |
| `Layout.NameIsItsFolder` | internal/storage/layout.go:42-48 | a name that parses is the folder name of its second |
| `Layout.DirsAreDistinct` | internal/storage/layout.go:42-48 | folder names and what they read as are in bijection |
| `Layout.NewestFirstIsReverseText` | internal/storage/layout.go:150-159 | time order and text order of folder names agree |
| `Layout.SplitJoins` | internal/storage/layout.go:111 | splitting a key is exact: slash-free parts that join to the key |
| `Layout.KeyRoundTrip` | internal/storage/layout.go:197-212 | the manifest key of any valid database and second is rebuilt to the same directory, archive key and time |
| `Layout.OnlyOurKeys` | internal/storage/layout.go:197-212 | an entry is rebuilt only from a key publication could have written |
| `Layout.KeysAreDistinct` | internal/storage/storage.go:153-156 | distinct databases or seconds have distinct directories |
| `Layout.ManifestBelongs` | internal/storage/layout.go:161-181 | a manifest passes the check exactly when it is the one written for that folder |
| `Listing.Gather` | internal/storage/layout.go:109-128 | the loop records every folder of the listing and exactly what it holds |
| `Listing.StatesMean` | internal/storage/layout.go:134-143 | only a timestamp folder with exactly the two files is complete; anything unexpected, or an odd name, is damaged |
| `Listing.ReadingIsUnique` | internal/storage/layout.go:101-148 | a folder has one reading whatever the listing's order |
| `Listing.EntriesFrom` | internal/storage/layout.go:101-159 | one entry per folder, classified by what it holds, newest first and ties in reverse text order |
| `Folders.ListingIsBucket` | internal/jobs/retention.go:131-137 | the classified entries of a listing are, folder by folder, what the protocol's listing of the bucket says: same folders, each once, same states and times |
| `Schedule.DueExactlyFromNext` | internal/store/backups.go:54-84 | newest is at or before DueBefore(now) exactly when NextAfter(newest) is at or before now, in both modes |
| `Schedule.StaysDue` | internal/store/backups.go:57-70 | once due a project stays due until a newer backup |
| `Schedule.NextIsMonotone` | internal/store/backups.go:72-84 | a newer backup is never due earlier |
| `Schedule.BackoffGrowsExactlyWhen` | internal/store/backups.go:139-153 | waiting grows with failures exactly when the interval is at least four hours |
| `Schedule.BackupCandidates` | internal/store/backups.go:155-185 | exactly the due projects out of backoff, least recently attempted first |
| `Schedule.HeadIsFirst` | internal/jobs/jobs.go:274-280 | the enqueued project precedes every other candidate |
| `Schedule.StaysCandidate` | internal/jobs/jobs.go:265-281 | a project that is due and out of backoff stays a candidate until it is chosen, whatever happens to the others |
| `Schedule.AheadShrinks` | internal/store/jobs.go:86-91 | while a candidate is passed over, the projects ahead of it only get fewer |
| `Schedule.NoStarvation` | internal/jobs/jobs.go:249-281 | a project that is due and out of backoff is passed over fewer times than there are projects, however often others fail |
| `Jobs.Queue.Enqueue` | internal/store/jobs.go:55-96 | accepted exactly when nothing is queued or running, no update is in progress and the project exists; the attempt time is recorded with it |
| `Jobs.Queue.ClaimJob` | internal/store/jobs.go:143-170 | the oldest queued job starts, exactly when there is one and no update is in progress |
| `Jobs.Queue.CheckReady` | internal/jobs/jobs.go:296-302 | a job goes on only for a ready project, which then stays unmarked while the job runs |
| `Jobs.Queue.Finish` | internal/store/jobs.go:233-281 | the job's end state and the schedule outcome are recorded together, or the row stays running; a failure keeps exactly its own project out for the backoff of its streak, a success lets it in at once |
| `Jobs.Queue.InterruptRunningJobs` | internal/store/jobs.go:182-231 | exactly the running jobs become interrupted, and a scheduled backup counts once as failed |
| `Jobs.Queue.BeginProjectDeletion` | internal/store/deletion.go:18-90 | accepted exactly for a ready or failed project without running job, or a marked one without active deletion; then that deletion is the project's only active job |
| `Jobs.Queue.ResumeDeletions` | internal/store/deletion.go:97-135 | afterwards every marked project has an active deletion, and nothing else changed |
| `Jobs.Queue.CompleteProjectDeletion` | internal/store/deletion.go:149-192 | row, schedule and job end together, and no job refers to the project |
| `Jobs.Queue.AnyRun` | internal/jobs/jobs.go:131-243 | over any calls, restarts and lost results: at most one backup or restore active, at most one deletion per marked project, no checked job on a marked project, finished states never left |
| `Lifecycle.StepKeeps` | internal/provision/provision.go:121-403 | every call of every actor, with any outcome, keeps the invariant |
| `Lifecycle.RunKeeps` | internal/provision/provision.go:69-115 | so does every interleaving with crashes |
| `Lifecycle.RotationIsSafe` | internal/store/access.go:175-249 | in every reachable ready state without pending rotation PostgreSQL's password is the active one, all sessions used it, the newest rotation has exactly one audit row and none has two |
| `Lifecycle.FinishingRun` | internal/provision/provision.go:370-403 | a finisher that gets through puts exactly the pending password in force, whatever PostgreSQL held |
| `Lifecycle.FinishRotationsRestores` | internal/provision/provision.go:370-403 | a pass that gets through restores agreement from any state with a pending rotation |
| `Lifecycle.ConfirmingRestores` | internal/store/access.go:226-249 | whenever any holder confirms, in any interleaving, nothing is pending and one audit row was added |
| `Lifecycle.AutomaticAuditRequest` | internal/provision/provision.go:377-398 | in every reachable state, with distinct request ids, the automatic audit row names the rotation's own request exactly when the rotation listed before the lock is still the newest |
| `Lifecycle.AuditCanNameAnEarlierRequest` | internal/provision/provision.go:377-398 | from the initial state, a run in which a second request overwrites the pending value and is audited under the first one's name |
| `Lifecycle.DeletionIsFinal` | internal/jobs/delete.go:34-72 | `deleting` is left only by removing the row; from then on no role, database, secret, session or rule of ours exists, in every later state |
| `Lifecycle.ForeignIsUntouched` | internal/postgres/management.go:367-395 | a role or database that predates the project is never changed |
| `Lifecycle.DeletionConverges` | internal/jobs/delete.go:34-72 | rerun after a crash anywhere, a deletion whose calls succeed ends, exactly unless an update holds the installation quiet or a foreign role of the same name owns the database |
| `Lifecycle.DeletionCanBeStuck` | internal/postgres/management.go:367-395 | from the initial state with a foreign role and its database, a run after which the deletion never ends, in any continuation |
| `Lifecycle.UpdateHoldsQuiet` | internal/provision/provision.go:86-90 | with the flag on and nobody inside, no run changes the project's metadata, role, database, secret, rotations or audit rows until the update ends |
| `Lifecycle.FlagKeepsOut` | internal/store/maintenance.go:14-21 | while the flag is on nobody enters, and a restart makes it quiet |
| `Lifecycle.FlagDoesNotInterrupt` | internal/provision/provision.go:86-115 | a pass that found the flag off still makes the role after it is set |
| `Lifecycle.RejectRulesKeeps` | internal/hba/hba.go:101-121 | a rejected rule file, put back or not, keeps the invariant |
| `SignIn.VerifyCode` | internal/security/totp.go:66-84 | a code, without the white space around it and the spaces in it, is accepted exactly when the earliest matching step of the window is newer than the last accepted one, and reported reused when it is not |
| `SignIn.TypedWithSpaces` | internal/security/totp.go:70 | spaces anywhere in a typed code do not count |
| `SignIn.ShiftIsLock` | internal/store/auth.go:456-461 | the shift with its caps is min(2^(k-1), 60) minutes |
| `SignIn.LockSumClosed` | internal/store/auth.go:456-461 | the sum of the first n locks in closed form |
| `SignIn.WrongCodesTakeTime` | internal/store/auth.go:453-465 | F wrong codes in a row take at least the first (F-1)/5 locks |
| `SignIn.FailureKeeps` | internal/store/auth.go:453-465 | one more wrong code keeps the streak's lower bound, because a lock has run out first |
| `SignIn.AcceptedOnce` | internal/store/auth.go:475-482 | accepted steps of a factor strictly increase |
| `SignIn.OnlyTheNewestApplies` | internal/store/auth.go:336-346 | an enrolment that passes the reset checks hangs on the newest reset token ever issued, pruning notwithstanding |
| `SignIn.PruneKeeps` | internal/store/auth.go:39-54 | pruning old tokens never removes the reset token that refuses a superseded enrolment |
| `SignIn.ResetKeeps` | internal/store/auth.go:354-362 | what a reset leaves in the table is sound, and all other steps are gone or spent |
| `SignIn.Opened` | internal/store/auth.go:85-91 | opening a session leaves exactly the unexpired sessions of its scope beside it |
| `SignIn.Store.Issue` | internal/store/auth.go:39-54 | the table becomes the unexpired rows plus the new one, parents of pruned rows cleared |
| `SignIn.Store.NewSetupToken` | internal/store/auth.go:99-128 | issued exactly when there is no administrator and no live setup token |
| `SignIn.Store.Setup` | internal/store/auth.go:130-155 | succeeds exactly with a usable setup token and no administrator; otherwise nothing changes |
| `SignIn.Store.BeginEnrolment` | internal/store/auth.go:169-191 | spends the setup token for an enrolment with all its attempts |
| `SignIn.Store.BeginUpgrade` | internal/store/auth.go:193-205 | starts an enrolment without parent |
| `SignIn.Store.NewResetToken` | internal/store/auth.go:207-227 | afterwards it is the only usable reset token |
| `SignIn.Store.BeginReset` | internal/store/auth.go:229-248 | succeeds exactly with a usable token, which is the newest ever issued; password, factor and sessions are unchanged |
| `SignIn.Store.ApplyReset` | internal/store/auth.go:336-362 | new password and factor, no session, no other step left |
| `SignIn.Store.ConfirmEnrolment` | internal/store/auth.go:268-387 | succeeds exactly when the code verifies, the scope is unchanged and the enrolment still applies; a reset then hangs on the newest token and leaves only its own session and no unfinished step; under maintenance nothing changes |
| `SignIn.Store.BeginPending` | internal/store/auth.go:402-415 | the step is bound to the password it proved |
| `SignIn.Store.AddSession` | internal/store/store.go:194-220 | opened exactly when the password proved is the current one and there is no factor |
| `SignIn.Store.CountFailure` | internal/store/auth.go:453-465 | the failure count and lock after a wrong code |
| `SignIn.Store.ConfirmPending` | internal/store/auth.go:417-490 | succeeds exactly when unlocked, usable, bound to the current password and scope, and the code verifies; locked means nothing is spent or written |
| `SignIn.Store.Abandon` | internal/store/auth.go:507-511 | that step is unusable and no other row changes |
| `SignIn.Store.AnyRun` | internal/store/auth.go:59-490 | over any requests: every session was opened under the current password, attempts stay within their maximum, accepted steps ascend, at most one administrator is ever inserted |
| `Alerts.Engine.ReconcileAlerts` | internal/store/alerts.go:38-104 | every row changes exactly as one pass says: upserted if seen, clear only if its source was checked, waiting restarted if not and its source was listed, forgotten after thirty days; a failed transaction changes nothing |
| `Alerts.Engine.RestartUnchecked` | internal/store/alerts.go:74-82 | source by source, exactly the unchecked waiting conditions whose source the query returned restart |
| `Alerts.Engine.AlertsToSend` | internal/store/alerts.go:117-133 | exactly the due messages, once each, longest standing first |
| `Alerts.Engine.MarkAlertSent` | internal/store/alerts.go:150-162 | recording a due message keeps the history honest |
| `Alerts.Engine.Send` | internal/alerts/alerts.go:369-408 | only due keys are touched, each hears at most one message; when calls succeed every due key hears exactly one |
| `Alerts.Engine.SetAlertWebhook` | internal/store/alerts.go:209-229 | a new receiver starts with an empty history and every active condition unsent |
| `Alerts.PassWaits` | internal/store/alerts.go:74-87 | a waiting condition was found gone by a check, was not seen since, and every pass since its clear time checked its source, or its query lost it |
| `Alerts.FiringsAreADayApart` | internal/store/alerts.go:10-17 | any two firing messages to one receiver are at least a day apart |
| `Alerts.ResolvedMeansClear` | internal/store/alerts.go:38-40 | a resolved message follows a firing one and at least ten minutes in which every pass checked the source, or its query lost it, and found nothing |
| `Alerts.WaitSurvivesExactlyWhen` | internal/store/alerts.go:74-87 | over any run of passes a wait for the resolved message survives exactly when each pass checked the source or its query lost it |
| `Alerts.ResolvedAfterChecks` | internal/store/alerts.go:38-40 | when no query lost its source, every pass of the ten minutes before a resolved message looked and found nothing |
| `Alerts.LostSourceResolves` | internal/store/alerts.go:193-207 | the run from the first sighting on in which a condition is announced as resolved although a pass in between did not look |
| `Alerts.Engine.Tick` | internal/alerts/alerts.go:116-142 | under maintenance nothing is recorded or sent; what could not be recorded is not sent |
| `Alerts.Engine.AnyRun` | internal/alerts/alerts.go:116-142 | after any ticks, failed recordings, sends and receiver changes every key's history is honest |
| `Update.Host.Quiesce` | deploy/installer.py:943-961 | on success the application is stopped and storage stands still from then on |
| `Update.Host.Prepare` | deploy/installer.py:941-975 | until meta.json is written no file of the installation changes; once it is, the application is stopped, copies are complete, and the snapshot is storage as it stood when the application stopped, with all it held before the update |
| `Update.Host.CopyFiles` | deploy/installer.py:963-970 | on success every tracked file has a true copy |
| `Update.Host.TakeSnapshot` | deploy/installer.py:971 | on success the snapshot is the storage as it stands |
| `Update.Host.WriteAll` | deploy/installer.py:979-985 | on success exactly the tracked files have the new contents |
| `Update.Host.Converge` | deploy/installer.py:896-905 | the new release's own writes stay within the tracked files |
| `Update.Host.Apply` | deploy/installer.py:976-990 | applying changes nothing outside the saved set, whatever fails |
| `Update.Host.Commit` | deploy/installer.py:991-994 | removing meta.json is the commit point: committed, with storage as it then stands, exactly when the removal took effect |
| `Update.Host.Switch` | deploy/installer.py:976-1002 | committed exactly when the removal of meta.json was reached and took effect; reported as a failure exactly as the calls ended, so after a commit only when an exception came just after it |
| `Update.Host.GiveUp` | deploy/installer.py:1003-1011 | before that, a failure leaves every file as it was |
| `Update.Host.RestoreFiles` | deploy/installer.py:1066-1067 | on success every tracked file equals its copy; a missing copy stops it |
| `Update.Host.Revive` | deploy/installer.py:1072-1077 | on success storage is the snapshot plus new writes of the old release, which runs |
| `Update.KeptIfInSnapshot` | deploy/installer.py:1072 | storage put back and written anew holds all it held exactly if that was in the snapshot |
| `Update.Host.Rollback` | deploy/installer.py:1046-1084 | refused without a sound snapshot with nothing changed; when calls succeed it finishes exactly with snapshot and copies present, and storage is then the snapshot plus new writes of the old release; it keeps all that storage held before it exactly without meta.json, when refused, or with nothing written since the snapshot; without meta.json no file changes |
| `Update.RerunLosesWrites` | deploy/installer.py:1073-1081 | from a fresh installation, the run whose second rollback takes back a write of the old release |
| `Update.Host.Update` | deploy/installer.py:907-1023 | refused while update-rollback/ exists, and otherwise possible after anything; committed exactly when meta.json was removed, then with exactly the new contents and all that storage held at the stop and at the commit; a reported failure is a commit exactly when the exception came just after the removal |
| `Update.Host.FailureIsReportedThoughCommitted` | deploy/installer.py:992-1002 | that run |
| `Update.Host.UpdateAndRecover` | deploy/installer.py:907-1084 | an update cut off anywhere, then rollbacks cut off anywhere with the application writing in between, then one whose calls succeed: with meta.json removed the new release is in place and storage extends what it held at the commit, otherwise every file is as before, apart from a fresh generation, and storage is what it was when the application stopped, with all it held before the update, plus later writes of the old release |
| `Maintenance.Installation.Ask` | internal/store/jobs.go:63-67 | under the flag no backup, restore or deletion is queued |
| `Maintenance.Installation.Claim` | internal/store/jobs.go:154-166 | under the flag no job starts |
| `Maintenance.Installation.Reconcile` | internal/jobs/retention.go:103-107 | under the flag the bucket is only read: no deletion starts and only listings are in the worker's trace |
| `Maintenance.Installation.Restart` | internal/store/jobs.go:186-231 | a restart with the flag on holds everything from then on, and starts no job |
| `Maintenance.Installation.Step` | internal/store/maintenance.go:14-21 | one thing anybody tries while everything is held changes nothing a rollback would have to undo |
| `Maintenance.Installation.HoldQuiet` | internal/store/maintenance.go:14-21 | over any run while everything is held: the project's metadata, role, database and secret, all project rows, the alert rows and deliveries and, with no other writer, the bucket are unchanged, and no job is added or started |
| `Maintenance.Installation.PauseForUpdate` | deploy/installer.py:941-960 | from any state: the flag set, any steps, the application stopped and started: from that start on everything is held and kept, whatever is tried after |
| `Hba.Normalize` | internal/hba/hba.go:39-69 | succeeds exactly for at most 32 entries that are all addresses and not IPv4-mapped, and returns the canonical ranges |
| `Hba.NormalizeKeepsAddresses` | internal/hba/hba.go:39-69 | the canonical ranges admit exactly the addresses the entries mean |
| `Hba.CanonicalIsTidy` | internal/hba/hba.go:59-66 | canonical ranges are masked, distinct and no more than the entries |
| `Hba.NormalizeIsIdempotent` | internal/hba/hba.go:39-69 | normalising a normalised list changes nothing and never fails |
| `Hba.Sorted` | internal/hba/hba.go:74-75 | a permutation of the rules in database order |
| `Hba.Render` | internal/hba/hba.go:71-85 | one tunnel line and one TLS line per address for every rule, in database order |
| `Hba.RuleDecides` | internal/hba/hba.go:76-83 | the lines of one rule admit exactly what the rule allows |
| `Hba.PolicyMeansWhatItSays` | deploy/installer.py:138-154 | under first match of the whole file a project role is admitted exactly when one of the rules allows the connection |
| `Hba.CollectRules` | internal/provision/provision.go:239-259 | exactly the ready projects whose list normalises get a rule; a list that cannot be read stops the synchronisation; the others are reported |
| `Hba.AccessMeansServed` | internal/provision/provision.go:229-269 | from lists to PostgreSQL's answer: a project role is admitted exactly when a ready project with a sound list serves it on its own database, from the tunnel, or with TLS from a listed address |
| `Hba.AccessOfOneProject` | internal/provision/provision.go:229-269 | with distinct roles, exactly when its own project serves it |
| `Hba.Manager.SyncPolicy` | internal/provision/provision.go:229-269 | on success that is what PostgreSQL has loaded; an unreadable list changes nothing; every project's report is true of what happened |
| `Hba.AllowsMeansAllowlist` | internal/provision/provision.go:248-257 | for a rule made from an allowlist that is: own role and database, from the tunnel, or with TLS from a listed address |
| `Hba.SystemRolesArePinned` | deploy/installer.py:141-147 | arbitrary managed content cannot change the answer for a system role, exactly unless the connection is local and the role has no local line |
| `Hba.Manager.Apply` | internal/hba/hba.go:87-123 | on success file and loaded rules are the rendered ones; a rejection puts the previous file back |

## Left out

- Cryptography, randomness, JSON and SQL text: opaque injective values and fresh numbers.
- The object-store, PostgreSQL, Docker and systemd clients: calls that succeed, fail, or fail after taking effect.
- HTTP routing, cookies, rate limits, the web interface and webhook delivery: plumbing.
- Restore verification, row counting, limits, write freeze and connection budgets: catalogue contents or single branches.
- Installation, preflight, certificates, the recovery kit, version comparison and image handling.
- Several databases at once in BucketProtocol: one folder is modelled; folders share only the target's reconciliation time, which needs all of them listed.
- Several projects at once in Lifecycle: one project is modelled; others touch it only through the policy lock and the shared rule file.
- Lifecycle is a model on values, because its actors run concurrently; update in place of the source's objects is not captured there.
- Maintenance: one folder and one project beside the whole queue; the daily copy of storage and session rows are not modelled.
- Sizes, table counts and PostgreSQL versions of backups, except the size in a listing.
- Alert events, their kinds, summaries and first-delivery retries: they do not take part in the firing/resolved machine. Conditions dropped by a project deletion are not modelled.
- Calendar: years outside 0000 to 9999 and sub-second times.
- Hba: text syntax of addresses is read before the model; project names are ordered by the number in them.
- BucketProtocol.Worker.ReconcilePrefix: reads all manifests of a pass at one moment when nobody else writes, and arbitrary ones otherwise.
- BucketProtocol.Worker.AbandonedUpload: the store's pattern match of folder names in job pruning may keep more jobs than equality; it is modelled as keeping arbitrarily more.
- Update.Host.Update: the maintenance flag and the drain of running jobs are in Maintenance, not among the update's own steps.
- Hba.Manager.SyncPolicy: a list changed between being read and being reported on is not modelled; the store then drops the report.
