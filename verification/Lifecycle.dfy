/**
 The life of one project across the provisioner, password rotation, the access
 policy and deletion.  The actors run concurrently, so the model is a state
 machine: an action is one call on SQLite, PostgreSQL or the rule file, a run is
 any sequence of actions, and the program counters of whoever holds the
 project's lock and the policy lock are part of the state.  A call may fail
 without effect or after taking effect, and a crash may fall anywhere.
 */
module Lifecycle {

  datatype Stage = Identity | RoleMade | DatabaseMade | Ready | Deleting

  datatype Row = NoRow | Row(stage: Stage, failed: bool)

  /** A rotation recorded but not confirmed; `number` counts the rotations begun before it. */
  datatype Pending = NoPending | Pending(password: nat, request: nat, number: nat)

  datatype Secret = NoSecret | Secret(active: nat, pending: Pending)

  /** A role of the project's name: ours, or one that predates the project. */
  datatype Role = NoRole | Ours(login: bool, password: nat) | Foreign

  /** A database of the project's name: owned by the role of that name, or by another. */
  datatype Database = NoDatabase | Owned | Other

  datatype RotateStep = ToBegin | ToSet | ToTerminate | ToConfirm

  datatype RemoveStep = ToDisable | ToEnd | ToDropDatabase | ToDropRole | ToSync | Syncing | ToForget

  /** Who holds the project's lock, and how far it got. */
  datatype Holder =
    | Free
    | Provisioning(stage: Stage, password: nat, done: bool)
    | Rotating(step: RotateStep, newPassword: nat, request: nat)
    | Removing(remove: RemoveStep)

  /** Who holds the policy lock: whether it rendered our project, what the file
      held before it was written, and whether the deletion is waiting for it. */
  datatype Sync = NoSync | Sync(rendered: bool, before: bool, written: bool, byRemoval: bool)

  /** What the provisioner found pending before it took the lock. */
  datatype Listed = NothingListed | Listed(request: nat, number: nat)

  datatype Audit = Audit(number: nat, request: nat)

  /** Who looks at the maintenance flag before acting: a pass of the provisioner, a request that
      changes something, and the worker before it starts a job. */
  datatype Entrant = Pass | Request | Job

  /** `requests` holds the request of every rotation begun; `inside` are those who found the flag
      off and have not finished. */
  datatype State = State(
    created: bool, row: Row, secret: Secret, role: Role, database: Database, sessions: set<nat>,
    file: bool, live: bool, sync: Sync, holder: Holder, listed: Listed, requests: seq<nat>, audits: seq<Audit>,
    maintenance: bool, inside: set<Entrant>)

  /** The outcome of a call: whether it took effect and whether it reported success. */
  datatype Call = Succeeds | FailsAfterEffect | FailsWithout

  predicate Effect(c: Call) { !c.FailsWithout? }

  datatype ProvisionAction =
    | Create(password: nat)
    | LockToProvision
    | ProvisionCall(c: Call, again: bool)
    | PersistStage(c: Call)
    | Fail
    | Retry

  datatype RotateAction =
    | LockToRotate(newPassword: nat, request: nat)
    | BeginRotation(c: Call)
    | SetPassword(c: Call)
    | Terminate(c: Call, left: set<nat>)
    | CompleteRotation(c: Call)
    | ListPending
    | LockToFinish

  datatype RemoveAction =
    | BeginDeletion
    | LockToRemove
    | DisableLogin(c: Call)
    | EndSessions(c: Call, left: set<nat>)
    | DropDatabase(c: Call)
    | DropRole(c: Call)
    | CompleteDeletion(c: Call)

  datatype PolicyAction =
    | StartSync(skipped: bool, own: bool)
    | WriteRules(c: Call)
    | AcceptRules
    | RejectRules(reloaded: bool, restored: bool)

  datatype WorldAction =
    | Connect
    | Disconnect(left: set<nat>)
    | Crash
    | RestartPostgres
    | SetFlag(on: bool)
    | Enter(who: Entrant)
    | Leave(who: Entrant)

  datatype Action =
    | Provision(p: ProvisionAction)
    | Rotate(r: RotateAction)
    | Remove(d: RemoveAction)
    | Policy(y: PolicyAction)
    | World(w: WorldAction)

  function After(stage: Stage): Stage {
    match stage
    case Identity => RoleMade
    case RoleMade => DatabaseMade
    case _ => Ready
  }

  // What each group of actions may touch.

  predicate ByProvision(s: State, t: State) {
    && t.sessions == s.sessions && t.file == s.file && t.live == s.live && t.sync == s.sync && t.listed == s.listed
    && t.requests == s.requests && t.audits == s.audits && t.maintenance == s.maintenance && t.inside == s.inside
  }

  predicate ByRotate(s: State, t: State) {
    && t.created == s.created && t.row == s.row && t.database == s.database && t.file == s.file && t.live == s.live
    && t.sync == s.sync && t.maintenance == s.maintenance && t.inside == s.inside
  }

  predicate ByRemove(s: State, t: State) {
    && t.created == s.created && t.file == s.file && t.live == s.live && t.sync == s.sync && t.listed == s.listed
    && t.requests == s.requests && t.audits == s.audits && t.maintenance == s.maintenance && t.inside == s.inside
  }

  predicate ByPolicy(s: State, t: State) {
    && t.created == s.created && t.row == s.row && t.secret == s.secret && t.role == s.role && t.database == s.database
    && t.sessions == s.sessions && t.listed == s.listed && t.requests == s.requests && t.audits == s.audits
    && t.maintenance == s.maintenance && t.inside == s.inside
  }

  function Unlock(s: State): State { s.(holder := Free) }

  // ----- provisioning -----

  /** The project is read again under the lock; failed, finished and doomed ones are left alone. */
  function DoLockToProvision(s: State): (t: State)
    ensures ByProvision(s, t)
  {
    if (Pass in s.inside || Job in s.inside) && s.holder.Free? && s.row.Row? && !s.row.failed &&
       !s.row.stage.Deleting? && !s.row.stage.Ready? && s.secret.Secret?
    then s.(holder := Provisioning(s.row.stage, s.secret.active, false))
    else s
  }

  /** Whether PostgreSQL lets the call of this stage succeed at all. */
  predicate Possible(s: State, stage: Stage) {
    match stage
    case Identity => s.role.NoRole? || (s.role.Ours? && s.role.login)
    case RoleMade => s.database.Owned? || (s.database.NoDatabase? && s.role.Ours?)
    case _ => true
  }

  /** EnsureRole, EnsureDatabase, or the bookkeeping of the last stage. */
  function Made(s: State, stage: Stage, password: nat): (t: State)
    ensures ByProvision(s, t) && t.holder == s.holder
  {
    match stage
    case Identity => s.(role := Ours(true, password))
    case RoleMade => s.(database := Owned)
    case _ => s
  }

  function DoProvisionCall(s: State, c: Call, again: bool): (t: State)
    ensures ByProvision(s, t)
  {
    if !s.holder.Provisioning? || s.holder.done then s
    else if Possible(s, s.holder.stage) && c.Succeeds? then
      Made(s, s.holder.stage, s.holder.password).(holder := s.holder.(done := true))
    else
      var t := if Possible(s, s.holder.stage) && Effect(c) then Made(s, s.holder.stage, s.holder.password) else s;
      if again then t else Unlock(t)
  }

  /** SetProjectStage never overwrites the tombstone. */
  function SetStage(row: Row, stage: Stage): Row {
    if row.Row? && !row.stage.Deleting? then row.(stage := stage) else row
  }

  function DoPersistStage(s: State, c: Call): (t: State)
    ensures ByProvision(s, t)
  {
    if !s.holder.Provisioning? || !s.holder.done then s
    else
      var next := After(s.holder.stage);
      var t := if Effect(c) then s.(row := SetStage(s.row, next)) else s;
      if !c.Succeeds? || next.Ready? then Unlock(t) else t.(holder := Provisioning(next, s.holder.password, false))
  }

  // ----- rotation -----

  function DoBeginRotation(s: State, c: Call): (t: State)
    ensures ByRotate(s, t)
  {
    if !s.holder.Rotating? || !s.holder.step.ToBegin? then s
    else if !(s.row.Row? && s.row.stage.Ready? && s.secret.Secret?) then Unlock(s)
    else
      var t := if !Effect(c) then s
               else s.(secret := s.secret.(pending := Pending(s.holder.newPassword, s.holder.request, |s.requests|)),
                       requests := s.requests + [s.holder.request]);
      if c.Succeeds? then t.(holder := s.holder.(step := ToSet)) else Unlock(t)
  }

  function DoSetPassword(s: State, c: Call): (t: State)
    ensures ByRotate(s, t)
  {
    if !s.holder.Rotating? || !s.holder.step.ToSet? then s
    else if !s.role.Ours? then Unlock(s)
    else
      var t := if Effect(c) then s.(role := s.role.(password := s.holder.newPassword)) else s;
      if c.Succeeds? then t.(holder := s.holder.(step := ToTerminate)) else Unlock(t)
  }

  function DoTerminate(s: State, c: Call, left: set<nat>): (t: State)
    ensures ByRotate(s, t)
  {
    if !s.holder.Rotating? || !s.holder.step.ToTerminate? then s
    else if c.Succeeds? then s.(sessions := {}, holder := s.holder.(step := ToConfirm))
    else Unlock(s.(sessions := s.sessions * left))
  }

  /** A compare-and-swap on the pending value, with the audit row in the same transaction. */
  function DoCompleteRotation(s: State, c: Call): (t: State)
    ensures ByRotate(s, t)
  {
    if !s.holder.Rotating? || !s.holder.step.ToConfirm? then s
    else if Effect(c) && s.secret.Secret? && s.secret.pending.Pending? &&
         s.secret.pending.password == s.holder.newPassword then
      Unlock(s.(secret := Secret(s.holder.newPassword, NoPending),
                audits := s.audits + [Audit(s.secret.pending.number, s.holder.request)]))
    else Unlock(s)
  }

  /** A project being deleted has no rotation to finish. */
  function DoListPending(s: State): (t: State)
    ensures ByRotate(s, t)
  {
    if Pass !in s.inside then s
    else if s.row.Row? && !s.row.stage.Deleting? && s.secret.Secret? && s.secret.pending.Pending?
    then s.(listed := Listed(s.secret.pending.request, s.secret.pending.number)) else s.(listed := NothingListed)
  }

  /** The pending password is read again under the lock; the request is the listed one. */
  function DoLockToFinish(s: State): (t: State)
    ensures ByRotate(s, t)
  {
    if Pass !in s.inside || !s.listed.Listed? || !s.holder.Free? then s
    else
      var t := s.(listed := NothingListed);
      if s.secret.Secret? && s.secret.pending.Pending?
      then t.(holder := Rotating(ToSet, s.secret.pending.password, s.listed.request)) else t
  }

  // ----- deletion -----

  /** Only a ready or a failed project may be marked; the flag is read again in the transaction. */
  function DoBeginDeletion(s: State): (t: State)
    ensures ByRemove(s, t)
  {
    if Request in s.inside && !s.maintenance && s.row.Row? && !s.row.stage.Deleting? &&
       (s.row.stage.Ready? || s.row.failed)
    then s.(row := Row(Deleting, false)) else s
  }

  function DoLockToRemove(s: State): (t: State)
    ensures ByRemove(s, t)
  {
    if Job in s.inside && s.holder.Free? && s.row.Row? && s.row.stage.Deleting?
    then s.(holder := Removing(ToDisable)) else s
  }

  predicate At(s: State, step: RemoveStep) { s.holder.Removing? && s.holder.remove == step }

  function Advance(s: State, c: Call, step: RemoveStep): State {
    if c.Succeeds? then s.(holder := Removing(step)) else Unlock(s)
  }

  function DoDisableLogin(s: State, c: Call): (t: State)
    ensures ByRemove(s, t)
  {
    if !At(s, ToDisable) then s
    else Advance(if s.role.Ours? && Effect(c) then s.(role := s.role.(login := false)) else s, c, ToEnd)
  }

  function DoEndSessions(s: State, c: Call, left: set<nat>): (t: State)
    ensures ByRemove(s, t)
  {
    if !At(s, ToEnd) then s
    else Advance(s.(sessions := if c.Succeeds? then {} else s.sessions * left), c, ToDropDatabase)
  }

  /** PostgreSQL refuses to drop the database of a role that is not ours. */
  function DoDropDatabase(s: State, c: Call): (t: State)
    ensures ByRemove(s, t)
  {
    if !At(s, ToDropDatabase) then s
    else if s.database.Owned? && s.role.Foreign? then Unlock(s)
    else Advance(if s.database.Owned? && Effect(c) then s.(database := NoDatabase) else s, c, ToDropRole)
  }

  function DoDropRole(s: State, c: Call): (t: State)
    ensures ByRemove(s, t)
  {
    if !At(s, ToDropRole) then s
    else Advance(if s.role.Ours? && Effect(c) then s.(role := NoRole, sessions := {}) else s, c, ToSync)
  }

  /** The job, the project and its dependent rows change in one transaction. */
  function DoCompleteDeletion(s: State, c: Call): (t: State)
    ensures ByRemove(s, t)
  {
    if !At(s, ToForget) then s
    else if Effect(c) && s.row.Row? && s.row.stage.Deleting? then Unlock(s.(row := NoRow, secret := NoSecret))
    else Unlock(s)
  }

  // ----- access policy -----

  /** Ready projects are rendered, except one whose allowlist cannot be read.  While a deletion waits
      for its sync, the lock may go to its own or to anybody else's. */
  function DoStartSync(s: State, skipped: bool, own: bool): (t: State)
    ensures ByPolicy(s, t)
  {
    if !s.sync.NoSync? then s
    else
      var rendered := s.row.Row? && s.row.stage.Ready? && !skipped;
      if own && At(s, ToSync) then s.(sync := Sync(rendered, false, false, true), holder := Removing(Syncing))
      else s.(sync := Sync(rendered, false, false, false))
  }

  function EndSync(s: State, ok: bool): (t: State)
    ensures ByPolicy(s, t) && t.file == s.file && t.live == s.live
  {
    var t := s.(sync := NoSync);
    if !s.sync.Sync? || !s.sync.byRemoval then t else if ok then t.(holder := Removing(ToForget)) else Unlock(t)
  }

  function DoWriteRules(s: State, c: Call): (t: State)
    ensures ByPolicy(s, t)
  {
    if !s.sync.Sync? || s.sync.written then s
    else if c.Succeeds? then s.(file := s.sync.rendered, sync := s.sync.(before := s.file, written := true))
    else EndSync(if Effect(c) then s.(file := s.sync.rendered) else s, false)
  }

  function DoAcceptRules(s: State): (t: State)
    ensures ByPolicy(s, t)
  {
    if !s.sync.Sync? || !s.sync.written then s else EndSync(s.(live := s.file), true)
  }

  /** A rejected file is put back; the reload may have gone through, and putting back may fail. */
  function DoRejectRules(s: State, reloaded: bool, restored: bool): (t: State)
    ensures ByPolicy(s, t)
  {
    if !s.sync.Sync? || !s.sync.written then s
    else EndSync(s.(live := if reloaded then s.file else s.live,
                    file := if restored then s.sync.before else s.file), false)
  }

  // ----- everything -----

  function DoProvision(s: State, a: ProvisionAction): (t: State)
    ensures ByProvision(s, t)
  {
    match a
    case Create(password) =>
      if s.created || !(Request in s.inside || Job in s.inside) then s
      else s.(created := true, row := Row(Identity, false), secret := Secret(password, NoPending))
    case LockToProvision => DoLockToProvision(s)
    case ProvisionCall(c, again) => DoProvisionCall(s, c, again)
    case PersistStage(c) => DoPersistStage(s, c)
    case Fail =>
      if (Pass in s.inside || Job in s.inside) && s.row.Row? && !s.row.stage.Deleting?
      then s.(row := s.row.(failed := true))
      else s
    case Retry => if Request in s.inside && s.row.Row? && s.row.failed then s.(row := s.row.(failed := false)) else s
  }

  function DoRotate(s: State, a: RotateAction): (t: State)
    ensures ByRotate(s, t)
  {
    match a
    case LockToRotate(password, request) =>
      if Request in s.inside && s.holder.Free? then s.(holder := Rotating(ToBegin, password, request)) else s
    case BeginRotation(c) => DoBeginRotation(s, c)
    case SetPassword(c) => DoSetPassword(s, c)
    case Terminate(c, left) => DoTerminate(s, c, left)
    case CompleteRotation(c) => DoCompleteRotation(s, c)
    case ListPending => DoListPending(s)
    case LockToFinish => DoLockToFinish(s)
  }

  function DoRemove(s: State, a: RemoveAction): (t: State)
    ensures ByRemove(s, t)
  {
    match a
    case BeginDeletion => DoBeginDeletion(s)
    case LockToRemove => DoLockToRemove(s)
    case DisableLogin(c) => DoDisableLogin(s, c)
    case EndSessions(c, left) => DoEndSessions(s, c, left)
    case DropDatabase(c) => DoDropDatabase(s, c)
    case DropRole(c) => DoDropRole(s, c)
    case CompleteDeletion(c) => DoCompleteDeletion(s, c)
  }

  function DoPolicy(s: State, a: PolicyAction): (t: State)
    ensures ByPolicy(s, t)
  {
    match a
    case StartSync(skipped, own) => DoStartSync(s, skipped, own)
    case WriteRules(c) => DoWriteRules(s, c)
    case AcceptRules => DoAcceptRules(s)
    case RejectRules(reloaded, restored) => DoRejectRules(s, reloaded, restored)
  }

  /** Clients come and go; the process or PostgreSQL restarts; an update sets the flag.  Whoever
      finds the flag off may act, also after it is set. */
  function DoWorld(s: State, a: WorldAction): State {
    match a
    case Connect => if s.role.Ours? && s.role.login then s.(sessions := s.sessions + {s.role.password}) else s
    case Disconnect(left) => s.(sessions := s.sessions * left)
    case Crash => s.(holder := Free, sync := NoSync, listed := NothingListed, inside := {})
    case RestartPostgres => s.(sessions := {}, live := s.file)
    case SetFlag(on) => s.(maintenance := on)
    case Enter(who) => if s.maintenance then s else s.(inside := s.inside + {who})
    case Leave(who) => if s.holder.Free? then s.(inside := s.inside - {who}) else s
  }

  function Do(s: State, a: Action): State {
    match a
    case Provision(p) => DoProvision(s, p)
    case Rotate(r) => DoRotate(s, r)
    case Remove(d) => DoRemove(s, d)
    case Policy(y) => DoPolicy(s, y)
    case World(w) => DoWorld(s, w)
  }

  datatype Actions = Stop | Then(first: Action, rest: Actions)

  function Run(s: State, actions: Actions): State
    decreases actions
  {
    match actions
    case Stop => s
    case Then(a, rest) => Run(Do(s, a), rest)
  }

  /** Nothing exists yet, except what others may have made under the same names. */
  predicate Init(s: State) {
    && s == State(false, NoRow, NoSecret, s.role, s.database, {}, false, false,
                  NoSync, Free, NothingListed, [], [], false, {})
    && !s.role.Ours? && (s.database.Owned? ==> s.role.Foreign?)
  }

  // ----- the invariant -----

  /** Without a pending rotation the role answers to the active password, and only it has sessions. */
  predicate Agrees(s: State) {
    && (!s.role.Ours? ==> s.sessions == {})
    && (s.row.Row? && !s.row.stage.Deleting? && s.secret.Secret? && s.secret.pending.NoPending? && s.role.Ours? ==>
          s.role == Ours(true, s.secret.active) && s.sessions <= {s.secret.active})
    && (s.row.Row? && !s.row.stage.Deleting? && s.role.Ours? ==> s.role.login)
  }

  /** What each stage has in place. */
  predicate Staged(s: State) {
    && (s.row.Row? <==> s.secret.Secret?) && (s.row.Row? ==> s.created)
    && (s.row.Row? && (s.row.stage.RoleMade? || s.row.stage.DatabaseMade? || s.row.stage.Ready?) ==> s.role.Ours?)
    && (s.row.Row? && (s.row.stage.DatabaseMade? || s.row.stage.Ready?) ==> s.database.Owned?)
    && (s.database.Owned? ==> !s.role.NoRole?)
    && (s.secret.Secret? && s.secret.pending.Pending? ==> s.row.Row? && (s.row.stage.Ready? || s.row.stage.Deleting?))
  }

  predicate HolderFits(s: State) {
    match s.holder
    case Free => true
    case Provisioning(stage, password, done) =>
      && s.row.Row? && s.secret.Secret? && s.secret == Secret(password, NoPending) && !stage.Deleting? && !stage.Ready?
      && (s.row.stage == stage || s.row.stage.Deleting?)
      && (!stage.Identity? || done ==> s.role.Ours? && s.role == Ours(true, password) && s.sessions <= {password})
      && (s.role.Ours? ==> s.role == Ours(true, password) && s.sessions <= {password})
      && (stage.DatabaseMade? || (stage.RoleMade? && done) ==> s.database.Owned?)
    case Rotating(step, password, _) =>
      step.ToBegin? ||
      (&& s.secret.Secret? && s.secret.pending.Pending? && s.secret.pending.password == password
       && (!step.ToSet? ==> s.role.Ours? && s.role.password == password)
       && (step.ToConfirm? ==> s.sessions <= {password}))
    case Removing(step) =>
      && s.row.Row? && s.row.stage.Deleting?
      && (!step.ToDisable? && s.role.Ours? ==> !s.role.login)
      && (!step.ToDisable? && !step.ToEnd? ==> s.sessions == {})
      && (!step.ToDisable? && !step.ToEnd? && !step.ToDropDatabase? ==> !s.database.Owned?)
      && (step.ToSync? || step.Syncing? || step.ToForget? ==> !s.role.Ours?)
      && (step.ToForget? ==> !s.file && !s.live)
  }

  predicate SyncFits(s: State) {
    && (s.sync.Sync? && s.sync.byRemoval <==> At(s, Syncing))
    && (s.sync.Sync? && s.sync.rendered ==> s.row.Row? && !At(s, Syncing) && !At(s, ToForget))
    && (s.sync.Sync? && s.sync.written ==> s.file == s.sync.rendered)
    && (s.sync.Sync? && s.sync.written && s.sync.before ==> s.row.Row? && !At(s, ToForget))
  }

  /** Once the row is gone nothing of ours is left, and nobody is about to bring it back. */
  predicate Absent(s: State) {
    s.row.NoRow? ==> !s.role.Ours? && s.secret.NoSecret? && !s.file && !s.live && (s.holder.Free? || s.holder.Rotating?)
  }

  /** Rotation numbers strictly increase along the audit rows and stay below the bound. */
  predicate Increasing(audits: seq<Audit>, bound: int) {
    || audits == []
    || (audits[|audits| - 1].number < bound && Increasing(audits[..|audits| - 1], audits[|audits| - 1].number))
  }

  /** Each rotation has at most one audit row; the newest has its row unless it is pending. */
  predicate Numbered(s: State) {
    && Increasing(s.audits, |s.requests|)
    && (s.secret.Secret? && s.secret.pending.Pending? ==>
          s.secret.pending.number == |s.requests| - 1 && Increasing(s.audits, |s.requests| - 1))
    && (s.secret.Secret? && s.secret.pending.NoPending? && |s.requests| > 0 ==>
          s.audits != [] && s.audits[|s.audits| - 1].number == |s.requests| - 1)
    && (!s.created ==> |s.requests| == 0 && s.audits == [])
  }

  predicate Inv(s: State) { Agrees(s) && Staged(s) && HolderFits(s) && SyncFits(s) && Absent(s) && Numbered(s) }

  // ----- every call keeps it -----

  lemma LockToProvisionKeeps(s: State)
    requires Inv(s)
    ensures Inv(DoLockToProvision(s))
  {
  }

  lemma ProvisionCallSucceeding(s: State, again: bool)
    requires Inv(s)
    ensures Inv(DoProvisionCall(s, Succeeds, again))
  {
  }

  lemma ProvisionCallFailing(s: State, c: Call, again: bool)
    requires Inv(s) && !c.Succeeds?
    ensures Inv(DoProvisionCall(s, c, again))
  {
  }

  lemma PersistStageKeeps(s: State, c: Call)
    requires Inv(s)
    ensures Inv(DoPersistStage(s, c))
  {
  }

  lemma BeginRotationSucceeding(s: State)
    requires Inv(s)
    ensures Inv(DoBeginRotation(s, Succeeds))
  {
  }

  lemma BeginRotationFailing(s: State, c: Call)
    requires Inv(s) && !c.Succeeds?
    ensures Inv(DoBeginRotation(s, c))
  {
  }

  lemma SetPasswordKeeps(s: State, c: Call)
    requires Inv(s)
    ensures Inv(DoSetPassword(s, c))
  {
  }

  lemma TerminateKeeps(s: State, c: Call, left: set<nat>)
    requires Inv(s)
    ensures Inv(DoTerminate(s, c, left))
  {
  }

  lemma CompleteRotationKeeps(s: State, c: Call)
    requires Inv(s)
    ensures Inv(DoCompleteRotation(s, c))
  {
  }

  lemma ListPendingKeeps(s: State)
    requires Inv(s)
    ensures Inv(DoListPending(s))
  {
  }

  lemma LockToFinishKeeps(s: State)
    requires Inv(s)
    ensures Inv(DoLockToFinish(s))
  {
  }

  lemma BeginDeletionKeeps(s: State)
    requires Inv(s)
    ensures Inv(DoBeginDeletion(s))
  {
  }

  lemma LockToRemoveKeeps(s: State)
    requires Inv(s)
    ensures Inv(DoLockToRemove(s))
  {
  }

  lemma DisableLoginKeeps(s: State, c: Call)
    requires Inv(s)
    ensures Inv(DoDisableLogin(s, c))
  {
    if !At(s, ToDisable) { assert DoDisableLogin(s, c) == s; }
  }

  lemma EndSessionsKeeps(s: State, c: Call, left: set<nat>)
    requires Inv(s)
    ensures Inv(DoEndSessions(s, c, left))
  {
  }

  lemma DropDatabaseSucceeding(s: State)
    requires Inv(s)
    ensures Inv(DoDropDatabase(s, Succeeds))
  {
  }

  lemma DropDatabaseFailing(s: State, c: Call)
    requires Inv(s) && !c.Succeeds?
    ensures Inv(DoDropDatabase(s, c))
  {
  }

  lemma DropRoleKeeps(s: State, c: Call)
    requires Inv(s)
    ensures Inv(DoDropRole(s, c))
  {
    if !At(s, ToDropRole) { assert DoDropRole(s, c) == s; }
  }

  lemma StartSyncForRemoval(s: State, skipped: bool)
    requires Inv(s) && At(s, ToSync)
    ensures Inv(DoStartSync(s, skipped, true))
  {
  }

  lemma StartSyncOtherwise(s: State, skipped: bool, own: bool)
    requires Inv(s) && !(own && At(s, ToSync))
    ensures Inv(DoStartSync(s, skipped, own))
  {
  }

  lemma WriteRulesSucceeding(s: State)
    requires Inv(s)
    ensures Inv(DoWriteRules(s, Succeeds))
  {
  }

  lemma WriteRulesLeaving(s: State)
    requires Inv(s)
    ensures Inv(DoWriteRules(s, FailsAfterEffect))
  {
  }

  lemma WriteRulesFailing(s: State)
    requires Inv(s)
    ensures Inv(DoWriteRules(s, FailsWithout))
  {
  }

  lemma AcceptRulesKeeps(s: State)
    requires Inv(s)
    ensures Inv(DoAcceptRules(s))
  {
    if !s.sync.Sync? || !s.sync.written { assert DoAcceptRules(s) == s; }
  }

  /** The rules and whoever applies them; the rest of the invariant does not mention them. */
  predicate RulesFit(s: State) {
    SyncFits(s) && (s.row.NoRow? ==> !s.file && !s.live) && (At(s, ToForget) ==> !s.file && !s.live)
  }

  lemma RejectedForRemoval(s: State, reloaded: bool, restored: bool)
    requires Inv(s) && s.sync.Sync? && s.sync.written && s.sync.byRemoval
    ensures RulesFit(DoRejectRules(s, reloaded, restored))
  {
  }

  lemma RejectedOtherwise(s: State, reloaded: bool, restored: bool)
    requires Inv(s) && s.sync.Sync? && s.sync.written && !s.sync.byRemoval
    ensures RulesFit(DoRejectRules(s, reloaded, restored))
  {
  }

  /** A step that only touches the rules, their lock and, at most, frees the project's lock. */
  lemma OnlyRules(s: State, t: State)
    requires Inv(s) && RulesFit(t) && (t.holder == s.holder || t.holder.Free?)
    requires t == s.(file := t.file, live := t.live, sync := t.sync, holder := t.holder)
    ensures Inv(t)
  {
  }

  lemma RejectRulesKeeps(s: State, reloaded: bool, restored: bool)
    requires Inv(s)
    ensures Inv(DoRejectRules(s, reloaded, restored))
  {
    if !s.sync.Sync? || !s.sync.written {
      assert DoRejectRules(s, reloaded, restored) == s;
    } else {
      if s.sync.byRemoval {
        RejectedForRemoval(s, reloaded, restored);
      } else {
        RejectedOtherwise(s, reloaded, restored);
      }
      OnlyRules(s, DoRejectRules(s, reloaded, restored));
    }
  }

  lemma CompleteDeletionKeeps(s: State, c: Call)
    requires Inv(s)
    ensures Inv(DoCompleteDeletion(s, c))
  {
  }

  lemma ProvisionKeeps(s: State, a: ProvisionAction)
    requires Inv(s)
    ensures Inv(DoProvision(s, a))
  {
    match a
    case LockToProvision => LockToProvisionKeeps(s);
    case ProvisionCall(c, again) =>
      if c.Succeeds? { ProvisionCallSucceeding(s, again); } else { ProvisionCallFailing(s, c, again); }
    case PersistStage(c) => PersistStageKeeps(s, c);
    case _ =>
  }

  lemma RotateKeeps(s: State, a: RotateAction)
    requires Inv(s)
    ensures Inv(DoRotate(s, a))
  {
    match a
    case BeginRotation(c) => if c.Succeeds? { BeginRotationSucceeding(s); } else { BeginRotationFailing(s, c); }
    case SetPassword(c) => SetPasswordKeeps(s, c);
    case Terminate(c, left) => TerminateKeeps(s, c, left);
    case CompleteRotation(c) => CompleteRotationKeeps(s, c);
    case ListPending => ListPendingKeeps(s);
    case LockToFinish => LockToFinishKeeps(s);
    case _ =>
  }

  lemma RemoveKeeps(s: State, a: RemoveAction)
    requires Inv(s)
    ensures Inv(DoRemove(s, a))
  {
    match a
    case BeginDeletion => BeginDeletionKeeps(s);
    case LockToRemove => LockToRemoveKeeps(s);
    case DisableLogin(c) => DisableLoginKeeps(s, c);
    case EndSessions(c, left) => EndSessionsKeeps(s, c, left);
    case DropDatabase(c) => if c.Succeeds? { DropDatabaseSucceeding(s); } else { DropDatabaseFailing(s, c); }
    case DropRole(c) => DropRoleKeeps(s, c);
    case CompleteDeletion(c) => CompleteDeletionKeeps(s, c);
  }

  lemma PolicyKeeps(s: State, a: PolicyAction)
    requires Inv(s)
    ensures Inv(DoPolicy(s, a))
  {
    match a
    case StartSync(skipped, own) =>
      if own && At(s, ToSync) { StartSyncForRemoval(s, skipped); } else { StartSyncOtherwise(s, skipped, own); }
    case WriteRules(c) =>
      if c.Succeeds? { WriteRulesSucceeding(s); }
      else if Effect(c) { WriteRulesLeaving(s); }
      else { WriteRulesFailing(s); }
    case AcceptRules => AcceptRulesKeeps(s);
    case RejectRules(reloaded, restored) => RejectRulesKeeps(s, reloaded, restored);
  }

  lemma WorldKeeps(s: State, a: WorldAction)
    requires Inv(s)
    ensures Inv(DoWorld(s, a))
  {
  }

  lemma StepKeeps(s: State, a: Action)
    requires Inv(s)
    ensures Inv(Do(s, a))
  {
    match a
    case Provision(p) => ProvisionKeeps(s, p);
    case Rotate(r) => RotateKeeps(s, r);
    case Remove(d) => RemoveKeeps(s, d);
    case Policy(y) => PolicyKeeps(s, y);
    case World(w) => WorldKeeps(s, w);
  }

  lemma {:induction false} RunKeeps(s: State, actions: Actions)
    requires Inv(s)
    ensures Inv(Run(s, actions))
    decreases actions
  {
    if actions.Then? {
      StepKeeps(s, actions.first);
      RunKeeps(Do(s, actions.first), actions.rest);
    }
  }

  // ----- rotation is crash-safe -----

  function Count(audits: seq<Audit>, number: nat): nat {
    if audits == [] then 0
    else Count(audits[..|audits| - 1], number) + if audits[|audits| - 1].number == number then 1 else 0
  }

  lemma {:induction false} IncreasingCounts(audits: seq<Audit>, bound: int, number: nat)
    requires Increasing(audits, bound)
    ensures Count(audits, number) <= 1 && (number >= bound ==> Count(audits, number) == 0)
  {
    if audits != [] { IncreasingCounts(audits[..|audits| - 1], audits[|audits| - 1].number, number); }
  }

  /** In every reachable state without a pending rotation, PostgreSQL's password is the
      active one, every session used it, and the newest rotation has exactly one audit
      row; no rotation ever has two. */
  lemma RotationIsSafe(s0: State, actions: Actions, number: nat)
    requires Init(s0)
    ensures var s := Run(s0, actions);
      && Count(s.audits, number) <= 1
      && (s.row.Row? && s.row.stage.Ready? && s.secret.Secret? && s.secret.pending.NoPending? ==>
            && s.role == Ours(true, s.secret.active) && s.database.Owned? && s.sessions <= {s.secret.active}
            && (|s.requests| > 0 ==> Count(s.audits, |s.requests| - 1) == 1))
  {
    RunKeeps(s0, actions);
    var s := Run(s0, actions);
    IncreasingCounts(s.audits, |s.requests|, number);
    if |s.requests| > 0 && s.audits != [] {
      IncreasingCounts(s.audits[..|s.audits| - 1], s.audits[|s.audits| - 1].number, |s.requests| - 1);
    }
  }

  function Finishing(): Actions {
    Then(Rotate(LockToFinish), Finishing1())
  }

  function Finishing1(): Actions {
    Then(Rotate(SetPassword(Succeeds)), Then(Rotate(Terminate(Succeeds, {})),
      Then(Rotate(CompleteRotation(Succeeds)), Stop)))
  }

  /** s with the pending rotation p in force, its audit row written under the given request. */
  function Finished(s: State, p: Pending, request: nat): State
    requires p.Pending?
  {
    s.(secret := Secret(p.password, NoPending), role := Ours(true, p.password), sessions := {}, listed := NothingListed,
       audits := s.audits + [Audit(p.number, request)])
  }

  /** A finisher that gets through leaves exactly the pending password in force, whatever
      PostgreSQL held before; its audit row names the listed request. */
  lemma FinishingRun(s: State)
    requires Pass in s.inside && s.holder.Free? && s.listed.Listed?
    requires s.secret.Secret? && s.secret.pending.Pending? && s.role.Ours? && s.role.login
    ensures Run(s, Finishing()) == Finished(s, s.secret.pending, s.listed.request)
  {
    var s1 := Do(s, Rotate(LockToFinish));
    var s2 := Do(s1, Rotate(SetPassword(Succeeds)));
    var s3 := Do(s2, Rotate(Terminate(Succeeds, {})));
    assert Run(s3, Then(Rotate(CompleteRotation(Succeeds)), Stop)) == Do(s3, Rotate(CompleteRotation(Succeeds)));
    assert Run(s1, Finishing1()) == Do(s3, Rotate(CompleteRotation(Succeeds)));
  }

  /** From any state with a pending rotation, a pass that gets through restores agreement. */
  lemma FinishRotationsRestores(s: State)
    requires Inv(s) && !s.maintenance && s.holder.Free? && s.row.Row? && s.row.stage.Ready? && s.secret.pending.Pending?
    ensures var t := Run(s, Then(World(Enter(Pass)), Then(Rotate(ListPending), Finishing())));
      var p := s.secret.pending;
      && t.secret == Secret(p.password, NoPending) && t.role == Ours(true, p.password) && t.sessions == {}
      && t.audits == s.audits + [Audit(p.number, p.request)]
  {
    var s1 := Do(s, World(Enter(Pass)));
    StepKeeps(s, World(Enter(Pass)));
    StepKeeps(s1, Rotate(ListPending));
    FinishingRun(Do(s1, Rotate(ListPending)));
    assert Run(s1, Then(Rotate(ListPending), Finishing())) == Run(Do(s1, Rotate(ListPending)), Finishing());
  }

  /** The same under any interleaving: whenever some holder confirms, nothing is pending any more. */
  lemma ConfirmingRestores(s0: State, actions: Actions)
    requires Init(s0)
    requires var s := Run(s0, actions);
      s.holder.Rotating? && s.holder.step.ToConfirm? && s.row.Row? && s.row.stage.Ready?
    ensures var s := Run(s0, actions); var t := Do(s, Rotate(CompleteRotation(Succeeds)));
      && t.secret == Secret(s.holder.newPassword, NoPending) && t.role == Ours(true, s.holder.newPassword)
      && t.sessions <= {s.holder.newPassword} && |t.audits| == |s.audits| + 1
  {
    RunKeeps(s0, actions);
    StepKeeps(Run(s0, actions), Rotate(CompleteRotation(Succeeds)));
  }

  // ----- whose request the audit row names -----

  /** What is pending and what was listed carry the request of the rotation with their number. */
  predicate Named(s: State) {
    && (s.secret.Secret? && s.secret.pending.Pending? ==>
          s.secret.pending.number < |s.requests| && s.secret.pending.request == s.requests[s.secret.pending.number])
    && (s.listed.Listed? ==> s.listed.number < |s.requests| && s.listed.request == s.requests[s.listed.number])
  }

  lemma NamedBegin(s: State, c: Call)
    requires Named(s)
    ensures Named(DoBeginRotation(s, c))
  {
  }

  lemma NamedList(s: State)
    requires Named(s)
    ensures Named(DoListPending(s)) && Named(DoLockToFinish(s))
  {
  }

  lemma NamedConfirm(s: State, c: Call)
    requires Named(s)
    ensures Named(DoCompleteRotation(s, c))
  {
  }

  lemma NamedRotate(s: State, a: RotateAction)
    requires Named(s)
    ensures Named(DoRotate(s, a))
  {
    match a
    case BeginRotation(c) => NamedBegin(s, c);
    case CompleteRotation(c) => NamedConfirm(s, c);
    case ListPending => NamedList(s);
    case LockToFinish => NamedList(s);
    case _ =>
      assert DoRotate(s, a).secret == s.secret && DoRotate(s, a).requests == s.requests &&
        DoRotate(s, a).listed == s.listed;
  }

  lemma NamedProvision(s: State, a: ProvisionAction)
    requires Named(s)
    ensures Named(DoProvision(s, a))
  {
    var t := DoProvision(s, a);
    assert t.secret == s.secret || (t.secret.Secret? && t.secret.pending.NoPending?);
  }

  lemma NamedRemove(s: State, a: RemoveAction)
    requires Named(s)
    ensures Named(DoRemove(s, a))
  {
    var t := DoRemove(s, a);
    assert t.secret == s.secret || t.secret.NoSecret?;
  }

  lemma NamedWorld(s: State, a: WorldAction)
    requires Named(s)
    ensures Named(DoWorld(s, a))
  {
    var t := DoWorld(s, a);
    assert t.secret == s.secret && t.requests == s.requests && (t.listed == s.listed || t.listed.NothingListed?);
  }

  lemma NamedStep(s: State, a: Action)
    requires Named(s)
    ensures Named(Do(s, a))
  {
    match a
    case Provision(p) => NamedProvision(s, p);
    case Rotate(r) => NamedRotate(s, r);
    case Remove(d) => NamedRemove(s, d);
    case Policy(y) =>
    case World(w) => NamedWorld(s, w);
  }

  lemma {:induction false} NamedRun(s: State, actions: Actions)
    requires Named(s)
    ensures Named(Run(s, actions))
    decreases actions
  {
    if actions.Then? {
      NamedStep(s, actions.first);
      NamedRun(Do(s, actions.first), actions.rest);
    }
  }

  /** Every rotation came from a request of its own. */
  predicate DistinctRequests(requests: seq<nat>) {
    forall i, j | 0 <= i < j < |requests| :: requests[i] != requests[j]
  }

  /** In every reachable state, the audit row an automatic finish writes names the rotation's own
      request exactly when the rotation listed before the lock was taken is still the newest one. */
  lemma AutomaticAuditRequest(s0: State, actions: Actions)
    requires Init(s0)
    requires var s := Run(s0, actions);
      && Pass in s.inside && s.holder.Free? && s.listed.Listed? && s.row.Row? && s.row.stage.Ready?
      && s.secret.Secret? && s.secret.pending.Pending? && DistinctRequests(s.requests)
    ensures var s := Run(s0, actions); var audits := Run(s, Finishing()).audits;
      && |audits| == |s.audits| + 1 && audits[|s.audits|].number == |s.requests| - 1
      && (audits[|s.audits|].request == s.requests[|s.requests| - 1] <==> s.listed.number == |s.requests| - 1)
  {
    RunKeeps(s0, actions);
    NamedRun(s0, actions);
    FinishingRun(Run(s0, actions));
  }

  /** A project is created and provisioned; the rotation of a first request stops before PostgreSQL
      hears of it, and a pass lists it. */
  function OneListed(password: nat, first: nat, request: nat): Actions {
    Then(World(Enter(Request)), Then(World(Enter(Pass)),
      Then(Provision(Create(password)), Then(Provision(LockToProvision),
      StageDone(StageDone(StageDone(BegunOnly(first, request, Then(Rotate(ListPending), Stop)))))))))
  }

  function StageDone(rest: Actions): Actions {
    Then(Provision(ProvisionCall(Succeeds, false)), Then(Provision(PersistStage(Succeeds)), rest))
  }

  function BegunOnly(password: nat, request: nat, rest: Actions): Actions {
    Then(Rotate(LockToRotate(password, request)), Then(Rotate(BeginRotation(Succeeds)),
      Then(Rotate(SetPassword(FailsWithout)), rest)))
  }

  /** The state after that run. */
  function Listing(s: State, password: nat, first: nat, request: nat): State {
    s.(created := true, row := Row(Ready, false), secret := Secret(password, Pending(first, request, 0)),
       role := Ours(true, password), database := Owned, listed := Listed(request, 0),
       requests := [request], inside := {Request, Pass})
  }

  lemma StageDoneRun(s: State, rest: Actions)
    requires s.holder.Provisioning? && !s.holder.done && Possible(s, s.holder.stage) && s.row.Row?
    requires !s.row.stage.Deleting?
    ensures var t := Made(s, s.holder.stage, s.holder.password).(row := s.row.(stage := After(s.holder.stage)));
      Run(s, StageDone(rest)) ==
      Run(t.(holder := if After(s.holder.stage).Ready? then Free
          else Provisioning(After(s.holder.stage), s.holder.password, false)), rest)
  {
    var s1 := Do(s, Provision(ProvisionCall(Succeeds, false)));
    assert Run(s, StageDone(rest)) == Run(s1, Then(Provision(PersistStage(Succeeds)), rest));
  }

  lemma BegunOnlyRun(s: State, password: nat, request: nat, rest: Actions)
    requires Request in s.inside && s.holder.Free? && s.row.Row? && s.row.stage.Ready? && s.secret.Secret?
    requires s.role.Ours?
    ensures Run(s, BegunOnly(password, request, rest)) ==
      Run(s.(secret := s.secret.(pending := Pending(password, request, |s.requests|)),
             requests := s.requests + [request]), rest)
  {
    var s1 := Do(s, Rotate(LockToRotate(password, request)));
    var s2 := Do(s1, Rotate(BeginRotation(Succeeds)));
    assert Run(s1, Then(Rotate(BeginRotation(Succeeds)), Then(Rotate(SetPassword(FailsWithout)), rest))) ==
           Run(s2, Then(Rotate(SetPassword(FailsWithout)), rest));
  }

  lemma ProvisionedRun(s: State, password: nat, rest: Actions)
    requires s.holder == Provisioning(Identity, password, false) && s.row == Row(Identity, false) && s.role.NoRole?
    requires s.database.NoDatabase?
    ensures Run(s, StageDone(StageDone(StageDone(rest)))) ==
      Run(s.(row := Row(Ready, false), role := Ours(true, password), database := Owned, holder := Free), rest)
  {
    StageDoneRun(s, StageDone(StageDone(rest)));
    var s1 := s.(row := Row(RoleMade, false), role := Ours(true, password),
                 holder := Provisioning(RoleMade, password, false));
    StageDoneRun(s1, StageDone(rest));
    var s2 := s1.(row := Row(DatabaseMade, false), database := Owned,
                  holder := Provisioning(DatabaseMade, password, false));
    StageDoneRun(s2, rest);
  }

  lemma CreatedRun(s: State, password: nat, rest: Actions)
    requires Init(s)
    ensures
      Run(s, Then(World(Enter(Request)), Then(World(Enter(Pass)),
               Then(Provision(Create(password)), Then(Provision(LockToProvision), rest))))) ==
      Run(s.(created := true, row := Row(Identity, false), secret := Secret(password, NoPending),
             holder := Provisioning(Identity, password, false), inside := {Request, Pass}), rest)
  {
    var s1 := Do(s, World(Enter(Request)));
    var s2 := Do(s1, World(Enter(Pass)));
    var s3 := Do(s2, Provision(Create(password)));
    assert s2.inside == {Request, Pass};
    assert Run(s2, Then(Provision(Create(password)), Then(Provision(LockToProvision), rest))) ==
      Run(Do(s3, Provision(LockToProvision)), rest);
  }

  lemma OneListedRun(s: State, password: nat, first: nat, request: nat)
    requires Init(s) && s.role.NoRole? && s.database.NoDatabase?
    ensures Run(s, OneListed(password, first, request)) == Listing(s, password, first, request)
  {
    var listing := Then(Rotate(ListPending), Stop);
    CreatedRun(s, password, StageDone(StageDone(StageDone(BegunOnly(first, request, listing)))));
    var s4 := s.(created := true, row := Row(Identity, false), secret := Secret(password, NoPending),
                 holder := Provisioning(Identity, password, false), inside := {Request, Pass});
    ProvisionedRun(s4, password, BegunOnly(first, request, listing));
    var s5 := s4.(row := Row(Ready, false), role := Ours(true, password), database := Owned, holder := Free);
    BegunOnlyRun(s5, first, request, listing);
  }

  /** From the very beginning: a second request that overwrites the pending password between the
      listing and the lock is finished, and audited, under the first request's name. */
  lemma AuditCanNameAnEarlierRequest(s: State, password: nat, first: nat, second: nat, request: nat, later: nat)
    requires Init(s) && s.role.NoRole? && s.database.NoDatabase?
    ensures var t := Run(Run(s, OneListed(password, first, request)), BegunOnly(second, later, Finishing()));
      t.requests == [request, later] && t.secret == Secret(second, NoPending) && t.audits == [Audit(1, request)]
  {
    OneListedRun(s, password, first, request);
    var listing := Listing(s, password, first, request);
    BegunOnlyRun(listing, second, later, Finishing());
    FinishingRun(listing.(secret := Secret(password, Pending(second, later, 1)), requests := [request] + [later]));
  }

  // ----- deletion is final -----

  predicate Doomed(s: State) { s.row.Row? && s.row.stage.Deleting? }

  predicate Over(s: State) { s.created && s.row.NoRow? }

  /** Nothing this installation made is left: a database owned by a role that is gone or foreign is not ours. */
  predicate NothingLeft(s: State) {
    && !s.role.Ours? && s.secret.NoSecret? && !s.file && !s.live && s.sessions == {}
    && (s.database.Owned? ==> s.role.Foreign?)
  }

  predicate Ending(s: State) { Doomed(s) || Over(s) }

  lemma FinalProvision(s: State, a: ProvisionAction)
    requires Inv(s) && Ending(s)
    ensures Ending(DoProvision(s, a)) && (Over(s) ==> Over(DoProvision(s, a)))
  {
  }

  lemma FinalRemove(s: State, a: RemoveAction)
    requires Inv(s) && Ending(s)
    ensures Ending(DoRemove(s, a)) && (Over(s) ==> Over(DoRemove(s, a)))
  {
  }

  lemma RotateRow(s: State, a: RotateAction)
    ensures DoRotate(s, a).row == s.row && DoRotate(s, a).created == s.created
  {
  }

  lemma FinalStep(s: State, a: Action)
    requires Inv(s) && Ending(s)
    ensures Ending(Do(s, a)) && (Over(s) ==> Over(Do(s, a)))
  {
    match a
    case Provision(p) => FinalProvision(s, p);
    case Remove(d) => FinalRemove(s, d);
    case Rotate(r) => RotateRow(s, r);
    case _ =>
  }

  /** `deleting` is left only by removing the row, and a removed project stays removed,
      with no role, database, secret, session or access rule of ours, in every later state. */
  lemma {:induction false} DeletionIsFinal(s: State, actions: Actions)
    requires Inv(s) && Ending(s)
    ensures var t := Run(s, actions);
      && (Doomed(t) || (Over(t) && NothingLeft(t)))
      && (Over(s) ==> Over(t))
    decreases actions
  {
    if actions.Then? {
      StepKeeps(s, actions.first);
      FinalStep(s, actions.first);
      DeletionIsFinal(Do(s, actions.first), actions.rest);
    }
  }

  /** A role or database that predates the project is never touched. */
  lemma {:induction false} ForeignIsUntouched(s: State, actions: Actions)
    ensures ForeignKept(s, Run(s, actions))
    decreases actions
  {
    if actions.Then? {
      ForeignStep(s, actions.first);
      ForeignIsUntouched(Do(s, actions.first), actions.rest);
    }
  }

  predicate ForeignKept(s: State, t: State) {
    (s.role.Foreign? ==> t.role.Foreign? && t.database == s.database) && (s.database.Other? ==> t.database.Other?)
  }

  lemma ForeignProvision(s: State, a: ProvisionAction)
    ensures ForeignKept(s, DoProvision(s, a))
  {
  }

  lemma ForeignRotate(s: State, a: RotateAction)
    ensures ForeignKept(s, DoRotate(s, a))
  {
  }

  lemma ForeignRemove(s: State, a: RemoveAction)
    ensures ForeignKept(s, DoRemove(s, a))
  {
  }

  lemma ForeignStep(s: State, a: Action)
    ensures ForeignKept(s, Do(s, a))
  {
    match a
    case Provision(p) => ForeignProvision(s, p);
    case Rotate(r) => ForeignRotate(s, r);
    case Remove(d) => ForeignRemove(s, d);
    case _ =>
  }

  /** The calls a deletion still has to make, all succeeding. */
  function Remaining(step: RemoveStep): Actions
    decreases Rank(step)
  {
    match step
    case ToDisable => Then(Remove(DisableLogin(Succeeds)), Remaining(ToEnd))
    case ToEnd => Then(Remove(EndSessions(Succeeds, {})), Remaining(ToDropDatabase))
    case ToDropDatabase => Then(Remove(DropDatabase(Succeeds)), Remaining(ToDropRole))
    case ToDropRole => Then(Remove(DropRole(Succeeds)), Remaining(ToSync))
    case ToSync => Then(Policy(StartSync(false, true)), Remaining(Syncing))
    case Syncing => Then(Policy(WriteRules(Succeeds)), Then(Policy(AcceptRules), Remaining(ToForget)))
    case ToForget => Then(Remove(CompleteDeletion(Succeeds)), Stop)
  }

  function Rank(step: RemoveStep): nat {
    match step
    case ToDisable => 6
    case ToEnd => 5
    case ToDropDatabase => 4
    case ToDropRole => 3
    case ToSync => 2
    case Syncing => 1
    case ToForget => 0
  }

  predicate LateCall(a: Action) { a.Policy? || (a.Remove? && (a.d.DropRole? || a.d.CompleteDeletion?)) }

  predicate LateCalls(actions: Actions) { actions.Stop? || (LateCall(actions.first) && LateCalls(actions.rest)) }

  predicate BeforeDrop(step: RemoveStep) { step.ToDisable? || step.ToEnd? || step.ToDropDatabase? }

  /** Without the lock the remaining calls do not get at the row. */
  lemma {:induction false} Stranded(s: State, actions: Actions)
    requires Doomed(s) && s.created && !s.holder.Removing? && (s.sync.Sync? ==> !s.sync.byRemoval) && LateCalls(actions)
    ensures Doomed(Run(s, actions))
    decreases actions
  {
    if actions.Then? {
      StrandedStep(s, actions.first);
      Stranded(Do(s, actions.first), actions.rest);
    }
  }

  lemma StrandedStep(s: State, a: Action)
    requires Doomed(s) && s.created && !s.holder.Removing? && (s.sync.Sync? ==> !s.sync.byRemoval) && LateCall(a)
    ensures var t := Do(s, a); t.created && Doomed(t) && !t.holder.Removing? && (t.sync.Sync? ==> !t.sync.byRemoval)
  {
  }

  lemma {:induction false} LateRun(s: State, step: RemoveStep)
    requires Doomed(s) && s.created && At(s, step) && !BeforeDrop(step)
    requires if step.Syncing? then s.sync.Sync? && !s.sync.written && s.sync.byRemoval else s.sync.NoSync?
    ensures Over(Run(s, Remaining(step)))
    decreases Rank(step)
  {
    match step
    case ToDropRole => LateRun(Do(s, Remove(DropRole(Succeeds))), ToSync);
    case ToSync => LateRun(Do(s, Policy(StartSync(false, true))), Syncing);
    case Syncing => LateRun(Do(Do(s, Policy(WriteRules(Succeeds))), Policy(AcceptRules)), ToForget);
    case ToForget =>
  }

  lemma {:induction false} EarlyRun(s: State, step: RemoveStep)
    requires Doomed(s) && s.created && At(s, step) && BeforeDrop(step) && s.sync.NoSync?
    ensures Over(Run(s, Remaining(step))) <==> !(s.database.Owned? && s.role.Foreign?)
    decreases Rank(step)
  {
    match step
    case ToDisable => EarlyRun(Do(s, Remove(DisableLogin(Succeeds))), ToEnd);
    case ToEnd => EarlyRun(Do(s, Remove(EndSessions(Succeeds, {}))), ToDropDatabase);
    case ToDropDatabase =>
      var t := Do(s, Remove(DropDatabase(Succeeds)));
      if s.database.Owned? && s.role.Foreign? { Stranded(t, Remaining(ToDropRole)); } else { LateRun(t, ToDropRole); }
  }

  /** Rerun after a crash at any point, a deletion whose calls succeed reaches its end, exactly
      unless an update holds the installation quiet or the database belongs to a foreign role. */
  lemma DeletionConverges(s: State)
    requires Inv(s) && Doomed(s)
    ensures
      Over(Run(Do(s, World(Crash)), Then(World(Enter(Job)), Then(Remove(LockToRemove), Remaining(ToDisable))))) <==>
      !s.maintenance && !(s.database.Owned? && s.role.Foreign?)
  {
    var t := Do(Do(s, World(Crash)), World(Enter(Job)));
    var u := Do(t, Remove(LockToRemove));
    assert Run(t, Then(Remove(LockToRemove), Remaining(ToDisable))) == Run(u, Remaining(ToDisable));
    if s.maintenance { HeldBack(u, ToDisable); } else { EarlyRun(u, ToDisable); }
  }

  /** Without the lock none of the remaining calls does anything to the row. */
  lemma {:induction false} HeldBack(s: State, step: RemoveStep)
    requires Doomed(s) && s.created && !s.holder.Removing? && (s.sync.Sync? ==> !s.sync.byRemoval)
    ensures Doomed(Run(s, Remaining(step)))
    decreases Rank(step)
  {
    match step
    case ToDisable => HeldBack(Do(s, Remove(DisableLogin(Succeeds))), ToEnd);
    case ToEnd => HeldBack(Do(s, Remove(EndSessions(Succeeds, {}))), ToDropDatabase);
    case ToDropDatabase => HeldBack(Do(s, Remove(DropDatabase(Succeeds))), ToDropRole);
    case _ => Stranded(s, Remaining(step));
  }

  /** A project refused because a foreign role holds its name, then marked for deletion. */
  function RefusedThenMarked(password: nat): Actions {
    Then(World(Enter(Request)), Then(World(Enter(Pass)),
      Then(Provision(Create(password)), Then(Provision(LockToProvision),
      Then(Provision(ProvisionCall(FailsWithout, false)), Then(Provision(Fail), Then(Remove(BeginDeletion), Stop)))))))
  }

  /** The stuck case is reachable: the foreign role and its database were there first. */
  lemma DeletionCanBeStuck(s: State, password: nat, later: Actions)
    requires Init(s) && s.role.Foreign? && s.database.Owned?
    ensures Doomed(Run(s, RefusedThenMarked(password))) && Doomed(Run(Run(s, RefusedThenMarked(password)), later))
  {
    var s2 := Do(Do(s, World(Enter(Request))), World(Enter(Pass)));
    var s4 := Do(Do(s2, Provision(Create(password))), Provision(LockToProvision));
    var s6 := Do(Do(s4, Provision(ProvisionCall(FailsWithout, false))), Provision(Fail));
    var t := Do(s6, Remove(BeginDeletion));
    assert Run(s2, Then(Provision(Create(password)), Then(Provision(LockToProvision),
      Then(Provision(ProvisionCall(FailsWithout, false)),
      Then(Provision(Fail), Then(Remove(BeginDeletion), Stop)))))) == t by {
      assert Run(s4, Then(Provision(ProvisionCall(FailsWithout, false)),
        Then(Provision(Fail), Then(Remove(BeginDeletion), Stop)))) == t;
    }
    RunKeeps(s, RefusedThenMarked(password));
    StuckForever(t, later);
  }

  /** While the foreign role has the database no run ends the deletion. */
  lemma {:induction false} StuckForever(s: State, actions: Actions)
    requires Inv(s) && Doomed(s) && s.database.Owned? && s.role.Foreign?
    ensures Doomed(Run(s, actions))
    decreases actions
  {
    if actions.Then? {
      StepKeeps(s, actions.first);
      ForeignStep(s, actions.first);
      StuckStep(s, actions.first);
      StuckForever(Do(s, actions.first), actions.rest);
    }
  }

  lemma StuckStep(s: State, a: Action)
    requires Inv(s) && Doomed(s) && s.database.Owned? && s.role.Foreign?
    ensures Doomed(Do(s, a))
  {
    FinalStep(s, a);
    if a.Remove? { StuckRemove(s, a.d); }
  }

  lemma StuckRemove(s: State, a: RemoveAction)
    requires Inv(s) && Doomed(s) && s.database.Owned? && s.role.Foreign?
    ensures Doomed(DoRemove(s, a))
  {
  }

  // ----- an update holds the installation quiet -----

  /** The flag is on and nobody who found it off is left; a restart with the flag on begins here. */
  predicate Quiet(s: State) {
    s.maintenance && s.inside == {} && s.holder.Free? && (s.sync.Sync? ==> !s.sync.byRemoval)
  }

  /** The update does not end in between. */
  predicate FlagStays(actions: Actions) {
    actions.Then? ==> !(actions.first.World? && actions.first.w == SetFlag(false)) && FlagStays(actions.rest)
  }

  /** Nothing a rollback would have to undo differs: the metadata of the project, PostgreSQL's role
      and database, and the rotation and audit records. */
  predicate Untouched(s: State, t: State) {
    && t.created == s.created && t.row == s.row && t.secret == s.secret && t.role == s.role && t.database == s.database
    && t.requests == s.requests && t.audits == s.audits
  }

  lemma QuietStep(s: State, a: Action)
    requires Quiet(s) && !(a.World? && a.w == SetFlag(false))
    ensures Quiet(Do(s, a)) && Untouched(s, Do(s, a))
  {
    match a
    case Provision(p) =>
    case Rotate(r) =>
    case Remove(d) =>
    case Policy(y) =>
    case World(w) =>
  }

  /** Whatever is tried, once it is quiet it stays quiet until the update ends: only the access
      rules may be rewritten, from the same rows. */
  lemma {:induction false} UpdateHoldsQuiet(s: State, actions: Actions)
    requires Quiet(s) && FlagStays(actions)
    ensures Quiet(Run(s, actions)) && Untouched(s, Run(s, actions))
    decreases actions
  {
    if actions.Then? {
      QuietStep(s, actions.first);
      UpdateHoldsQuiet(Do(s, actions.first), actions.rest);
    }
  }

  /** While the flag is on nobody enters, and a restart empties the inside: it is quiet from then on. */
  lemma {:induction false} FlagKeepsOut(s: State, actions: Actions)
    requires s.maintenance && FlagStays(actions)
    ensures Run(s, actions).maintenance && Run(s, actions).inside <= s.inside
    ensures Quiet(Do(Run(s, actions), World(Crash)))
    decreases actions
  {
    if actions.Then? {
      KeptOut(s, actions.first);
      FlagKeepsOut(Do(s, actions.first), actions.rest);
    }
  }

  lemma KeptOut(s: State, a: Action)
    requires s.maintenance && !(a.World? && a.w == SetFlag(false))
    ensures Do(s, a).maintenance && Do(s, a).inside <= s.inside
  {
    match a
    case Provision(p) =>
    case Rotate(r) =>
    case Remove(d) =>
    case Policy(y) =>
    case World(w) =>
  }

  /** Nothing but the update itself changes the flag. */
  lemma FlagIsTheUpdates(s: State, a: Action)
    requires a.World? ==> !a.w.SetFlag?
    ensures Do(s, a).maintenance == s.maintenance
  {
  }

  /** Setting the flag does not interrupt: a pass already inside still makes the role. */
  lemma FlagDoesNotInterrupt(s: State, password: nat)
    requires Init(s) && s.role.NoRole?
    ensures var t := Do(Do(Do(Do(Do(s, World(Enter(Request))), World(Enter(Pass))),
        Provision(Create(password))), Provision(LockToProvision)), World(SetFlag(true)));
      t.role.NoRole? && t.maintenance && Do(t, Provision(ProvisionCall(Succeeds, false))).role == Ours(true, password)
  {
  }
}
