/**
 The job queue: one slot for backups and restores, deletions that may queue
 behind them, and the single worker that runs them.  Methods are transactions; a
 result that cannot be recorded leaves its row running until the next restart.
 New job ids are fresh numbers.
 */
module Jobs {
  import opened Schedule
  import Records

  datatype Kind = Backup | Restore | Delete

  datatype JobState = Queued | Running | Succeeded | Failed | Interrupted

  /** The project column of a job, cleared when the project's row goes. */
  datatype Owner = NoOwner | Owner(project: nat)

  datatype Job = Job(kind: Kind, owner: Owner, state: JobState, createdAt: int, scheduled: bool)

  datatype Stage = SettingUp | Ready | Deleting

  datatype ProjectRow = ProjectRow(stage: Stage, failed: bool, deletingAt: int)

  datatype Attempt = Attempt(lastAttempt: int, failures: int, nextAttempt: int)

  /** What the worker is doing: which job, and whether its project passed the readiness check. */
  datatype Current = Nobody | Working(id: nat, checked: bool)

  datatype Answer = Accepted(id: nat) | Busy | Maintenance | NotFound | NotDeletable | AlreadyQueued(id: nat)

  predicate Active(j: Job) { j.state.Queued? || j.state.Running? }

  predicate ActiveDelete(j: Job, p: nat) { Active(j) && j.kind.Delete? && j.owner == Owner(p) }

  /** At most one backup or restore is queued or running. */
  ghost predicate OneHeavy(jobs: map<nat, Job>) {
    forall i, j | i in jobs && j in jobs && Active(jobs[i]) && Active(jobs[j]) &&
                  !jobs[i].kind.Delete? && !jobs[j].kind.Delete? ::
      i == j
  }

  /** At most one active deletion per project, and only of a project marked for it. */
  ghost predicate DeletesFit(jobs: map<nat, Job>, projects: map<nat, ProjectRow>) {
    && (forall i | i in jobs && Active(jobs[i]) && jobs[i].kind.Delete? ::
          jobs[i].owner.Owner? && jobs[i].owner.project in projects && projects[jobs[i].owner.project].stage.Deleting?)
    && (forall i, j | i in jobs && j in jobs && Active(jobs[i]) && Active(jobs[j]) &&
                      jobs[i].kind.Delete? && jobs[j].kind.Delete? && jobs[i].owner == jobs[j].owner ::
          i == j)
  }

  /** The worker's job is running, and a project that passed the check is still not marked. */
  ghost predicate WorkerFits(jobs: map<nat, Job>, projects: map<nat, ProjectRow>, current: Current) {
    current.Working? ==>
      && current.id in jobs && jobs[current.id].state.Running?
      && (current.checked ==>
            && jobs[current.id].owner.Owner? && jobs[current.id].owner.project in projects
            && !projects[jobs[current.id].owner.project].stage.Deleting?)
  }

  ghost predicate OwnersExist(jobs: map<nat, Job>, projects: map<nat, ProjectRow>, nextId: nat) {
    forall i | i in jobs :: i < nextId && (jobs[i].owner.Owner? ==> jobs[i].owner.project in projects)
  }

  ghost predicate Sound(jobs: map<nat, Job>, projects: map<nat, ProjectRow>, current: Current, nextId: nat) {
    && OneHeavy(jobs) && DeletesFit(jobs, projects) && WorkerFits(jobs, projects, current)
    && OwnersExist(jobs, projects, nextId)
  }

  /** Finished states are never left. */
  ghost predicate FinishedStay(before: map<nat, Job>, after: map<nat, Job>) {
    forall i | i in before && !Active(before[i]) :: i in after && after[i].state == before[i].state
  }

  /** A mark for deletion is left only by removing the project. */
  ghost predicate MarksStay(before: map<nat, ProjectRow>, after: map<nat, ProjectRow>) {
    forall p | p in before && p in after && before[p].stage.Deleting? :: after[p].stage.Deleting?
  }

  predicate Earlier(a: Job, i: nat, b: Job, j: nat) {
    a.createdAt < b.createdAt || (a.createdAt == b.createdAt && i < j)
  }

  predicate OldestOf(jobs: map<nat, Job>, queued: set<nat>, id: nat)
    requires queued <= jobs.Keys
  {
    id in queued && forall i | i in queued && i != id :: Earlier(jobs[id], id, jobs[i], i)
  }

  lemma {:induction false} HasOldest(jobs: map<nat, Job>, queued: set<nat>)
    requires queued != {} && queued <= jobs.Keys
    ensures exists id :: OldestOf(jobs, queued, id)
    decreases queued
  {
    Records.HasMember(queued);
    var x :| x in queued;
    var rest := queued - {x};
    if rest == {} {
      assert queued == {x};
      assert OldestOf(jobs, queued, x);
    } else {
      HasOldest(jobs, rest);
      var c :| OldestOf(jobs, rest, c);
      OldestWith(jobs, rest, c, x);
      assert rest + {x} == queued;
    }
  }

  lemma OldestWith(jobs: map<nat, Job>, rest: set<nat>, c: nat, x: nat)
    requires rest <= jobs.Keys && OldestOf(jobs, rest, c) && x in jobs && x !in rest
    ensures exists id :: OldestOf(jobs, rest + {x}, id)
  {
    if Earlier(jobs[x], x, jobs[c], c) {
      assert OldestOf(jobs, rest + {x}, x);
    } else {
      assert OldestOf(jobs, rest + {x}, c);
    }
  }

  function QueuedIds(jobs: map<nat, Job>): set<nat> { set i | i in jobs && jobs[i].state.Queued? }

  /** The schedule after an attempt ended: success clears the backoff, failure lengthens it. */
  function Outcome(schedule: map<nat, Attempt>, p: nat, succeeded: bool, now: int, interval: int): map<nat, Attempt> {
    var failures := (if p in schedule then schedule[p].failures else 0) + 1;
    schedule[p := if succeeded then Attempt(now, 0, 0) else Attempt(now, failures, now + Backoff(failures, interval))]
  }

  function WaitsOf(schedule: map<nat, Attempt>): map<nat, int> { map p | p in schedule :: schedule[p].nextAttempt }

  predicate OutOfBackoff(schedule: map<nat, Attempt>, p: nat, now: int) { Or0(WaitsOf(schedule), p) <= now }

  /** The end of this job counts for the schedule of its project. */
  predicate Scores(j: Job, succeeded: bool) { j.kind.Backup? && j.owner.Owner? && (succeeded || j.scheduled) }

  /** The project is out of backoff at once after a success, and after a failure exactly when the
      backoff of its streak is over; what the schedule says of every other project is unchanged. */
  ghost predicate OutcomeCounts(before: map<nat, Attempt>, after: map<nat, Attempt>, p: nat, succeeded: bool, now: int,
                                interval: int)
  {
    && p in after && (succeeded ==> after[p].failures == 0)
    && (!succeeded ==> after[p].failures == (if p in before then before[p].failures else 0) + 1)
    && (forall later | later >= now && later >= 0 ::
          OutOfBackoff(after, p, later) <==> succeeded || later >= now + Backoff(after[p].failures, interval))
    && (forall q | q != p :: Or0(WaitsOf(after), q) == Or0(WaitsOf(before), q))
  }

  lemma OutcomeMeans(schedule: map<nat, Attempt>, p: nat, succeeded: bool, now: int, interval: int)
    ensures OutcomeCounts(schedule, Outcome(schedule, p, succeeded, now, interval), p, succeeded, now, interval)
  {
  }

  function Attempted(schedule: map<nat, Attempt>, p: nat, now: int): map<nat, Attempt> {
    schedule[p := if p in schedule then schedule[p].(lastAttempt := now) else Attempt(now, 0, 0)]
  }

  /** Ready or failed with nothing running, or marked already with no deletion waiting or running. */
  predicate Deletable(row: ProjectRow, jobs: map<nat, Job>, p: nat) {
    if row.stage.Deleting? then forall i | i in jobs :: !ActiveDelete(jobs[i], p)
    else (row.stage.Ready? || row.failed) &&
         forall i | i in jobs && jobs[i].owner == Owner(p) :: !jobs[i].state.Running?
  }

  function Cancelled(jobs: map<nat, Job>, p: nat): map<nat, Job> {
    map i | i in jobs ::
      if jobs[i].owner == Owner(p) && jobs[i].state.Queued? && !jobs[i].kind.Delete? then jobs[i].(state := Failed)
      else jobs[i]
  }

  function Disowned(jobs: map<nat, Job>, p: nat): map<nat, Job> {
    map i | i in jobs :: if jobs[i].owner == Owner(p) then jobs[i].(owner := NoOwner) else jobs[i]
  }

  /** Adding a job keeps the queue sound. */
  lemma AddKeeps(jobs: map<nat, Job>, projects: map<nat, ProjectRow>, current: Current, nextId: nat, j: Job)
    requires Sound(jobs, projects, current, nextId) && j.state.Queued?
    requires j.owner.Owner? ==> j.owner.project in projects
    requires !j.kind.Delete? ==> forall i | i in jobs :: !Active(jobs[i])
    requires j.kind.Delete? ==>
      && j.owner.Owner? && projects[j.owner.project].stage.Deleting?
      && forall i | i in jobs :: !ActiveDelete(jobs[i], j.owner.project)
    ensures Sound(jobs[nextId := j], projects, current, nextId + 1)
  {
  }

  /** So does ending one. */
  lemma EndKeeps(jobs: map<nat, Job>, projects: map<nat, ProjectRow>, current: Current, nextId: nat, id: nat,
                 state: JobState)
    requires Sound(jobs, projects, current, nextId) && id in jobs && !state.Queued? && !state.Running?
    ensures Sound(jobs[id := jobs[id].(state := state)], projects,
                  if current.Working? && current.id == id then Nobody else current, nextId)
  {
  }

  /** So does marking a project for deletion, when none of its jobs runs. */
  lemma MarkKeeps(jobs: map<nat, Job>, projects: map<nat, ProjectRow>, current: Current, nextId: nat, p: nat, now: int)
    requires Sound(jobs, projects, current, nextId) && p in projects && !projects[p].stage.Deleting?
    requires forall i | i in jobs && jobs[i].owner == Owner(p) :: !jobs[i].state.Running?
    ensures Sound(Cancelled(jobs, p), projects[p := ProjectRow(Deleting, false, now)], current, nextId)
    ensures forall i | i in Cancelled(jobs, p) :: !ActiveDelete(Cancelled(jobs, p)[i], p)
  {
  }

  /** So does removing a project with its running deletion. */
  lemma RemoveKeeps(jobs: map<nat, Job>, projects: map<nat, ProjectRow>, current: Current, nextId: nat, p: nat, id: nat)
    requires Sound(jobs, projects, current, nextId) && current.Working? && current.id == id && jobs[id].kind.Delete?
    requires jobs[id].owner == Owner(p)
    ensures Sound(Disowned(jobs, p)[id := jobs[id].(state := Succeeded, owner := NoOwner)], projects - {p},
                  Nobody, nextId)
  {
  }

  function RunningIds(jobs: map<nat, Job>): set<nat> { set i | i in jobs && jobs[i].state.Running? }

  function Stopped(jobs: map<nat, Job>, ids: set<nat>): map<nat, Job> {
    map i | i in jobs :: if i in ids then jobs[i].(state := Interrupted) else jobs[i]
  }

  /** An interrupted job that counts as a failed attempt. */
  predicate Counts(j: Job) { j.state.Running? && j.kind.Backup? && j.scheduled && j.owner.Owner? }

  function Counted(schedule: map<nat, Attempt>, j: Job, now: int, interval: int): map<nat, Attempt> {
    if Counts(j) then Outcome(schedule, j.owner.project, false, now, interval) else schedule
  }

  /** The jobs in done have been counted, each once. */
  ghost predicate Tallied(jobs: map<nat, Job>, done: set<nat>, before: map<nat, Attempt>, after: map<nat, Attempt>,
                          now: int, interval: int)
    requires done <= jobs.Keys
  {
    && (forall i | i in done && Counts(jobs[i]) ::
          after == Outcome(before, jobs[i].owner.project, false, now, interval))
    && ((forall i | i in done :: !Counts(jobs[i])) ==> after == before)
  }

  lemma TalliedStep(jobs: map<nat, Job>, done: set<nat>, before: map<nat, Attempt>, now0: map<nat, Attempt>,
                    after: map<nat, Attempt>, i: nat, now: int, interval: int)
    requires OneHeavy(jobs) && done <= jobs.Keys && i in jobs && i !in done
    requires Tallied(jobs, done, before, now0, now, interval)
    requires after == Counted(now0, jobs[i], now, interval)
    ensures Tallied(jobs, done + {i}, before, after, now, interval)
  {
    if Counts(jobs[i]) { assert forall k | k in done :: !Counts(jobs[k]); }
  }

  lemma MinusLess(s: set<nat>, t: set<nat>, i: nat)
    requires i in t && t <= s
    ensures s - t + {i} == s - (t - {i})
  {
  }

  lemma StoppedStays(jobs: map<nat, Job>)
    ensures FinishedStay(jobs, Stopped(jobs, RunningIds(jobs)))
  {
  }

  lemma StoppedNone(jobs: map<nat, Job>)
    ensures Stopped(jobs, RunningIds(jobs) - RunningIds(jobs)) == jobs
  {
  }

  lemma StoppedStep(jobs: map<nat, Job>, running: set<nat>, todo: set<nat>, i: nat)
    requires i in todo && todo <= running <= jobs.Keys
    ensures var s := Stopped(jobs, running - todo);
      s[i] == jobs[i] && s[i := jobs[i].(state := Interrupted)] == Stopped(jobs, running - (todo - {i}))
  {
  }

  ghost predicate Extends(before: map<nat, Job>, after: map<nat, Job>) {
    forall i | i in before :: i in after && after[i] == before[i]
  }

  ghost predicate HasDelete(jobs: map<nat, Job>, p: nat) { exists i :: i in jobs && ActiveDelete(jobs[i], p) }

  lemma HasDeleteStays(before: map<nat, Job>, after: map<nat, Job>, p: nat)
    requires Extends(before, after) && HasDelete(before, p)
    ensures HasDelete(after, p)
  {
    var i :| i in before && ActiveDelete(before[i], p);
    assert i in after && ActiveDelete(after[i], p);
  }

  lemma AfterInsert(before: map<nat, Job>, after: map<nat, Job>, id: nat, p: nat)
    requires id !in before && after.Keys == before.Keys + {id} && Extends(before, after) && ActiveDelete(after[id], p)
    ensures HasDelete(after, p) && forall q | q != p :: HasDelete(after, q) <==> HasDelete(before, q)
  {
    forall q | q != p ensures HasDelete(after, q) <==> HasDelete(before, q) {
      if HasDelete(before, q) { HasDeleteStays(before, after, q); }
      if HasDelete(after, q) {
        var i :| i in after && ActiveDelete(after[i], q);
        assert i in before && ActiveDelete(before[i], q);
      }
    }
  }

  lemma StaysTrans(a: map<nat, Job>, b: map<nat, Job>, c: map<nat, Job>)
    requires FinishedStay(a, b) && FinishedStay(b, c)
    ensures FinishedStay(a, c)
  {
  }

  class Queue {
    var jobs: map<nat, Job>
    var projects: map<nat, ProjectRow>
    var schedule: map<nat, Attempt>
    var maintenance: bool
    var current: Current
    var nextId: nat

    ghost predicate Valid()
      reads this
    {
      Sound(jobs, projects, current, nextId)
    }

    constructor ()
      ensures Valid() && jobs == map[] && projects == map[] && current.Nobody?
    {
      jobs, projects, schedule, maintenance, current, nextId := map[], map[], map[], false, Nobody, 0;
    }

    // ----- asking for work -----

    /** A backup or restore is taken only when nothing at all is queued or running; the attempt
        is recorded with the job. */
    method Enqueue(kind: Kind, owner: Owner, scheduled: bool, now: int) returns (answer: Answer)
      requires Valid() && !kind.Delete?
      modifies this`jobs, this`schedule, this`nextId
      ensures Valid() && FinishedStay(old(jobs), jobs)
      ensures answer.Accepted? <==>
        && !maintenance && (forall i | i in old(jobs) :: !Active(old(jobs)[i]))
        && (owner.Owner? ==> owner.project in projects)
      ensures answer.Accepted? ==>
        answer.id !in old(jobs) && jobs == old(jobs)[answer.id := Job(kind, owner, Queued, now, scheduled)]
      ensures answer.Accepted? ==>
        schedule == if kind.Backup? && owner.Owner? then Attempted(old(schedule), owner.project, now) else old(schedule)
      ensures !answer.Accepted? ==> jobs == old(jobs) && schedule == old(schedule)
    {
      if maintenance { return Maintenance; }
      if exists i | i in jobs :: Active(jobs[i]) { return Busy; }
      if owner.Owner? && owner.project !in projects { return NotFound; }
      AddKeeps(jobs, projects, current, nextId, Job(kind, owner, Queued, now, scheduled));
      answer := Accepted(nextId);
      jobs, nextId := jobs[nextId := Job(kind, owner, Queued, now, scheduled)], nextId + 1;
      if kind.Backup? && owner.Owner? { schedule := Attempted(schedule, owner.project, now); }
    }

    // ----- the worker -----

    /** The oldest queued job starts, unless an update holds the installation quiet. */
    method ClaimJob() returns (claimed: bool)
      requires Valid() && current.Nobody?
      modifies this`jobs, this`current
      ensures Valid() && FinishedStay(old(jobs), jobs)
      ensures claimed <==> !maintenance && QueuedIds(old(jobs)) != {}
      ensures claimed ==> current.Working? && !current.checked && OldestOf(old(jobs), QueuedIds(old(jobs)), current.id)
      ensures claimed ==> jobs == old(jobs)[current.id := old(jobs)[current.id].(state := Running)]
      ensures !claimed ==> jobs == old(jobs) && current.Nobody?
    {
      var queued := QueuedIds(jobs);
      if queued == {} || maintenance { return false; }
      HasOldest(jobs, queued);
      var id :| id in queued && OldestOf(jobs, queued, id);
      jobs, current := jobs[id := jobs[id].(state := Running)], Working(id, false);
      claimed := true;
    }

    /** A backup goes on only for a ready project. */
    method CheckReady() returns (ready: bool)
      requires Valid() && current.Working?
      modifies this`current
      ensures Valid() && current.Working? && current.id == old(current).id
      ensures ready ==>
        current.checked && jobs[current.id].owner.Owner? && projects[jobs[current.id].owner.project].stage.Ready?
      ensures !ready ==> current == old(current)
    {
      var j := jobs[current.id];
      ready := j.owner.Owner? && j.owner.project in projects &&
        projects[j.owner.project].stage.Ready? && !projects[j.owner.project].failed;
      if ready { current := current.(checked := true); }
    }

    /** The worker is done with its job.  A result that cannot be recorded leaves the row running. */
    method Finish(succeeded: bool, recorded: bool, now: int, interval: int)
      requires Valid() && current.Working? && (jobs[current.id].kind.Delete? ==> !succeeded)
      modifies this`jobs, this`schedule, this`current
      ensures Valid() && FinishedStay(old(jobs), jobs) && current.Nobody?
      ensures !recorded ==> jobs == old(jobs) && schedule == old(schedule)
      ensures recorded ==> var id := old(current).id;
        jobs == old(jobs)[id := old(jobs)[id].(state := if succeeded then Succeeded else Failed)]
      ensures recorded ==> var j := old(jobs)[old(current).id];
        schedule == if Scores(j, succeeded)
          then Outcome(old(schedule), j.owner.project, succeeded, now, interval)
          else old(schedule)
      ensures recorded && Scores(old(jobs)[old(current).id], succeeded) ==>
        OutcomeCounts(old(schedule), schedule, old(jobs)[old(current).id].owner.project, succeeded, now, interval)
    {
      var id := current.id;
      var j := jobs[id];
      if recorded {
        EndKeeps(jobs, projects, current, nextId, id, if succeeded then Succeeded else Failed);
        jobs := jobs[id := j.(state := if succeeded then Succeeded else Failed)];
        if Scores(j, succeeded) {
          OutcomeMeans(schedule, j.owner.project, succeeded, now, interval);
          schedule := Outcome(schedule, j.owner.project, succeeded, now, interval);
        }
      }
      current := Nobody;
    }

    /** At a restart nothing can still be running: every running job was interrupted, and an
        interrupted scheduled backup, of which there is at most one, counts as a failed attempt. */
    method InterruptRunningJobs(now: int, interval: int)
      requires Valid()
      modifies this`jobs, this`schedule, this`current
      ensures Valid() && FinishedStay(old(jobs), jobs) && current.Nobody?
      ensures jobs == Stopped(old(jobs), RunningIds(old(jobs)))
      ensures Tallied(old(jobs), RunningIds(old(jobs)), old(schedule), schedule, now, interval)
    {
      current := Nobody;
      var todo := RunningIds(jobs);
      ghost var running := todo;
      StoppedNone(jobs);
      while todo != {}
        invariant Valid() && todo <= running == RunningIds(old(jobs)) && current.Nobody?
        invariant jobs == Stopped(old(jobs), running - todo)
        invariant Tallied(old(jobs), running - todo, old(schedule), schedule, now, interval)
        decreases todo
      {
        Records.HasMember(todo);
        var i :| i in todo;
        ghost var before := schedule;
        StoppedStep(old(jobs), running, todo, i);
        InterruptOne(i, now, interval);
        TalliedStep(old(jobs), running - todo, old(schedule), before, schedule, i, now, interval);
        MinusLess(running, todo, i);
        todo := todo - {i};
      }
      assert running - todo == running;
      StoppedStays(old(jobs));
    }

    method InterruptOne(i: nat, now: int, interval: int)
      requires Valid() && i in jobs && current.Nobody?
      modifies this`jobs, this`schedule
      ensures Valid() && jobs == old(jobs)[i := old(jobs)[i].(state := Interrupted)]
      ensures schedule == Counted(old(schedule), old(jobs)[i], now, interval)
    {
      EndKeeps(jobs, projects, current, nextId, i, Interrupted);
      schedule := Counted(schedule, jobs[i], now, interval);
      jobs := jobs[i := jobs[i].(state := Interrupted)];
    }

    // ----- deletion -----

    method InsertDelete(p: nat, now: int) returns (id: nat)
      requires Valid() && p in projects && projects[p].stage.Deleting?
      requires forall i | i in jobs :: !ActiveDelete(jobs[i], p)
      modifies this`jobs, this`nextId
      ensures Valid() && id !in old(jobs) && jobs == old(jobs)[id := Job(Delete, Owner(p), Queued, now, false)]
    {
      var j := Job(Delete, Owner(p), Queued, now, false);
      AddKeeps(jobs, projects, current, nextId, j);
      id := nextId;
      jobs, nextId := jobs[id := j], nextId + 1;
    }

    /** Marks the project, cancels its queued jobs and queues the deletion; asking again queues one
        only if none is waiting or running. */
    method BeginProjectDeletion(p: nat, now: int) returns (answer: Answer)
      requires Valid()
      modifies this`jobs, this`projects, this`nextId
      ensures Valid() && FinishedStay(old(jobs), jobs) && MarksStay(old(projects), projects)
      ensures !answer.Accepted? ==> jobs == old(jobs) && projects == old(projects)
      ensures answer.Accepted? ==>
        p in projects && projects[p].stage.Deleting? && answer.id in jobs && ActiveDelete(jobs[answer.id], p)
      ensures answer.Accepted? <==> !maintenance && p in old(projects) && Deletable(old(projects)[p], old(jobs), p)
      ensures answer.Accepted? && !old(projects)[p].stage.Deleting? ==>
        forall i | i in jobs && jobs[i].owner == Owner(p) && Active(jobs[i]) :: i == answer.id
    {
      if maintenance { return Maintenance; }
      if p !in projects { return NotFound; }
      if projects[p].stage.Deleting? {
        if i :| i in jobs && ActiveDelete(jobs[i], p) { return AlreadyQueued(i); }
      } else {
        if !projects[p].stage.Ready? && !projects[p].failed { return NotDeletable; }
        if exists i | i in jobs :: jobs[i].owner == Owner(p) && jobs[i].state.Running? { return Busy; }
        MarkKeeps(jobs, projects, current, nextId, p, now);
        jobs := Cancelled(jobs, p);
        projects := projects[p := ProjectRow(Deleting, false, now)];
      }
      var id := InsertDelete(p, now);
      answer := Accepted(id);
    }

    /** After a restart or a failure: every marked project gets a deletion if it has none. */
    method ResumeDeletions(now: int)
      requires Valid()
      modifies this`jobs, this`nextId
      ensures Valid() && FinishedStay(old(jobs), jobs)
      ensures maintenance ==> jobs == old(jobs)
      ensures !maintenance ==> forall p | p in projects && projects[p].stage.Deleting? :: HasDelete(jobs, p)
      ensures Extends(old(jobs), jobs)
    {
      if maintenance { return; }
      var todo := set p | p in projects && projects[p].stage.Deleting? &&
        forall i | i in jobs :: !ActiveDelete(jobs[i], p);
      while todo != {}
        invariant Valid() && Extends(old(jobs), jobs)
        invariant forall p | p in todo :: p in projects && projects[p].stage.Deleting? && !HasDelete(jobs, p)
        invariant forall p | p in projects && projects[p].stage.Deleting? && p !in todo :: HasDelete(jobs, p)
        decreases todo
      {
        Records.HasMember(todo);
        var p :| p in todo;
        ghost var before := jobs;
        var id := InsertDelete(p, now);
        AfterInsert(before, jobs, id, p);
        todo := todo - {p};
      }
    }

    /** The project's row, its schedule and the job end together; other jobs lose the reference. */
    method CompleteProjectDeletion(p: nat) returns (ok: bool)
      requires Valid() && current.Working? && jobs[current.id].kind.Delete? && jobs[current.id].owner == Owner(p)
      modifies this`jobs, this`projects, this`schedule, this`current
      ensures Valid() && FinishedStay(old(jobs), jobs)
      ensures !ok ==> jobs == old(jobs) && projects == old(projects) && current == old(current)
      ensures ok ==>
        && p in old(projects) && old(projects)[p].stage.Deleting? && projects == old(projects) - {p}
        && p !in schedule && current.Nobody?
      ensures ok ==> forall i | i in jobs :: jobs[i].owner != Owner(p) && !ActiveDelete(jobs[i], p)
    {
      if * { return false; }
      if p !in projects || !projects[p].stage.Deleting? { return false; }
      var id := current.id;
      RemoveKeeps(jobs, projects, current, nextId, p, id);
      jobs := Disowned(jobs, p)[id := jobs[id].(state := Succeeded, owner := NoOwner)];
      projects, schedule, current := projects - {p}, schedule - {p}, Nobody;
      ok := true;
    }

    // ----- everything else that happens to projects -----

    /** Creation, provisioning, failure and retry; none of them touches a marked project. */
    method SetProject(p: nat, row: ProjectRow)
      requires Valid() && !row.stage.Deleting? && (p in projects ==> !projects[p].stage.Deleting?)
      modifies this`projects
      ensures Valid() && MarksStay(old(projects), projects) && projects == old(projects)[p := row]
    {
      projects := projects[p := row];
    }

    /** Any calls, restarts and lost results, in any order. */
    method AnyRun(steps: nat)
      requires Valid()
      modifies this
      ensures Valid() && FinishedStay(old(jobs), jobs)
    {
      for n := 0 to steps
        invariant Valid() && FinishedStay(old(jobs), jobs)
      {
        ghost var before := jobs;
        var kind: Kind, owner: Owner, p: nat, row: ProjectRow, now: int, interval: int,
            flag: bool, recorded: bool := *, *, *, *, *, *, *, *;
        if
        case !kind.Delete? => var answer := Enqueue(kind, owner, flag, now);
        case current.Nobody? => var claimed := ClaimJob();
        case current.Working? => var ready := CheckReady();
        case current.Working? && (jobs[current.id].kind.Delete? ==> !flag) => Finish(flag, recorded, now, interval);
        case true => InterruptRunningJobs(now, interval);
        case true => var answer := BeginProjectDeletion(p, now);
        case true => ResumeDeletions(now);
        case current.Working? && jobs[current.id].kind.Delete? && jobs[current.id].owner == Owner(p) =>
          var ok := CompleteProjectDeletion(p);
        case !row.stage.Deleting? && (p in projects ==> !projects[p].stage.Deleting?) => SetProject(p, row);
        case true => maintenance := flag;
        StaysTrans(old(jobs), before, jobs);
      }
    }
  }
}
