/**
 A host update holds the installation quiet.  The flag is a row of the metadata:
 the queue, the backup worker, the provisioner and the alert engine each look at
 it before they act.  Here they run side by side, one call at a time, on one
 database folder and one project.
 */
module Maintenance {
  import opened Records
  import Alerts
  import BucketProtocol
  import Jobs
  import Lifecycle

  /** Only listings happened, twice. */
  lemma LookedTransitive(a: seq<BucketProtocol.Event>, b: seq<BucketProtocol.Event>, c: seq<BucketProtocol.Event>)
    requires BucketProtocol.OnlyLooked(a, b) && BucketProtocol.OnlyLooked(b, c)
    ensures BucketProtocol.OnlyLooked(a, c)
  {
    forall i | |a| <= i < |c| ensures c[i].Listed? || c[i].Recorded? { assert i < |b| ==> c[i] == b[i]; }
  }

  /** No job was added and none started. */
  ghost predicate NoneStarted(before: map<nat, Jobs.Job>, after: map<nat, Jobs.Job>) {
    && after.Keys == before.Keys
    && forall i | i in before ::
         after[i] == before[i] || (before[i].state.Running? && after[i] == before[i].(state := Jobs.Interrupted))
  }

  lemma InterruptedNotStarted(jobs: map<nat, Jobs.Job>)
    ensures NoneStarted(jobs, Jobs.Stopped(jobs, Jobs.RunningIds(jobs)))
  {
  }

  /** What the parts hold that a rollback would have to undo, and the worker's trace. */
  datatype View = View(project: Lifecycle.State, jobs: map<nat, Jobs.Job>, projects: map<nat, Jobs.ProjectRow>,
                       alerts: map<string, Alerts.Condition>, sent: map<string, seq<Alerts.Sent>>,
                       bucket: BucketProtocol.Bucket, started: set<Dir>, published: set<int>,
                       trace: seq<BucketProtocol.Event>)

  /** Nothing that a rollback would have to undo differs: the project's metadata, role, database and
      secret, the project rows, the alert state and what was sent, and, alone, the bucket; no job was
      added or started, and the trace of the worker gained only listings. */
  ghost predicate Kept(a: View, b: View, alone: bool) {
    && Lifecycle.Untouched(a.project, b.project)
    && NoneStarted(a.jobs, b.jobs) && b.projects == a.projects
    && b.alerts == a.alerts && b.sent == a.sent
    && b.started == a.started && b.published == a.published
    && BucketProtocol.OnlyLooked(a.trace, b.trace) && (alone ==> b.bucket == a.bucket)
  }

  lemma KeptTransitive(a: View, b: View, c: View, alone: bool)
    requires Kept(a, b, alone) && Kept(b, c, alone)
    ensures Kept(a, c, alone)
  {
    LookedTransitive(a.trace, b.trace, c.trace);
  }

  /** A step of the provisioner, the requests or PostgreSQL: the flag and the worker's entry are not theirs. */
  predicate Theirs(a: Lifecycle.Action) {
    a.World? ==> !a.w.SetFlag? && a.w != Lifecycle.Enter(Lifecycle.Job) && a.w != Lifecycle.Leave(Lifecycle.Job)
  }

  class Installation {
    const worker: BucketProtocol.Worker
    const queue: Jobs.Queue
    const engine: Alerts.Engine
    var project: Lifecycle.State

    ghost predicate Valid()
      reads this, worker, queue, engine
    {
      worker.Valid() && queue.Valid() && engine.Valid() && queue.maintenance == project.maintenance
    }

    ghost function Now(): View
      reads this, worker, queue, engine
    {
      View(project, queue.jobs, queue.projects, engine.rows, engine.logs,
           worker.bucket, worker.started, worker.published, worker.trace)
    }

    /** The flag is on and nobody who found it off is left. */
    ghost predicate Held()
      reads this, worker, queue, engine
    {
      Valid() && Lifecycle.Quiet(project) && queue.current.Nobody?
    }

    constructor (worker: BucketProtocol.Worker, queue: Jobs.Queue, engine: Alerts.Engine, project: Lifecycle.State)
      requires worker.Valid() && queue.Valid() && engine.Valid() && queue.maintenance == project.maintenance
      ensures Valid() && this.worker == worker && this.queue == queue && this.engine == engine
      ensures this.project == project
    {
      this.worker, this.queue, this.engine, this.project := worker, queue, engine, project;
    }

    /** The flag is set in the metadata that all of them read. */
    method SetFlag(on: bool)
      requires Valid()
      modifies this`project, queue`maintenance
      ensures Valid() && queue.maintenance == on
      ensures project == Lifecycle.Do(old(project), Lifecycle.World(Lifecycle.SetFlag(on)))
    {
      queue.maintenance := on;
      project := Lifecycle.Do(project, Lifecycle.World(Lifecycle.SetFlag(on)));
    }

    // ----- what the parts do -----

    /** Somebody asks for a backup, a restore or a deletion, or the worker resumes deletions. */
    method Ask(kind: Jobs.Kind, owner: Jobs.Owner, p: nat, now: int)
      requires Valid()
      modifies queue`jobs, queue`schedule, queue`nextId, queue`projects
      ensures Valid()
      ensures queue.maintenance ==> queue.jobs == old(queue.jobs) && queue.projects == old(queue.projects)
      ensures old(Held()) ==> Held() && Kept(old(Now()), Now(), worker.alone)
    {
      if
      case !kind.Delete? => var answer := queue.Enqueue(kind, owner, false, now);
      case true => var answer := queue.BeginProjectDeletion(p, now);
      case true => queue.ResumeDeletions(now);
    }

    /** The worker claims a job. */
    method Claim()
      requires Valid() && queue.current.Nobody?
      modifies this`project, queue`jobs, queue`current
      ensures Valid()
      ensures old(Held()) ==> queue.jobs == old(queue.jobs) && project == old(project)
      ensures old(Held()) ==> Held() && Kept(old(Now()), Now(), worker.alone)
    {
      var claimed := queue.ClaimJob();
      if claimed { project := Lifecycle.Do(project, Lifecycle.World(Lifecycle.Enter(Lifecycle.Job))); }
    }

    /** The worker runs its job, publishing a backup, and ends it. */
    method Work(id: nat, name: string, now: int, succeeded: bool, recorded: bool, interval: int)
      requires Valid() && queue.current.Working?
      modifies this`project, queue`jobs, queue`schedule, queue`current, worker
      ensures Valid()
    {
      if * {
        if id !in worker.jobs && now >= worker.clock && now > 0 &&
           (worker.alone ==> At(now) !in worker.bucket.archives && At(now) !in worker.rows)
        {
          var ok := worker.Publish(id, name, now, false);
        }
      } else if !queue.jobs[queue.current.id].kind.Delete? || !succeeded {
        queue.Finish(succeeded, recorded, now, interval);
        project := Lifecycle.Do(project, Lifecycle.World(Lifecycle.Leave(Lifecycle.Job)));
      }
    }

    /** The worker looks at the bucket. */
    method Reconcile(p: Policy, now: int, protection: BucketProtocol.Protection, acknowledged: bool, lucky: bool)
      requires Valid()
      modifies worker
      ensures Valid()
      ensures queue.maintenance ==>
        && worker.started == old(worker.started) && worker.published == old(worker.published)
        && worker.jobs == old(worker.jobs)
        && BucketProtocol.OnlyLooked(old(worker.trace), worker.trace)
        && (worker.alone ==> worker.bucket == old(worker.bucket))
    {
      if now < worker.clock || now <= 0 { return; }
      var listed, clean, forgot,
        retained := worker.Reconcile(p, now, queue.maintenance, protection, acknowledged, lucky);
    }

    method InterruptJobs(now: int, interval: int)
      requires Valid()
      modifies queue`jobs, queue`schedule, queue`current
      ensures Valid() && queue.current.Nobody? && NoneStarted(old(queue.jobs), queue.jobs)
    {
      InterruptedNotStarted(queue.jobs);
      queue.InterruptRunningJobs(now, interval);
    }

    /** The process starts again. */
    method Restart(now: int, interval: int)
      requires Valid()
      modifies this`project, queue`jobs, queue`schedule, queue`current, worker`jobs, worker`clock
      ensures Valid() && queue.current.Nobody? && NoneStarted(old(queue.jobs), queue.jobs)
      ensures project == Lifecycle.Do(old(project), Lifecycle.World(Lifecycle.Crash))
      ensures queue.maintenance ==> Held()
      ensures old(Held()) ==> Held() && Kept(old(Now()), Now(), worker.alone)
    {
      InterruptJobs(now, interval);
      if now >= worker.clock { worker.Restart(now); }
      project := Lifecycle.Do(project, Lifecycle.World(Lifecycle.Crash));
    }

    // ----- while the flag is on -----

    /** Any one thing anybody tries. */
    method Step()
      requires Valid()
      modifies this`project, worker, queue, engine
      ensures Valid() && queue.maintenance == old(queue.maintenance)
      ensures old(Held()) ==> Held() && Kept(old(Now()), Now(), worker.alone)
    {
      if * { QueueStep(); } else { OtherStep(); }
    }

    /** Something about jobs. */
    method QueueStep()
      requires Valid()
      modifies this`project, worker, queue
      ensures Valid() && queue.maintenance == old(queue.maintenance)
      ensures old(Held()) ==> Held() && Kept(old(Now()), Now(), worker.alone)
    {
      var kind: Jobs.Kind, owner: Jobs.Owner, p: nat, id: nat, name: string := *, *, *, *, *;
      var now: int, interval: int, succeeded: bool, recorded: bool := *, *, *, *;
      if
      case true => Ask(kind, owner, p, now);
      case queue.current.Nobody? => Claim();
      case queue.current.Working? => Work(id, name, now, succeeded, recorded, interval);
      case true => Restart(now, interval);
    }

    /** The worker's look at the bucket, the alert engine, the provisioner, a request or PostgreSQL. */
    method OtherStep()
      requires Valid()
      modifies this`project, worker, engine
      ensures Valid()
      ensures old(Held()) ==> Held() && Kept(old(Now()), Now(), worker.alone)
    {
      var policy: Policy, protection: BucketProtocol.Protection, acknowledged: bool, lucky: bool := *, *, *, *;
      var active: seq<Alerts.Seen>, checked: set<string>, query: Alerts.Query := *, *, *;
      var now: int, a: Lifecycle.Action := *, *;
      if
      case true => Reconcile(policy, now, protection, acknowledged, lucky);
      case now >= engine.clock => engine.Tick(active, checked, query, now, queue.maintenance, lucky);
      case Theirs(a) => Act(a);
    }

    /** The provisioner, a request or PostgreSQL. */
    method Act(a: Lifecycle.Action)
      requires Valid() && Theirs(a)
      modifies this`project
      ensures Valid() && project == Lifecycle.Do(old(project), a)
      ensures old(Held()) ==> Held() && Lifecycle.Untouched(old(project), project)
    {
      if Lifecycle.Quiet(project) { Lifecycle.QuietStep(project, a); }
      Lifecycle.FlagIsTheUpdates(project, a);
      project := Lifecycle.Do(project, a);
    }

    /** Whatever is tried while the update lasts, nothing it would have to undo changes. */
    method HoldQuiet(steps: nat)
      requires Held()
      modifies this`project, worker, queue, engine
      ensures Held() && Kept(old(Now()), Now(), worker.alone)
    {
      for i := 0 to steps
        invariant Held() && Kept(old(Now()), Now(), worker.alone)
      {
        ghost var before := Now();
        Step();
        KeptTransitive(old(Now()), before, Now(), worker.alone);
      }
    }

    /** The update sets the flag, lets what is under way end or not, and stops the application: from
        its next start on everything is held and kept, whatever anybody tries. */
    method PauseForUpdate(before: nat, after: nat) returns (ghost restarted: View)
      requires Valid()
      modifies this`project, worker, queue, engine
      ensures Held() && Lifecycle.Quiet(restarted.project) && Kept(restarted, Now(), worker.alone)
    {
      SetFlag(true);
      for i := 0 to before
        invariant Valid() && queue.maintenance
      {
        Step();
      }
      var now: int, interval: int := *, *;
      Restart(now, interval);
      restarted := Now();
      HoldQuiet(after);
    }
  }
}
