/**
 When a project is due for a backup, how long a failing one waits, and why no due
 project is passed over for ever.  Times are whole UTC seconds.
 */
module Schedule {
  import Records

  const MINUTE := 60
  const HOUR := 3600
  const DAY := 86400

  /** preferredHour is the UTC hour daily backups start at or after, or -1 for any time. */
  datatype Policy = Policy(intervalHours: int, preferredHour: int)

  function Interval(p: Policy): int { p.intervalHours * HOUR }

  predicate Hourly(p: Policy) { p.preferredHour >= 0 && p.intervalHours == 24 }

  /** What a stored policy satisfies: the hour is an hour of the day. */
  predicate Stored(p: Policy) { -1 <= p.preferredHour <= 23 }

  /** The preferred hour of the day a moment falls on. */
  function WindowOn(p: Policy, t: int): int { t / DAY * DAY + p.preferredHour * HOUR }

  /** The newest-backup time at or before which a project is due. */
  function DueBefore(p: Policy, now: int): int {
    if !Hourly(p) then now - Interval(p)
    else
      var window := WindowOn(p, now);
      (if window > now then window - DAY else window) - 1
  }

  /** When a project whose newest backup was taken then becomes due again. */
  function NextAfter(p: Policy, newest: int): int {
    if !Hourly(p) then newest + Interval(p)
    else
      var next := WindowOn(p, newest);
      if next <= newest then next + DAY else next
  }

  lemma SameDayOrBefore(a: int, b: int)
    ensures a / DAY < b / DAY ==> a < b / DAY * DAY
    ensures a / DAY * DAY <= a < a / DAY * DAY + DAY
  {
  }

  /** The two functions are adjoint: the dashboard's next time is exactly the first second
      at which the scheduler considers the project due. */
  lemma DueExactlyFromNext(p: Policy, newest: int, now: int)
    requires Stored(p)
    ensures newest <= DueBefore(p, now) <==> NextAfter(p, newest) <= now
  {
    if Hourly(p) {
      SameDayOrBefore(newest, now);
      SameDayOrBefore(now, newest);
      var a, b, h := newest / DAY, now / DAY, p.preferredHour * HOUR;
      assert 0 <= h < DAY;
      assert a < b - 1 ==> a * DAY + DAY <= b * DAY - DAY;
    }
  }

  /** Once due, a project stays due until a newer backup arrives. */
  lemma StaysDue(p: Policy, newest: int, earlier: int, later: int)
    requires Stored(p) && earlier <= later && newest <= DueBefore(p, earlier)
    ensures newest <= DueBefore(p, later)
  {
    DueExactlyFromNext(p, newest, earlier);
    DueExactlyFromNext(p, newest, later);
  }

  /** A newer backup is never due earlier. */
  lemma NextIsMonotone(p: Policy, older: int, newer: int)
    requires Stored(p) && older <= newer
    ensures NextAfter(p, older) <= NextAfter(p, newer)
  {
    DueExactlyFromNext(p, newer, NextAfter(p, newer));
    DueExactlyFromNext(p, older, NextAfter(p, newer));
  }

  // ----- backoff -----

  function Backoff(failures: int, interval: int): int {
    if failures <= 1 then 15 * MINUTE
    else if failures == 2 then HOUR
    else if failures == 3 then 4 * HOUR
    else interval
  }

  /** Waiting grows with every failure exactly when the interval is at least four hours. */
  lemma BackoffGrowsExactlyWhen(interval: int)
    ensures (forall f: int, g: int :: f <= g ==> Backoff(f, interval) <= Backoff(g, interval)) <==> interval >= 4 * HOUR
  {
    if interval < 4 * HOUR { assert 3 <= 4 && Backoff(3, interval) > Backoff(4, interval); }
  }

  // ----- fairness -----

  /** What the order of candidates looks at, besides the last attempt. */
  datatype Project = Project(created: int, id: nat)

  /** A project without a row counts from zero. */
  function Or0(m: map<nat, int>, id: nat): int { if id in m then m[id] else 0 }

  /** Least recently attempted first, then oldest, then by id. */
  predicate Before(attempts: map<nat, int>, q: Project, p: Project) {
    var a, b := Or0(attempts, q.id), Or0(attempts, p.id);
    a < b || (a == b && (q.created < p.created || (q.created == p.created && q.id < p.id)))
  }

  /** Ids name projects uniquely. */
  ghost predicate Distinct(projects: set<Project>) {
    forall p, q | p in projects && q in projects && p.id == q.id :: p == q
  }

  lemma {:induction false} HasFirst(eligible: set<Project>, attempts: map<nat, int>)
    requires eligible != {} && Distinct(eligible)
    ensures exists c :: IsFirst(c, eligible, attempts)
    decreases eligible
  {
    Records.HasMember(eligible);
    var x :| x in eligible;
    var rest := eligible - {x};
    if rest == {} {
      assert eligible == {x};
      assert IsFirst(x, eligible, attempts);
    } else {
      HasFirst(rest, attempts);
      var c :| IsFirst(c, rest, attempts);
      assert x.id != c.id;
      if Before(attempts, x, c) {
        forall q | q in eligible && q != x ensures Before(attempts, x, q) { assert q in rest; }
        assert IsFirst(x, eligible, attempts);
      } else {
        assert IsFirst(c, eligible, attempts);
      }
    }
  }

  predicate IsFirst(c: Project, eligible: set<Project>, attempts: map<nat, int>) {
    c in eligible && forall q | q in eligible && q != c :: Before(attempts, c, q)
  }

  /** The candidates of one pass, in order. */
  method BackupCandidates(projects: set<Project>, newest: map<nat, int>, waitUntil: map<nat, int>,
                          attempts: map<nat, int>, now: int, dueBefore: int)
    returns (out: seq<Project>)
    requires Distinct(projects)
    ensures forall p :: p in out <==> p in projects && Eligible(p, newest, waitUntil, now, dueBefore)
    ensures forall i, j | 0 <= i < j < |out| :: Before(attempts, out[i], out[j])
  {
    out := [];
    var todo := set p | p in projects && Eligible(p, newest, waitUntil, now, dueBefore);
    ghost var all := todo;
    while todo != {}
      invariant todo <= all && forall p :: p in out <==> p in all && p !in todo
      invariant forall i, q | 0 <= i < |out| && q in todo :: Before(attempts, out[i], q)
      invariant forall i, j | 0 <= i < j < |out| :: Before(attempts, out[i], out[j])
      decreases todo
    {
      HasFirst(todo, attempts);
      var c :| c in todo && IsFirst(c, todo, attempts);
      out, todo := out + [c], todo - {c};
    }
  }

  /** Due, and out of backoff; a project without backups or attempts counts from zero. */
  predicate Eligible(p: Project, newest: map<nat, int>, waitUntil: map<nat, int>, now: int, dueBefore: int) {
    Or0(waitUntil, p.id) <= now && Or0(newest, p.id) <= dueBefore
  }

  /** The scheduler enqueues the first candidate. */
  lemma HeadIsFirst(out: seq<Project>, eligible: set<Project>, attempts: map<nat, int>)
    requires out != [] && (forall p :: p in out <==> p in eligible)
    requires forall i, j | 0 <= i < j < |out| :: Before(attempts, out[i], out[j])
    ensures IsFirst(out[0], eligible, attempts)
  {
    forall q | q in eligible && q != out[0] ensures Before(attempts, out[0], q) {
      var j :| 0 <= j < |out| && out[j] == q;
    }
  }

  /** What the schedule knows of every project, and the latest time used. */
  datatype Ledger = Ledger(newest: map<nat, int>, waitUntil: map<nat, int>, attempts: map<nat, int>, clock: int)

  function Candidates(projects: set<Project>, policy: Policy, l: Ledger, now: int): set<Project> {
    set p | p in projects && Eligible(p, l.newest, l.waitUntil, now, DueBefore(policy, now))
  }

  /** One thing that moves attempt times: a pass that enqueues the first of its candidates, or
      another project's manual backup or recorded outcome, with its new backup and its new wait. */
  datatype Event = Pass(now: int) | Touch(id: nat, now: int, newest: int, wait: int)

  /** An event fits the state: times do not go back, and a pass chooses the first candidate. */
  ghost predicate Fits(projects: set<Project>, policy: Policy, l: Ledger, p: Project, e: Event, chosen: Project) {
    && l.clock <= e.now
    && match e
       case Pass(now) => IsFirst(chosen, Candidates(projects, policy, l, now), l.attempts)
       case Touch(id, _, _, _) => id != p.id
  }

  function After(l: Ledger, e: Event, chosen: Project): Ledger {
    match e
    case Pass(now) => l.(attempts := l.attempts[chosen.id := now], clock := now)
    case Touch(id, now, newest, wait) =>
      Ledger(l.newest[id := newest], l.waitUntil[id := wait], l.attempts[id := now], now)
  }

  /** p is due and out of backoff, and was last attempted before now, like everyone at the latest. */
  ghost predicate Standing(policy: Policy, l: Ledger, p: Project) {
    && Eligible(p, l.newest, l.waitUntil, l.clock, DueBefore(policy, l.clock)) && Or0(l.attempts, p.id) < l.clock
    && forall id :: Or0(l.attempts, id) <= l.clock
  }

  /** Until p is chosen it stays a candidate, whatever happens to the others. */
  lemma StaysCandidate(projects: set<Project>, policy: Policy, l: Ledger, p: Project, e: Event, chosen: Project)
    requires Stored(policy) && Distinct(projects) && p in projects && Standing(policy, l, p)
    requires Fits(projects, policy, l, p, e, chosen) && (e.Pass? ==> chosen != p)
    ensures e.Pass? ==> p in Candidates(projects, policy, l, e.now)
    ensures Standing(policy, After(l, e, chosen), p)
  {
    StaysDue(policy, Or0(l.newest, p.id), l.clock, e.now);
    assert e.Pass? ==> chosen.id != p.id;
    forall id ensures Or0(After(l, e, chosen).attempts, id) <= e.now { assert Or0(l.attempts, id) <= l.clock; }
  }

  ghost function Ahead(projects: set<Project>, attempts: map<nat, int>, p: Project): set<Project>
    requires Distinct(projects)
  {
    set q | q in projects && q != p && Before(attempts, q, p)
  }

  /** While p is passed over, the projects ahead of it only get fewer: the chosen one drops behind p. */
  lemma AheadShrinks(projects: set<Project>, policy: Policy, l: Ledger, p: Project, e: Event, chosen: Project)
    requires Stored(policy) && Distinct(projects) && p in projects && Standing(policy, l, p)
    requires Fits(projects, policy, l, p, e, chosen) && (e.Pass? ==> chosen != p)
    ensures Ahead(projects, After(l, e, chosen).attempts, p) <= Ahead(projects, l.attempts, p)
    ensures e.Pass? ==>
      chosen in Ahead(projects, l.attempts, p) && chosen !in Ahead(projects, After(l, e, chosen).attempts, p)
  {
    StaysCandidate(projects, policy, l, p, e, chosen);
    if e.Pass? { assert Before(l.attempts, chosen, p) && chosen.id != p.id; }
  }

  function Passes(events: seq<(Event, Project)>): nat {
    if events == [] then 0 else (if events[0].0.Pass? then 1 else 0) + Passes(events[1..])
  }

  /** A run in which p is never chosen. */
  ghost predicate PassedOver(projects: set<Project>, policy: Policy, l: Ledger, p: Project,
                             events: seq<(Event, Project)>)
    requires Distinct(projects) && p in projects
    decreases |events|
  {
    events == [] ||
    (&& Fits(projects, policy, l, p, events[0].0, events[0].1) && (events[0].0.Pass? ==> events[0].1 != p)
     && PassedOver(projects, policy, After(l, events[0].0, events[0].1), p, events[1..]))
  }

  lemma Strictly<T>(a: set<T>, b: set<T>, x: T)
    requires a <= b && x in b && x !in a
    ensures |a| + 1 <= |b|
  {
    Smaller(a, b - {x});
  }

  lemma {:induction false} Smaller<T>(a: set<T>, b: set<T>)
    requires a <= b
    ensures |a| <= |b|
    decreases a
  {
    if a != {} {
      Records.HasMember(a);
      var x :| x in a;
      Smaller(a - {x}, b - {x});
    }
  }

  /** No starvation: however often others fail, a project that is due and out of backoff is
      passed over at most once by each project ahead of it, so by fewer than all of them. */
  lemma {:induction false} NoStarvation(projects: set<Project>, policy: Policy, l: Ledger, p: Project,
                                        events: seq<(Event, Project)>)
    requires Stored(policy) && Distinct(projects) && p in projects && Standing(policy, l, p)
    requires PassedOver(projects, policy, l, p, events)
    ensures Passes(events) <= |Ahead(projects, l.attempts, p)| < |projects|
    decreases |events|
  {
    var ahead := Ahead(projects, l.attempts, p);
    Strictly(ahead, projects, p);
    if events != [] {
      var (e, c) := events[0];
      AheadShrinks(projects, policy, l, p, e, c);
      StaysCandidate(projects, policy, l, p, e, c);
      var next := Ahead(projects, After(l, e, c).attempts, p);
      NoStarvation(projects, policy, After(l, e, c), p, events[1..]);
      if e.Pass? { Strictly(next, ahead, c); } else { Smaller(next, ahead); }
    }
  }
}
