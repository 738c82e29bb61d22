/**
 Alert conditions and what the receiver hears of them.  A pass records which
 conditions hold and which sources were looked at; a send pass delivers what is
 due and records it.  Recording a delivery may fail, so the history proved here is
 that of the recorded deliveries to one receiver.
 */
module Alerts {
  import opened Records

  const DAY := 86400
  const CLEAR_AFTER := 600
  const FORGET_AFTER := 30 * DAY

  datatype SentState = Nothing | Firing | Resolved

  /** A condition found true in a pass. */
  datatype Seen = Seen(key: string, source: string)

  /** One row of alert_conditions. */
  datatype Condition = Condition(source: string, active: bool, firstSeen: int, lastSeen: int,
                                   clearSince: Option<int>, lastFired: Option<int>, sent: SentState)

  datatype Outgoing = Outgoing(key: string, firing: bool)

  /** How the query for the sources of waiting conditions went: an error, or an answer in which some
      rows could not be read.  Neither is reported. */
  datatype Query = QueryError | Answer(unread: set<string>) {
    predicate Loses(source: string) { QueryError? || source in unread }
  }

  /** One evaluation: when, what held, which sources were actually checked, and how that query went. */
  datatype Pass = Pass(at: int, active: set<string>, checked: set<string>, query: Query)

  /** A recorded delivery.  A resolved one carries its evidence: since when the condition
      was clear, and the passes from there on. */
  datatype Sent = SentFiring(at: int) | SentResolved(at: int, since: int, source: string, from: nat, upto: nat)

  // ----- a pass, key by key -----

  function KeysOf(active: seq<Seen>): set<string> { set i | 0 <= i < |active| :: active[i].key }

  /** The source given for a key, the last one if it is listed twice. */
  function SourceOf(active: seq<Seen>, key: string): string
    requires key in KeysOf(active)
  {
    var last := active[|active| - 1];
    if last.key == key then last.source
    else
      assert key in KeysOf(active[..|active| - 1]) by {
        var i :| 0 <= i < |active| && active[i].key == key;
        assert active[..|active| - 1][i].key == key;
      }
      SourceOf(active[..|active| - 1], key)
  }

  /** A condition that holds: it keeps its first sighting if it was active, or clear for less than ten minutes. */
  function Upserted(row: Option<Condition>, source: string, now: int): Condition {
    match row
    case None => Condition(source, true, now, now, None, None, Nothing)
    case Some(r) =>
      var first := if r.active || (r.clearSince.Some? && now - r.clearSince.value < CLEAR_AFTER)
                 then r.firstSeen else now;
      r.(source := source, active := true, firstSeen := first, lastSeen := now, clearSince := None)
  }

  /** A condition that was not found: clear only if its source was checked; waiting for its
      resolved message, an unchecked pass restarts the wait, unless the query lost it. */
  function Unseen(r: Condition, checked: set<string>, query: Query, now: int): Condition {
    if r.active then (if r.source in checked then r.(active := false, clearSince := Some(now)) else r)
    else if r.sent.Firing? && r.source !in checked && !query.Loses(r.source) then r.(clearSince := Some(now))
    else r
  }

  predicate Forgotten(r: Condition, now: int) {
    !r.active && !r.sent.Firing? && r.clearSince.Some? && r.clearSince.value < now - FORGET_AFTER
  }

  function Lookup(rows: map<string, Condition>, key: string): Option<Condition> {
    if key in rows then Some(rows[key]) else None
  }

  /** The row of one key after a pass. */
  function AfterPass(row: Option<Condition>, seen: Option<string>, checked: set<string>, query: Query,
                     now: int): Option<Condition>
  {
    var r := match seen
      case Some(source) => Some(Upserted(row, source, now))
      case None => if row.None? then None else Some(Unseen(row.value, checked, query, now));
    if r.Some? && Forgotten(r.value, now) then None else r
  }

  function SeenAs(active: seq<Seen>, key: string): Option<string> {
    if key in KeysOf(active) then Some(SourceOf(active, key)) else None
  }

  function Recorded(row: Option<Condition>, seen: Option<string>, now: int): Option<Condition> {
    if seen.Some? then Some(Upserted(row, seen.value, now)) else row
  }

  lemma SeenSnoc(active: seq<Seen>, i: nat)
    requires i < |active|
    ensures forall key ::
      SeenAs(active[..i + 1], key) == if key == active[i].key then Some(active[i].source) else SeenAs(active[..i], key)
  {
    var now, before := active[..i + 1], active[..i];
    assert now[..i] == before;
    forall key
      ensures SeenAs(now, key) == if key == active[i].key then Some(active[i].source) else SeenAs(before, key)
    {
      assert now[i].key in KeysOf(now);
      if key in KeysOf(before) { var j :| 0 <= j < i && before[j].key == key; assert now[j].key == key; }
      if key in KeysOf(now) && key != active[i].key {
        var j :| 0 <= j <= i && now[j].key == key;
        assert before[j].key == key;
      }
    }
  }

  /** An active condition that a check did not find. */
  predicate ToClear(r: Condition, key: string, seen: set<string>, checked: set<string>) {
    r.active && key !in seen && r.source in checked
  }

  /** A condition waiting for its resolved message whose source was listed and not checked. */
  predicate ToRestart(r: Condition, checked: set<string>, query: Query) {
    !r.active && r.sent.Firing? && r.source !in checked && !query.Loses(r.source)
  }

  function Restarted(r: Condition, checked: set<string>, query: Query, now: int): Condition {
    if ToRestart(r, checked, query) then r.(clearSince := Some(now)) else r
  }

  function RestartSource(rows: map<string, Condition>, source: string, now: int): map<string, Condition> {
    map key | key in rows ::
      if !rows[key].active && rows[key].sent.Firing? && rows[key].source == source
      then rows[key].(clearSince := Some(now)) else rows[key]
  }

  /** The waiting conditions of these sources restarted, unless they were checked. */
  ghost function RestartedOf(rows: map<string, Condition>, done: set<string>, checked: set<string>, now: int):
    map<string, Condition>
  {
    map key | key in rows ::
      if !rows[key].active && rows[key].sent.Firing? && rows[key].source in done && rows[key].source !in checked
      then rows[key].(clearSince := Some(now)) else rows[key]
  }

  lemma RestartStep(rows: map<string, Condition>, done: set<string>, source: string, checked: set<string>, now: int)
    ensures RestartedOf(rows, done + {source}, checked, now) ==
      if source in checked then RestartedOf(rows, done, checked, now)
      else RestartSource(RestartedOf(rows, done, checked, now), source, now)
  {
  }

  lemma RestartedAll(rows: map<string, Condition>, all: set<string>, checked: set<string>, query: Query, now: int)
    requires forall source :: source in all <==> source in WaitingSources(rows) && !query.Loses(source)
    ensures RestartedOf(rows, all, checked, now) == map key | key in rows :: Restarted(rows[key], checked, query, now)
  {
    assert forall key | key in rows && !rows[key].active && rows[key].sent.Firing? ::
        rows[key].source in WaitingSources(rows);
  }

  function WaitingSources(rows: map<string, Condition>): set<string> {
    set key | key in rows && !rows[key].active && rows[key].sent.Firing? :: rows[key].source
  }

  function Reintroduced(r: Condition): Condition {
    if r.active then r.(sent := Nothing, lastFired := None) else r.(sent := Nothing)
  }

  /** Rows are changed key by key as AfterPass says. */
  ghost predicate Passed(before: map<string, Condition>, after: map<string, Condition>, active: seq<Seen>,
                         checked: set<string>, query: Query, now: int)
  {
    forall key :: Lookup(after, key) == AfterPass(Lookup(before, key), SeenAs(active, key), checked, query, now)
  }

  // ----- what is due -----

  predicate DueFiring(r: Condition, now: int) { r.active && (r.lastFired.None? || r.lastFired.value <= now - DAY) }

  predicate DueResolved(r: Condition, now: int) {
    !r.active && r.sent.Firing? && r.clearSince.Some? && r.clearSince.value <= now - CLEAR_AFTER
  }

  predicate Due(rows: map<string, Condition>, o: Outgoing, now: int) {
    o.key in rows && if o.firing then DueFiring(rows[o.key], now) else DueResolved(rows[o.key], now)
  }

  function DueKeys(rows: map<string, Condition>, now: int): set<string> {
    set key | key in rows && (DueFiring(rows[key], now) || DueResolved(rows[key], now))
  }

  function Message(rows: map<string, Condition>, key: string): Outgoing
    requires key in rows
  {
    Outgoing(key, rows[key].active)
  }

  lemma {:induction false} HasEarliest(keys: set<string>, rows: map<string, Condition>)
    requires keys != {} && keys <= rows.Keys
    ensures exists key :: key in keys && forall other | other in keys :: rows[key].firstSeen <= rows[other].firstSeen
    decreases keys
  {
    HasMember(keys);
    var key :| key in keys;
    if keys == {key} {
      assert forall other | other in keys :: rows[key].firstSeen <= rows[other].firstSeen;
    } else {
      var rest := keys - {key};
      assert rest == {} ==> keys == {key};
      HasEarliest(rest, rows);
      var best :| best in rest && forall other | other in rest :: rows[best].firstSeen <= rows[other].firstSeen;
      if rows[key].firstSeen <= rows[best].firstSeen {
        assert forall other | other in keys :: rows[key].firstSeen <= rows[other].firstSeen;
      } else {
        assert forall other | other in keys :: rows[best].firstSeen <= rows[other].firstSeen;
      }
    }
  }

  // ----- the history of one key towards one receiver -----

  predicate EndsFiring(log: seq<Sent>) { log != [] && log[|log| - 1].SentFiring? }

  /** (firing+ resolved)* firing*: every resolved message directly follows a firing one. */
  predicate Alternates(log: seq<Sent>) {
    log == [] || (Alternates(log[..|log| - 1]) && (log[|log| - 1].SentResolved? ==> EndsFiring(log[..|log| - 1])))
  }

  /** The time of the last firing message, or before everything. */
  function LastFiring(log: seq<Sent>): Option<int> {
    if log == [] then None
    else if log[|log| - 1].SentFiring? then Some(log[|log| - 1].at)
    else LastFiring(log[..|log| - 1])
  }

  predicate AtMost(t: Option<int>, bound: int) { t.Some? ==> t.value <= bound }

  /** Firing messages are at least a day apart. */
  predicate Spaced(log: seq<Sent>) {
    || log == []
    || (&& Spaced(log[..|log| - 1])
        && (log[|log| - 1].SentFiring? ==> AtMost(LastFiring(log[..|log| - 1]), log[|log| - 1].at - DAY)))
  }

  /** From pass `from`, at time `since`, on, every pass checked the source, or its query lost it, and did not
      find the key; and a check at or before it had already found the key gone, never to be seen since. */
  ghost predicate ClearDuring(passes: seq<Pass>, from: nat, upto: nat, key: string, source: string, since: int) {
    && from < upto <= |passes| && passes[from].at == since
    && (forall j | from < j < upto ::
          (source in passes[j].checked || passes[j].query.Loses(source)) && key !in passes[j].active)
    && exists k: nat :: k <= from && GoneSince(passes, k, upto, key, source)
  }

  /** Pass k checked the source and did not find the key, and no later pass found it either. */
  ghost predicate GoneSince(passes: seq<Pass>, k: nat, upto: nat, key: string, source: string)
    requires upto <= |passes|
  {
    k < upto && source in passes[k].checked && forall j | k <= j < upto :: key !in passes[j].active
  }

  ghost predicate Justified(e: Sent, passes: seq<Pass>, key: string) {
    e.SentResolved? ==> e.at - e.since >= CLEAR_AFTER && ClearDuring(passes, e.from, e.upto, key, e.source, e.since)
  }

  ghost predicate AllJustified(log: seq<Sent>, passes: seq<Pass>, key: string) {
    log == [] || (AllJustified(log[..|log| - 1], passes, key) && Justified(log[|log| - 1], passes, key))
  }

  /** The history of a key is what was promised. */
  ghost predicate Honest(log: seq<Sent>, passes: seq<Pass>, key: string) {
    Alternates(log) && Spaced(log) && AllJustified(log, passes, key)
  }

  /** How the row of a key goes with its history. */
  ghost predicate Tracks(row: Option<Condition>, log: seq<Sent>, clock: int) {
    && AtMost(LastFiring(log), clock)
    && match row
       case None => !EndsFiring(log) && AtMost(LastFiring(log), clock - DAY)
       case Some(r) =>
         && (r.sent.Firing? <==> EndsFiring(log))
         && AtMost(LastFiring(log), if r.lastFired.Some? then r.lastFired.value else clock - DAY)
         && (!r.active ==>
               r.clearSince.Some? && r.clearSince.value <= clock && AtMost(LastFiring(log), r.clearSince.value))
  }

  /** A row waiting for its resolved message has been clear since its clearSince. */
  ghost predicate Waits(row: Option<Condition>, passes: seq<Pass>, from: nat, key: string) {
    row.Some? && !row.value.active && row.value.sent.Firing? && row.value.clearSince.Some? ==>
      ClearDuring(passes, from, |passes|, key, row.value.source, row.value.clearSince.value)
  }

  lemma SnocTakes(log: seq<Sent>, e: Sent)
    ensures (log + [e])[..|log|] == log
  {
  }

  lemma LongerRun(passes: seq<Pass>, p: Pass, from: nat, upto: nat, key: string, source: string, since: int)
    requires ClearDuring(passes, from, upto, key, source, since)
    ensures ClearDuring(passes + [p], from, upto, key, source, since)
  {
    var k: nat :| k <= from && GoneSince(passes, k, upto, key, source);
    assert GoneSince(passes + [p], k, upto, key, source);
  }

  lemma {:induction false} MorePasses(log: seq<Sent>, passes: seq<Pass>, p: Pass, key: string)
    requires AllJustified(log, passes, key)
    ensures AllJustified(log, passes + [p], key)
  {
    if log != [] {
      MorePasses(log[..|log| - 1], passes, p, key);
      var e := log[|log| - 1];
      if e.SentResolved? { LongerRun(passes, p, e.from, e.upto, key, e.source, e.since); }
    }
  }

  /** A pass keeps what a row says about its history. */
  lemma PassTracks(row: Option<Condition>, log: seq<Sent>, seen: Option<string>, checked: set<string>,
                   query: Query, clock: int, now: int)
    requires Tracks(row, log, clock) && clock <= now
    ensures Tracks(AfterPass(row, seen, checked, query, now), log, now)
  {
  }

  /** The clear run goes on while checks find nothing, and starts again at any other pass. */
  function NextFrom(row: Option<Condition>, from: nat, checked: set<string>, query: Query, n: nat): nat {
    if row.Some? && !row.value.active && (row.value.source in checked || query.Loses(row.value.source)) then from else n
  }

  lemma PassWaits(row: Option<Condition>, passes: seq<Pass>, from: nat, key: string, seen: Option<string>, p: Pass)
    requires Waits(row, passes, from, key) && (seen.None? ==> key !in p.active)
    requires row.Some? && !row.value.active ==> row.value.clearSince.Some?
    ensures Waits(AfterPass(row, seen, p.checked, p.query, p.at), passes + [p],
                  NextFrom(row, from, p.checked, p.query, |passes|), key)
  {
    var all, n := passes + [p], |passes|;
    if seen.None? && row.Some? && row.value.sent.Firing? {
      if !row.value.active {
        var k: nat :| k <= from && GoneSince(passes, k, n, key, row.value.source);
        assert GoneSince(all, k, n + 1, key, row.value.source);
      } else if row.value.source in p.checked {
        assert GoneSince(all, n, n + 1, key, row.value.source);
      }
    }
  }

  /** A firing message that is due may follow any honest history. */
  lemma FiringIsHonest(row: Condition, log: seq<Sent>, passes: seq<Pass>, key: string, now: int)
    requires Honest(log, passes, key) && Tracks(Some(row), log, now) && DueFiring(row, now)
    ensures Honest(log + [SentFiring(now)], passes, key)
    ensures Tracks(Some(row.(sent := Firing, lastFired := Some(now))), log + [SentFiring(now)], now)
  {
    SnocTakes(log, SentFiring(now));
  }

  /** So may a resolved message, with its evidence. */
  lemma ResolvedIsHonest(row: Condition, log: seq<Sent>, passes: seq<Pass>, from: nat, key: string, now: int)
    requires Honest(log, passes, key) && Tracks(Some(row), log, now) && DueResolved(row, now)
    requires Waits(Some(row), passes, from, key)
    ensures var e := SentResolved(now, row.clearSince.value, row.source, from, |passes|);
      Honest(log + [e], passes, key) && Tracks(Some(row.(sent := Resolved)), log + [e], now)
  {
    SnocTakes(log, SentResolved(now, row.clearSince.value, row.source, from, |passes|));
  }

  /** Two firing messages of one history, anywhere in it, are at least a day apart. */
  lemma {:induction false} FiringsAreADayApart(log: seq<Sent>, i: nat, j: nat)
    requires Spaced(log) && i < j < |log| && log[i].SentFiring? && log[j].SentFiring?
    ensures log[i].at + DAY <= log[j].at
  {
    var init := log[..|log| - 1];
    if j < |log| - 1 { FiringsAreADayApart(init, i, j); } else { FiringBefore(init, i); }
  }

  lemma {:induction false} FiringBefore(log: seq<Sent>, i: nat)
    requires Spaced(log) && i < |log| && log[i].SentFiring?
    ensures LastFiring(log).Some? && log[i].at <= LastFiring(log).value
  {
    if i < |log| - 1 { FiringBefore(log[..|log| - 1], i); }
  }

  /** Every resolved message of an honest history directly follows a firing one and has its evidence. */
  lemma {:induction false} ResolvedMeansClear(log: seq<Sent>, passes: seq<Pass>, key: string, i: nat)
    requires Honest(log, passes, key) && i < |log| && log[i].SentResolved?
    ensures i > 0 && log[i - 1].SentFiring?
    ensures log[i].at - log[i].since >= CLEAR_AFTER
    ensures ClearDuring(passes, log[i].from, log[i].upto, key, log[i].source, log[i].since)
  {
    if i < |log| - 1 { ResolvedMeansClear(log[..|log| - 1], passes, key, i); }
  }

  /** A row after a run of passes that do not find its condition. */
  function AfterRun(row: Option<Condition>, run: seq<Pass>): Option<Condition> {
    if run == [] then row
    else
      var last := run[|run| - 1];
      AfterPass(AfterRun(row, run[..|run| - 1]), None, last.checked, last.query, last.at)
  }

  predicate Waiting(r: Condition) { !r.active && r.sent.Firing? && r.clearSince.Some? }

  /** A wait for the resolved message survives a run of later passes exactly when each of them checked
      the source, or its query lost it; any other pass starts it again. */
  lemma {:induction false} WaitSurvivesExactlyWhen(r: Condition, run: seq<Pass>)
    requires Waiting(r) && forall i | 0 <= i < |run| :: run[i].at > r.clearSince.value
    ensures var after := AfterRun(Some(r), run);
      && after.Some? && Waiting(after.value) && after.value.source == r.source
      && after.value.clearSince.value >= r.clearSince.value
      && (after.value.clearSince == r.clearSince <==>
            forall i | 0 <= i < |run| :: r.source in run[i].checked || run[i].query.Loses(r.source))
  {
    if run != [] {
      var n := |run| - 1;
      WaitSurvivesExactlyWhen(r, run[..n]);
      assert forall i | 0 <= i < n :: run[..n][i] == run[i];
    }
  }

  /** When no query lost its source, a resolved message follows ten minutes in which every pass looked. */
  lemma ResolvedAfterChecks(log: seq<Sent>, passes: seq<Pass>, key: string, i: nat)
    requires Honest(log, passes, key) && i < |log| && log[i].SentResolved?
    requires forall j | 0 <= j < |passes| :: !passes[j].query.Loses(log[i].source)
    ensures log[i].at - log[i].since >= CLEAR_AFTER && log[i].from < log[i].upto <= |passes|
    ensures forall j | log[i].from < j < log[i].upto :: log[i].source in passes[j].checked && key !in passes[j].active
  {
    ResolvedMeansClear(log, passes, key, i);
  }

  /** From the first sighting on: a condition fires, a check finds it gone, and the next pass neither
      checks its source nor lists it.  It is announced as resolved although nobody looked in between;
      had the source been listed, the wait would have started again. */
  lemma LostSourceResolves(source: string, t: int)
    ensures var seen := AfterPass(None, Some(source), {source}, Answer({}), t);
      && seen.Some? && DueFiring(seen.value, t)
      && var told := seen.value.(sent := Firing, lastFired := Some(t));
         var gone := AfterPass(Some(told), None, {source}, Answer({}), t + 60);
         && gone.Some? && gone.value.clearSince == Some(t + 60)
         && AfterPass(gone, None, {}, QueryError, t + 360) == gone && DueResolved(gone.value, t + 60 + CLEAR_AFTER)
         && AfterPass(gone, None, {}, Answer({}), t + 360) == Some(gone.value.(clearSince := Some(t + 360)))
         && !DueResolved(gone.value.(clearSince := Some(t + 360)), t + 60 + CLEAR_AFTER)
  {
  }

  function LogOf(logs: map<string, seq<Sent>>, key: string): seq<Sent> { if key in logs then logs[key] else [] }

  function FromOf(froms: map<string, nat>, key: string): nat { if key in froms then froms[key] else 0 }

  predicate Untouched(rows: map<string, Condition>, logs: map<string, seq<Sent>>, rows': map<string, Condition>,
                      logs': map<string, seq<Sent>>, key: string)
  {
    Lookup(rows', key) == Lookup(rows, key) && LogOf(logs', key) == LogOf(logs, key)
  }

  /** Outside the keys in done nothing changed; inside, at most one message was recorded each. */
  ghost predicate Heard(rows: map<string, Condition>, logs: map<string, seq<Sent>>, rows': map<string, Condition>,
                        logs': map<string, seq<Sent>>, done: set<string>)
  {
    forall key :: if key in done then OneMore(logs, logs', key) else Untouched(rows, logs, rows', logs', key)
  }

  predicate OneMore(logs: map<string, seq<Sent>>, logs': map<string, seq<Sent>>, key: string) {
    || LogOf(logs', key) == LogOf(logs, key)
    || (LogOf(logs', key) != [] && LogOf(logs', key)[..|LogOf(logs', key)| - 1] == LogOf(logs, key))
  }

  /** Exactly one message was recorded. */
  predicate Told(logs: map<string, seq<Sent>>, logs': map<string, seq<Sent>>, key: string) {
    |LogOf(logs', key)| == |LogOf(logs, key)| + 1
  }

  lemma ToldStays(logs: map<string, seq<Sent>>, rows1: map<string, Condition>, logs1: map<string, seq<Sent>>,
                  rows2: map<string, Condition>, logs2: map<string, seq<Sent>>, pending: seq<Outgoing>, i: nat)
    requires i < |pending| && Heard(rows1, logs1, rows2, logs2, {pending[i].key})
    requires forall j, k | 0 <= j < k < |pending| :: pending[j].key != pending[k].key
    ensures (forall k | 0 <= k < i :: Told(logs, logs1, pending[k].key)) ==>
      forall k | 0 <= k < i :: Told(logs, logs2, pending[k].key)
    ensures Told(logs1, logs2, pending[i].key) && LogOf(logs1, pending[i].key) == LogOf(logs, pending[i].key) ==>
      Told(logs, logs2, pending[i].key)
  {
    forall k | 0 <= k < i ensures LogOf(logs2, pending[k].key) == LogOf(logs1, pending[k].key) {
      assert Untouched(rows1, logs1, rows2, logs2, pending[k].key);
    }
  }

  /** The messages still to be sent are due, each for a key not yet done. */
  ghost predicate Queued(pending: seq<Outgoing>, rows: map<string, Condition>, done: set<string>, now: int) {
    && (forall i | 0 <= i < |pending| ::
          && pending[i].key in DueKeys(rows, now) && pending[i] == Message(rows, pending[i].key)
          && pending[i].key !in done)
    && (forall i, j | 0 <= i < j < |pending| :: pending[i].key != pending[j].key)
  }

  lemma QueueStep(pending: seq<Outgoing>, rows: map<string, Condition>, done: set<string>, now: int)
    requires pending != [] && Queued(pending, rows, done, now)
    ensures Queued(pending[1..], rows, done + {pending[0].key}, now) && Queued(pending[1..], rows, done, now)
  {
    var rest := pending[1..];
    forall i | 0 <= i < |rest| ensures rest[i] == pending[i + 1] && rest[i].key != pending[0].key {}
  }

  lemma HeardStep(rows: map<string, Condition>, logs: map<string, seq<Sent>>, rows1: map<string, Condition>,
                  logs1: map<string, seq<Sent>>, rows2: map<string, Condition>, logs2: map<string, seq<Sent>>,
                  done: set<string>, key: string)
    requires Heard(rows, logs, rows1, logs1, done) && Heard(rows1, logs1, rows2, logs2, {key}) && key !in done
    ensures Heard(rows, logs, rows2, logs2, done + {key})
  {
    forall k ensures if k in done + {key} then OneMore(logs, logs2, k) else Untouched(rows, logs, rows2, logs2, k) {
      assert if k in done then OneMore(logs, logs1, k) else Untouched(rows, logs, rows1, logs1, k);
      assert if k in {key} then OneMore(logs1, logs2, k) else Untouched(rows1, logs1, rows2, logs2, k);
    }
  }

  /** Everything about one key. */
  ghost predicate KeySound(row: Option<Condition>, log: seq<Sent>, passes: seq<Pass>, from: nat, key: string,
                           clock: int)
  {
    Honest(log, passes, key) && Tracks(row, log, clock) && Waits(row, passes, from, key)
  }

  ghost predicate AllSound(rows: map<string, Condition>, logs: map<string, seq<Sent>>, passes: seq<Pass>,
                           froms: map<string, nat>, clock: int)
  {
    forall key :: KeySound(Lookup(rows, key), LogOf(logs, key), passes, FromOf(froms, key), key, clock)
  }

  /** Changing one key soundly keeps all sound. */
  lemma OneKeyChanges(rows: map<string, Condition>, logs: map<string, seq<Sent>>, passes: seq<Pass>,
                      froms: map<string, nat>, clock: int, key: string, row: Condition, log: seq<Sent>)
    requires AllSound(rows, logs, passes, froms, clock)
    requires KeySound(Some(row), log, passes, FromOf(froms, key), key, clock)
    ensures AllSound(rows[key := row], logs[key := log], passes, froms, clock)
  {
    forall k
      ensures KeySound(Lookup(rows[key := row], k), LogOf(logs[key := log], k), passes, FromOf(froms, k), k, clock)
    {
      assert KeySound(Lookup(rows, k), LogOf(logs, k), passes, FromOf(froms, k), k, clock);
    }
  }

  lemma OneKeyHeard(rows: map<string, Condition>, logs: map<string, seq<Sent>>, key: string, row: Condition, e: Sent)
    ensures Heard(rows, logs, rows[key := row], logs[key := LogOf(logs, key) + [e]], {key})
  {
    SnocTakes(LogOf(logs, key), e);
  }

  lemma PassKeepsKey(row: Option<Condition>, log: seq<Sent>, passes: seq<Pass>, from: nat, key: string, clock: int,
                     seen: Option<string>, p: Pass)
    requires KeySound(row, log, passes, from, key, clock) && clock <= p.at && (seen.None? ==> key !in p.active)
    ensures KeySound(AfterPass(row, seen, p.checked, p.query, p.at), log, passes + [p],
                     NextFrom(row, from, p.checked, p.query, |passes|), key, p.at)
  {
    MorePasses(log, passes, p, key);
    PassTracks(row, log, seen, p.checked, p.query, clock, p.at);
    PassWaits(row, passes, from, key, seen, p);
  }

  lemma NewReceiver(row: Option<Condition>, log: seq<Sent>, passes: seq<Pass>, from: nat, key: string, clock: int)
    requires KeySound(row, log, passes, from, key, clock)
    ensures KeySound(if row.Some? then Some(Reintroduced(row.value)) else None, [], passes, from, key, clock)
  {
  }

  class Engine {
    var rows: map<string, Condition>
    var clock: int
    ghost var passes: seq<Pass>
    /** The deliveries recorded to the present receiver. */
    ghost var logs: map<string, seq<Sent>>
    ghost var froms: map<string, nat>

    ghost predicate Valid()
      reads this
    {
      AllSound(rows, logs, passes, froms, clock)
    }

    constructor ()
      ensures Valid() && rows == map[] && logs == map[]
    {
      rows, clock, passes, logs, froms := map[], 0, [], map[], map[];
    }

    // ----- recording a pass -----

    method Upsert(active: seq<Seen>, now: int)
      modifies this`rows
      ensures forall key :: Lookup(rows, key) == Recorded(Lookup(old(rows), key), SeenAs(active, key), now)
    {
      for i := 0 to |active|
        invariant forall key :: Lookup(rows, key) == Recorded(Lookup(old(rows), key), SeenAs(active[..i], key), now)
      {
        var c := active[i];
        SeenSnoc(active, i);
        rows := rows[c.key := Upserted(Lookup(rows, c.key), c.source, now)];
      }
      assert active[..|active|] == active;
    }

    method FindCleared(seen: set<string>, checked: set<string>) returns (clear: set<string>)
      ensures forall key :: key in clear <==> key in rows && ToClear(rows[key], key, seen, checked)
    {
      clear := {};
      var todo := rows.Keys;
      while todo != {}
        invariant todo <= rows.Keys
        invariant forall key :: key in clear <==> key in rows && key !in todo && ToClear(rows[key], key, seen, checked)
        decreases todo
      {
        HasMember(todo);
        var key :| key in todo;
        if rows[key].active && key !in seen && rows[key].source in checked { clear := clear + {key}; }
        todo := todo - {key};
      }
    }

    /** The sources of the waiting conditions that the query returned. */
    method AllSources(query: Query) returns (sources: set<string>)
      ensures forall source :: source in sources <==> source in WaitingSources(rows) && !query.Loses(source)
    {
      sources := set source | source in WaitingSources(rows) && !query.Loses(source);
    }

    /** Source by source, as the store does it. */
    method RestartUnchecked(checked: set<string>, query: Query, now: int)
      modifies this`rows
      ensures rows == map key | key in old(rows) :: Restarted(old(rows)[key], checked, query, now)
    {
      var todo := AllSources(query);
      ghost var all := todo;
      assert RestartedOf(rows, all - todo, checked, now) == rows;
      while todo != {}
        invariant todo <= all && rows == RestartedOf(old(rows), all - todo, checked, now)
        decreases todo
      {
        HasMember(todo);
        var source :| source in todo;
        RestartStep(old(rows), all - todo, source, checked, now);
        if source !in checked { rows := RestartSource(rows, source, now); }
        assert all - (todo - {source}) == all - todo + {source};
        todo := todo - {source};
      }
      assert all - todo == all;
      RestartedAll(old(rows), all, checked, query, now);
    }

    method MarkClear(clear: set<string>, now: int)
      requires clear <= rows.Keys
      modifies this`rows
      ensures rows == map key | key in old(rows) ::
        if key in clear then old(rows)[key].(active := false, clearSince := Some(now))
        else old(rows)[key]
    {
      var todo := clear;
      while todo != {}
        invariant todo <= clear
        invariant rows == map key | key in old(rows) ::
          if key in clear - todo then old(rows)[key].(active := false, clearSince := Some(now))
          else old(rows)[key]
        decreases todo
      {
        HasMember(todo);
        var key :| key in todo;
        rows := rows[key := rows[key].(active := false, clearSince := Some(now))];
        todo := todo - {key};
      }
    }

    /** "Not looked" never reads as "clear"; a failed transaction changes nothing. */
    method ReconcileAlerts(active: seq<Seen>, checked: set<string>, query: Query, now: int, lucky: bool)
      returns (ok: bool)
      requires Valid() && now >= clock
      modifies this`rows, this`clock, this`passes, this`froms
      ensures Valid() && (lucky ==> ok)
      ensures !ok ==> rows == old(rows) && clock == old(clock) && passes == old(passes)
      ensures ok ==> clock == now && passes == old(passes) + [Pass(now, KeysOf(active), checked, query)]
      ensures ok ==> Passed(old(rows), rows, active, checked, query, now)
    {
      if !lucky { if * { return false; } }
      Upsert(active, now);
      ghost var upserted := rows;
      var clear := FindCleared(KeysOf(active), checked);
      RestartUnchecked(checked, query, now);
      MarkClear(clear, now);
      rows := map key | key in rows && !Forgotten(rows[key], now) :: rows[key];
      forall key
        ensures Lookup(rows, key) == AfterPass(Lookup(old(rows), key), SeenAs(active, key), checked, query, now)
      {
        assert Lookup(upserted, key) == Recorded(Lookup(old(rows), key), SeenAs(active, key), now);
      }
      PassKeeps(active, checked, query, now, old(rows));
      clock, ok := now, true;
    }

    ghost method PassKeeps(active: seq<Seen>, checked: set<string>, query: Query, now: int,
                           before: map<string, Condition>)
      requires Passed(before, rows, active, checked, query, now) && now >= clock
      requires forall key :: KeySound(Lookup(before, key), LogOf(logs, key), passes, FromOf(froms, key), key, clock)
      modifies this`passes, this`froms
      ensures forall key :: KeySound(Lookup(rows, key), LogOf(logs, key), passes, FromOf(froms, key), key, now)
      ensures passes == old(passes) + [Pass(now, KeysOf(active), checked, query)]
    {
      var p := Pass(now, KeysOf(active), checked, query);
      var next := map key | key in before.Keys + rows.Keys + froms.Keys ::
        NextFrom(Lookup(before, key), FromOf(froms, key), checked, query, |passes|);
      forall key ensures KeySound(Lookup(rows, key), LogOf(logs, key), passes + [p], FromOf(next, key), key, now) {
        PassKeepsKey(Lookup(before, key), LogOf(logs, key), passes, FromOf(froms, key), key, clock, SeenAs(active, key),
                     p);
      }
      passes, froms := passes + [p], next;
    }

    // ----- sending -----

    /** Everything due, once each, the longest standing first. */
    method AlertsToSend(now: int) returns (out: seq<Outgoing>)
      ensures forall i | 0 <= i < |out| :: out[i].key in DueKeys(rows, now) && out[i] == Message(rows, out[i].key)
      ensures forall key | key in DueKeys(rows, now) :: Message(rows, key) in out
      ensures forall i, j | 0 <= i < j < |out| ::
        out[i].key != out[j].key && rows[out[i].key].firstSeen <= rows[out[j].key].firstSeen
    {
      out := [];
      var todo := DueKeys(rows, now);
      while todo != {}
        invariant todo <= DueKeys(rows, now)
        invariant forall i | 0 <= i < |out| ::
          out[i].key in DueKeys(rows, now) && out[i].key !in todo && out[i] == Message(rows, out[i].key)
        invariant forall key | key in DueKeys(rows, now) && key !in todo :: Message(rows, key) in out
        invariant forall i, key | 0 <= i < |out| && key in todo :: rows[out[i].key].firstSeen <= rows[key].firstSeen
        invariant forall i, j | 0 <= i < j < |out| ::
          out[i].key != out[j].key && rows[out[i].key].firstSeen <= rows[out[j].key].firstSeen
        decreases todo
      {
        HasEarliest(todo, rows);
        var key :| key in todo && forall other | other in todo :: rows[key].firstSeen <= rows[other].firstSeen;
        out, todo := out + [Message(rows, key)], todo - {key};
      }
    }

    /** Records what the receiver has now heard; recording may fail. */
    method MarkAlertSent(o: Outgoing, now: int, lucky: bool) returns (ok: bool)
      requires Valid() && now == clock && Due(rows, o, now)
      modifies this`rows, this`logs
      ensures Valid() && Heard(old(rows), old(logs), rows, logs, {o.key}) && (lucky ==> ok)
      ensures ok ==> Told(old(logs), logs, o.key)
      ensures !ok ==> rows == old(rows) && logs == old(logs)
      ensures ok && o.firing ==>
        && rows == old(rows)[o.key := old(rows)[o.key].(sent := Firing, lastFired := Some(now))]
        && logs == old(logs)[o.key := LogOf(old(logs), o.key) + [SentFiring(now)]]
      ensures ok && !o.firing ==>
        && rows == old(rows)[o.key := old(rows)[o.key].(sent := Resolved)]
        && exists e: Sent :: e.SentResolved? && e.at == now && logs == old(logs)[o.key := LogOf(old(logs), o.key) + [e]]
    {
      if !lucky { if * { return false; } }
      ok := true;
      var row := rows[o.key];
      ghost var log := LogOf(logs, o.key);
      assert KeySound(Some(row), log, passes, FromOf(froms, o.key), o.key, clock) by {
        assert Lookup(rows, o.key) == Some(row);
      }
      ghost var e := if o.firing then SentFiring(now)
                    else SentResolved(now, row.clearSince.value, row.source, FromOf(froms, o.key), |passes|);
      var next := if o.firing then row.(sent := Firing, lastFired := Some(now)) else row.(sent := Resolved);
      assert KeySound(Some(next), log + [e], passes, FromOf(froms, o.key), o.key, clock) by {
        if o.firing {
          FiringIsHonest(row, log, passes, o.key, now);
        } else {
          ResolvedIsHonest(row, log, passes, FromOf(froms, o.key), o.key, now);
        }
      }
      OneKeyChanges(rows, logs, passes, froms, clock, o.key, next, log + [e]);
      OneKeyHeard(rows, logs, o.key, next, e);
      rows, logs := rows[o.key := next], logs[o.key := log + [e]];
    }

    /** Stops at a dead receiver; a refused message does not hold up the rest.  Only what is
        due is touched, and each key hears at most one message; a lucky pass tells all of it. */
    method Send(now: int, lucky: bool)
      requires Valid() && now == clock
      modifies this`rows, this`logs
      ensures Valid()
      ensures exists done :: done <= DueKeys(old(rows), now) && Heard(old(rows), old(logs), rows, logs, done)
      ensures lucky ==> forall key | key in DueKeys(old(rows), now) :: Told(old(logs), logs, key)
    {
      var pending := AlertsToSend(now);
      ghost var done: set<string> := {};
      for i := 0 to |pending|
        invariant Valid() && done <= DueKeys(old(rows), now)
        invariant Heard(old(rows), old(logs), rows, logs, done) && Queued(pending[i..], old(rows), done, now)
        invariant lucky ==> forall k | 0 <= k < i :: Told(old(logs), logs, pending[k].key)
      {
        assert pending[i..][0] == pending[i] && pending[i..][1..] == pending[i + 1..];
        if !lucky {
          if * { return; }
          if * { QueueStep(pending[i..], old(rows), done, now); continue; }
        }
        ghost var before, heard := rows, logs;
        assert Untouched(old(rows), old(logs), rows, logs, pending[i].key);
        var recorded := MarkAlertSent(pending[i], now, lucky);
        ToldStays(old(logs), before, heard, rows, logs, pending, i);
        HeardStep(old(rows), old(logs), before, heard, rows, logs, done, pending[i].key);
        QueueStep(pending[i..], old(rows), done, now);
        done := done + {pending[i].key};
      }
    }

    /** A new receiver starts with an empty history and hears what is firing now. */
    method SetAlertWebhook(receiverChanged: bool)
      requires Valid()
      modifies this`rows, this`logs
      ensures Valid()
      ensures !receiverChanged ==> rows == old(rows) && logs == old(logs)
      ensures receiverChanged ==> logs == map[] && rows == map key | key in old(rows) :: Reintroduced(old(rows)[key])
      ensures receiverChanged ==> forall key, now | key in rows && rows[key].active :: DueFiring(rows[key], now)
    {
      if receiverChanged {
        rows := map key | key in rows ::
          if rows[key].active then rows[key].(sent := Nothing, lastFired := None) else rows[key];
        rows := map key | key in rows :: if !rows[key].active then rows[key].(sent := Nothing) else rows[key];
        logs := map[];
        assert rows == map key | key in old(rows) :: Reintroduced(old(rows)[key]);
        forall key ensures KeySound(Lookup(rows, key), LogOf(logs, key), passes, FromOf(froms, key), key, clock) {
          NewReceiver(Lookup(old(rows), key), LogOf(old(logs), key), passes, FromOf(froms, key), key, clock);
        }
      }
    }

    /** Evaluates, records and sends, unless an update holds the installation quiet; what could not
        be recorded is not sent. */
    method Tick(active: seq<Seen>, checked: set<string>, query: Query, now: int, maintenance: bool, lucky: bool)
      requires Valid() && now >= clock
      modifies this
      ensures Valid()
      ensures maintenance ==> rows == old(rows) && logs == old(logs) && passes == old(passes) && clock == old(clock)
      ensures passes == old(passes) ==> logs == old(logs)
    {
      if maintenance { return; }
      var ok := ReconcileAlerts(active, checked, query, now, lucky);
      if !ok { return; }
      Send(now, lucky);
    }

    /** Any passes, sends and receiver changes, in any order, with calls failing anywhere. */
    method AnyRun(steps: nat)
      requires Valid()
      modifies this
      ensures Valid() && forall key :: Honest(LogOf(logs, key), passes, key)
    {
      for i := 0 to steps
        invariant Valid()
      {
        var active: seq<Seen>, checked: set<string>, query: Query, now: int := *, *, *, *;
        var changed: bool, maintenance: bool := *, *;
        if now >= clock { Tick(active, checked, query, now, maintenance, false); }
        SetAlertWebhook(changed);
      }
    }
  }
}
