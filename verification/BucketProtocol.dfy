/**
 The backup bucket protocol of one database folder: publication, reconciliation,
 retention and deletion, written as the worker runs them.

 Every call on the object store or on SQLite may fail; a failed call on the store
 may still have taken effect, a failed transaction has not.  A failure ends the
 operation like a crash, since only the fields of the worker outlive it.  A `lucky` call does not fail.  Unless the
 worker is `alone`, anyone may rewrite the bucket between any two calls.
 */
module BucketProtocol {
  import opened Records
  import opened Cache
  import Retention

  datatype Bucket = Bucket(archives: set<Dir>, manifests: map<Dir, Manifest>, unexpected: set<Dir>)

  datatype JobState = Running | Succeeded | Failed | Interrupted

  /** Where a backup job recorded it would write, before it uploaded anything. */
  datatype Claim = NoClaim | Claim(target: string, dir: Dir)

  datatype Job = Job(state: JobState, claim: Claim, finishedAt: int)

  /** The calls that matter for ownership, in order.  `Listed` is a complete listing, with the
      folders whose manifest it saw; `Recorded` is its commit to the cache. */
  datatype Event =
    | ReadBack(dir: Dir, manifest: Manifest, project: string)
    | Listed(saw: set<Dir>)
    | Recorded(saw: set<Dir>)
    | RemovedManifest(dir: Dir)
    | RemovedArchive(dir: Dir, jobs: map<nat, Job>)

  predicate NamesUs(e: Event, us: string, d: Dir) {
    e.ReadBack? && e.dir == d && e.manifest.sound && e.manifest.installation == us && e.manifest.project == e.project
  }

  /** The manifest of d was read back naming us, and no listing recorded since saw it. */
  predicate Proven(trace: seq<Event>, us: string, d: Dir) {
    trace != [] &&
    var last, init := trace[|trace| - 1], trace[..|trace| - 1];
    NamesUs(last, us, d) || (!(last.Recorded? && d in last.saw) && Proven(init, us, d))
  }

  ghost predicate ProofAt(trace: seq<Event>, us: string, d: Dir, i: nat) {
    i < |trace| && NamesUs(trace[i], us, d) && forall j | i < j < |trace| && trace[j].Recorded? :: d !in trace[j].saw
  }

  lemma {:induction false} ProvenMeans(trace: seq<Event>, us: string, d: Dir)
    ensures Proven(trace, us, d) <==> exists i: nat :: ProofAt(trace, us, d, i)
  {
    if trace != [] {
      var n := |trace| - 1;
      var init := trace[..n];
      ProvenMeans(init, us, d);
      if NamesUs(trace[n], us, d) { assert ProofAt(trace, us, d, n); }
      if i: nat :| ProofAt(init, us, d, i) && !(trace[n].Recorded? && d in trace[n].saw) {
        assert ProofAt(trace, us, d, i);
      }
      if i: nat :| ProofAt(trace, us, d, i) { assert i < n ==> ProofAt(init, us, d, i); }
    }
  }

  /** The last thing that happened was a read-back of d that named us. */
  predicate JustRead(trace: seq<Event>, us: string, d: Dir) { trace != [] && NamesUs(trace[|trace| - 1], us, d) }

  /** A failed or interrupted backup job of ours claims exactly this folder in exactly this store. */
  predicate Claimed(jobs: map<nat, Job>, target: string, d: Dir) {
    exists id ::
      id in jobs && (jobs[id].state.Failed? || jobs[id].state.Interrupted?) && jobs[id].claim == Claim(target, d)
  }

  predicate Authorised(before: seq<Event>, e: Event, us: string, target: string) {
    && (e.RemovedManifest? ==> JustRead(before, us, e.dir))
    && (e.RemovedArchive? ==> Proven(before, us, e.dir) || Claimed(e.jobs, target, e.dir))
  }

  /** Every removal in the trace was authorised when it happened. */
  predicate AllAuthorised(trace: seq<Event>, us: string, target: string) {
    trace == [] ||
    (AllAuthorised(trace[..|trace| - 1], us, target) &&
     Authorised(trace[..|trace| - 1], trace[|trace| - 1], us, target))
  }

  lemma AuthorisedSnoc(trace: seq<Event>, e: Event, us: string, target: string)
    requires AllAuthorised(trace, us, target) && Authorised(trace, e, us, target)
    ensures AllAuthorised(trace + [e], us, target)
  {
    assert (trace + [e])[..|trace|] == trace;
  }

  lemma {:induction false} NoRemovalNoQuestion(trace: seq<Event>, us: string, target: string)
    requires forall i | 0 <= i < |trace| :: !trace[i].RemovedArchive? && !trace[i].RemovedManifest?
    ensures AllAuthorised(trace, us, target)
  {
    if trace != [] { NoRemovalNoQuestion(trace[..|trace| - 1], us, target); }
  }

  /** Spelled out over the whole trace: a manifest is removed directly after it was read back naming
      us; an archive is removed when it was proven ours or is claimed. */
  lemma {:induction false} EveryRemovalAuthorised(trace: seq<Event>, us: string, target: string, k: nat)
    requires AllAuthorised(trace, us, target) && k < |trace|
    ensures trace[k].RemovedManifest? ==> k > 0 && NamesUs(trace[k - 1], us, trace[k].dir)
    ensures trace[k].RemovedArchive? ==>
      Claimed(trace[k].jobs, target, trace[k].dir) || exists i: nat :: ProofAt(trace[..k], us, trace[k].dir, i)
  {
    var n := |trace| - 1;
    if k == n {
      if trace[k].RemovedArchive? { ProvenMeans(trace[..k], us, trace[k].dir); }
    } else {
      EveryRemovalAuthorised(trace[..n], us, target, k);
      assert trace[..n][..k] == trace[..k];
    }
  }

  // ----- proof against listings that were never stored -----

  /** The manifest of d was read back naming us, and no complete listing since saw it, stored or not. */
  ghost predicate StrongAt(trace: seq<Event>, us: string, d: Dir, i: nat) {
    && i < |trace| && NamesUs(trace[i], us, d)
    && forall j | i < j < |trace| && (trace[j].Listed? || trace[j].Recorded?) :: d !in trace[j].saw
  }

  /** The listing at this place was not stored: the cache could not be written. */
  predicate Unstored(trace: seq<Event>, j: nat) {
    j < |trace| && trace[j].Listed? && !(j + 1 < |trace| && trace[j + 1] == Recorded(trace[j].saw))
  }

  /** The latest read-back of d that named us. */
  ghost predicate LatestProof(trace: seq<Event>, us: string, d: Dir, i: nat) {
    i < |trace| && NamesUs(trace[i], us, d) && forall j | i < j < |trace| :: !NamesUs(trace[j], us, d)
  }

  lemma {:induction false} HasLatestProof(trace: seq<Event>, us: string, d: Dir, i: nat)
    requires i < |trace| && NamesUs(trace[i], us, d)
    ensures exists k: nat :: i <= k && LatestProof(trace, us, d, k)
  {
    var n := |trace| - 1;
    if NamesUs(trace[n], us, d) {
      assert LatestProof(trace, us, d, n);
    } else {
      HasLatestProof(trace[..n], us, d, i);
      var k: nat :| i <= k && LatestProof(trace[..n], us, d, k);
      assert LatestProof(trace, us, d, k);
    }
  }

  /** A proof the protocol acts on meets the strong form exactly when no unstored listing since the
      latest read-back saw the manifest. */
  lemma StrongExactlyWhen(trace: seq<Event>, us: string, d: Dir, latest: nat)
    requires Proven(trace, us, d) && LatestProof(trace, us, d, latest)
    ensures (exists i: nat :: StrongAt(trace, us, d, i)) <==>
      forall j: nat | latest < j && Unstored(trace, j) :: d !in trace[j].saw
  {
    ProvenMeans(trace, us, d);
    var i: nat :| ProofAt(trace, us, d, i);
    assert i <= latest;
    if forall j: nat | latest < j && Unstored(trace, j) :: d !in trace[j].saw {
      forall j | latest < j < |trace| && trace[j].Listed?
        ensures d !in trace[j].saw
      {
        assert Unstored(trace, j) || trace[j + 1].Recorded?;
      }
      assert StrongAt(trace, us, d, latest);
    }
    if k: nat :| StrongAt(trace, us, d, k) { assert k <= latest; }
  }

  ghost predicate AllStored(trace: seq<Event>) { forall j: nat | j < |trace| :: !Unstored(trace, j) }

  /** In a run that stores every complete listing, every archive removal was claimed or strongly proven. */
  lemma StrongWhenAllStored(trace: seq<Event>, us: string, target: string, k: nat)
    requires AllAuthorised(trace, us, target) && AllStored(trace) && k < |trace| && trace[k].RemovedArchive?
    ensures Claimed(trace[k].jobs, target, trace[k].dir) || exists i: nat :: StrongAt(trace[..k], us, trace[k].dir, i)
  {
    var before, d := trace[..k], trace[k].dir;
    EveryRemovalAuthorised(trace, us, target, k);
    if !Claimed(trace[k].jobs, target, d) {
      ProvenMeans(before, us, d);
      var i: nat :| ProofAt(before, us, d, i);
      HasLatestProof(before, us, d, i);
      var latest: nat :| i <= latest && LatestProof(before, us, d, latest);
      assert forall j: nat :: Unstored(before, j) ==> Unstored(trace, j);
      StrongExactlyWhen(before, us, d, latest);
    }
  }

  lemma ProvenSnoc(trace: seq<Event>, e: Event, us: string, d: Dir)
    ensures Proven(trace + [e], us, d) <==> NamesUs(e, us, d) || (!(e.Recorded? && d in e.saw) && Proven(trace, us, d))
  {
    assert (trace + [e])[..|trace|] == trace;
  }

  /** Every deletion mark in the cache is backed by proof. */
  ghost predicate Justified(trace: seq<Event>, us: string, rows: map<Dir, Row>) {
    forall d | d in rows && rows[d].markedAt > 0 :: Proven(trace, us, d)
  }

  ghost predicate WellKeyed(rows: map<Dir, Row>) {
    forall d | d in rows :: rows[d].dir == d && (rows[d].state.Complete? ==> d.At?)
  }

  lemma JustifiedSnoc(trace: seq<Event>, e: Event, us: string, rows: map<Dir, Row>)
    requires Justified(trace, us, rows) && !e.Recorded?
    ensures Justified(trace + [e], us, rows)
  {
    forall d | d in rows && rows[d].markedAt > 0 ensures Proven(trace + [e], us, d) { ProvenSnoc(trace, e, us, d); }
  }

  /** What holds at every moment when nobody else writes: a manifest always has
      its archive, everything is ours, and a folder whose manifest we removed is
      either without its archive or still marked. */
  ghost predicate Quiet(us: string, b: Bucket, rows: map<Dir, Row>, started: set<Dir>) {
    && b.manifests.Keys <= b.archives
    && b.unexpected == {}
    && (forall d | d in b.archives :: d.At?)
    && us != "" && (forall d | d in b.manifests :: b.manifests[d].sound && b.manifests[d].installation == us)
    && (forall d | d in started :: d !in b.manifests && (d in b.archives ==> d in rows && rows[d].markedAt > 0))
    && (forall d | d in rows && rows[d].state.ArchiveOnly? :: d !in b.manifests)
    && Truthful(rows, b.manifests)
  }

  /** A complete backup at least as new as all that were there is still there. */
  ghost predicate NewestKept(before: Bucket, after: Bucket) {
    before.manifests == map[] || exists e :: e in after.manifests && NotOlder(e, before)
  }

  ghost predicate NotOlder(e: Dir, b: Bucket) { forall d | d in b.manifests :: TakenAt(d) <= TakenAt(e) }

  lemma NewestKeptTransitive(a: Bucket, b: Bucket, c: Bucket)
    requires NewestKept(a, b) && NewestKept(b, c)
    ensures NewestKept(a, c)
  {
    if a.manifests != map[] {
      var e :| e in b.manifests && NotOlder(e, a);
      var f :| f in c.manifests && NotOlder(f, b);
      assert NotOlder(f, a);
    }
  }

  lemma NewestKeptSame(a: Bucket, b: Bucket)
    requires a.manifests == b.manifests
    ensures NewestKept(a, b)
  {
    if a.manifests != map[] {
      var seconds := set d | d in a.manifests :: TakenAt(d);
      var x := Pick(a.manifests.Keys);
      assert TakenAt(x) in seconds;
      var m := Retention.Max(seconds);
      var e :| e in a.manifests && TakenAt(e) == m;
      forall d | d in a.manifests ensures TakenAt(d) <= TakenAt(e) { assert TakenAt(d) in seconds; }
      assert NotOlder(e, a);
    }
  }

  /** Nothing is left of these folders. */
  ghost predicate Gone(dirs: set<Dir>, b: Bucket, rows: map<Dir, Row>) {
    forall d | d in dirs :: d !in b.archives && d !in b.manifests && d !in rows
  }

  /** Rows differ at most at d, which may change or go. */
  ghost predicate SameBut(before: map<Dir, Row>, after: map<Dir, Row>, d: Dir) {
    after.Keys <= before.Keys && after - {d} == before - {d}
  }

  /** The bucket differs at most by losing objects of d. */
  ghost predicate OnlyTouched(before: Bucket, after: Bucket, d: Dir) {
    && after.archives <= before.archives && after.archives - {d} == before.archives - {d}
    && after.manifests.Keys <= before.manifests.Keys && after.manifests - {d} == before.manifests - {d}
    && after.unexpected == before.unexpected
  }

  lemma SameButTransitive(a: map<Dir, Row>, b: map<Dir, Row>, c: map<Dir, Row>, d: Dir)
    requires SameBut(a, b, d) && SameBut(b, c, d)
    ensures SameBut(a, c, d)
  {
  }

  lemma OnlyTouchedTransitive(a: Bucket, b: Bucket, c: Bucket, d: Dir)
    requires OnlyTouched(a, b, d) && OnlyTouched(b, c, d)
    ensures OnlyTouched(a, c, d)
  {
  }

  ghost predicate ProofsKept(before: seq<Event>, after: seq<Event>, us: string) {
    forall x | Proven(before, us, x) :: Proven(after, us, x)
  }

  lemma KeepProofs(before: seq<Event>, e: Event, us: string)
    requires !e.Recorded?
    ensures ProofsKept(before, before + [e], us)
  {
    forall x | Proven(before, us, x) ensures Proven(before + [e], us, x) { ProvenSnoc(before, e, us, x); }
  }

  // ----- a recorded listing -----

  function StateOf(b: Bucket, d: Dir): RowState {
    if d.Odd? || d in b.unexpected then Damaged
    else if d in b.archives && d in b.manifests then Complete
    else if d in b.archives then ArchiveOnly
    else ManifestOnly
  }

  function Folders(b: Bucket): set<Dir> { b.archives + b.manifests.Keys + b.unexpected }

  function Listing(b: Bucket): map<Dir, Entry> { map d | d in Folders(b) :: Entry(d, StateOf(b, d), 0) }

  /** The folders of a listing whose manifest may still be there: all but the archive-only ones. */
  function Saw(listing: map<Dir, Entry>): set<Dir> { set d | d in listing && !listing[d].state.ArchiveOnly? }

  /** Only a timestamp folder is ever listed as complete. */
  ghost predicate Sane(listing: map<Dir, Entry>) {
    Keyed(listing) && forall d | d in listing && listing[d].state.Complete? :: d.At?
  }

  /** Recording a listing keeps every mark justified: a mark survives only where no manifest was seen. */
  lemma RecordingJustified(trace: seq<Event>, us: string, rows: map<Dir, Row>, listing: map<Dir, Entry>,
                           read: map<Dir, Manifest>)
    requires Justified(trace, us, rows) && Sane(listing)
    ensures Justified(trace + [Recorded(Saw(listing))], us, AfterPass(rows, listing, read))
    ensures WellKeyed(AfterPass(rows, listing, read))
  {
    var after := AfterPass(rows, listing, read);
    forall d | d in after && after[d].markedAt > 0 ensures Proven(trace + [Recorded(Saw(listing))], us, d) {
      ProvenSnoc(trace, Recorded(Saw(listing)), us, d);
      assert d in rows && rows[d].markedAt > 0 && listing[d].state.ArchiveOnly?;
    }
  }

  /** The rows say exactly what the bucket holds. */
  ghost predicate Fresh(b: Bucket, rows: map<Dir, Row>) {
    && rows.Keys == b.archives
    && forall d | d in rows ::
        if d in b.manifests then rows[d].state.Complete? &&
          rows[d].installation == b.manifests[d].installation && rows[d].project == b.manifests[d].project
        else rows[d].state.ArchiveOnly?
  }

  ghost predicate Undamaged(rows: map<Dir, Row>) { forall d | d in rows :: !rows[d].state.Damaged? }

  /** The row a pass of ours leaves for one archive when nobody else writes. */
  lemma QuietRow(us: string, b: Bucket, rows: map<Dir, Row>, started: set<Dir>, read: map<Dir, Manifest>, d: Dir)
    requires Quiet(us, b, rows, started) && d in b.archives
    requires d in read ==> d in b.manifests && read[d] == b.manifests[d]
    ensures var r := CarryMark(Remembered(Entry(d, StateOf(b, d), 0), rows, read), rows);
      && (d in b.manifests && d in read ==>
            r == Row(d, Complete, b.manifests[d].installation, b.manifests[d].project, 0, 0))
      && (r.state.Complete? || r.state.ArchiveOnly? || r.state.Damaged?)
      && (d in b.manifests ==> !r.state.ArchiveOnly? && (r.state.Complete? ==> r.installation != ""))
      && (d in b.manifests && r.installation != "" ==>
            r.installation == b.manifests[d].installation && r.project == b.manifests[d].project)
      && (d !in b.manifests ==> r == Row(d, ArchiveOnly, "", "", 0, if d in rows then rows[d].markedAt else 0))
  {
  }

  lemma QuietFolders(us: string, b: Bucket, rows: map<Dir, Row>, started: set<Dir>)
    requires Quiet(us, b, rows, started)
    ensures Folders(b) == b.archives
  {
  }

  /** Alone, recording a listing keeps the invariant; with every manifest readable the rows are fresh. */
  lemma RecordingQuiet(us: string, b: Bucket, rows: map<Dir, Row>, started: set<Dir>, read: map<Dir, Manifest>,
                       after: map<Dir, Row>)
    requires Quiet(us, b, rows, started)
    requires forall d | d in read :: d in b.manifests && read[d] == b.manifests[d]
    requires after.Keys == b.archives
    requires forall d | d in after :: after[d] == CarryMark(Remembered(Entry(d, StateOf(b, d), 0), rows, read), rows)
    ensures Quiet(us, b, after, started)
    ensures Undamaged(after) ==> Fresh(b, after)
    ensures read.Keys == b.manifests.Keys ==> Undamaged(after)
  {
    forall d | d in after
      ensures d in b.manifests && d in read ==>
        after[d] == Row(d, Complete, b.manifests[d].installation, b.manifests[d].project, 0, 0)
      ensures d in b.manifests ==>
        !after[d].state.ArchiveOnly? && (after[d].state.Complete? ==> after[d].installation != "")
      ensures after[d].state.Complete? || after[d].state.ArchiveOnly? || after[d].state.Damaged?
      ensures d in b.manifests && after[d].installation != "" ==>
        after[d].installation == b.manifests[d].installation && after[d].project == b.manifests[d].project
      ensures d !in b.manifests ==>
        after[d] == Row(d, ArchiveOnly, "", "", 0, if d in rows then rows[d].markedAt else 0)
    {
      QuietRow(us, b, rows, started, read, d);
    }
  }

  /** Undamaged rows are fresh, and rows are undamaged when every manifest could be read. */
  ghost predicate Told(b: Bucket, rows: map<Dir, Row>, read: map<Dir, Manifest>) {
    (Undamaged(rows) ==> Fresh(b, rows)) && (read.Keys == b.manifests.Keys ==> Undamaged(rows))
  }

  /** Recording what a listing found keeps everything the worker relies on. */
  lemma RecordingSound(us: string, target: string, alone: bool, b: Bucket, rows: map<Dir, Row>, started: set<Dir>,
                       trace: seq<Event>, listing: map<Dir, Entry>, read: map<Dir, Manifest>)
    requires Sound(us, target, alone, b, rows, started, trace) && Sane(listing)
    requires alone ==> listing == Listing(b) && forall d | d in read :: d in b.manifests && read[d] == b.manifests[d]
    ensures var after := AfterPass(rows, listing, read);
      && Sound(us, target, alone, b, after, started, trace + [Recorded(Saw(listing))])
      && (alone ==> Told(b, after, read))
  {
    RecordingJustified(trace, us, rows, listing, read);
    AuthorisedSnoc(trace, Recorded(Saw(listing)), us, target);
    if alone {
      QuietFolders(us, b, rows, started);
      RecordingQuiet(us, b, rows, started, read, AfterPass(rows, listing, read));
    }
  }

  ghost predicate Sound(us: string, target: string, alone: bool, b: Bucket, rows: map<Dir, Row>, started: set<Dir>,
                        trace: seq<Event>)
  {
    && AllAuthorised(trace, us, target)
    && Justified(trace, us, rows)
    && WellKeyed(rows)
    && (alone ==> Quiet(us, b, rows, started))
  }

  /** A complete listing of the bucket, folder by folder. */
  method EntriesOf(b: Bucket) returns (entries: seq<Entry>)
    ensures DistinctDirs(entries) && Sane(AsMap(entries)) && AsMap(entries) == Listing(b)
  {
    entries := [];
    var todo := Folders(b);
    while todo != {}
      invariant todo <= Folders(b) && DistinctDirs(entries)
      invariant AsMap(entries) == ListingOf(b, Folders(b) - todo)
      decreases todo
    {
      HasMember(todo);
      var d :| d in todo;
      ListingAdd(entries, Entry(d, StateOf(b, d), 0));
      ListingGrows(b, Folders(b) - todo, d);
      assert Folders(b) - (todo - {d}) == Folders(b) - todo + {d};
      entries, todo := entries + [Entry(d, StateOf(b, d), 0)], todo - {d};
    }
    assert Folders(b) - todo == Folders(b);
  }

  function ListingOf(b: Bucket, dirs: set<Dir>): map<Dir, Entry> { map d | d in dirs :: Entry(d, StateOf(b, d), 0) }

  lemma ListingGrows(b: Bucket, dirs: set<Dir>, d: Dir)
    ensures ListingOf(b, dirs + {d}) == ListingOf(b, dirs)[d := Entry(d, StateOf(b, d), 0)]
  {
  }

  // ----- the rows of a folder as a list -----

  /** list holds exactly the rows, each once, newest first. */
  ghost predicate Lists(list: seq<Row>, rows: map<Dir, Row>) {
    && (forall i | 0 <= i < |list| :: list[i].dir in rows && rows[list[i].dir] == list[i])
    && (forall i, j | 0 <= i < j < |list| :: list[i].dir != list[j].dir && TakenAt(list[j].dir) <= TakenAt(list[i].dir))
    && (forall d | d in rows :: rows[d] in list)
  }

  /** Each complete row is one of the rows, and the complete ones never share a second. */
  lemma {:induction false} CompleteIsSorted(list: seq<Row>)
    requires forall i, j | 0 <= i < j < |list| ::
      list[i].dir != list[j].dir && TakenAt(list[j].dir) <= TakenAt(list[i].dir)
    requires forall i | 0 <= i < |list| && list[i].state.Complete? :: list[i].dir.At?
    ensures forall b :: b in CompleteRows(list) <==> b in list && b.state.Complete?
    ensures Retention.NewestFirst(CompleteRows(list))
  {
    if list != [] {
      CompleteIsSorted(list[1..]);
      var rest := CompleteRows(list[1..]);
      forall i | 0 <= i < |rest| && list[0].state.Complete? ensures TakenAt(rest[i].dir) < TakenAt(list[0].dir) {
        assert rest[i] in list[1..];
        var j :| 0 <= j < |list[1..]| && list[1..][j] == rest[i];
        assert list[j + 1] == rest[i];
      }
    }
  }

  lemma {:induction false} WithoutHolds(c: seq<Row>, keep: set<int>)
    ensures forall b :: b in Retention.Without(c, keep) <==> b in c && TakenAt(b.dir) !in keep
    ensures |Retention.Without(c, keep)| <= |c|
    ensures Retention.NewestFirst(c) ==> Retention.NewestFirst(Retention.Without(c, keep))
  {
    if c != [] {
      WithoutHolds(c[1..], keep);
      var rest := Retention.Without(c[1..], keep);
      if Retention.NewestFirst(c) {
        forall i | 0 <= i < |rest| ensures TakenAt(rest[i].dir) < TakenAt(c[0].dir) {
          assert rest[i] in c[1..];
          var j :| 0 <= j < |c[1..]| && c[1..][j] == rest[i];
          assert c[j + 1] == rest[i];
        }
      }
    }
  }

  /** The newest complete row never expires. */
  lemma NewestNeverExpires(c: seq<Row>, p: Policy, now: int)
    requires Retention.NewestFirst(c) && c != []
    ensures c[0] !in Retention.Without(c, Retention.Keep(Retention.Members(Retention.SecondsOf(c)), p, now))
    ensures forall b | b in c :: TakenAt(b.dir) <= TakenAt(c[0].dir)
  {
    var seconds := Retention.SecondsOf(c);
    var s := Retention.Members(seconds);
    assert seconds[0] in s;
    forall t | t in s ensures t <= seconds[0] { var i :| 0 <= i < |seconds| && seconds[i] == t; }
    assert Retention.Max(s) == seconds[0];
    WithoutHolds(c, Retention.Keep(s, p, now));
    forall b | b in c ensures TakenAt(b.dir) <= TakenAt(c[0].dir) { var i :| 0 <= i < |c| && c[i] == b; }
  }

  /** A folder with anything damaged, or with another installation's backup, is left alone. */
  predicate Blocks(b: Row, us: string) { b.state.Damaged? || (b.state.Complete? && b.installation != us) }

  /** What the provider says about keeping versions of deleted objects. */
  datatype Protection = Unconfirmed | VersioningOff | VersioningUnsupported | VersioningOn

  /** Nothing is deleted unless the bucket keeps versions, or the operator accepted that it cannot tell. */
  predicate Protected(protection: Protection, acknowledged: bool) {
    protection.VersioningOn? || (protection.VersioningUnsupported? && acknowledged)
  }

  predicate HalfDeleted(b: Row) { b.state.ArchiveOnly? && b.markedAt > 0 }

  lemma {:induction false} HasNewest(dirs: set<Dir>)
    requires dirs != {}
    ensures exists d :: d in dirs && forall e | e in dirs :: TakenAt(e) <= TakenAt(d)
  {
    var seconds := set d | d in dirs :: TakenAt(d);
    var x := Pick(dirs);
    assert TakenAt(x) in seconds;
    var m := Retention.Max(seconds);
    var d :| d in dirs && TakenAt(d) == m;
    forall e | e in dirs ensures TakenAt(e) <= TakenAt(d) { assert TakenAt(e) in seconds; }
  }

  /** Losing lone archives together with their rows keeps the rows fresh. */
  lemma FreshWithout(b: Bucket, rows: map<Dir, Row>, lost: set<Dir>)
    requires Fresh(b, rows) && lost !! b.manifests.Keys
    ensures Fresh(b.(archives := b.archives - lost), rows - lost)
  {
  }

  /** So does deleting one backup whole. */
  lemma FreshAfterDelete(b: Bucket, rows: map<Dir, Row>, b': Bucket, rows': map<Dir, Row>, d: Dir)
    requires Fresh(b, rows) && OnlyTouched(b, b', d) && SameBut(rows, rows', d)
    requires d !in rows' && d !in b'.archives && d !in b'.manifests
    ensures Fresh(b', rows')
  {
    assert b'.archives == b.archives - {d};
    forall x | x in rows' ensures x in rows && rows'[x] == rows[x] { assert x in rows' - {d}; }
    forall x | x in b'.manifests ensures b'.manifests[x] == b.manifests[x] { assert x in b'.manifests - {d}; }
    forall x | x in b.manifests && x != d ensures x in b'.manifests { assert x in b.manifests - {d}; }
    forall x | x in rows && x != d ensures x in rows' { assert x in rows - {d}; }
  }

  lemma OthersStay(rows: map<Dir, Row>, rows': map<Dir, Row>, d: Dir)
    requires SameBut(rows, rows', d)
    ensures forall x | x != d :: (x in rows <==> x in rows') && (x in rows ==> rows'[x] == rows[x])
  {
    forall x | x != d ensures (x in rows <==> x in rows') && (x in rows ==> rows'[x] == rows[x]) {
      assert x in rows <==> x in rows - {d};
      assert x in rows' <==> x in rows' - {d};
    }
  }

  lemma NewestStays(b: Bucket, b': Bucket, d: Dir, newest: Dir)
    requires OnlyTouched(b, b', d) && newest in b.manifests && newest != d && NotOlder(newest, b)
    ensures newest in b'.manifests && NotOlder(newest, b')
  {
    assert newest in b.manifests - {d};
  }

  /** Fresh rows, nothing left of what was started, and the newest backup in place
      (or no backup at all). */
  ghost predicate Settled(b: Bucket, rows: map<Dir, Row>, st: set<Dir>, newest: Dir) {
    Fresh(b, rows) && Gone(st, b, rows) && (b.manifests == map[] || (newest in b.manifests && NotOlder(newest, b)))
  }

  lemma SettledAfterDelete(st: set<Dir>, b: Bucket, rows: map<Dir, Row>, st': set<Dir>, b': Bucket,
                           rows': map<Dir, Row>, d: Dir, newest: Dir)
    requires Settled(b, rows, st, newest) && st' <= st + {d} && d != newest && newest in b.manifests
    requires OnlyTouched(b, b', d) && SameBut(rows, rows', d)
    requires d !in b'.archives && d !in b'.manifests && d !in rows'
    ensures Settled(b', rows', st', newest)
  {
    FreshAfterDelete(b, rows, b', rows', d);
    NewestStays(b, b', d, newest);
  }

  /** The listed backups are complete rows of the folder, each once, and not the newest. */
  ghost predicate Waiting(expired: seq<Row>, rows: map<Dir, Row>, newest: Dir) {
    && (forall i | 0 <= i < |expired| ::
          && expired[i].dir in rows && rows[expired[i].dir] == expired[i] && expired[i].state.Complete?
          && expired[i].dir != newest)
    && (forall i, j | 0 <= i < j < |expired| :: expired[i].dir != expired[j].dir)
  }

  lemma WaitingStep(expired: seq<Row>, rows: map<Dir, Row>, rows': map<Dir, Row>, newest: Dir)
    requires expired != [] && Waiting(expired, rows, newest) && SameBut(rows, rows', expired[0].dir)
    ensures Waiting(expired[1..], rows', newest)
  {
    OthersStay(rows, rows', expired[0].dir);
    forall i | 0 <= i < |expired| - 1 ensures expired[1..][i] == expired[i + 1] {}
  }

  ghost predicate IncompleteStay(before: map<Dir, Row>, after: map<Dir, Row>) {
    forall d | d in before && !before[d].state.Complete? :: d in after && after[d] == before[d]
  }

  lemma IncompleteStayStep(before: map<Dir, Row>, rows: map<Dir, Row>, rows': map<Dir, Row>, b: Row)
    requires IncompleteStay(before, rows) && SameBut(rows, rows', b.dir) && b.dir in rows && rows[b.dir] == b
    requires b.state.Complete?
    ensures IncompleteStay(before, rows')
  {
    OthersStay(rows, rows', b.dir);
  }

  // ----- provenance -----

  /** Job id still tells whose the lone archive of d is, and pruning will not take it. */
  predicate Accounts(jobs: map<nat, Job>, id: nat, target: string, d: Dir, rows: map<Dir, Row>, reconciledAt: int) {
    && id in jobs && jobs[id].claim == Claim(target, d) && !jobs[id].state.Succeeded?
    && (|| (jobs[id].state.Running? && jobs[id].finishedAt <= 0)
        || jobs[id].finishedAt >= reconciledAt
        || (d in rows && rows[d].state.ArchiveOnly?))
  }

  /** Every lone archive that is not one of our half-deletes has such a job. */
  ghost predicate Accounted(b: Bucket, rows: map<Dir, Row>, started: set<Dir>, jobs: map<nat, Job>, target: string,
                            reconciledAt: int)
  {
    forall d | d in b.archives && d !in b.manifests && d !in started ::
      exists id :: Accounts(jobs, id, target, d, rows, reconciledAt)
  }

  /** No folder is dated after the clock. */
  ghost predicate Dated(b: Bucket, rows: map<Dir, Row>, started: set<Dir>, clock: int) {
    && (forall d | d in b.archives :: TakenAt(d) <= clock)
    && (forall d | d in rows :: TakenAt(d) <= clock)
    && (forall d | d in started :: TakenAt(d) <= clock)
  }

  ghost predicate Booked(b: Bucket, rows: map<Dir, Row>, started: set<Dir>, jobs: map<nat, Job>, target: string,
                         reconciledAt: int, clock: int)
  {
    Accounted(b, rows, started, jobs, target, reconciledAt) && Dated(b, rows, started, clock) && reconciledAt <= clock
  }

  /** What the worker's own calls do to a quiet bucket and its cache: objects only go,
      a manifest only as a started deletion, and a lone archive keeps its row. */
  ghost predicate Shrinks(b: Bucket, rows: map<Dir, Row>, started: set<Dir>, b': Bucket, rows': map<Dir, Row>,
                          started': set<Dir>)
  {
    && b'.archives <= b.archives && started <= started' && started' <= started + b.archives && rows'.Keys <= rows.Keys
    && (forall d | d in b.manifests :: d in b'.manifests || d in started')
    && (forall d | d in b'.archives && d in rows && rows[d].state.ArchiveOnly? ::
          d in rows' && rows'[d].state.ArchiveOnly?)
  }

  lemma BookedAfter(b: Bucket, rows: map<Dir, Row>, started: set<Dir>, b': Bucket, rows': map<Dir, Row>,
                    started': set<Dir>, jobs: map<nat, Job>, target: string, reconciledAt: int, clock: int)
    requires Booked(b, rows, started, jobs, target, reconciledAt, clock)
    requires Shrinks(b, rows, started, b', rows', started')
    ensures Booked(b', rows', started', jobs, target, reconciledAt, clock)
  {
    forall d | d in b'.archives && d !in b'.manifests && d !in started'
      ensures exists id :: Accounts(jobs, id, target, d, rows', reconciledAt)
    {
      var id :| Accounts(jobs, id, target, d, rows, reconciledAt);
      assert Accounts(jobs, id, target, d, rows', reconciledAt);
    }
  }

  /** Every lone archive has its row. */
  ghost predicate LoneListed(b: Bucket, rows: map<Dir, Row>) {
    forall d | d in b.archives && d !in b.manifests :: d in rows && rows[d].state.ArchiveOnly?
  }

  /** Jobs may change as long as each that accounts for a lone archive goes on doing so. */
  lemma BookedJobs(b: Bucket, rows: map<Dir, Row>, started: set<Dir>, jobs: map<nat, Job>, jobs': map<nat, Job>,
                   target: string, reconciledAt: int, clock: int)
    requires Booked(b, rows, started, jobs, target, reconciledAt, clock)
    requires forall id, d | Accounts(jobs, id, target, d, rows, reconciledAt) && d in b.archives && d !in b.manifests ::
      Accounts(jobs', id, target, d, rows, reconciledAt)
    ensures Booked(b, rows, started, jobs', target, reconciledAt, clock)
  {
    forall d | d in b.archives && d !in b.manifests && d !in started
      ensures exists id :: Accounts(jobs', id, target, d, rows, reconciledAt)
    {
      var id :| Accounts(jobs, id, target, d, rows, reconciledAt);
      assert Accounts(jobs', id, target, d, rows, reconciledAt);
    }
  }

  /** After a complete listing the reconciliation time may move on. */
  lemma BookedAt(b: Bucket, rows: map<Dir, Row>, started: set<Dir>, jobs: map<nat, Job>, target: string,
                 reconciledAt: int, clock: int)
    requires Booked(b, rows, started, jobs, target, reconciledAt, clock) && LoneListed(b, rows)
    ensures Booked(b, rows, started, jobs, target, clock, clock)
  {
    forall d | d in b.archives && d !in b.manifests && d !in started
      ensures exists id :: Accounts(jobs, id, target, d, rows, clock)
    {
      var id :| Accounts(jobs, id, target, d, rows, reconciledAt);
      assert Accounts(jobs, id, target, d, rows, clock);
    }
  }

  /** A job may be pruned: finished long ago, claiming no listed lone archive, and
      the store was read completely since. */
  predicate Prunable(job: Job, target: string, rows: map<Dir, Row>, reconciledAt: int, before: int) {
    && 0 < job.finishedAt < before
    && (job.claim.Claim? && job.claim.target == target ==>
          !(job.claim.dir in rows && rows[job.claim.dir].state.ArchiveOnly?) && job.finishedAt < reconciledAt)
  }

  function Interrupt(jobs: map<nat, Job>, now: int): map<nat, Job> {
    map id | id in jobs ::
      if jobs[id].state.Running? then jobs[id].(state := Interrupted, finishedAt := now) else jobs[id]
  }

  /** A new folder keeps the old newest backup in place. */
  lemma NewestKeptGrowing(a: Bucket, b: Bucket)
    requires forall d | d in a.manifests :: d in b.manifests
    ensures NewestKept(a, b)
  {
    NewestKeptSame(a, a);
    if a.manifests != map[] {
      var e :| e in a.manifests && NotOlder(e, a);
      assert e in b.manifests;
    }
  }

  /** A recorded listing has a row for every lone archive. */
  lemma BookedAfterRecording(us: string, b: Bucket, rows: map<Dir, Row>, started: set<Dir>, read: map<Dir, Manifest>,
                             jobs: map<nat, Job>, target: string, reconciledAt: int, clock: int)
    requires Quiet(us, b, rows, started) && Booked(b, rows, started, jobs, target, reconciledAt, clock)
    requires forall d | d in read :: d in b.manifests && read[d] == b.manifests[d]
    ensures var after := AfterPass(rows, Listing(b), read);
      && Booked(b, after, started, jobs, target, reconciledAt, clock)
      && LoneListed(b, after)
  {
    var after := AfterPass(rows, Listing(b), read);
    QuietFolders(us, b, rows, started);
    forall d | d in b.archives && d !in b.manifests ensures d in after && after[d].state.ArchiveOnly? {
      QuietRow(us, b, rows, started, read, d);
    }
    forall d | d in b.archives && d !in b.manifests && d !in started
      ensures exists id :: Accounts(jobs, id, target, d, after, reconciledAt)
    {
      var id :| Accounts(jobs, id, target, d, rows, reconciledAt);
      assert Accounts(jobs, id, target, d, after, reconciledAt);
    }
  }

  // ----- one retention pass -----

  function DirsOf(list: seq<Row>): set<Dir> { set b | b in list :: b.dir }

  /** These folders, and no others, lost their manifests, and their archives with them. */
  ghost predicate Removed(before: Bucket, after: Bucket, dirs: set<Dir>) {
    after.manifests == before.manifests - dirs && after.archives !! dirs && after.archives <= before.archives
  }

  lemma RemovedStep(before: Bucket, b: Bucket, after: Bucket, expired: seq<Row>, i: nat)
    requires i < |expired| && Removed(before, b, DirsOf(expired[..i]))
    requires OnlyTouched(b, after, expired[i].dir) && expired[i].dir !in after.archives
    requires expired[i].dir !in after.manifests
    ensures Removed(before, after, DirsOf(expired[..i + 1]))
  {
    var d := expired[i].dir;
    TakeSnoc(expired, i);
    assert forall b :: b in expired[..i + 1] <==> b in expired[..i] || b == expired[i];
    assert DirsOf(expired[..i + 1]) == DirsOf(expired[..i]) + {d};
    assert after.manifests == after.manifests - {d} == b.manifests - {d};
  }

  /** The local history names only backups the cache shows complete. */
  ghost predicate Backed(history: set<Dir>, rows: map<Dir, Row>) {
    forall d | d in history :: d in rows && rows[d].state.Complete?
  }

  predicate Abandons(job: Job, target: string, d: Dir, cutoff: int) {
    (job.state.Failed? || job.state.Interrupted?) && job.claim == Claim(target, d) && 0 < job.finishedAt < cutoff
  }

  predicate Abandoned(jobs: map<nat, Job>, target: string, d: Dir, cutoff: int) {
    exists id | id in jobs :: Abandons(jobs[id], target, d, cutoff)
  }

  predicate Leftover(b: Row, jobs: map<nat, Job>, target: string, cutoff: int) {
    b.state.ArchiveOnly? && b.markedAt <= 0 && TakenAt(b.dir) <= cutoff && Abandoned(jobs, target, b.dir, cutoff)
  }

  function LeftDirs(list: seq<Row>, jobs: map<nat, Job>, target: string, cutoff: int): set<Dir> {
    set b | b in list && Leftover(b, jobs, target, cutoff) :: b.dir
  }

  lemma LeftDirsStep(list: seq<Row>, i: nat, jobs: map<nat, Job>, target: string, cutoff: int)
    requires i < |list|
    ensures LeftDirs(list[..i + 1], jobs, target, cutoff) ==
      LeftDirs(list[..i], jobs, target, cutoff) + if Leftover(list[i], jobs, target, cutoff) then {list[i].dir} else {}
  {
    TakeSnoc(list, i);
    assert forall b :: b in list[..i + 1] <==> b in list[..i] || b == list[i];
  }

  /** The lone unmarked archives of the list still have their rows. */
  ghost predicate Unfinished(list: seq<Row>, rows: map<Dir, Row>) {
    && (forall b | b in list && b.state.ArchiveOnly? && b.markedAt <= 0 :: b.dir in rows && rows[b.dir] == b)
    && (forall i, j | 0 <= i < j < |list| :: list[i].dir != list[j].dir)
  }

  /** These lone archives went, each with its row. */
  ghost predicate CleanedUp(b: Bucket, rows: map<Dir, Row>, b': Bucket, rows': map<Dir, Row>, left: set<Dir>) {
    rows' == rows - left && b' == b.(archives := b.archives - left) && left !! b.manifests.Keys
  }

  lemma CleanedUpStep(b: Bucket, rows: map<Dir, Row>, b1: Bucket, rows1: map<Dir, Row>, b2: Bucket,
                      rows2: map<Dir, Row>, list: seq<Row>, i: nat, jobs: map<nat, Job>, target: string, cutoff: int)
    requires i < |list| && CleanedUp(b, rows, b1, rows1, LeftDirs(list[..i], jobs, target, cutoff))
    requires CleanedUp(b1, rows1, b2, rows2, if Leftover(list[i], jobs, target, cutoff) then {list[i].dir} else {})
    ensures CleanedUp(b, rows, b2, rows2, LeftDirs(list[..i + 1], jobs, target, cutoff))
  {
    LeftDirsStep(list, i, jobs, target, cutoff);
    SetMinus(b.archives, LeftDirs(list[..i], jobs, target, cutoff), list[i].dir);
  }

  lemma NotLeftYet(list: seq<Row>, i: nat, rows: map<Dir, Row>, jobs: map<nat, Job>, target: string, cutoff: int)
    requires i < |list| && Unfinished(list, rows)
    ensures list[i].dir !in LeftDirs(list[..i], jobs, target, cutoff)
  {
  }

  lemma StillUnfinished(list: seq<Row>, rows: map<Dir, Row>, rows1: map<Dir, Row>, rows2: map<Dir, Row>)
    requires Lists(list, rows) && rows1 == rows - HalfDirs(list) && IncompleteStay(rows1, rows2)
    ensures Unfinished(list, rows2)
  {
    forall b | b in list && b.state.ArchiveOnly? && b.markedAt <= 0 ensures b.dir in rows2 && rows2[b.dir] == b {
      assert b.dir in rows1 && rows1[b.dir] == b;
    }
  }

  lemma BlocksIn(list: seq<Row>, rows: map<Dir, Row>, us: string)
    requires Lists(list, rows)
    ensures (exists b :: b in list && Blocks(b, us)) <==> (exists d :: d in rows && Blocks(rows[d], us))
  {
    if b :| b in list && Blocks(b, us) { assert b.dir in rows && rows[b.dir] == b; }
    if d :| d in rows && Blocks(rows[d], us) { assert rows[d] in list; }
  }

  /** Alone, an undamaged folder never blocks. */
  lemma NeverBlocked(us: string, b: Bucket, rows: map<Dir, Row>, started: set<Dir>)
    requires Quiet(us, b, rows, started)
    ensures Undamaged(rows) && Fresh(b, rows) ==> !exists d :: d in rows && Blocks(rows[d], us)
  {
  }

  lemma ListIsSorted(list: seq<Row>, rows: map<Dir, Row>)
    requires Lists(list, rows) && WellKeyed(rows)
    ensures Retention.NewestFirst(CompleteRows(list))
    ensures forall b :: b in CompleteRows(list) <==> b.dir in rows && rows[b.dir] == b && b.state.Complete?
  {
    CompleteIsSorted(list);
  }

  ghost function NewestOf(list: seq<Row>): Dir {
    var c := CompleteRows(list);
    if c == [] then At(0) else c[0].dir
  }

  ghost function Expired(list: seq<Row>, p: Policy, now: int): seq<Row> {
    var c := CompleteRows(list);
    Retention.Without(c, Retention.Keep(Retention.Members(Retention.SecondsOf(c)), p, now))
  }

  lemma NewestInPlace(b: Bucket, rows: map<Dir, Row>, list: seq<Row>)
    requires Fresh(b, rows) && b.manifests.Keys <= b.archives && Lists(list, rows) && WellKeyed(rows)
    ensures b.manifests == map[] || (NewestOf(list) in b.manifests && NotOlder(NewestOf(list), b))
  {
    ListIsSorted(list, rows);
    var c := CompleteRows(list);
    forall d | d in b.manifests ensures rows[d] in c && TakenAt(d) <= TakenAt(NewestOf(list)) {
      assert rows[d] in c;
      var i :| 0 <= i < |c| && c[i] == rows[d];
    }
    if c != [] { assert c[0] in c; }
  }

  lemma ExpiredWaits(rows: map<Dir, Row>, list: seq<Row>, rows1: map<Dir, Row>, p: Policy, now: int)
    requires Lists(list, rows) && WellKeyed(rows) && rows1 == rows - HalfDirs(list)
    ensures Waiting(Expired(list, p, now), rows1, NewestOf(list))
  {
    ListIsSorted(list, rows);
    var c := CompleteRows(list);
    var keep := Retention.Keep(Retention.Members(Retention.SecondsOf(c)), p, now);
    var e := Expired(list, p, now);
    WithoutHolds(c, keep);
    if c != [] { NewestNeverExpires(c, p, now); }
    forall i | 0 <= i < |e|
      ensures e[i].dir in rows1 && rows1[e[i].dir] == e[i] && e[i].state.Complete? && e[i].dir != NewestOf(list)
    {
      assert e[i] in e && e[i] in c;
      assert e[i].dir !in HalfDirs(list);
      assert c[0] in c;
    }
  }

  lemma SettledToStart(us: string, b: Bucket, rows: map<Dir, Row>, st: set<Dir>, list: seq<Row>, b1: Bucket,
                       rows1: map<Dir, Row>, h: set<Dir>, p: Policy, now: int)
    requires Quiet(us, b, rows, st) && Fresh(b, rows) && WellKeyed(rows) && Lists(list, rows)
    requires rows1 == rows - HalfDirs(list) && b1 == b.(archives := b.archives - HalfDirs(list))
    requires HalfDirs(list) !! b.manifests.Keys
    ensures Settled(b1, rows1, st, NewestOf(list)) && Waiting(Expired(list, p, now), rows1, NewestOf(list))
    ensures Backed(h, rows) ==> st !! h
  {
    FreshWithout(b, rows, HalfDirs(list));
    NewestInPlace(b, rows, list);
    ExpiredWaits(rows, list, rows1, p, now);
    forall d | d in st ensures d !in b1.archives && d !in b1.manifests && d !in rows1 {
      if d in b.archives { assert rows[d] in list && HalfDeleted(rows[d]); }
    }
  }

  ghost function Seconds(b: Bucket): set<int> { set d | d in b.manifests :: TakenAt(d) }

  /** What a retention pass that ended well leaves behind. */
  ghost predicate Retained(before: Bucket, after: Bucket, rows: map<Dir, Row>, history: set<Dir>, started: set<Dir>,
                           jobs: map<nat, Job>, target: string, p: Policy, now: int)
  {
    && Fresh(after, rows) && Gone(started, after, rows) && started !! history
    && after.manifests.Keys <= before.manifests.Keys
    && Seconds(after) == Retention.Keep(Seconds(before), p, now)
    && forall d | d in after.archives && d !in after.manifests ::
         TakenAt(d) > now - Retention.DAY || !Abandoned(jobs, target, d, now - Retention.DAY)
  }

  lemma KeepIsSubset(s: set<int>, p: Policy, now: int)
    ensures Retention.Keep(s, p, now) <= s
  {
  }

  /** The manifests are exactly the complete rows. */
  lemma CompleteSeconds(b: Bucket, rows: map<Dir, Row>, list: seq<Row>)
    requires Fresh(b, rows) && b.manifests.Keys <= b.archives && Lists(list, rows) && WellKeyed(rows)
    ensures Retention.Members(Retention.SecondsOf(CompleteRows(list))) == Seconds(b)
  {
    ListIsSorted(list, rows);
    var c := CompleteRows(list);
    var seconds := Retention.SecondsOf(c);
    forall t | t in seconds ensures t in Seconds(b) {
      var i :| 0 <= i < |seconds| && seconds[i] == t;
      assert c[i] in c;
    }
    forall d | d in b.manifests ensures TakenAt(d) in seconds {
      assert rows[d] in c;
      var i :| 0 <= i < |c| && c[i] == rows[d];
      assert seconds[i] == TakenAt(d);
    }
  }

  lemma ExpiredMeans(b: Bucket, rows: map<Dir, Row>, list: seq<Row>, p: Policy, now: int)
    requires Fresh(b, rows) && b.manifests.Keys <= b.archives && Lists(list, rows) && WellKeyed(rows)
    ensures forall d | d in b.manifests ::
      d in DirsOf(Expired(list, p, now)) <==> TakenAt(d) !in Retention.Keep(Seconds(b), p, now)
  {
    ListIsSorted(list, rows);
    CompleteSeconds(b, rows, list);
    WithoutHolds(CompleteRows(list), Retention.Keep(Seconds(b), p, now));
    forall d | d in b.manifests
      ensures d in DirsOf(Expired(list, p, now)) <==> TakenAt(d) !in Retention.Keep(Seconds(b), p, now)
    {
      assert rows[d] in CompleteRows(list);
      if x :| x in Expired(list, p, now) && x.dir == d { assert x == rows[d]; }
    }
  }

  /** Removing exactly the expired backups leaves exactly the kept seconds. */
  lemma ExactlyKept(b: Bucket, rows: map<Dir, Row>, list: seq<Row>, b2: Bucket, p: Policy, now: int)
    requires Fresh(b, rows) && b.manifests.Keys <= b.archives && Lists(list, rows) && WellKeyed(rows)
    requires b2.manifests == b.manifests - DirsOf(Expired(list, p, now))
    ensures Seconds(b2) == Retention.Keep(Seconds(b), p, now)
  {
    ExpiredMeans(b, rows, list, p, now);
    KeepIsSubset(Seconds(b), p, now);
  }

  lemma FinallyRetained(b: Bucket, rows: map<Dir, Row>, list: seq<Row>, b2: Bucket, rows2: map<Dir, Row>, b3: Bucket,
                        rows3: map<Dir, Row>, history: set<Dir>, started: set<Dir>, jobs: map<nat, Job>,
                        target: string, p: Policy, now: int, newest: Dir)
    requires Fresh(b, rows) && b.manifests.Keys <= b.archives && Lists(list, rows) && WellKeyed(rows)
    requires Settled(b2, rows2, started, newest) && ExpiredGone(b, b2, list, p, now)
    requires CleanedUp(b2, rows2, b3, rows3, LeftDirs(list, jobs, target, now - Retention.DAY))
    requires started !! history
    ensures Retained(b, b3, rows3, history, started, jobs, target, p, now)
  {
    var cutoff := now - Retention.DAY;
    FreshWithout(b2, rows2, LeftDirs(list, jobs, target, cutoff));
    ExactlyKept(b, rows, list, b2, p, now);
    assert Seconds(b3) == Seconds(b2);
    forall d | d in b3.archives && d !in b3.manifests
      ensures TakenAt(d) > cutoff || !Abandoned(jobs, target, d, cutoff)
    {
      assert d in b.archives && d !in HalfDirs(list) && d !in b.manifests;
      assert rows[d] in list;
      assert !HalfDeleted(rows[d]);
    }
  }

  /** The job claims the folder and has not been over for a day. */
  predicate StillOpen(jobs: map<nat, Job>, id: nat, target: string, d: Dir, now: int) {
    && id in jobs && jobs[id].claim == Claim(target, d)
    && (jobs[id].state.Running? || jobs[id].finishedAt <= 0 || jobs[id].finishedAt >= now - Retention.DAY)
  }

  /** Nothing leaks: after a pass that ended well, a lone archive is either younger than a
      day or claimed by a job of ours that has not been over for a day. */
  lemma NoArchiveLeaks(before: Bucket, b: Bucket, rows: map<Dir, Row>, history: set<Dir>, started: set<Dir>,
                       jobs: map<nat, Job>, jobs': map<nat, Job>, target: string, reconciledAt: int, clock: int,
                       p: Policy, now: int, d: Dir)
    requires Retained(before, b, rows, history, started, jobs, target, p, now)
    requires Booked(b, rows, started, jobs', target, reconciledAt, clock)
    requires forall id | id in jobs' :: id in jobs && jobs[id] == jobs'[id]
    requires d in b.archives && d !in b.manifests && TakenAt(d) <= now - Retention.DAY
    ensures exists id :: StillOpen(jobs', id, target, d, now)
  {
    assert d !in started;
    var id :| Accounts(jobs', id, target, d, rows, reconciledAt);
    assert !Abandons(jobs[id], target, d, now - Retention.DAY);
    assert StillOpen(jobs', id, target, d, now);
  }

  function HalfDirs(list: seq<Row>): set<Dir> { set b | b in list && HalfDeleted(b) :: b.dir }

  lemma HalfDirsStep(list: seq<Row>, i: nat)
    requires i < |list|
    ensures HalfDirs(list[..i + 1]) ==
      if HalfDeleted(list[i]) then HalfDirs(list[..i]) + {list[i].dir} else HalfDirs(list[..i])
  {
    TakeSnoc(list, i);
    assert forall b :: b in list[..i + 1] <==> b in list[..i] || b == list[i];
  }

  lemma NotYet(list: seq<Row>, i: nat, rows: map<Dir, Row>)
    requires i < |list| && Lists(list, rows)
    ensures list[i].dir !in HalfDirs(list[..i])
  {
  }

  lemma SetMinus(s: set<Dir>, t: set<Dir>, d: Dir)
    ensures s - t - {d} == s - (t + {d})
  {
  }

  // ----- a run in which the strong form fails -----

  /** One folder with a complete backup of ours. */
  function OneBackup(us: string, d: Dir): Bucket { Bucket({d}, map[d := Manifest(us, "p", true)], {}) }

  /** The same after someone else removed its manifest. */
  function LoneArchive(d: Dir): Bucket { Bucket({d}, map[], {}) }

  /** The cache as a pass over the backup leaves it, then marked for deletion. */
  function MarkedRow(us: string, d: Dir): map<Dir, Row> {
    var rows := AfterPass(map[], Listing(OneBackup(us, d)), OneBackup(us, d).manifests);
    map x | x in rows :: rows[x].(markedAt := 1)
  }

  /** Read back and marked; the manifest's removal fails; a listing that still sees it cannot be
      stored; someone else removes the manifest; the next pass is stored and finishes the deletion. */
  function EscapingTrace(us: string, d: Dir): seq<Event> {
    [ReadBack(d, Manifest(us, "p", true), "p"), Listed(Saw(Listing(OneBackup(us, d)))),
     Listed(Saw(Listing(LoneArchive(d)))), Recorded(Saw(Listing(LoneArchive(d)))), RemovedArchive(d, map[])]
  }

  lemma EscapingMark(us: string, d: Dir)
    requires d.At? && us != ""
    ensures var rows := MarkedRow(us, d); rows.Keys == {d} && rows[d].state.Complete? && rows[d].markedAt == 1
  {
    assert Folders(OneBackup(us, d)) == {d};
  }

  lemma EscapingRows(us: string, d: Dir)
    requires d.At? && us != ""
    ensures var rows := AfterPass(MarkedRow(us, d), Listing(LoneArchive(d)), map[]); d in rows && HalfDeleted(rows[d])
  {
    EscapingMark(us, d);
    assert Folders(LoneArchive(d)) == {d};
  }

  lemma EscapingSights(us: string, d: Dir)
    requires d.At?
    ensures Saw(Listing(OneBackup(us, d))) == {d} && Saw(Listing(LoneArchive(d))) == {}
  {
    assert Folders(OneBackup(us, d)) == {d};
    assert Folders(LoneArchive(d)) == {d};
  }

  lemma EscapingProof(before: seq<Event>, us: string, target: string, d: Dir, saw: set<Dir>, later: set<Dir>)
    requires before == [ReadBack(d, Manifest(us, "p", true), "p"), Listed(saw), Listed(later), Recorded(later)]
    requires d in saw && d !in later
    ensures AllAuthorised(before, us, target) && Proven(before, us, d) && !exists i: nat :: StrongAt(before, us, d, i)
  {
    NoRemovalNoQuestion(before, us, target);
    assert ProofAt(before, us, d, 0);
    ProvenMeans(before, us, d);
    forall i: nat | i < 4 ensures !StrongAt(before, us, d, i) { assert before[1].Listed? && d in before[1].saw; }
  }

  /** The removal is one the protocol makes, yet an unstored listing since the proof saw the manifest. */
  lemma UnstoredListingEscapes(us: string, target: string, d: Dir)
    requires d.At? && us != ""
    ensures var trace := EscapingTrace(us, d);
      && AllAuthorised(trace, us, target) && trace[4] == RemovedArchive(d, map[]) && !Claimed(map[], target, d)
      && HalfDeleted(AfterPass(MarkedRow(us, d), Listing(LoneArchive(d)), map[])[d])
      && !exists i: nat :: StrongAt(trace[..4], us, d, i)
  {
    EscapingRows(us, d);
    EscapingSights(us, d);
    var trace := EscapingTrace(us, d);
    EscapingProof(trace[..4], us, target, d, {d}, {});
    AuthorisedSnoc(trace[..4], trace[4], us, target);
    assert trace == trace[..4] + [trace[4]];
  }

  /** The archives of our half-deletes are gone, and nothing else. */
  ghost predicate HalvesDone(before: Bucket, after: Bucket, list: seq<Row>) {
    after == before.(archives := before.archives - HalfDirs(list)) && HalfDirs(list) !! before.manifests.Keys
  }

  lemma HalvesDoneStep(before: Bucket, b: Bucket, after: Bucket, list: seq<Row>, i: nat)
    requires i < |list| && HalfDeleted(list[i]) && HalvesDone(before, b, list[..i])
    requires after == b.(archives := b.archives - {list[i].dir}) && list[i].dir !in b.manifests
    ensures HalvesDone(before, after, list[..i + 1])
  {
    HalfDirsStep(list, i);
    SetMinus(before.archives, HalfDirs(list[..i]), list[i].dir);
  }

  lemma RowsWithout(before: map<Dir, Row>, rows: map<Dir, Row>, after: map<Dir, Row>, list: seq<Row>, i: nat)
    requires i < |list| && HalfDeleted(list[i]) && rows == before - HalfDirs(list[..i]) && after == rows - {list[i].dir}
    ensures after == before - HalfDirs(list[..i + 1])
  {
    HalfDirsStep(list, i);
  }

  /** What the policy no longer keeps is gone, manifests and archives. */
  ghost predicate ExpiredGone(before: Bucket, after: Bucket, list: seq<Row>, p: Policy, now: int) {
    Removed(before.(archives := before.archives - HalfDirs(list)), after, DirsOf(Expired(list, p, now)))
  }

  /** Only listings happened. */
  ghost predicate OnlyLooked(before: seq<Event>, after: seq<Event>) {
    before <= after && forall i | |before| <= i < |after| :: after[i].Listed? || after[i].Recorded?
  }

  lemma LookedAndStored(trace: seq<Event>, saw: set<Dir>)
    ensures OnlyLooked(trace, trace + [Listed(saw)]) && OnlyLooked(trace, trace + [Listed(saw)] + [Recorded(saw)])
    ensures OnlyLooked(trace, trace + [Recorded(saw)])
  {
  }

  /** At most these folders lost their manifests. */
  ghost predicate LosesOnly(before: Bucket, after: Bucket, dirs: set<Dir>) {
    after.manifests.Keys <= before.manifests.Keys && before.manifests.Keys - dirs <= after.manifests.Keys
  }

  /** Nothing the policy keeps went, and nothing came. */
  ghost predicate KeepsAtLeast(before: Bucket, after: Bucket, p: Policy, now: int) {
    Retention.Keep(Seconds(before), p, now) <= Seconds(after) <= Seconds(before)
  }

  lemma KeepsAtLeastSame(a: Bucket, b: Bucket, p: Policy, now: int)
    requires a.manifests.Keys == b.manifests.Keys
    ensures KeepsAtLeast(a, b, p, now)
  {
    assert Seconds(a) == Seconds(b);
    KeepIsSubset(Seconds(a), p, now);
  }

  lemma LosesOnlyStep(before: Bucket, b: Bucket, after: Bucket, expired: seq<Row>, i: nat)
    requires i < |expired| && LosesOnly(before, b, DirsOf(expired)) && OnlyTouched(b, after, expired[i].dir)
    ensures LosesOnly(before, after, DirsOf(expired))
  {
    assert expired[i] in expired && expired[i].dir in DirsOf(expired);
    forall x | x in before.manifests && x !in DirsOf(expired) ensures x in after.manifests {
      assert x in b.manifests - {expired[i].dir};
    }
  }

  /** A pass that stopped anywhere removed only what had expired. */
  lemma LosingExpiredKeeps(b: Bucket, rows: map<Dir, Row>, list: seq<Row>, b1: Bucket, b2: Bucket, p: Policy, now: int)
    requires Fresh(b, rows) && b.manifests.Keys <= b.archives && Lists(list, rows) && WellKeyed(rows)
    requires b1.manifests == b.manifests && LosesOnly(b1, b2, DirsOf(Expired(list, p, now)))
    ensures KeepsAtLeast(b, b2, p, now)
  {
    ExpiredMeans(b, rows, list, p, now);
    KeepIsSubset(Seconds(b), p, now);
    forall t | t in Retention.Keep(Seconds(b), p, now) ensures t in Seconds(b2) {
      var d :| d in b.manifests && TakenAt(d) == t;
      assert d in b2.manifests;
    }
  }

  // ----- retention over a run -----

  /** A backup of this second may have arrived. */
  ghost predicate Arrived(b: Bucket, published: set<int>, b': Bucket, published': set<int>, d: Dir) {
    && b'.archives <= b.archives + {d} && b.manifests.Keys <= b'.manifests.Keys
    && ((published' == published && b'.manifests.Keys == b.manifests.Keys) ||
        (published' == published + {TakenAt(d)} && b'.manifests.Keys == b.manifests.Keys + {d} && d !in b.manifests))
  }

  /** Time goes on, and the seconds present and published change as in one event of a retention run. */
  ghost predicate Steps(b: Bucket, published: set<int>, clock: int, b': Bucket, published': set<int>, clock': int,
                        p: Policy)
  {
    || (published' == published && KeepsAtLeast(b, b', p, clock'))
    || exists at | clock <= at <= clock' :: NewSecond(Seconds(b), published, Seconds(b'), published', at)
  }

  ghost predicate NewSecond(present: set<int>, published: set<int>, present': set<int>, published': set<int>, at: int) {
    at !in present && present' == present + {at} && published' == published + {at}
  }

  lemma ArrivedNew(b: Bucket, published: set<int>, b': Bucket, published': set<int>, clock: int, now: int, clock': int,
                   p: Policy)
    requires Arrived(b, published, b', published', At(now)) && At(now) !in b.archives && clock <= now <= clock'
    requires b.manifests.Keys <= b.archives && forall d | d in b.archives :: d.At?
    ensures Steps(b, published, clock, b', published', clock', p)
  {
    if published' == published && b'.manifests.Keys == b.manifests.Keys {
      KeepsAtLeastSame(b, b', p, clock');
    } else {
      assert Seconds(b') == Seconds(b) + {TakenAt(At(now))};
      assert NewSecond(Seconds(b), published, Seconds(b'), published', now);
    }
  }

  /** The seconds present lie between what the policy keeps of everything published and all of it. */
  ghost predicate Tracks(b: Bucket, published: set<int>, clock: int, p: Policy) {
    Retention.Between(Retention.Folder(published, Seconds(b), clock), p) && forall t | t in published :: t <= clock
  }

  lemma NothingTracked(b: Bucket, clock: int, p: Policy)
    requires b.manifests == map[]
    ensures Tracks(b, {}, clock, p)
  {
    assert Seconds(b) == {};
    KeepIsSubset({}, p, clock);
  }

  lemma TracksLater(b: Bucket, published: set<int>, clock: int, later: int, p: Policy)
    requires Tracks(b, published, clock, p) && clock <= later
    ensures Tracks(b, published, later, p)
  {
    Retention.KeepShrinksWithTime(published, p, clock, later);
  }

  /** Each step is one event of a retention run. */
  lemma StepTracks(b: Bucket, published: set<int>, clock: int, b': Bucket, published': set<int>, clock': int, p: Policy)
    requires Tracks(b, published, clock, p) && clock <= clock' && Steps(b, published, clock, b', published', clock', p)
    ensures Tracks(b', published', clock', p)
  {
    var f := Retention.Folder(published, Seconds(b), clock);
    if published' == published && KeepsAtLeast(b, b', p, clock') {
      var pass := Retention.Pass(clock', Seconds(b) - Seconds(b'));
      Retention.BetweenIsKept(f, pass, p);
      assert Seconds(b) - (Seconds(b) - Seconds(b')) == Seconds(b');
    } else {
      var at :| clock <= at <= clock' && NewSecond(Seconds(b), published, Seconds(b'), published', at);
      NewerThanAll(f, at, p);
      Retention.BetweenIsKept(f, Retention.Arrive(at), p);
      Retention.KeepShrinksWithTime(published', p, clock, clock');
    }
  }

  /** The newest published second is always present, so a second that is not present is new. */
  lemma NewerThanAll(f: Retention.Folder, at: int, p: Policy)
    requires Retention.Between(f, p) && at !in f.present && forall t | t in f.history :: t <= at
    ensures forall t | t in f.history :: t < at
  {
    if f.history != {} {
      assert Retention.Max(f.history) in Retention.Keep(f.history, p, f.clock);
    }
  }

  class Worker {
    const us: string
    const target: string
    const alone: bool
    var bucket: Bucket
    var rows: map<Dir, Row>
    var history: set<Dir>
    var jobs: map<nat, Job>
    var counters: Counters
    /** When the store was last read completely, and the latest second the worker has used. */
    var reconciledAt: int
    var clock: int
    ghost var trace: seq<Event>
    /** The folders whose manifest this worker has removed, and every second it ever wrote one for. */
    ghost var started: set<Dir>
    ghost var published: set<int>

    ghost predicate Valid()
      reads this
    {
      && Sound(us, target, alone, bucket, rows, started, trace)
      && (alone ==> Booked(bucket, rows, started, jobs, target, reconciledAt, clock))
    }

    // ----- calls -----

    /** Whether a call fails without effect. */
    method Fails(lucky: bool) returns (failed: bool)
      ensures lucky ==> !failed
    {
      failed := false;
      if !lucky { failed := *; }
    }

    /** Whether a call reports success, and whether it takes effect. */
    method Attempt(lucky: bool) returns (ok: bool, effect: bool)
      ensures (lucky ==> ok) && (ok ==> effect)
    {
      ok, effect := true, true;
      if !lucky { if * { ok, effect := false, *; } }
    }

    /** Other installations act between two calls. */
    method Disturb()
      modifies this`bucket
      ensures alone ==> bucket == old(bucket)
    {
      if !alone { bucket := *; }
    }

    method ReadManifest(d: Dir, project: string, lucky: bool) returns (ok: bool, m: Manifest)
      requires Valid()
      modifies this`bucket, this`trace
      ensures Valid()
      ensures ok ==> trace == old(trace) + [ReadBack(d, m, project)]
      ensures !ok ==> trace == old(trace)
      ensures alone ==> bucket == old(bucket) && (ok ==> d in bucket.manifests && m == bucket.manifests[d])
      ensures alone && lucky && d in bucket.manifests ==> ok
    {
      Disturb();
      ok, m := false, Manifest("", "", false);
      var failed := Fails(lucky);
      if failed { return; }
      if d in bucket.manifests {
        ok, m := true, bucket.manifests[d];
        AuthorisedSnoc(trace, ReadBack(d, m, project), us, target);
        JustifiedSnoc(trace, ReadBack(d, m, project), us, rows);
        trace := trace + [ReadBack(d, m, project)];
      }
    }

    method MarkDeleting(d: Dir, now: int, lucky: bool) returns (ok: bool)
      requires Valid() && Proven(trace, us, d) && now > 0
      modifies this`rows
      ensures Valid()
      ensures ok ==> rows == if d in old(rows) then old(rows)[d := old(rows)[d].(markedAt := now)] else old(rows)
      ensures !ok ==> rows == old(rows)
      ensures SameBut(old(rows), rows, d)
      ensures lucky ==> ok
    {
      var failed := Fails(lucky);
      if failed { return false; }
      ghost var marked := if d in rows then rows[d := rows[d].(markedAt := now)] else rows;
      assert alone ==> Booked(bucket, marked, started, jobs, target, reconciledAt, clock) by {
        if alone { BookedAfter(bucket, rows, started, bucket, marked, started, jobs, target, reconciledAt, clock); }
      }
      if d in rows { rows := rows[d := rows[d].(markedAt := now)]; }
      ok := true;
    }

    /** Removing a key that is absent succeeds; a failed call may have removed it.  It is asked for only
        directly after the read-back that named us. */
    method RemoveManifest(d: Dir, ghost newer: Dir, lucky: bool) returns (ok: bool)
      requires Valid() && JustRead(trace, us, d)
      requires alone ==>
        && d in rows && d in bucket.archives && rows[d].markedAt > 0 && newer in bucket.manifests
        && NotOlder(newer, bucket) && newer != d
      modifies this`bucket, this`started, this`trace
      ensures Valid()
      ensures if trace == old(trace) then started == old(started)
              else trace == old(trace) + [RemovedManifest(d)] && started == old(started) + {d}
      ensures ok ==> trace != old(trace)
      ensures alone ==> NewestKept(old(bucket), bucket)
      ensures alone ==> bucket == old(bucket) || bucket == old(bucket).(manifests := old(bucket).manifests - {d})
      ensures alone ==> OnlyTouched(old(bucket), bucket, d)
      ensures alone && ok ==> bucket == old(bucket).(manifests := old(bucket).manifests - {d})
      ensures alone && bucket != old(bucket) ==> d in started
      ensures lucky ==> ok
    {
      Disturb();
      var effect;
      ok, effect := Attempt(lucky);
      if effect {
        bucket := bucket.(manifests := bucket.manifests - {d});
        started := started + {d};
        AuthorisedSnoc(trace, RemovedManifest(d), us, target);
        JustifiedSnoc(trace, RemovedManifest(d), us, rows);
        trace := trace + [RemovedManifest(d)];
        assert alone ==> newer in bucket.manifests;
      }
      if alone {
        BookedAfter(old(bucket), rows, old(started), bucket, rows, started, jobs, target, reconciledAt, clock);
      }
      Disturb();
    }

    method MarkArchiveOnly(d: Dir, lucky: bool) returns (ok: bool)
      requires Valid() && (alone ==> d !in bucket.manifests)
      modifies this`rows
      ensures Valid()
      ensures ok ==> rows == if d in old(rows) then old(rows)[d := old(rows)[d].(state := ArchiveOnly)] else old(rows)
      ensures !ok ==> rows == old(rows)
      ensures SameBut(old(rows), rows, d)
      ensures lucky ==> ok
    {
      var failed := Fails(lucky);
      if failed { return false; }
      if d in rows { rows := rows[d := rows[d].(state := ArchiveOnly)]; }
      ok := true;
      if alone { BookedAfter(bucket, old(rows), started, bucket, rows, started, jobs, target, reconciledAt, clock); }
    }

    method RemoveArchive(d: Dir, lucky: bool) returns (ok: bool)
      requires Valid()
      requires Proven(trace, us, d) || Claimed(jobs, target, d)
      requires alone ==> d !in bucket.manifests
      modifies this`bucket, this`trace
      ensures Valid()
      ensures trace == old(trace) || trace == old(trace) + [RemovedArchive(d, jobs)]
      ensures ok ==> trace == old(trace) + [RemovedArchive(d, jobs)]
      ensures alone ==> bucket == old(bucket) || bucket == old(bucket).(archives := old(bucket).archives - {d})
      ensures alone && ok ==> bucket == old(bucket).(archives := old(bucket).archives - {d})
      ensures lucky ==> ok
    {
      Disturb();
      var effect;
      ok, effect := Attempt(lucky);
      if effect {
        bucket := bucket.(archives := bucket.archives - {d});
        AuthorisedSnoc(trace, RemovedArchive(d, jobs), us, target);
        JustifiedSnoc(trace, RemovedArchive(d, jobs), us, rows);
        trace := trace + [RemovedArchive(d, jobs)];
      }
      if alone { BookedAfter(old(bucket), rows, started, bucket, rows, started, jobs, target, reconciledAt, clock); }
      Disturb();
    }

    method ForgetRow(d: Dir, lucky: bool) returns (ok: bool)
      requires Valid()
      requires alone ==> d !in bucket.archives
      modifies this`rows
      ensures Valid()
      ensures rows == if ok then old(rows) - {d} else old(rows)
      ensures lucky ==> ok
    {
      var failed := Fails(lucky);
      if failed { return false; }
      rows := rows - {d};
      ok := true;
      if alone { BookedAfter(bucket, old(rows), started, bucket, rows, started, jobs, target, reconciledAt, clock); }
    }

    method DeleteLocalRow(d: Dir, lucky: bool) returns (ok: bool)
      modifies this`history
      ensures history == if ok then old(history) - {d} else old(history)
      ensures lucky ==> ok
    {
      var failed := Fails(lucky);
      if failed { return false; }
      history := history - {d};
      ok := true;
    }

    // ----- deletion -----

    /** The mirror of publication's end: archive, cache row, history row. */
    method FinishDelete(d: Dir, lucky: bool) returns (ok: bool)
      requires Valid() && Proven(trace, us, d)
      requires alone ==> d !in bucket.manifests
      modifies this`bucket, this`trace, this`rows, this`history
      ensures Valid()
      ensures trace == old(trace) || trace == old(trace) + [RemovedArchive(d, jobs)]
      ensures rows == old(rows) || rows == old(rows) - {d}
      ensures history == old(history) || history == old(history) - {d}
      ensures SameBut(old(rows), rows, d)
      ensures alone ==> OnlyTouched(old(bucket), bucket, d)
      ensures ok ==>
        rows == old(rows) - {d} && history == old(history) - {d} && trace == old(trace) + [RemovedArchive(d, jobs)]
      ensures alone ==> bucket == old(bucket) || bucket == old(bucket).(archives := old(bucket).archives - {d})
      ensures alone && ok ==> bucket == old(bucket).(archives := old(bucket).archives - {d})
      ensures lucky ==> ok
    {
      ok := RemoveArchive(d, lucky);
      if !ok { return; }
      ok := ForgetRow(d, lucky);
      if !ok { return; }
      ok := DeleteLocalRow(d, lucky);
    }

    /** Intent, manifest, archive, rows, for a folder just read back as ours. */
    method RemoveBackup(d: Dir, now: int, ghost newer: Dir, lucky: bool) returns (ok: bool)
      requires Valid() && now > 0 && JustRead(trace, us, d)
      requires alone ==>
        d in rows && d in bucket.archives && newer in bucket.manifests && NotOlder(newer, bucket) && newer != d
      modifies this`bucket, this`trace, this`rows, this`history, this`started
      ensures Valid()
      ensures SameBut(old(rows), rows, d) && history <= old(history) && started <= old(started) + {d}
      ensures ProofsKept(old(trace), trace, us)
      ensures ok ==> d !in rows && d !in history
      ensures alone ==> NewestKept(old(bucket), bucket) && OnlyTouched(old(bucket), bucket, d)
      ensures alone && ok ==> d !in bucket.archives && d !in bucket.manifests
      ensures lucky ==> ok
    {
      ok := MarkDeleting(d, now, lucky);
      if !ok { return; }
      ghost var rows1 := rows;
      ok := RemoveManifest(d, newer, lucky);
      KeepProofs(old(trace), RemovedManifest(d), us);
      if !ok { return; }
      ghost var bucket1 := bucket;
      ok := MarkArchiveOnly(d, lucky);
      SameButTransitive(old(rows), rows1, rows, d);
      if !ok { return; }
      ghost var rows2 := rows;
      ok := FinishDelete(d, lucky);
      SameButTransitive(old(rows), rows2, rows, d);
      KeepProofs(old(trace) + [RemovedManifest(d)], RemovedArchive(d, jobs), us);
      if alone {
        OnlyTouchedTransitive(old(bucket), bucket1, bucket, d);
        assert NewestKept(bucket1, bucket) by {
          assert bucket.manifests == bucket1.manifests;
          NewestKeptSame(bucket1, bucket);
        }
        NewestKeptTransitive(old(bucket), bucket1, bucket);
      }
    }

    /** Ownership is read back first; a folder that no longer names us is dropped from the cache, never removed. */
    method DeleteBackup(b: Row, now: int, ghost newer: Dir, lucky: bool)
      returns (ok: bool, ghost read: Option<Manifest>)
      requires Valid() && now > 0
      requires alone ==> b.dir in rows && b.dir in bucket.manifests && bucket.manifests[b.dir].project == b.project
      requires alone ==> newer in bucket.manifests && NotOlder(newer, bucket) && newer != b.dir
      modifies this`bucket, this`trace, this`rows, this`history, this`started
      ensures Valid()
      ensures SameBut(old(rows), rows, b.dir) && history <= old(history) && started <= old(started) + {b.dir}
      ensures ProofsKept(old(trace), trace, us)
      ensures ok ==> b.dir !in rows && b.dir !in history
      ensures alone ==> NewestKept(old(bucket), bucket) && OnlyTouched(old(bucket), bucket, b.dir)
      ensures alone && ok ==> b.dir !in bucket.archives && b.dir !in bucket.manifests
      ensures alone && lucky ==> ok
      ensures read.None? ==> started == old(started) && trace == old(trace) && rows == old(rows)
      ensures read.Some? && !NamesUs(ReadBack(b.dir, read.value, b.project), us, b.dir) ==>
        && started == old(started) && history == old(history)
        && trace == old(trace) + [ReadBack(b.dir, read.value, b.project)]
    {
      var m;
      ok, m := ReadManifest(b.dir, b.project, lucky);
      read := if ok then Some(m) else None;
      if !ok { return; }
      KeepProofs(old(trace), ReadBack(b.dir, m, b.project), us);
      if !m.sound || m.installation != us || m.project != b.project {
        var forgot := ForgetRow(b.dir, lucky);
        ok := false;
        return;
      }
      ok := RemoveBackup(b.dir, now, newer, lucky);
    }

    // ----- retention -----

    method PrefixBackups() returns (list: seq<Row>)
      requires WellKeyed(rows)
      ensures Lists(list, rows)
    {
      list := [];
      var todo := rows.Keys;
      while todo != {}
        invariant todo <= rows.Keys
        invariant forall i | 0 <= i < |list| ::
          list[i].dir in rows && rows[list[i].dir] == list[i] && list[i].dir !in todo
        invariant forall i, j | 0 <= i < j < |list| ::
          list[i].dir != list[j].dir && TakenAt(list[j].dir) <= TakenAt(list[i].dir)
        invariant forall i, d | 0 <= i < |list| && d in todo :: TakenAt(d) <= TakenAt(list[i].dir)
        invariant forall d | d in rows && d !in todo :: rows[d] in list
        decreases todo
      {
        HasNewest(todo);
        var d :| d in todo && forall e | e in todo :: TakenAt(e) <= TakenAt(d);
        list, todo := list + [rows[d]], todo - {d};
      }
    }

    /** Our own half-deletes are finished first, whatever else the folder holds. */
    method FinishHalfDeletes(list: seq<Row>, lucky: bool) returns (ok: bool)
      requires Valid() && Lists(list, rows)
      modifies this`bucket, this`trace, this`rows, this`history
      ensures Valid()
      ensures rows.Keys <= old(rows).Keys && history <= old(history)
      ensures ok ==> rows == old(rows) - HalfDirs(list)
      ensures alone ==> bucket.manifests == old(bucket).manifests
      ensures alone && ok ==> HalvesDone(old(bucket), bucket, list)
      ensures lucky ==> ok
    {
      ok := true;
      assert list[..0] == [];
      for i := 0 to |list|
        invariant Valid() && ok && history <= old(history)
        invariant rows == old(rows) - HalfDirs(list[..i])
        invariant alone ==> HalvesDone(old(bucket), bucket, list[..i])
      {
        if !HalfDeleted(list[i]) { HalfDirsStep(list, i); }
        if list[i].state.ArchiveOnly? && list[i].markedAt > 0 {
          NotYet(list, i, old(rows));
          ghost var b, r := bucket, rows;
          ok := FinishDelete(list[i].dir, lucky);
          if !ok { return; }
          RowsWithout(old(rows), r, rows, list, i);
          if alone { HalvesDoneStep(old(bucket), b, bucket, list, i); }
        }
      }
      TakeAll(list);
    }

    /** Deletes what the policy no longer keeps; `newest` is not among it. */
    method DeleteExpired(expired: seq<Row>, now: int, ghost newest: Dir, lucky: bool) returns (ok: bool)
      requires Valid() && now > 0
      requires alone ==> Settled(bucket, rows, started, newest) && Waiting(expired, rows, newest)
      modifies this`bucket, this`trace, this`rows, this`history, this`started
      ensures Valid() && history <= old(history)
      ensures alone ==> NewestKept(old(bucket), bucket) && IncompleteStay(old(rows), rows)
      ensures alone && ok ==> Settled(bucket, rows, started, newest) && Removed(old(bucket), bucket, DirsOf(expired))
      ensures ok && old(started) !! old(history) ==> started !! history
      ensures alone && lucky ==> ok
      ensures alone ==> LosesOnly(old(bucket), bucket, DirsOf(expired))
    {
      ok := true;
      if alone { NewestKeptSame(bucket, bucket); }
      for i := 0 to |expired|
        invariant Valid() && ok && history <= old(history)
        invariant alone ==> Settled(bucket, rows, started, newest) && Waiting(expired[i..], rows, newest)
        invariant alone ==> NewestKept(old(bucket), bucket) && IncompleteStay(old(rows), rows)
        invariant alone ==>
          Removed(old(bucket), bucket, DirsOf(expired[..i])) && LosesOnly(old(bucket), bucket, DirsOf(expired))
        invariant old(started) !! old(history) ==> started !! history
      {
        ghost var b, r, st := bucket, rows, started;
        assert expired[i..][0] == expired[i] && expired[i..][1..] == expired[i + 1..];
        ghost var read;
        ok, read := DeleteBackup(expired[i], now, newest, lucky);
        if alone {
          NewestKeptTransitive(old(bucket), b, bucket);
          IncompleteStayStep(old(rows), r, rows, expired[i]);
          LosesOnlyStep(old(bucket), b, bucket, expired, i);
          if ok {
            SettledAfterDelete(st, b, r, started, bucket, rows, expired[i].dir, newest);
            WaitingStep(expired[i..], r, rows, newest);
            RemovedStep(old(bucket), b, bucket, expired, i);
          }
        }
        if !ok { return; }
      }
      TakeAll(expired);
    }

    /** Whether a finished, failed backup job of ours claims this folder in this store. */
    method AbandonedUpload(d: Dir, cutoff: int, lucky: bool) returns (ok: bool, ours: bool)
      ensures ok ==> ours == Abandoned(jobs, target, d, cutoff)
      ensures lucky ==> ok
    {
      var failed := Fails(lucky);
      if failed { return false, false; }
      return true, exists id | id in jobs :: Abandons(jobs[id], target, d, cutoff);
    }

    /** Removes the archive of an interrupted backup of ours, and only ours. */
    method CleanOne(b: Row, cutoff: int, lucky: bool) returns (ok: bool)
      requires Valid()
      requires alone && b.state.ArchiveOnly? && b.markedAt <= 0 ==> b.dir in rows && rows[b.dir] == b
      modifies this`bucket, this`trace, this`rows
      ensures Valid()
      ensures alone ==> bucket.manifests == old(bucket).manifests
      ensures alone && ok && Leftover(b, jobs, target, cutoff) ==>
        && rows == old(rows) - {b.dir} && bucket == old(bucket).(archives := old(bucket).archives - {b.dir})
        && b.dir !in bucket.manifests
      ensures alone && ok && !Leftover(b, jobs, target, cutoff) ==> rows == old(rows) && bucket == old(bucket)
      ensures lucky ==> ok
    {
      if !b.state.ArchiveOnly? || b.markedAt > 0 || TakenAt(b.dir) > cutoff { return true; }
      var ours;
      ok, ours := AbandonedUpload(b.dir, cutoff, lucky);
      if !ok || !ours { return; }
      ok := RemoveArchive(b.dir, lucky);
      if !ok { return; }
      ok := ForgetRow(b.dir, lucky);
    }

    method CleanAbandoned(list: seq<Row>, now: int, lucky: bool) returns (ok: bool)
      requires Valid()
      requires alone ==> Unfinished(list, rows)
      modifies this`bucket, this`trace, this`rows
      ensures Valid()
      ensures alone ==> bucket.manifests == old(bucket).manifests
      ensures alone && ok ==>
        CleanedUp(old(bucket), old(rows), bucket, rows, LeftDirs(list, jobs, target, now - Retention.DAY))
      ensures lucky ==> ok
    {
      var cutoff := now - Retention.DAY;
      ok := true;
      assert list[..0] == [];
      for i := 0 to |list|
        invariant Valid() && ok && cutoff == now - Retention.DAY
        invariant alone ==> CleanedUp(old(bucket), old(rows), bucket, rows, LeftDirs(list[..i], jobs, target, cutoff))
      {
        ghost var b, r := bucket, rows;
        if alone { NotLeftYet(list, i, old(rows), jobs, target, cutoff); }
        ok := CleanOne(list[i], cutoff, lucky);
        if !ok { return; }
        if alone { CleanedUpStep(old(bucket), old(rows), b, r, bucket, rows, list, i, jobs, target, cutoff); }
      }
      TakeAll(list);
    }

    /** Fails closed: damaged or foreign content stops retention in the folder. */
    method BlockedByForeignContent(list: seq<Row>) returns (blocked: bool)
      ensures blocked <==> exists b :: b in list && Blocks(b, us)
    {
      for i := 0 to |list|
        invariant forall j | 0 <= j < i :: !Blocks(list[j], us)
      {
        if list[i].state.Damaged? { assert Blocks(list[i], us); return true; }
        if list[i].state.Complete? && list[i].installation != us { assert Blocks(list[i], us); return true; }
      }
      return false;
    }

    /** One retention pass.  A folder with blocking content loses nothing but our own half-deletes.
        Alone, a pass that stops anywhere has removed only what the policy no longer keeps, and a
        lucky one leaves exactly what it keeps. */
    method RetainDatabase(p: Policy, now: int, lucky: bool) returns (ok: bool)
      requires Valid() && now > 0
      requires alone ==> Undamaged(rows) ==> Fresh(bucket, rows)
      modifies this`bucket, this`trace, this`rows, this`history, this`started
      ensures Valid() && history <= old(history)
      ensures (exists d :: d in old(rows) && Blocks(old(rows)[d], us)) ==> started == old(started)
      ensures alone ==> NewestKept(old(bucket), bucket) && KeepsAtLeast(old(bucket), bucket, p, now)
      ensures alone && lucky ==> ok
      ensures alone && ok && Undamaged(old(rows)) && Backed(old(history), old(rows)) ==>
        Retained(old(bucket), bucket, rows, history, started, jobs, target, p, now)
    {
      if alone {
        NewestKeptSame(bucket, bucket);
        KeepsAtLeastSame(bucket, bucket, p, now);
      }
      var failed := Fails(lucky);
      if failed { return false; }
      var list := PrefixBackups();
      ok := FinishHalfDeletes(list, lucky);
      if alone {
        NewestKeptSame(old(bucket), bucket);
        KeepsAtLeastSame(old(bucket), bucket, p, now);
      }
      if !ok { return; }
      var blocked := BlockedByForeignContent(list);
      BlocksIn(list, old(rows), us);
      if blocked {
        if alone { NeverBlocked(us, old(bucket), old(rows), old(started)); }
        return;
      }
      assert Undamaged(old(rows)) by { assert forall d | d in old(rows) :: !Blocks(old(rows)[d], us); }
      ok := Expire(list, p, now, old(bucket), old(rows), old(history), lucky);
    }

    /** The rest of the pass over a folder that nothing blocks, its half-deletes finished; b0, rows0
        and history0 are as the pass found them. */
    method Expire(list: seq<Row>, p: Policy, now: int, ghost b0: Bucket, ghost rows0: map<Dir, Row>,
                  ghost history0: set<Dir>, lucky: bool)
      returns (ok: bool)
      requires Valid() && now > 0 && Lists(list, rows0) && WellKeyed(rows0) && history <= history0
      requires rows == rows0 - HalfDirs(list)
      requires alone ==> Quiet(us, b0, rows0, started) && Fresh(b0, rows0) && HalvesDone(b0, bucket, list)
      modifies this`bucket, this`trace, this`rows, this`history, this`started
      ensures Valid() && history <= old(history)
      ensures alone ==> NewestKept(b0, bucket) && KeepsAtLeast(b0, bucket, p, now)
      ensures alone && lucky ==> ok
      ensures alone && ok && Backed(history0, rows0) ==>
        Retained(b0, bucket, rows, history, started, jobs, target, p, now)
    {
      ok := DeleteUnkept(list, p, now, b0, rows0, history0, lucky);
      if !ok { return; }
      ghost var b2 := bucket;
      ok := CleanLast(list, p, now, b0, rows0, lucky);
      if alone {
        NewestKeptSame(b2, bucket);
        NewestKeptTransitive(b0, b2, bucket);
      }
    }

    method CleanLast(list: seq<Row>, p: Policy, now: int, ghost b0: Bucket, ghost rows0: map<Dir, Row>, lucky: bool)
      returns (ok: bool)
      requires Valid() && Lists(list, rows0) && WellKeyed(rows0)
      requires alone ==> Fresh(b0, rows0) && b0.manifests.Keys <= b0.archives && Unfinished(list, rows)
      requires alone ==> KeepsAtLeast(b0, bucket, p, now)
      requires alone ==> Settled(bucket, rows, started, NewestOf(list)) && ExpiredGone(b0, bucket, list, p, now)
      modifies this`bucket, this`trace, this`rows
      ensures Valid() && (lucky ==> ok)
      ensures alone ==> bucket.manifests == old(bucket).manifests && KeepsAtLeast(b0, bucket, p, now)
      ensures alone && ok && started !! history ==> Retained(b0, bucket, rows, history, started, jobs, target, p, now)
    {
      ok := CleanAbandoned(list, now, lucky);
      assert alone ==> KeepsAtLeast(b0, bucket, p, now) by { assert alone ==> Seconds(bucket) == Seconds(old(bucket)); }
      if alone && ok && started !! history {
        FinallyRetained(b0, rows0, list, old(bucket), old(rows), bucket, rows, history, started, jobs, target, p, now,
                        NewestOf(list));
      }
    }

    method DeleteUnkept(list: seq<Row>, p: Policy, now: int, ghost b0: Bucket, ghost rows0: map<Dir, Row>,
                        ghost history0: set<Dir>, lucky: bool)
      returns (ok: bool)
      requires Valid() && now > 0 && Lists(list, rows0) && WellKeyed(rows0) && history <= history0
      requires rows == rows0 - HalfDirs(list)
      requires alone ==> Quiet(us, b0, rows0, started) && Fresh(b0, rows0) && HalvesDone(b0, bucket, list)
      modifies this`bucket, this`trace, this`rows, this`history, this`started
      ensures Valid() && history <= old(history)
      ensures alone ==> NewestKept(b0, bucket) && KeepsAtLeast(b0, bucket, p, now) && Unfinished(list, rows)
      ensures alone && lucky ==> ok
      ensures alone && ok ==> Settled(bucket, rows, started, NewestOf(list)) && ExpiredGone(b0, bucket, list, p, now)
      ensures alone && ok && Backed(history0, rows0) ==> started !! history
    {
      ListIsSorted(list, rows0);
      var expired := Retention.SelectExpired(list, p, now);
      if alone {
        NewestKeptSame(b0, bucket);
        SettledToStart(us, b0, rows0, started, list, bucket, rows, history0, p, now);
      }
      ok := DeleteExpired(expired, now, NewestOf(list), lucky);
      if alone {
        NewestKeptTransitive(b0, old(bucket), bucket);
        LosingExpiredKeeps(b0, rows0, list, old(bucket), bucket, p, now);
        StillUnfinished(list, rows0, old(rows), rows);
      }
    }

    // ----- reconciliation -----

    method ListBackups(lucky: bool) returns (ok: bool, entries: seq<Entry>)
      modifies this`bucket
      ensures DistinctDirs(entries) && Sane(AsMap(entries))
      ensures alone ==> bucket == old(bucket)
      ensures alone && ok ==> AsMap(entries) == Listing(bucket)
      ensures lucky ==> ok
    {
      Disturb();
      entries := [];
      var failed := Fails(lucky);
      if failed { return false, []; }
      ok := true;
      entries := EntriesOf(bucket);
    }

    /** The manifests as they read during a pass; alone, some reads may still fail. */
    method ReadManifests(lucky: bool) returns (read: map<Dir, Manifest>, clean: bool)
      ensures alone ==> forall d | d in read :: d in bucket.manifests && read[d] == bucket.manifests[d]
      ensures alone && clean ==> read.Keys == bucket.manifests.Keys
      ensures alone && lucky ==> clean
    {
      clean := false;
      if alone {
        var unread: set<Dir> := {};
        if !lucky { unread := *; }
        read, clean := bucket.manifests - unread, bucket.manifests.Keys !! unread;
      } else {
        read := *;
      }
    }

    /** The reading half of a pass: nothing is written. */
    method Look(lucky: bool)
      returns (ok: bool, clean: bool, found: map<Dir, Row>, c: Counters,
               ghost listing: map<Dir, Entry>, ghost read: map<Dir, Manifest>)
      modifies this`bucket
      ensures alone ==> bucket == old(bucket)
      ensures ok ==> Sane(listing) && found == FromMemory(listing, rows, read) && Describes(c, found)
      ensures alone && ok ==>
        listing == Listing(bucket) && forall d | d in read :: d in bucket.manifests && read[d] == bucket.manifests[d]
      ensures alone && ok && clean ==> read.Keys == bucket.manifests.Keys
      ensures lucky ==> ok && (alone ==> clean)
    {
      clean, found, c, listing, read := false, map[], Counters(0, 0, 0, 0, false), map[], map[];
      var entries, manifests;
      ok, entries := ListBackups(lucky);
      if !ok { return; }
      manifests, clean := ReadManifests(lucky);
      found, c := Describe(entries, rows, manifests);
      listing, read := AsMap(entries), manifests;
    }

    /** One folder as a complete listing found it.  A failed listing, or one that
        cannot be stored, changes no row.  `clean` says every manifest could be read. */
    method ReconcilePrefix(lucky: bool) returns (ok: bool, clean: bool)
      requires Valid()
      modifies this`bucket, this`rows, this`counters, this`trace
      ensures Valid()
      ensures !ok ==> rows == old(rows) && counters == old(counters)
      ensures OnlyLooked(old(trace), trace) && (lucky ==> ok)
      ensures ok ==> Describes(counters, rows)
      ensures alone ==> bucket == old(bucket)
      ensures alone && ok ==>
        LoneListed(bucket, rows) && (Undamaged(rows) ==> Fresh(bucket, rows)) && (clean ==> Undamaged(rows))
      ensures alone && lucky ==> clean
    {
      var found, c;
      ghost var listing, read;
      ok, clean, found, c, listing, read := Look(lucky);
      if !ok { return; }
      NoteListing(listing);
      LookedAndStored(old(trace), Saw(listing));
      var failed := Fails(lucky);
      if failed { return false, clean; }
      MarksDoNotCount(c, found, rows);
      Commit(found, c, listing, read);
      LookedAndStored(old(trace), Saw(listing));
    }

    ghost method NoteListing(listing: map<Dir, Entry>)
      requires Valid()
      modifies this`trace
      ensures Valid() && trace == old(trace) + [Listed(Saw(listing))]
    {
      AuthorisedSnoc(trace, Listed(Saw(listing)), us, target);
      JustifiedSnoc(trace, Listed(Saw(listing)), us, rows);
      trace := trace + [Listed(Saw(listing))];
    }

    /** The listing is stored in one transaction. */
    method Commit(found: map<Dir, Row>, c: Counters, ghost listing: map<Dir, Entry>, ghost read: map<Dir, Manifest>)
      requires Valid() && Sane(listing) && found == FromMemory(listing, rows, read)
      requires alone ==>
        listing == Listing(bucket) && forall d | d in read :: d in bucket.manifests && read[d] == bucket.manifests[d]
      modifies this`rows, this`counters, this`trace
      ensures Valid()
      ensures counters == c && rows == WithMarks(found, old(rows)) && trace == old(trace) + [Recorded(Saw(listing))]
      ensures alone ==> LoneListed(bucket, rows) && Told(bucket, rows, read)
    {
      ghost var after, longer := AfterPass(rows, listing, read), trace + [Recorded(Saw(listing))];
      assert Sound(us, target, alone, bucket, after, started, longer) && (alone ==> Told(bucket, after, read)) by {
        RecordingSound(us, target, alone, bucket, rows, started, trace, listing, read);
      }
      assert alone ==>
        Booked(bucket, after, started, jobs, target, reconciledAt, clock) && LoneListed(bucket, after) by {
        if alone { BookedAfterRecording(us, bucket, rows, started, read, jobs, target, reconciledAt, clock); }
      }
      ReplacePrefix(found, c);
      assert rows == after;
      trace := longer;
    }

    /** Rows the listing no longer has go; the others are replaced, carrying the mark only where the
        archive stands alone. */
    method ReplacePrefix(found: map<Dir, Row>, c: Counters)
      requires forall d | d in found :: found[d].dir == d
      modifies this`rows, this`counters
      ensures rows == WithMarks(found, old(rows))
      ensures counters == c
    {
      var gone := rows.Keys - found.Keys;
      while gone != {}
        invariant gone <= old(rows).Keys - found.Keys
        invariant rows == old(rows) - (old(rows).Keys - found.Keys - gone)
        decreases gone
      {
        HasMember(gone);
        var d :| d in gone;
        rows, gone := rows - {d}, gone - {d};
      }
      assert rows.Keys <= found.Keys;
      var todo := found.Keys;
      while todo != {}
        invariant todo <= found.Keys
        invariant rows.Keys <= found.Keys && found.Keys - todo <= rows.Keys
        invariant forall d | d in found && d !in todo :: rows[d] == CarryMark(found[d], old(rows))
        invariant forall d | d in todo :: (d in rows <==> d in old(rows)) && (d in rows ==> rows[d] == old(rows)[d])
        decreases todo
      {
        HasMember(todo);
        var d :| d in todo;
        var mark := if found[d].state.ArchiveOnly? && d in rows then rows[d].markedAt else 0;
        rows, todo := rows[d := found[d].(markedAt := mark)], todo - {d};
      }
      counters := c;
    }

    /** A folder that is gone from the store keeps an empty record. */
    method Tombstone(lucky: bool) returns (ok: bool)
      requires Valid()
      requires alone ==> Folders(bucket) == {}
      modifies this`rows, this`counters, this`trace
      ensures Valid()
      ensures !ok ==> rows == old(rows) && counters == old(counters)
      ensures OnlyLooked(old(trace), trace) && (lucky ==> ok)
      ensures ok ==> rows == map[] && Describes(counters, rows)
      ensures alone && ok ==> LoneListed(bucket, rows) && Undamaged(rows) && Fresh(bucket, rows)
    {
      var failed := Fails(lucky);
      if failed { return false; }
      var none := Counters(0, 0, 0, 0, false);
      NothingToDescribe(rows);
      assert alone ==> Listing(bucket) == map[];
      Commit(map[], none, map[], map[]);
      ok := true;
    }

    /** Only a complete view may retire history rows. */
    method ForgetLostLocalBackups(lucky: bool) returns (ok: bool)
      modifies this`history
      ensures history <= old(history)
      ensures ok ==> history == set d | d in old(history) && d in rows && rows[d].state.Complete?
      ensures lucky ==> ok
    {
      var failed := Fails(lucky);
      if failed { return false; }
      history := set d | d in history && d in rows && rows[d].state.Complete?;
      ok := true;
    }

    /** List the store, then record the folder as the listing found it. */
    method View(lucky: bool) returns (ok: bool, clean: bool)
      requires Valid()
      modifies this`bucket, this`rows, this`counters, this`trace
      ensures Valid()
      ensures !ok ==> rows == old(rows) && counters == old(counters)
      ensures OnlyLooked(old(trace), trace) && (lucky ==> ok)
      ensures ok ==> Describes(counters, rows)
      ensures alone ==> bucket == old(bucket)
      ensures alone && ok ==>
        LoneListed(bucket, rows) && (Undamaged(rows) ==> Fresh(bucket, rows)) && (clean ==> Undamaged(rows))
      ensures alone && lucky ==> clean
    {
      Disturb();
      var failed := Fails(lucky);
      if failed { return false, false; }
      if Folders(bucket) == {} {
        clean := true;
        ok := Tombstone(lucky);
      } else {
        ok, clean := ReconcilePrefix(lucky);
      }
    }

    /** The store was read completely at the clock's second. */
    method SetTargetReconciled(lucky: bool) returns (ok: bool)
      requires Valid()
      requires alone ==> LoneListed(bucket, rows)
      modifies this`reconciledAt
      ensures Valid()
      ensures reconciledAt == if ok then clock else old(reconciledAt)
      ensures lucky ==> ok
    {
      var failed := Fails(lucky);
      if failed { return false; }
      if alone { BookedAt(bucket, rows, started, jobs, target, reconciledAt, clock); }
      reconciledAt := clock;
      ok := true;
    }

    /** One reconciliation: view, history, and, unless an update is in progress or the
        bucket is not protected, retention and pruning.  A store that could not be read
        completely changes nothing that decides about backups.  Alone, a lucky pass leaves
        exactly what the policy keeps, and no archive that nobody accounts for. */
    method Reconcile(p: Policy, now: int, maintenance: bool, protection: Protection, acknowledged: bool, lucky: bool)
      returns (listed: bool, clean: bool, forgot: bool, retained: bool)
      requires Valid() && now >= clock && now > 0
      modifies this
      ensures Valid() && clock == now && published == old(published)
      ensures !listed ==> rows == old(rows) && counters == old(counters) && reconciledAt == old(reconciledAt)
      ensures !listed ==> history == old(history) && jobs == old(jobs)
      ensures !listed || maintenance || !Protected(protection, acknowledged) ==>
        started == old(started) && OnlyLooked(old(trace), trace) && (alone ==> bucket == old(bucket))
      ensures !listed || maintenance ==> jobs == old(jobs)
      ensures alone ==> NewestKept(old(bucket), bucket) && KeepsAtLeast(old(bucket), bucket, p, now)
      ensures alone && lucky ==>
        listed && clean && forgot && (retained <==> !maintenance && Protected(protection, acknowledged))
      ensures alone && lucky && !maintenance && Protected(protection, acknowledged) ==>
        Retained(old(bucket), bucket, rows, history, started, old(jobs), target, p, now)
      ensures alone && lucky && !maintenance && Protected(protection, acknowledged) ==>
        forall d | d in bucket.archives && d !in bucket.manifests && TakenAt(d) <= now - Retention.DAY ::
          exists id :: StillOpen(jobs, id, target, d, now)
    {
      clock, clean, forgot, retained := now, false, false, false;
      if alone {
        NewestKeptSame(bucket, bucket);
        KeepsAtLeastSame(bucket, bucket, p, now);
      }
      listed, clean := View(lucky);
      if !listed { return; }
      var ok := SetTargetReconciled(lucky);
      if !ok { return; }
      forgot, retained := ActOnView(p, now, maintenance, protection, acknowledged, lucky);
    }

    /** What follows a complete view. */
    method ActOnView(p: Policy, now: int, maintenance: bool, protection: Protection, acknowledged: bool, lucky: bool)
      returns (forgot: bool, retained: bool)
      requires Valid() && now > 0
      requires alone ==> Undamaged(rows) ==> Fresh(bucket, rows)
      modifies this`bucket, this`trace, this`rows, this`history, this`started, this`jobs
      ensures Valid()
      ensures maintenance || !Protected(protection, acknowledged) ==>
        started == old(started) && bucket == old(bucket) && trace == old(trace) && !retained
      ensures maintenance ==> jobs == old(jobs)
      ensures alone ==> NewestKept(old(bucket), bucket) && KeepsAtLeast(old(bucket), bucket, p, now)
      ensures alone && lucky ==> forgot && (retained <==> !maintenance && Protected(protection, acknowledged))
      ensures alone && lucky && Undamaged(old(rows)) && !maintenance && Protected(protection, acknowledged) ==>
        && Retained(old(bucket), bucket, rows, history, started, old(jobs), target, p, now)
        && forall d | d in bucket.archives && d !in bucket.manifests && TakenAt(d) <= now - Retention.DAY ::
            exists id :: StillOpen(jobs, id, target, d, now)
    {
      retained := false;
      if alone {
        NewestKeptSame(bucket, bucket);
        KeepsAtLeastSame(bucket, bucket, p, now);
      }
      forgot := ForgetLostLocalBackups(lucky);
      if maintenance { return; }
      if Protected(protection, acknowledged) { retained := RetainDatabase(p, now, lucky); }
      PruneJobs(now - 90 * Retention.DAY);
      if alone && lucky && Undamaged(old(rows)) && Protected(protection, acknowledged) {
        forall d | d in bucket.archives && d !in bucket.manifests && TakenAt(d) <= now - Retention.DAY
          ensures exists id :: StillOpen(jobs, id, target, d, now)
        {
          NoArchiveLeaks(old(bucket), bucket, rows, history, started, old(jobs), jobs, target, reconciledAt, clock, p,
                         now, d);
        }
      }
    }

    /** Job history is bounded, but a job is kept while its folder may still need
        cleaning; the pattern the store uses may keep more. */
    method PruneJobs(before: int)
      requires Valid()
      modifies this`jobs
      ensures Valid()
      ensures forall id | id in jobs :: id in old(jobs) && jobs[id] == old(jobs)[id]
      ensures forall id | id in old(jobs) && id !in jobs :: Prunable(old(jobs)[id], target, rows, reconciledAt, before)
    {
      var matched: set<nat> := *;
      var pruned := (set id | id in jobs && Prunable(jobs[id], target, rows, reconciledAt, before)) - matched;
      if * { return; }
      if alone { BookedJobs(bucket, rows, started, jobs, jobs - pruned, target, reconciledAt, clock); }
      jobs := jobs - pruned;
    }

    // ----- publication -----

    method SetJob(id: nat, job: Job)
      requires Valid()
      requires id in jobs ==> !jobs[id].state.Succeeded? && (jobs[id].claim.NoClaim? || jobs[id].claim == job.claim)
      requires alone && id in jobs && job.state.Succeeded? && job.claim.Claim? ==> job.claim.dir in bucket.manifests
      requires alone ==> job.finishedAt >= reconciledAt || (job.state.Running? && job.finishedAt <= 0)
      modifies this`jobs
      ensures Valid() && jobs == old(jobs)[id := job]
    {
      if alone { BookedJobs(bucket, rows, started, jobs, jobs[id := job], target, reconciledAt, clock); }
      jobs := jobs[id := job];
    }

    method UploadArchive(d: Dir, ghost id: nat, lucky: bool) returns (ok: bool)
      requires Valid() && d.At? && d.second <= clock
      requires alone ==> id in jobs && jobs[id] == Job(Running, Claim(target, d), 0) && d !in started
      modifies this`bucket
      ensures Valid()
      ensures alone ==> bucket == old(bucket) || bucket == old(bucket).(archives := old(bucket).archives + {d})
      ensures alone && ok ==> d in bucket.archives
      ensures lucky ==> ok
    {
      Disturb();
      var effect;
      ok, effect := Attempt(lucky);
      if effect {
        assert alone ==> Accounts(jobs, id, target, d, rows, reconciledAt);
        bucket := bucket.(archives := bucket.archives + {d});
      }
      Disturb();
    }

    method UploadManifest(d: Dir, m: Manifest, lucky: bool) returns (ok: bool)
      requires Valid() && d.At? && m.sound && m.installation == us
      requires alone ==> d in bucket.archives && d !in bucket.manifests && d !in rows && d !in started
      modifies this`bucket, this`published
      ensures Valid() && (lucky ==> ok)
      ensures alone ==> bucket == old(bucket) || bucket == old(bucket).(manifests := old(bucket).manifests[d := m])
      ensures published == old(published) || published == old(published) + {d.second}
      ensures alone ==> (published == old(published) && bucket == old(bucket)) ||
                        (published == old(published) + {d.second} && bucket.manifests == old(bucket).manifests[d := m])
      ensures ok ==> d.second in published
      ensures alone && ok ==> d in bucket.manifests && bucket.manifests[d] == m
    {
      Disturb();
      var effect;
      ok, effect := Attempt(lucky);
      if effect {
        bucket := bucket.(manifests := bucket.manifests[d := m]);
        published := published + {d.second};
      }
      Disturb();
    }

    /** The archive goes first, so a manifest always has its archive. */
    method Upload(d: Dir, m: Manifest, ghost id: nat, lucky: bool) returns (ok: bool)
      requires Valid() && d.At? && d.second <= clock && m.sound && m.installation == us
      requires alone ==> id in jobs && jobs[id] == Job(Running, Claim(target, d), 0)
      requires alone ==> d !in bucket.archives && d !in rows && d !in started
      modifies this`bucket, this`published
      ensures Valid() && (lucky ==> ok)
      ensures alone ==> NewestKept(old(bucket), bucket) && Arrived(old(bucket), old(published), bucket, published, d)
      ensures ok ==> d.second in published
      ensures alone && ok ==> d in bucket.archives && d in bucket.manifests
    {
      if alone { NewestKeptSame(bucket, bucket); }
      ok := UploadArchive(d, id, lucky);
      if alone { NewestKeptSame(old(bucket), bucket); }
      if !ok { return; }
      ok := UploadManifest(d, m, lucky);
      if alone { NewestKeptGrowing(old(bucket), bucket); }
    }

    /** A backup: claim, archive, manifest, and only then the history row.  A second
        names at most one backup of a database: its folder must be new. */
    method Publish(id: nat, project: string, now: int, lucky: bool) returns (ok: bool)
      requires Valid() && id !in jobs && now >= clock && now > 0
      requires alone ==> At(now) !in bucket.archives && At(now) !in rows
      modifies this`bucket, this`jobs, this`history, this`clock, this`published, this`started
      ensures Valid() && clock >= now && started == old(started) - {At(now)} && (lucky ==> ok)
      ensures ok ==> id in jobs && jobs[id].state.Succeeded? && history == old(history) + {At(now)} && now in published
      ensures !ok ==> history == old(history)
      ensures alone ==>
        NewestKept(old(bucket), bucket) && Arrived(old(bucket), old(published), bucket, published, At(now))
      ensures alone && ok ==> At(now) in bucket.archives && At(now) in bucket.manifests && NotOlder(At(now), bucket)
    {
      var d, m := At(now), Manifest(us, project, true);
      if alone { NewestKeptSame(bucket, bucket); }
      Begin(id, d, now);
      var failed := Fails(lucky);
      if failed { FinishJob(id, NoClaim, lucky); return false; }
      SetJob(id, Job(Running, Claim(target, d), 0));
      ok := Upload(d, m, id, lucky);
      if !ok { FinishJob(id, Claim(target, d), lucky); return; }
      failed := Fails(lucky);
      if failed { return false; }
      Complete(id, d);
    }

    method Begin(id: nat, d: Dir, now: int)
      requires Valid() && id !in jobs && now >= clock && now > 0 && (alone ==> d !in bucket.archives)
      modifies this`jobs, this`clock, this`started
      ensures Valid() && clock == now && started == old(started) - {d}
      ensures jobs == old(jobs)[id := Job(Running, NoClaim, 0)]
    {
      Reopen(d);
      clock := now;
      SetJob(id, Job(Running, NoClaim, 0));
    }

    /** A folder of which nothing is left may be used again. */
    ghost method Reopen(d: Dir)
      requires Valid() && (alone ==> d !in bucket.archives)
      modifies this`started
      ensures Valid() && started == old(started) - {d}
    {
      started := started - {d};
    }

    method Complete(id: nat, d: Dir)
      requires Valid() && id in jobs && jobs[id] == Job(Running, Claim(target, d), 0)
      requires alone ==> d in bucket.manifests
      modifies this`jobs, this`clock, this`history
      ensures Valid() && clock >= old(clock) && id in jobs && jobs[id].state.Succeeded? && history == old(history) + {d}
    {
      var end := *;
      if end < clock { end := clock; }
      SetJob(id, Job(Succeeded, Claim(target, d), end));
      clock, history := end, history + {d};
    }

    /** The job failed; when even that cannot be recorded it stays running until a restart. */
    method FinishJob(id: nat, claim: Claim, lucky: bool)
      requires Valid() && id in jobs && jobs[id] == Job(Running, claim, 0)
      modifies this`jobs, this`clock
      ensures Valid() && clock >= old(clock)
    {
      var failed := Fails(lucky);
      if failed { return; }
      var end := *;
      if end < clock { end := clock; }
      clock := end;
      SetJob(id, Job(Failed, claim, end));
    }

    /** A restart turns running jobs into interrupted ones and starts nothing. */
    method Restart(now: int)
      requires Valid() && now >= clock
      modifies this`jobs, this`clock
      ensures Valid() && clock == now && jobs == Interrupt(old(jobs), now)
    {
      if alone { BookedJobs(bucket, rows, started, jobs, Interrupt(jobs, now), target, reconciledAt, clock); }
      jobs, clock := Interrupt(jobs, now), now;
    }

    /** Any number of steps in any order, from any valid state. */
    method AnyRun(steps: nat)
      requires Valid()
      modifies this
      ensures Valid()
      ensures alone ==> NewestKept(old(bucket), bucket)
    {
      if alone { NewestKeptSame(bucket, bucket); }
      for i := 0 to steps
        invariant Valid()
        invariant alone ==> NewestKept(old(bucket), bucket)
      {
        ghost var b := bucket;
        var policy: Policy := *;
        var maintenance: bool := *;
        AnyStep(policy, maintenance);
        if alone { NewestKeptTransitive(old(bucket), b, bucket); }
      }
    }

    /** A pass, a publication or a restart, with calls failing anywhere. */
    method AnyStep(p: Policy, maintenance: bool)
      requires Valid()
      modifies this
      ensures Valid() && clock >= old(clock)
      ensures alone ==>
        NewestKept(old(bucket), bucket) && Steps(old(bucket), old(published), old(clock), bucket, published, clock, p)
    {
      if alone {
        NewestKeptSame(bucket, bucket);
        KeepsAtLeastSame(bucket, bucket, p, clock);
      }
      var now: int, id: nat, project: string, protection: Protection, acknowledged: bool := *, *, *, *, *;
      if now < clock || now <= 0 { return; }
      if
      case true =>
        var listed, clean, forgot, retained := Reconcile(p, now, maintenance, protection, acknowledged, false);
      case id !in jobs && (alone ==> At(now) !in bucket.archives && At(now) !in rows) =>
        var ok := Publish(id, project, now, false);
        if alone { ArrivedNew(old(bucket), old(published), bucket, published, old(clock), now, clock, p); }
      case true =>
        Restart(now);
        if alone { KeepsAtLeastSame(old(bucket), bucket, p, now); }
    }

    /** Alone and under one policy: whatever publications, cut-off passes and restarts came before,
        a lucky pass leaves exactly what the policy keeps of every second ever published. */
    method RetentionOverRun(p: Policy, steps: nat) returns (now: int)
      requires Valid() && alone && bucket == Bucket({}, map[], {}) && published == {}
      modifies this
      ensures Valid() && Seconds(bucket) == Retention.Keep(published, p, now)
    {
      NothingTracked(bucket, clock, p);
      for i := 0 to steps
        invariant Valid() && Tracks(bucket, published, clock, p)
      {
        ghost var b, before, earlier := bucket, published, clock;
        AnyStep(p, false);
        StepTracks(b, before, earlier, bucket, published, clock, p);
      }
      now := *;
      if now < clock { now := clock; }
      if now <= 0 { now := 1; }
      TracksLater(bucket, published, clock, now, p);
      Retention.KeepSandwich(published, Seconds(bucket), p, now);
      var listed, clean, forgot, retained := Reconcile(p, now, false, VersioningOn, false, true);
    }

    /** An empty cache over an empty folder, or over any folder at all when others write too. */
    constructor (us: string, target: string, alone: bool, bucket: Bucket)
      requires us != ""
      requires alone ==> bucket == Bucket({}, map[], {})
      ensures Valid() && this.us == us && this.target == target && this.alone == alone && this.bucket == bucket
      ensures trace == [] && published == {}
    {
      this.us, this.target, this.alone, this.bucket := us, target, alone, bucket;
      rows, history, jobs, counters := map[], {}, map[], Counters(0, 0, 0, 0, false);
      reconciledAt, clock, trace, started, published := 0, 0, [], {}, {};
    }
  }

  lemma NothingToDescribe(rows: map<Dir, Row>)
    ensures Describes(Counters(0, 0, 0, 0, false), map[])
    ensures FromMemory(map[], rows, map[]) == map[] && WithMarks(map[], rows) == map[]
  {
  }

  lemma ListingAdd(entries: seq<Entry>, e: Entry)
    requires DistinctDirs(entries) && e.dir !in AsMap(entries)
    ensures DistinctDirs(entries + [e]) && AsMap(entries + [e]) == AsMap(entries)[e.dir := e]
  {
    forall i | 0 <= i < |entries| ensures entries[i].dir != e.dir { ListedAt(entries, i); }
    assert (entries + [e])[..|entries|] == entries;
  }

  lemma ListedAt(entries: seq<Entry>, i: nat)
    requires DistinctDirs(entries) && i < |entries|
    ensures entries[i].dir in AsMap(entries)
  {
    AsMapHolds(entries);
    assert entries[i] in entries;
  }
}
