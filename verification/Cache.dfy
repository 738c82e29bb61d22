/**
 The reconciled view of one database folder.  `Direct` classifies a listing and
 the manifests behind it with no memory; the reconciler instead reuses the owner
 recorded by an earlier pass.  The two agree whenever the recorded owners are
 true, which they are while manifests are written once.
 */
module Cache {
  import opened Records

  /** One folder of a complete listing, before its manifest is read. */
  datatype Entry = Entry(dir: Dir, state: RowState, size: int)

  datatype Counters = Counters(complete: nat, manifestOnly: nat, archiveOnly: nat, damaged: nat, mixed: bool)

  /** Each listed folder is named by its own entry. */
  ghost predicate Keyed(listing: map<Dir, Entry>) { forall d | d in listing :: listing[d].dir == d }

  ghost predicate DistinctDirs(entries: seq<Entry>) {
    forall i, j | 0 <= i < j < |entries| :: entries[i].dir != entries[j].dir
  }

  predicate HasManifest(e: Entry) { e.state.Complete? || e.state.ManifestOnly? }

  /** The row of an entry whose manifest reads as m; an unreadable or unsound manifest is damage. */
  function Classify(e: Entry, manifests: map<Dir, Manifest>): Row {
    if !HasManifest(e) then Row(e.dir, e.state, "", "", e.size, 0)
    else if e.dir in manifests && manifests[e.dir].sound then
      Row(e.dir, e.state, manifests[e.dir].installation, manifests[e.dir].project, e.size, 0)
    else Row(e.dir, Damaged, "", "", e.size, 0)
  }

  /** Deletion intent survives only while the listing still shows the archive alone. */
  function CarryMark(r: Row, previous: map<Dir, Row>): Row {
    if r.state.ArchiveOnly? && r.dir in previous then r.(markedAt := previous[r.dir].markedAt) else r.(markedAt := 0)
  }

  /** The whole folder as one complete listing and its manifests describe it. */
  function Direct(listing: map<Dir, Entry>, manifests: map<Dir, Manifest>, previous: map<Dir, Row>): map<Dir, Row> {
    map d | d in listing :: CarryMark(Classify(listing[d], manifests), previous)
  }

  /** The row the reconciler builds: an owner it recorded before is not read again. */
  function Remembered(e: Entry, known: map<Dir, Row>, manifests: map<Dir, Manifest>): Row {
    if HasManifest(e) && e.dir in known && known[e.dir].installation != "" then
      Row(e.dir, e.state, known[e.dir].installation, known[e.dir].project, e.size, 0)
    else Classify(e, manifests)
  }

  function FromMemory(listing: map<Dir, Entry>, known: map<Dir, Row>, manifests: map<Dir, Manifest>): map<Dir, Row> {
    map d | d in listing :: Remembered(listing[d], known, manifests)
  }

  function OwnerKey(r: Row): string { r.installation + "|" + r.project }

  function InState(rows: map<Dir, Row>, s: RowState): set<Dir> { set d | d in rows && rows[d].state == s }

  ghost predicate Counted(c: Counters, rows: map<Dir, Row>) {
    && c.complete == |InState(rows, Complete)|
    && c.manifestOnly == |InState(rows, ManifestOnly)|
    && c.archiveOnly == |InState(rows, ArchiveOnly)|
    && c.damaged == |InState(rows, Damaged)|
  }

  /** Two complete backups carry different owner keys. */
  ghost predicate Mixed(rows: map<Dir, Row>) {
    exists a, b ::
      && a in rows && b in rows && rows[a].state.Complete? && rows[b].state.Complete?
      && OwnerKey(rows[a]) != OwnerKey(rows[b])
  }

  /** What bucket_prefixes says about a folder. */
  ghost predicate Describes(c: Counters, rows: map<Dir, Row>) { Counted(c, rows) && (c.mixed <==> Mixed(rows)) }

  /** A recorded owner is the one the manifest names, if the manifest is still there. */
  ghost predicate Truthful(rows: map<Dir, Row>, manifests: map<Dir, Manifest>) {
    forall d | d in rows && rows[d].installation != "" && d in manifests ::
      manifests[d].sound && manifests[d].installation == rows[d].installation && manifests[d].project == rows[d].project
  }

  // ----- the listing as a map, in any order -----

  function AsMap(entries: seq<Entry>): map<Dir, Entry> {
    if entries == [] then map[]
    else AsMap(entries[..|entries| - 1])[entries[|entries| - 1].dir := entries[|entries| - 1]]
  }

  lemma {:induction false} AsMapHolds(entries: seq<Entry>)
    requires DistinctDirs(entries)
    ensures Keyed(AsMap(entries))
    ensures forall d :: d in AsMap(entries) <==> exists e :: e in entries && e.dir == d
    ensures forall e | e in entries :: AsMap(entries)[e.dir] == e
  {
    if entries != [] {
      var init, last := entries[..|entries| - 1], entries[|entries| - 1];
      AsMapHolds(init);
      assert forall e :: e in entries <==> e in init || e == last;
    }
  }

  /** The view does not depend on the order of the listing. */
  lemma OrderDoesNotMatter(a: seq<Entry>, b: seq<Entry>)
    requires DistinctDirs(a) && DistinctDirs(b) && forall e :: e in a <==> e in b
    ensures AsMap(a) == AsMap(b)
  {
    AsMapHolds(a);
    AsMapHolds(b);
    var ma, mb := AsMap(a), AsMap(b);
    forall d ensures d in ma <==> d in mb {}
    forall d | d in ma ensures ma[d] == mb[d] { assert ma[d] in a by { var e :| e in a && e.dir == d; } }
  }

  // ----- counting -----

  function Bump(c: Counters, s: RowState): Counters {
    match s
    case Complete => c.(complete := c.complete + 1)
    case ManifestOnly => c.(manifestOnly := c.manifestOnly + 1)
    case ArchiveOnly => c.(archiveOnly := c.archiveOnly + 1)
    case Damaged => c.(damaged := c.damaged + 1)
  }

  lemma InStateAdd(rows: map<Dir, Row>, d: Dir, r: Row, s: RowState)
    requires d !in rows
    ensures InState(rows[d := r], s) == InState(rows, s) + if r.state == s then {d} else {}
    ensures |InState(rows[d := r], s)| == |InState(rows, s)| + if r.state == s then 1 else 0
  {
  }

  lemma CountedAdd(c: Counters, rows: map<Dir, Row>, d: Dir, r: Row)
    requires d !in rows && Counted(c, rows)
    ensures Counted(Bump(c, r.state), rows[d := r])
  {
    InStateAdd(rows, d, r, Complete);
    InStateAdd(rows, d, r, ManifestOnly);
    InStateAdd(rows, d, r, ArchiveOnly);
    InStateAdd(rows, d, r, Damaged);
  }

  ghost predicate Owns(rows: map<Dir, Row>, owner: string) {
    exists d :: d in rows && rows[d].state.Complete? && OwnerKey(rows[d]) == owner
  }

  /** The owner keys of the complete rows. */
  ghost predicate AreOwners(owners: set<string>, rows: map<Dir, Row>) { forall o :: o in owners <==> Owns(rows, o) }

  lemma OwnersAdd(owners: set<string>, rows: map<Dir, Row>, d: Dir, r: Row)
    requires d !in rows && AreOwners(owners, rows)
    ensures AreOwners(if r.state.Complete? then owners + {OwnerKey(r)} else owners, rows[d := r])
  {
    var more := rows[d := r];
    forall o ensures Owns(more, o) <==> Owns(rows, o) || (r.state.Complete? && OwnerKey(r) == o) {
      if r.state.Complete? && OwnerKey(r) == o {
        assert d in more && more[d].state.Complete? && OwnerKey(more[d]) == o;
      }
      if Owns(rows, o) {
        var x :| x in rows && rows[x].state.Complete? && OwnerKey(rows[x]) == o;
        assert x in more && more[x].state.Complete? && OwnerKey(more[x]) == o;
      }
      if Owns(more, o) {
        var x :| x in more && more[x].state.Complete? && OwnerKey(more[x]) == o;
        assert x == d || (x in rows && rows[x].state.Complete? && OwnerKey(rows[x]) == o);
      }
    }
  }

  lemma SizeOverOne<T>(s: set<T>)
    ensures |s| > 1 <==> exists x, y :: x in s && y in s && x != y
  {
    if |s| > 1 {
      var x := Pick(s);
      assert s - {x} == {} ==> s == {x};
      var y := Pick(s - {x});
      assert x in s && y in s && x != y;
    }
    if x, y :| x in s && y in s && x != y {
      assert s == {x, y} + (s - {x, y});
    }
  }

  lemma MixedMeans(owners: set<string>, rows: map<Dir, Row>)
    requires AreOwners(owners, rows)
    ensures |owners| > 1 <==> Mixed(rows)
  {
    SizeOverOne(owners);
    if x, y :| x in owners && y in owners && x != y {
      assert Owns(rows, x) && Owns(rows, y);
    }
    if a, b :| a in rows && b in rows && rows[a].state.Complete? && rows[b].state.Complete? &&
                 OwnerKey(rows[a]) != OwnerKey(rows[b]) {
      assert Owns(rows, OwnerKey(rows[a])) && Owns(rows, OwnerKey(rows[b]));
    }
  }

  /** The body of the loop: reuse a recorded owner, else read and check the manifest. */
  method RowFor(e: Entry, known: map<Dir, Row>, manifests: map<Dir, Manifest>) returns (b: Row)
    ensures b == Remembered(e, known, manifests)
  {
    b := Row(e.dir, e.state, "", "", e.size, 0);
    if e.state.Complete? || e.state.ManifestOnly? {
      if e.dir in known && known[e.dir].installation != "" {
        b := b.(installation := known[e.dir].installation, project := known[e.dir].project);
      } else if e.dir in manifests {
        if !manifests[e.dir].sound {
          b := b.(state := Damaged);
        } else {
          b := b.(installation := manifests[e.dir].installation, project := manifests[e.dir].project);
        }
      } else {
        b := b.(state := Damaged);
      }
    }
  }

  /** reconcilePrefix: one pass over the listing builds the rows and their summary. */
  method Describe(entries: seq<Entry>, known: map<Dir, Row>, manifests: map<Dir, Manifest>)
    returns (rows: map<Dir, Row>, c: Counters)
    requires DistinctDirs(entries)
    ensures rows == FromMemory(AsMap(entries), known, manifests)
    ensures Describes(c, rows)
  {
    rows, c := map[], Counters(0, 0, 0, 0, false);
    var owners: set<string> := {};
    for i := 0 to |entries|
      invariant rows == FromMemory(AsMap(entries[..i]), known, manifests)
      invariant Counted(c, rows) && AreOwners(owners, rows)
    {
      var e := entries[i];
      var b := RowFor(e, known, manifests);
      NotYetListed(entries, i);
      MemoryAdd(AsMap(entries[..i]), e, known, manifests);
      CountedAdd(c, rows, e.dir, b);
      OwnersAdd(owners, rows, e.dir, b);
      c := Bump(c, b.state);
      if b.state.Complete? { owners := owners + {OwnerKey(b)}; }
      rows := rows[e.dir := b];
    }
    TakeAll(entries);
    c := c.(mixed := |owners| > 1);
    MixedMeans(owners, rows);
  }

  lemma NotYetListed(entries: seq<Entry>, i: nat)
    requires i < |entries| && DistinctDirs(entries)
    ensures entries[i].dir !in AsMap(entries[..i])
    ensures AsMap(entries[..i + 1]) == AsMap(entries[..i])[entries[i].dir := entries[i]]
  {
    AsMapHolds(entries[..i]);
    assert entries[..i + 1][..i] == entries[..i];
  }

  lemma MemoryAdd(listing: map<Dir, Entry>, e: Entry, known: map<Dir, Row>, manifests: map<Dir, Manifest>)
    ensures FromMemory(listing[e.dir := e], known, manifests) ==
      FromMemory(listing, known, manifests)[e.dir := Remembered(e, known, manifests)]
  {
  }

  // ----- the cache refines the bucket -----

  /** The stored rows after a pass: what the loop built, with ReplacePrefix's rule for the marks. */
  function AfterPass(rows: map<Dir, Row>, listing: map<Dir, Entry>, manifests: map<Dir, Manifest>): map<Dir, Row> {
    WithMarks(FromMemory(listing, rows, manifests), rows)
  }

  function WithMarks(found: map<Dir, Row>, previous: map<Dir, Row>): map<Dir, Row> {
    map d | d in found :: CarryMark(found[d], previous)
  }

  /** The summary of a folder does not depend on the deletion marks. */
  lemma MarksDoNotCount(c: Counters, found: map<Dir, Row>, previous: map<Dir, Row>)
    requires Describes(c, found)
    ensures Describes(c, WithMarks(found, previous))
  {
    var rows := WithMarks(found, previous);
    SameStates(rows, found, Complete);
    SameStates(rows, found, ManifestOnly);
    SameStates(rows, found, ArchiveOnly);
    SameStates(rows, found, Damaged);
    SameMixed(rows, found);
  }

  lemma SameStates(a: map<Dir, Row>, b: map<Dir, Row>, s: RowState)
    requires a.Keys == b.Keys && forall d | d in a :: a[d].state == b[d].state
    ensures InState(a, s) == InState(b, s)
  {
  }

  lemma SameMixed(a: map<Dir, Row>, b: map<Dir, Row>)
    requires a.Keys == b.Keys
    requires forall d | d in a ::
      a[d].state == b[d].state && a[d].installation == b[d].installation && a[d].project == b[d].project
    ensures Mixed(a) <==> Mixed(b)
  {
    assert forall d | d in a :: OwnerKey(a[d]) == OwnerKey(b[d]);
  }

  /** With true memories a pass gives the direct classification, and its memories are true. */
  lemma PassIsDirect(rows: map<Dir, Row>, listing: map<Dir, Entry>, manifests: map<Dir, Manifest>)
    requires Keyed(listing) && Truthful(rows, manifests)
    requires forall d | d in listing && HasManifest(listing[d]) :: d in manifests
    ensures AfterPass(rows, listing, manifests) == Direct(listing, manifests, rows)
    ensures Truthful(AfterPass(rows, listing, manifests), manifests)
  {
    forall d | d in listing ensures Remembered(listing[d], rows, manifests) == Classify(listing[d], manifests) {}
  }

  /** One pass: a complete listing, and the manifests that could be read during it. */
  datatype Pass = Pass(listing: map<Dir, Entry>, read: map<Dir, Manifest>)

  function AfterPasses(run: seq<Pass>): map<Dir, Row> {
    if run == [] then map[]
    else AfterPass(AfterPasses(run[..|run| - 1]), run[|run| - 1].listing, run[|run| - 1].read)
  }

  /** `written` is every manifest ever written, each once: what a pass reads is what was written. */
  ghost predicate ReadsWritten(p: Pass, written: map<Dir, Manifest>) {
    Keyed(p.listing) && forall d | d in p.read :: d in written && p.read[d] == written[d]
  }

  /** The folders whose manifest has been read: by this pass, or by an earlier one that left an owner
      to remember, with the manifest listed by every pass since. */
  function KnownAfter(before: set<Dir>, p: Pass, written: map<Dir, Manifest>): set<Dir> {
    set d | d in p.listing && HasManifest(p.listing[d]) &&
            (d in p.read || (d in before && d in written && written[d].installation != ""))
  }

  function Known(run: seq<Pass>, written: map<Dir, Manifest>): set<Dir> {
    if run == [] then {} else KnownAfter(Known(run[..|run| - 1], written), run[|run| - 1], written)
  }

  function Restrict(written: map<Dir, Manifest>, dirs: set<Dir>): map<Dir, Manifest> {
    map d | d in dirs && d in written :: written[d]
  }

  /** A row remembers exactly the owners the known manifests name. */
  ghost predicate Remembers(rows: map<Dir, Row>, written: map<Dir, Manifest>, known: set<Dir>) {
    && (forall d | d in rows && rows[d].installation != "" ::
          d in known && d in written && Owner(rows[d], written[d]))
    && (forall d | d in known && d in written && written[d].sound && written[d].installation != "" ::
          d in rows && rows[d].installation != "")
  }

  predicate Owner(r: Row, m: Manifest) { m.sound && m.installation == r.installation && m.project == r.project }

  lemma OneRow(e: Entry, rows: map<Dir, Row>, before: set<Dir>, p: Pass, written: map<Dir, Manifest>)
    requires Remembers(rows, written, before) && ReadsWritten(p, written)
    requires e.dir in p.listing && p.listing[e.dir] == e
    ensures Remembered(e, rows, p.read) == Classify(e, Restrict(written, KnownAfter(before, p, written)))
  {
    var d, known := e.dir, KnownAfter(before, p, written);
    if HasManifest(e) {
      assert d in known <==> d in p.read || (d in before && d in written && written[d].installation != "");
      assert d in known ==> Restrict(written, known)[d] == written[d];
    }
  }

  /** What is classified by known manifests remembers exactly those. */
  lemma DirectRemembers(listing: map<Dir, Entry>, written: map<Dir, Manifest>, known: set<Dir>, rows: map<Dir, Row>)
    requires Keyed(listing) && forall d | d in known :: d in listing && HasManifest(listing[d])
    ensures Remembers(Direct(listing, Restrict(written, known), rows), written, known)
  {
    var after := Direct(listing, Restrict(written, known), rows);
    forall d | d in listing
      ensures after[d].installation != "" ==> d in known && d in written && Owner(after[d], written[d])
      ensures d in known && d in written && written[d].sound ==> after[d].installation == written[d].installation
    {
      assert after[d] == CarryMark(Classify(listing[d], Restrict(written, known)), rows);
    }
  }

  /** A pass classifies by the manifests known after it. */
  lemma PassRefines(rows: map<Dir, Row>, before: set<Dir>, p: Pass, written: map<Dir, Manifest>)
    requires Remembers(rows, written, before) && ReadsWritten(p, written)
    ensures AfterPass(rows, p.listing, p.read) ==
      Direct(p.listing, Restrict(written, KnownAfter(before, p, written)), rows)
  {
    var known := Restrict(written, KnownAfter(before, p, written));
    forall d | d in p.listing ensures Remembered(p.listing[d], rows, p.read) == Classify(p.listing[d], known) {
      OneRow(p.listing[d], rows, before, p, written);
    }
  }

  /** Folders come and go between the passes of a run, and any manifest may be unreadable in any pass.
      After any number of passes from an empty cache the rows are the direct classification of the last
      listing by the manifests known then. */
  lemma {:induction false} CacheRefinesBucket(run: seq<Pass>, written: map<Dir, Manifest>)
    requires forall p | p in run :: ReadsWritten(p, written)
    ensures Remembers(AfterPasses(run), written, Known(run, written))
    ensures run != [] ==>
      var known := Restrict(written, Known(run, written));
      AfterPasses(run) == Direct(run[|run| - 1].listing, known, AfterPasses(run[..|run| - 1]))
  {
    if run != [] {
      var init, last := run[..|run| - 1], run[|run| - 1];
      assert last in run && forall p | p in init :: p in run;
      CacheRefinesBucket(init, written);
      PassRefines(AfterPasses(init), Known(init, written), last, written);
      DirectRemembers(last.listing, written, Known(run, written), AfterPasses(init));
    }
  }

  /** So with every listed manifest known the rows are the direct classification by all manifests. */
  lemma KnownIsEnough(run: seq<Pass>, written: map<Dir, Manifest>)
    requires run != [] && forall p | p in run :: ReadsWritten(p, written)
    requires var listing := run[|run| - 1].listing;
      forall d | d in listing && HasManifest(listing[d]) :: d in Known(run, written)
    ensures AfterPasses(run) == Direct(run[|run| - 1].listing, written, AfterPasses(run[..|run| - 1]))
  {
    CacheRefinesBucket(run, written);
    var listing, known := run[|run| - 1].listing, Known(run, written);
    assert run[|run| - 1] in run;
    assert Keyed(listing);
    forall d | d in listing ensures Classify(listing[d], Restrict(written, known)) == Classify(listing[d], written) {
      assert listing[d].dir == d;
    }
  }

  // ----- what the mixed flag can miss -----

  /** The joined keys of different owners are equal exactly when one installation
      id runs past a bar into the other owner's text. */
  ghost predicate RunsInto(a: string, b: string, c: string, d: string) {
    exists t :: c == a + "|" + t && b == t + "|" + d
  }

  lemma JoinedKeysCollide(a: string, b: string, c: string, d: string)
    ensures a + "|" + b == c + "|" + d <==> (a == c && b == d) || RunsInto(a, b, c, d) || RunsInto(c, d, a, b)
  {
    if a + "|" + b == c + "|" + d {
      var s := a + "|" + b;
      assert a == s[..|a|] && c == s[..|c|] && b == s[|a| + 1..] && d == s[|c| + 1..];
      if |a| < |c| {
        var t := s[|a| + 1..|c|];
        assert c == a + "|" + t && b == t + "|" + d by { assert s[|a|] == '|' && s[|c|] == '|'; }
      } else if |c| < |a| {
        var t := s[|c| + 1..|a|];
        assert a == c + "|" + t && d == t + "|" + b by { assert s[|a|] == '|' && s[|c|] == '|'; }
      }
    }
    if RunsInto(a, b, c, d) { var t :| c == a + "|" + t && b == t + "|" + d; assert a + "|" + b == c + "|" + d; }
    if RunsInto(c, d, a, b) { var t :| a == c + "|" + t && d == t + "|" + b; assert a + "|" + b == c + "|" + d; }
  }

  ghost predicate TwoOwners(rows: map<Dir, Row>) {
    exists a, b :: a in rows && b in rows && DifferentOwners(rows[a], rows[b])
  }

  predicate DifferentOwners(a: Row, b: Row) {
    a.state.Complete? && b.state.Complete? && (a.installation != b.installation || a.project != b.project)
  }

  /** Their joined keys are the same text. */
  ghost predicate Confused(a: Row, b: Row) {
    || RunsInto(a.installation, a.project, b.installation, b.project)
    || RunsInto(b.installation, b.project, a.installation, a.project)
  }

  ghost predicate ToldApart(rows: map<Dir, Row>, a: Dir, b: Dir) {
    a in rows && b in rows && DifferentOwners(rows[a], rows[b]) && !Confused(rows[a], rows[b])
  }

  lemma KeysTellApart(a: Row, b: Row)
    requires a.state.Complete? && b.state.Complete?
    ensures OwnerKey(a) != OwnerKey(b) <==> DifferentOwners(a, b) && !Confused(a, b)
  {
    JoinedKeysCollide(a.installation, a.project, b.installation, b.project);
    if a.installation == b.installation && RunsInto(a.installation, a.project, b.installation, b.project) {
      Longer(a, b);
    }
    if a.installation == b.installation && RunsInto(b.installation, b.project, a.installation, a.project) {
      Longer(b, a);
    }
  }

  lemma Longer(a: Row, b: Row)
    requires RunsInto(a.installation, a.project, b.installation, b.project)
    ensures |b.installation| > |a.installation|
  {
    var t :| b.installation == a.installation + "|" + t && a.project == t + "|" + b.project;
  }

  /** The flag says exactly: two complete backups have different owners whose joined keys differ. */
  lemma MixedIsToldApart(rows: map<Dir, Row>)
    ensures Mixed(rows) <==> exists a, b :: ToldApart(rows, a, b)
  {
    if Mixed(rows) {
      var a, b :| a in rows && b in rows && rows[a].state.Complete? && rows[b].state.Complete? &&
        OwnerKey(rows[a]) != OwnerKey(rows[b]);
      KeysTellApart(rows[a], rows[b]);
      assert ToldApart(rows, a, b);
    }
    if a, b :| ToldApart(rows, a, b) { KeysTellApart(rows[a], rows[b]); }
  }

  /** It never invents a second owner, and it misses one exactly when every two different owners
      are confused. */
  lemma MixedMisses(rows: map<Dir, Row>)
    ensures Mixed(rows) ==> TwoOwners(rows)
    ensures (TwoOwners(rows) && !Mixed(rows)) <==>
      (&& TwoOwners(rows)
       && forall a, b | a in rows && b in rows && DifferentOwners(rows[a], rows[b]) :: Confused(rows[a], rows[b]))
  {
    MixedIsToldApart(rows);
    if a, b :| ToldApart(rows, a, b) { assert DifferentOwners(rows[a], rows[b]); }
    if a, b :| a in rows && b in rows && DifferentOwners(rows[a], rows[b]) && !Confused(rows[a], rows[b]) {
      assert ToldApart(rows, a, b);
    }
  }

  /** With installation ids that hold no bar the flag says "two owners". */
  lemma MixedIsTwoOwners(rows: map<Dir, Row>)
    requires forall d | d in rows :: '|' !in rows[d].installation
    ensures Mixed(rows) <==> TwoOwners(rows)
  {
    MixedMisses(rows);
    assert forall a, b | a in rows && b in rows :: !Confused(rows[a], rows[b]);
  }

  /** In general it can miss them. */
  lemma MixedCanMissTwoOwners() returns (rows: map<Dir, Row>)
    ensures TwoOwners(rows) && !Mixed(rows)
  {
    rows := map[At(0) := Row(At(0), Complete, "a", "b|c", 0, 0), At(1) := Row(At(1), Complete, "a|b", "c", 0, 0)];
    assert OwnerKey(rows[At(0)]) == "a|b|c" == OwnerKey(rows[At(1)]);
    assert rows[At(0)].installation == "a" != "a|b" == rows[At(1)].installation;
    assert DifferentOwners(rows[At(0)], rows[At(1)]);
  }
}
