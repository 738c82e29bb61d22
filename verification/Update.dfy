/**
 The host update and its rollback.  The process may raise at any call, with or
 without the call's effect, and may die between any two; what outlives it are the
 files of the installation directory, management storage, its snapshot and the
 update-rollback directory.  While the application runs it keeps writing storage,
 so storage is the sequence of writes made to it, each of them once.
 */
module Update {
  import Records

  type Release = nat

  /** A configuration file; `generation` is the session generation in config/install.json,
      `release` the installed release in state.json. */
  datatype Content = Content(body: string, generation: nat, release: Release)

  /** One write of the application to its storage; no two writes have the same id. */
  datatype Write = Write(release: Release, id: nat)

  datatype Snapshot = NoSnapshot | Snapshot(history: seq<Write>, sound: bool)

  datatype Meta = NoMeta | Meta(from: Release)

  datatype App = Stopped | Running(release: Release)

  datatype Ended = Finished | Raised | Died

  /** How the removal of meta.json goes: cleanly, or cut off by an exception or a death, before or
      after it took effect. */
  datatype Unlink = Clean | RaisedBefore | RaisedAfter | DiedBefore | DiedAfter {
    predicate TookEffect() { Clean? || RaisedAfter? || DiedAfter? }

    function Ending(): (e: Ended)
      ensures (e.Finished? <==> this == Clean) && (e.Raised? <==> RaisedBefore? || RaisedAfter?)
    {
      if Clean? then Finished else if RaisedBefore? || RaisedAfter? then Raised else Died
    }
  }

  /** The files of the installation directory, relative to it: state.json, compose.env,
      config/install.json, config/caddy/Caddyfile, config/pg/pg_hba.conf, pgfyctl, and the rest. */
  datatype Path = StateJson | ComposeEnv | InstallJson | Caddyfile | PgHba | Pgfyctl | Other(name: string)

  /** What an update saves first. */
  const UPDATE_FILES: set<Path> := {StateJson, ComposeEnv, InstallJson, Caddyfile, PgHba, Pgfyctl}

  predicate Tracked(p: Path) { !p.Other? }

  ghost predicate HasAll(m: map<Path, Content>) { forall p: Path | Tracked(p) :: p in m }

  /** How far an update got, for the proof: the protocol itself only has the files. */
  datatype Stage = Idle | Preparing | Applying | Undone | Committed

  /** What an update started from: the files, storage and release. */
  datatype Origin = Origin(files: map<Path, Content>, store: seq<Write>, release: Release)

  /** Every file is as it was, apart from a fresh generation. */
  ghost predicate Restored(files: map<Path, Content>, o: Origin) {
    && files.Keys == o.files.Keys
    && (forall p | p in files :: files[p] == o.files[p].(generation := files[p].generation))
    && (forall p | p in files && p != InstallJson :: files[p] == o.files[p])
  }

  /** Storage is as it was, with at most further writes of the old release. */
  ghost predicate OldStore(store: seq<Write>, o: Origin) { Grown(o.store, store, o.release) }

  /** Nothing went, and what came are new writes of this release, with ids from `since` on. */
  ghost predicate Added(before: seq<Write>, after: seq<Write>, release: Release, since: nat) {
    before <= after && forall i | |before| <= i < |after| :: after[i].release == release && after[i].id >= since
  }

  /** Only this release wrote in between. */
  ghost predicate Grown(before: seq<Write>, after: seq<Write>, release: Release) { Added(before, after, release, 0) }

  /** Every write was made before the next id was given out. */
  predicate Below(store: seq<Write>, next: nat) { forall i | 0 <= i < |store| :: store[i].id < next }

  function Writes(n: nat, release: Release, since: nat): seq<Write> {
    seq(n, i requires 0 <= i < n => Write(release, since + i))
  }

  /** Nothing but the saved files may have changed. */
  ghost predicate Contained(files: map<Path, Content>, o: Origin) {
    files.Keys == o.files.Keys && forall p | p in files && !Tracked(p) :: files[p] == o.files[p]
  }

  /** Copies that have been made are true copies. */
  ghost predicate TrueCopies(saved: map<Path, Content>, o: Origin) {
    forall p | p in saved :: Tracked(p) && p in o.files && saved[p] == o.files[p]
  }

  ghost predicate AppIs(app: App, release: Release) { app.Running? ==> app.release == release }

  /** What each stage guarantees of the disk: a death at any moment leaves one of these.  `stopped` is
      storage as it stood when the application was stopped for the update. */
  ghost predicate Sound(stage: Stage, files: map<Path, Content>, store: seq<Write>, snapshot: Snapshot, dir: bool,
                        saved: map<Path, Content>, meta: Meta, app: App, o: Origin, next: map<Path, Content>,
                        stopped: seq<Write>, atCommit: seq<Write>, written: nat)
  {
    && (meta.Meta? ==> dir && meta.from == o.release) && HasAll(o.files) && o.files[StateJson].release == o.release
    && Below(store, written) && Below(stopped, written) && (!stage.Idle? ==> OldStore(stopped, o))
    && match stage
       case Idle => meta.NoMeta? && HasAll(files) && AppIs(app, files[StateJson].release)
       case Preparing =>
         && files == o.files && Grown(stopped, store, o.release) && TrueCopies(saved, o) && AppIs(app, o.release)
         && (meta.Meta? ==> HasAll(saved) && snapshot == Snapshot(stopped, true) && app.Stopped? && store == stopped)
       case Applying => Contained(files, o) && TrueCopies(saved, o) && HasAll(saved) &&
         meta.Meta? && snapshot == Snapshot(stopped, true)
       case Undone =>
         && Restored(files, o) && Grown(stopped, store, o.release) && TrueCopies(saved, o) && AppIs(app, o.release)
         && (snapshot.Snapshot? && snapshot.sound && meta.Meta? ==> snapshot.history == stopped)
       case Committed =>
         && Applied(files, next, o) && meta.NoMeta? && stopped <= atCommit <= store
         && AppIs(app, next[StateJson].release)
  }

  /** Without the update-rollback directory the files are complete, and what runs is what they name. */
  lemma NothingUnfinished(stage: Stage, files: map<Path, Content>, store: seq<Write>, snapshot: Snapshot,
                          saved: map<Path, Content>, meta: Meta, app: App, o: Origin, next: map<Path, Content>,
                          stopped: seq<Write>, atCommit: seq<Write>, written: nat)
    requires Sound(stage, files, store, snapshot, false, saved, meta, app, o, next, stopped, atCommit, written)
    ensures meta.NoMeta? && HasAll(files) && AppIs(app, files[StateJson].release)
  {
  }

  lemma MoreWrites(before: seq<Write>, store: seq<Write>, n: nat, release: Release, written: nat, since: nat)
    requires Added(before, store, release, since) && since <= written
    ensures Added(before, store + Writes(n, release, written), release, since)
  {
    assert before == (store + Writes(n, release, written))[..|before|];
  }

  lemma AddedTransitive(a: seq<Write>, b: seq<Write>, c: seq<Write>, release: Release, since: nat)
    requires Added(a, b, release, since) && Added(b, c, release, since)
    ensures Added(a, c, release, since)
  {
  }

  /** When storage is put back to `history` and only new writes follow, everything that was there is
      still there exactly if it was in `history`. */
  lemma KeptIfInSnapshot(store: seq<Write>, history: seq<Write>, after: seq<Write>, release: Release, next: nat)
    requires Below(store, next) && Added(history, after, release, next)
    ensures store <= after <==> store <= history
  {
    if |store| > |history| && |after| > |history| { assert store[|history|].id < next <= after[|history|].id; }
    if store <= after && |store| <= |history| { assert store == after[..|store|] == history[..|store|]; }
  }

  /** The saved files hold the new release's contents; no other file changed. */
  ghost predicate Applied(files: map<Path, Content>, next: map<Path, Content>, o: Origin) {
    && files.Keys == o.files.Keys && HasAll(next)
    && forall p | p in files :: files[p] == if Tracked(p) then next[p] else o.files[p]
  }

  lemma AllWritten(files: map<Path, Content>, next: map<Path, Content>, o: Origin, written: map<Path, Content>)
    requires Contained(files, o) && HasAll(next) && HasAll(o.files)
    requires written == files[StateJson := next[StateJson]][ComposeEnv := next[ComposeEnv]]
                                 [InstallJson := next[InstallJson]][Pgfyctl := next[Pgfyctl]]
                             [ComposeEnv := next[ComposeEnv]][Caddyfile := next[Caddyfile]][PgHba := next[PgHba]]
    ensures Applied(written, next, o)
  {
  }

  /** The saved files are the restored ones, once everything saved is back. */
  lemma AllBack(files: map<Path, Content>, saved: map<Path, Content>, o: Origin, generation: nat)
    requires Contained(files, o) && TrueCopies(saved, o) && HasAll(saved)
    requires AllPutBack(files, saved)
    ensures InstallJson in files && Restored(files[InstallJson := files[InstallJson].(generation := generation)], o)
  {
  }

  /** These saved files have been put back. */
  ghost predicate PutBack(done: set<Path>, files: map<Path, Content>, saved: map<Path, Content>) {
    forall p | p in done :: p in saved && p in files && files[p] == saved[p]
  }

  ghost predicate AllPutBack(files: map<Path, Content>, saved: map<Path, Content>) {
    HasAll(saved) && forall p | Tracked(p) :: p in files && files[p] == saved[p]
  }

  lemma PutBackOne(todo: set<Path>, p: Path, files: map<Path, Content>, saved: map<Path, Content>)
    requires p in todo && p in saved && PutBack(UPDATE_FILES - todo, files, saved)
    ensures PutBack(UPDATE_FILES - (todo - {p}), files[p := saved[p]], saved)
  {
  }

  lemma PutBackAllOfThem(files: map<Path, Content>, saved: map<Path, Content>)
    requires PutBack(UPDATE_FILES, files, saved)
    ensures AllPutBack(files, saved)
  {
    assert forall p | Tracked(p) :: p in UPDATE_FILES;
  }

  /** What lets a rollback keep all of storage: nothing to undo, a refusal, or no write since the snapshot. */
  ghost predicate KeepsAll(meta: Meta, snapshot: Snapshot, saved: map<Path, Content>, store: seq<Write>) {
    meta.NoMeta? || snapshot.NoSnapshot? || !snapshot.sound || !HasAll(saved) || store <= snapshot.history
  }

  class Host {
    var files: map<Path, Content>
    var store: seq<Write>
    var snapshot: Snapshot
    var dir: bool
    var saved: map<Path, Content>
    var meta: Meta
    var app: App
    ghost var stage: Stage
    ghost var origin: Origin
    /** The contents the new release is to have. */
    ghost var target: map<Path, Content>
    /** The id of the next write. */
    var written: nat
    /** Storage when the application was stopped, and when meta.json was removed. */
    ghost var stopped: seq<Write>
    ghost var atCommit: seq<Write>

    ghost predicate Valid()
      reads this
    {
      Sound(stage, files, store, snapshot, dir, saved, meta, app, origin, target, stopped, atCommit, written)
    }

    /** An installation that was never updated. */
    constructor (files: map<Path, Content>, store: seq<Write>, written: nat)
      requires HasAll(files) && Below(store, written)
      ensures Valid() && this.files == files && this.store == store && !dir && stage.Idle?
      ensures app == Running(files[StateJson].release) && this.written == written && saved == map[]
    {
      this.files, this.store, app := files, store, Running(files[StateJson].release);
      snapshot, dir, saved, meta := NoSnapshot, false, map[], NoMeta;
      stage, origin, target := Idle, Origin(files, store, files[StateJson].release), map[];
      stopped, atCommit, this.written := [], [], written;
    }

    // ----- calls -----

    /** A call that only reads or checks. */
    method Check(lucky: bool) returns (e: Ended)
      ensures lucky ==> e.Finished?
    {
      e := Finished;
      if !lucky { e := *; }
    }

    /** A release writes storage. */
    method Append(n: nat, release: Release)
      requires Valid() && (stage.Preparing? ==> meta.NoMeta?)
      requires stage.Preparing? || stage.Undone? ==> release == origin.release
      modifies this`store, this`written
      ensures Valid() && written >= old(written) && |store| == |old(store)| + n
      ensures Added(old(store), store, release, old(written))
    {
      if stage.Preparing? || stage.Undone? { MoreWrites(stopped, store, n, release, written, 0); }
      MoreWrites(store, store, n, release, written, written);
      store, written := store + Writes(n, release, written), written + n;
    }

    /** The running application writes its storage. */
    method Work(n: nat)
      requires Valid() && app.Running?
      modifies this`store, this`written
      ensures Valid() && written >= old(written) && |store| == |old(store)| + n
      ensures Added(old(store), store, app.release, old(written))
    {
      Append(n, app.release);
    }

    /** Time passes: the application writes if it runs. */
    method Elapse()
      requires Valid()
      modifies this`store, this`written
      ensures Valid() && written >= old(written) && old(store) <= store
      ensures app.Stopped? ==> store == old(store)
      ensures app.Running? ==> Added(old(store), store, app.release, old(written))
    {
      if app.Running? {
        var n: nat := *;
        Work(n);
      }
    }

    /** Replaced in one rename. */
    method WriteFile(path: Path, content: Content, lucky: bool) returns (e: Ended)
      requires Valid() && Tracked(path)
      requires stage.Applying? || (stage.Undone? && path in origin.files && content == origin.files[path])
      modifies this`files
      ensures Valid() && (lucky ==> e.Finished?)
      ensures files == old(files) || files == old(files)[path := content]
      ensures e.Finished? ==> files == old(files)[path := content]
    {
      e := Check(lucky);
      var effect := true;
      if !e.Finished? { effect := *; }
      if effect { files := files[path := content]; }
    }

    method Stop(lucky: bool) returns (e: Ended)
      requires Valid()
      modifies this`app
      ensures Valid() && (lucky ==> e.Finished?) && (e.Finished? ==> app.Stopped?) && (app == old(app) || app.Stopped?)
    {
      e := Check(lucky);
      if e.Finished? { app := Stopped; } else if * { app := Stopped; }
    }

    method Start(release: Release, lucky: bool) returns (e: Ended)
      requires Valid() && !stage.Preparing?
      requires stage.Applying? || (StateJson in files && release == files[StateJson].release)
      modifies this`app, this`store, this`written
      ensures Valid() && (lucky ==> e.Finished?) && (e.Finished? ==> app == Running(release))
      ensures old(app).Stopped? ==> Added(old(store), store, release, old(written))
      ensures old(store) <= store && written >= old(written)
    {
      e := Check(lucky);
      if e.Finished? { app := Running(release); } else if * { app := Running(release); }
      Elapse();
    }

    // ----- the proof's view of the stages -----

    /** An update may follow anything that left no update-rollback directory, also one that died
        before making it. */
    ghost method EnterPreparing(next: map<Path, Content>)
      requires Valid() && !dir && saved == map[]
      modifies this`stage, this`origin, this`target, this`stopped
      ensures Valid() && stage.Preparing? && target == next && StateJson in files && stopped == store
      ensures origin == Origin(files, store, files[StateJson].release)
    {
      NothingUnfinished(stage, files, store, snapshot, saved, meta, app, origin, target, stopped, atCommit, written);
      origin, target, stage := Origin(files, store, files[StateJson].release), next, Preparing;
      stopped := store;
    }

    ghost method EnterApplying()
      requires Valid() && stage.Preparing? && meta.Meta?
      modifies this`stage
      ensures Valid() && stage.Applying?
    {
      stage := Applying;
    }

    /** A rollback that was cut off near its end starts over. */
    ghost method ReenterApplying()
      requires Valid() && (stage.Applying? || stage.Undone?) && meta.Meta?
      requires snapshot == Snapshot(stopped, true) && HasAll(saved)
      modifies this`stage
      ensures Valid() && stage.Applying?
    {
      stage := Applying;
    }

    ghost method EnterUndone()
      requires Valid()
      requires
        || stage.Preparing?
        || (stage.Applying? && Restored(files, origin) && Grown(stopped, store, origin.release)
            && app == Running(origin.release))
      modifies this`stage
      ensures Valid() && stage.Undone?
    {
      stage := Undone;
    }

    /** A rollback takes up an update that died while preparing. */
    ghost method LeavePreparing()
      requires Valid()
      modifies this`stage
      ensures Valid() && !stage.Preparing? && (!old(stage).Preparing? ==> stage == old(stage))
      ensures old(stage).Preparing? ==> stage == if meta.Meta? then Applying else Undone
    {
      if stage.Preparing? { if meta.Meta? { EnterApplying(); } else { EnterUndone(); } }
    }

    // ----- before anything is changed -----

    method CopyFiles(lucky: bool) returns (e: Ended)
      requires Valid() && stage.Preparing? && meta.NoMeta? && saved == map[]
      modifies this`saved
      ensures Valid() && (lucky ==> e.Finished?) && (e.Finished? ==> HasAll(saved))
    {
      e := Finished;
      var todo := UPDATE_FILES;
      while todo != {}
        invariant Valid() && e.Finished? && todo <= UPDATE_FILES && saved.Keys == UPDATE_FILES - todo
        decreases todo
      {
        Records.HasMember(todo);
        var p :| p in todo;
        e := Check(lucky);
        if !e.Finished? { return; }
        saved, todo := saved[p := files[p]], todo - {p};
      }
    }

    /** A failed snapshot may be missing, unsound, or complete all the same. */
    method TakeSnapshot(lucky: bool) returns (e: Ended)
      requires Valid() && stage.Preparing? && meta.NoMeta?
      modifies this`snapshot
      ensures Valid() && (lucky ==> e.Finished?) && (e.Finished? ==> snapshot == Snapshot(store, true))
    {
      e := Check(lucky);
      snapshot := if e.Finished? then Snapshot(store, true) else NoSnapshot;
      if !e.Finished? { snapshot := *; }
    }

    /** Pause and stop the application: from here on storage stands still.  One that was not running is
        paused by a command of its release, run beside it. */
    method Quiesce(from: Release, lucky: bool) returns (e: Ended)
      requires Valid() && stage.Preparing? && meta.NoMeta? && from == origin.release
      modifies this`app, this`store, this`written, this`stopped
      ensures Valid() && (lucky ==> e.Finished?) && old(store) <= store
      ensures e.Finished? ==> app.Stopped? && stopped == store
    {
      var running := app.Running?;
      Elapse();
      e := Check(lucky);
      if e.Finished? { e := Stop(lucky); }
      if e.Finished? && !running { e := SetFlag(from, lucky); }
      if e.Finished? {
        NoteStopped();
        e := Check(lucky);
      }
    }

    /** The flag is one more write; a failed command may have made it. */
    method SetFlag(from: Release, lucky: bool) returns (e: Ended)
      requires Valid() && stage.Preparing? && meta.NoMeta? && from == origin.release
      modifies this`store, this`written
      ensures Valid() && (lucky ==> e.Finished?) && old(store) <= store
    {
      e := Check(lucky);
      if e.Finished? { Append(1, from); } else if * { Append(1, from); }
    }

    ghost method NoteStopped()
      requires Valid() && stage.Preparing? && meta.NoMeta? && app.Stopped?
      modifies this`stopped
      ensures Valid() && stopped == store
    {
      AddedTransitive(origin.store, stopped, store, origin.release, 0);
      stopped := store;
    }

    /** Copy the files, snapshot storage, and write meta.json last. */
    method Save(from: Release, lucky: bool) returns (e: Ended)
      requires Valid() && stage.Preparing? && meta.NoMeta? && saved == map[] && from == origin.release
      requires app.Stopped? && stopped == store
      modifies this`dir, this`saved, this`snapshot, this`meta
      ensures Valid() && (lucky ==> e.Finished?)
      ensures e.Finished? ==> meta.Meta? && snapshot == Snapshot(store, true)
    {
      dir := true;
      e := CopyFiles(lucky);
      if e.Finished? { e := TakeSnapshot(lucky); }
      if e.Finished? { e := Check(lucky); }
      if e.Finished? {
        meta := Meta(from);
        e := Check(lucky);
      }
    }

    /** Once meta.json is there the application is stopped, and the snapshot is storage as it stood
        then, with everything it held before the update. */
    method Prepare(from: Release, lucky: bool) returns (e: Ended)
      requires Valid() && stage.Preparing? && meta.NoMeta? && saved == map[] && from == origin.release
      modifies this`app, this`store, this`written, this`stopped, this`dir, this`saved, this`snapshot, this`meta
      ensures Valid() && (lucky ==> e.Finished?) && old(store) <= store
      ensures e.Finished? ==> meta.Meta? && app.Stopped? && stopped == store && snapshot == Snapshot(stopped, true)
    {
      e := Quiesce(from, lucky);
      if e.Finished? { e := Save(from, lucky); }
    }

    // ----- applying -----

    /** Everything this writes was saved first. */
    method Apply(to: Release, next: map<Path, Content>, lucky: bool) returns (e: Ended)
      requires Valid() && stage.Applying? && HasAll(next)
      modifies this`files, this`app, this`store, this`written
      ensures Valid() && (lucky ==> e.Finished?)
      ensures e.Finished? ==> app == Running(to) && Applied(files, next, origin)
      ensures old(store) <= store
    {
      e := Check(lucky);
      if e.Finished? { e := WriteAll(next, lucky); }
      if e.Finished? { e := Start(to, lucky); }
      if e.Finished? { e := Check(lucky); }
    }

    method WriteAll(next: map<Path, Content>, lucky: bool) returns (e: Ended)
      requires Valid() && stage.Applying? && HasAll(next)
      modifies this`files
      ensures Valid() && (lucky ==> e.Finished?) && (e.Finished? ==> Applied(files, next, origin))
    {
      e := WriteRelease(next, lucky);
      if e.Finished? { e := Converge(next, lucky); }
      if e.Finished? { AllWritten(old(files), next, origin, files); }
    }

    method WriteRelease(next: map<Path, Content>, lucky: bool) returns (e: Ended)
      requires Valid() && stage.Applying? && HasAll(next)
      modifies this`files
      ensures Valid() && (lucky ==> e.Finished?)
      ensures e.Finished? ==>
        files == old(files)[StateJson := next[StateJson]][ComposeEnv := next[ComposeEnv]]
          [InstallJson := next[InstallJson]][Pgfyctl := next[Pgfyctl]]
    {
      e := WriteFile(StateJson, next[StateJson], lucky);
      if e.Finished? { e := WriteFile(ComposeEnv, next[ComposeEnv], lucky); }
      if e.Finished? { e := WriteFile(InstallJson, next[InstallJson], lucky); }
      if e.Finished? { e := WriteFile(Pgfyctl, next[Pgfyctl], lucky); }
    }

    /** The new release's own host configuration. */
    method Converge(next: map<Path, Content>, lucky: bool) returns (e: Ended)
      requires Valid() && stage.Applying? && HasAll(next)
      modifies this`files
      ensures Valid() && (lucky ==> e.Finished?)
      ensures e.Finished? ==>
        files == old(files)[ComposeEnv := next[ComposeEnv]][Caddyfile := next[Caddyfile]][PgHba := next[PgHba]]
    {
      e := WriteFile(ComposeEnv, next[ComposeEnv], lucky);
      if e.Finished? { e := WriteFile(Caddyfile, next[Caddyfile], lucky); }
      if e.Finished? { e := WriteFile(PgHba, next[PgHba], lucky); }
      if e.Finished? { e := Check(lucky); }
    }

    // ----- cleaning up -----

    /** Removing the directory may stop anywhere, in any order. */
    method RemoveTree(lucky: bool) returns (e: Ended)
      requires Valid() && (stage.Undone? || stage.Committed? || stage.Idle?)
      modifies this`dir, this`saved, this`meta
      ensures Valid() && (lucky ==> e.Finished?) && (e.Finished? ==> !dir && saved == map[] && meta.NoMeta?)
      ensures old(meta).NoMeta? ==> meta.NoMeta?
    {
      e := Check(lucky);
      if e.Finished? {
        dir, saved, meta := false, map[], NoMeta;
      } else {
        var gone: set<Path> := *;
        saved := saved - gone;
        if * { meta := NoMeta; }
      }
    }

    method Discard(lucky: bool) returns (e: Ended)
      requires Valid() && (stage.Undone? || stage.Committed?)
      modifies this`snapshot
      ensures Valid() && (lucky ==> e.Finished?) && (e.Finished? ==> snapshot.NoSnapshot?)
    {
      e := Check(lucky);
      if e.Finished? { snapshot := NoSnapshot; } else if * { snapshot := NoSnapshot; }
    }

    // ----- rolling back -----

    /** Puts the saved files back; a copy that is gone stops the rollback. */
    method RestoreFiles(lucky: bool) returns (e: Ended)
      requires Valid() && (stage.Applying? || stage.Undone?) && TrueCopies(saved, origin)
      modifies this`files
      ensures Valid() && (e.Finished? ==> AllPutBack(files, saved))
      ensures lucky && HasAll(saved) ==> e.Finished?
    {
      e := Finished;
      var todo := UPDATE_FILES;
      while todo != {}
        invariant Valid() && e.Finished? && todo <= UPDATE_FILES
        invariant PutBack(UPDATE_FILES - todo, files, saved)
        decreases todo
      {
        Records.HasMember(todo);
        var p :| p in todo;
        if p !in saved { return Raised; }
        PutBackOne(todo, p, files, saved);
        e := WriteFile(p, saved[p], lucky);
        if !e.Finished? { return; }
        todo := todo - {p};
      }
      assert UPDATE_FILES - todo == UPDATE_FILES;
      PutBackAllOfThem(files, saved);
    }

    /** A restore that fails leaves storage in any state; the snapshot is kept. */
    method RestoreStore(lucky: bool) returns (e: Ended)
      requires Valid() && stage.Applying?
      modifies this`store
      ensures Valid() && (lucky ==> e.Finished?) && (e.Finished? ==> store == snapshot.history)
    {
      e := Check(lucky);
      store := snapshot.history;
      if !e.Finished? {
        var damaged: seq<Write> := *;
        store := if Below(damaged, written) then damaged else [];
      }
    }

    /** The application may write until it stops. */
    method Halt(lucky: bool) returns (e: Ended)
      requires Valid()
      modifies this`app, this`store, this`written
      ensures Valid() && (lucky ==> e.Finished?) && old(store) <= store && written >= old(written)
    {
      Elapse();
      e := Stop(lucky);
    }

    /** The saved files; once they are all back the rest of a rollback may follow. */
    method PutFilesBack(lucky: bool) returns (e: Ended)
      requires Valid() && (stage.Applying? || stage.Undone?) && meta.Meta? && snapshot == Snapshot(stopped, true)
      modifies this`files, this`app, this`store, this`written, this`stage
      ensures Valid() && (stage == old(stage) || stage.Applying?) && (!e.Finished? ==> stage == old(stage))
      ensures old(store) <= store && written >= old(written)
      ensures !HasAll(saved) ==> !e.Finished?
      ensures lucky && HasAll(saved) ==> e.Finished?
      ensures e.Finished? ==> stage.Applying? && AllPutBack(files, saved)
    {
      e := Halt(lucky);
      if e.Died? { return; }
      e := RestoreFiles(lucky);
      if e.Finished? { ReenterApplying(); }
    }

    /** A fresh generation, with the application stopped. */
    method Regenerate(generation: nat, lucky: bool) returns (e: Ended)
      requires Valid() && stage.Applying? && AllPutBack(files, saved)
      modifies this`files, this`app
      ensures Valid() && (lucky ==> e.Finished?) && (e.Finished? ==> Restored(files, origin) && app.Stopped?)
    {
      AllBack(files, saved, origin, generation);
      e := Stop(lucky);
      if e.Finished? { e := WriteFile(InstallJson, files[InstallJson].(generation := generation), lucky); }
    }

    /** Storage from the snapshot, then the old release on it: on success storage is the snapshot plus
        new writes of the old release, and nothing else. */
    method Revive(lucky: bool) returns (e: Ended)
      requires Valid() && stage.Applying? && Restored(files, origin) && app.Stopped?
      modifies this`app, this`store, this`written
      ensures Valid() && (lucky ==> e.Finished?) && written >= old(written)
      ensures e.Finished? ==> app == Running(origin.release)
      ensures e.Finished? ==> Added(snapshot.history, store, origin.release, old(written))
    {
      e := RestoreStore(lucky);
      if e.Finished? { e := Start(meta.from, lucky); }
      if e.Finished? { e := Check(lucky); }
    }

    /** Nothing was applied, or the update was committed: start the application and clear the directory. */
    method Unquiesce(lucky: bool) returns (e: Ended)
      requires Valid() && !stage.Applying? && !stage.Preparing?
      modifies this`app, this`store, this`written
      ensures Valid() && (lucky ==> e.Finished?) && (e.Finished? ==> app == Running(files[StateJson].release))
      ensures old(store) <= store
    {
      e := Start(files[StateJson].release, lucky);
    }

    /** Everything is put back and the old release runs; only then is it settled. */
    method Undo(generation: nat, lucky: bool) returns (e: Ended)
      requires Valid() && stage.Applying? && AllPutBack(files, saved)
      modifies this`files, this`app, this`store, this`written, this`stage
      ensures Valid() && (lucky ==> e.Finished?)
      ensures if e.Finished? then stage.Undone? && app == Running(origin.release) else stage.Applying?
      ensures e.Finished? ==> Added(snapshot.history, store, origin.release, old(written))
      ensures written >= old(written)
    {
      e := Regenerate(generation, lucky);
      if e.Finished? { e := Revive(lucky); }
      if e.Finished? { EnterUndone(); }
    }

    /** The snapshot goes only once everything is back, then the directory. */
    method Clear(lucky: bool) returns (e: Ended)
      requires Valid() && stage.Undone?
      modifies this`snapshot, this`dir, this`saved, this`meta
      ensures Valid() && (lucky ==> e.Finished?) && (e.Finished? ==> !dir)
    {
      e := Discard(lucky);
      if e.Finished? { e := RemoveTree(lucky); }
    }

    method PutBackAll(generation: nat, lucky: bool) returns (e: Ended)
      requires Valid() && (stage.Applying? || stage.Undone?) && meta.Meta? && snapshot == Snapshot(stopped, true)
      modifies this`files, this`app, this`store, this`written, this`stage
      ensures Valid() && (stage.Applying? || stage.Undone?)
      ensures lucky ==> (e.Finished? <==> HasAll(saved)) && (old(stage).Undone? ==> stage.Undone?)
      ensures e.Finished? ==> stage.Undone? && app == Running(origin.release)
      ensures e.Finished? ==> Added(stopped, store, origin.release, old(written))
      ensures (!HasAll(saved) ==> old(store) <= store) && written >= old(written)
    {
      e := PutFilesBack(lucky);
      if e.Finished? {
        ghost var since := written;
        e := Undo(generation, lucky);
        assert e.Finished? ==> Added(stopped, store, origin.release, since);
      }
    }

    /** With meta.json: everything is put back, or, without a sound snapshot, refused with nothing changed.
        Without it nothing was applied or everything was committed, and no file changes.  When its calls
        succeed, a rollback keeps all that storage held before it exactly when there was no meta.json, or
        it was refused, or storage held nothing beyond the snapshot. */
    method Rollback(generation: nat, lucky: bool) returns (e: Ended)
      requires Valid()
      modifies this`files, this`app, this`store, this`written, this`snapshot, this`dir, this`saved,
               this`meta, this`stage
      ensures Valid() && !stage.Preparing? && (old(stage).Committed? <==> stage.Committed?)
      ensures old(stage).Idle? <==> stage.Idle?
      ensures old(meta).Meta? && !(old(snapshot).Snapshot? && old(snapshot).sound) ==>
        e.Raised? && files == old(files) && store == old(store) && saved == old(saved) && meta == old(meta)
      ensures e.Finished? && old(meta).Meta? ==> stage.Undone? && app == Running(origin.release) && !dir
      ensures e.Finished? && old(meta).Meta? ==> old(snapshot) == Snapshot(stopped, true)
      ensures e.Finished? && old(meta).Meta? ==> Added(stopped, store, origin.release, old(written))
      ensures lucky && old(meta).Meta? ==>
        (e.Finished? <==> old(snapshot).Snapshot? && old(snapshot).sound && HasAll(old(saved)))
      ensures lucky ==> !stage.Applying?
      ensures lucky ==> (old(store) <= store <==> KeepsAll(old(meta), old(snapshot), old(saved), old(store)))
      ensures old(meta).NoMeta? ==> files == old(files) && old(store) <= store && (lucky ==> e.Finished?)
    {
      LeavePreparing();
      if meta.NoMeta? {
        e := NothingToUndo(lucky);
      } else {
        e := UndoUnlessRefused(generation, lucky);
      }
    }

    method UndoUnlessRefused(generation: nat, lucky: bool) returns (e: Ended)
      requires Valid() && meta.Meta? && (stage.Applying? || stage.Undone?)
      modifies this`files, this`app, this`store, this`written, this`snapshot, this`dir, this`saved,
               this`meta, this`stage
      ensures Valid() && (stage.Applying? || stage.Undone?)
      ensures !(old(snapshot).Snapshot? && old(snapshot).sound) ==>
        e.Raised? && files == old(files) && store == old(store) && saved == old(saved) && meta == old(meta)
      ensures e.Finished? ==> stage.Undone? && app == Running(origin.release) && !dir
      ensures e.Finished? ==> old(snapshot) == Snapshot(stopped, true)
      ensures e.Finished? ==> Added(stopped, store, origin.release, old(written))
      ensures lucky ==> (e.Finished? <==> old(snapshot).Snapshot? && old(snapshot).sound && HasAll(old(saved)))
      ensures lucky ==> !stage.Applying?
      ensures lucky ==> (old(store) <= store <==> KeepsAll(Meta(0), old(snapshot), old(saved), old(store)))
    {
      if snapshot.NoSnapshot? || !snapshot.sound { return Raised; }
      e := UndoAll(generation, lucky);
    }

    method UndoAll(generation: nat, lucky: bool) returns (e: Ended)
      requires Valid() && (stage.Applying? || stage.Undone?) && meta.Meta? && snapshot == Snapshot(stopped, true)
      modifies this`files, this`app, this`store, this`written, this`snapshot, this`dir, this`saved,
               this`meta, this`stage
      ensures Valid() && (stage.Applying? || stage.Undone?)
      ensures lucky ==>
        && (e.Finished? <==> HasAll(old(saved))) && !(old(stage).Undone? && stage.Applying?)
        && (e.Finished? ==> stage.Undone?)
      ensures e.Finished? ==> stage.Undone? && app == Running(origin.release) && !dir
      ensures e.Finished? ==> Added(stopped, store, origin.release, old(written))
      ensures lucky ==> (old(store) <= store <==> !HasAll(old(saved)) || old(store) <= stopped)
    {
      e := PutBackAll(generation, lucky);
      if e.Finished? {
        KeptIfInSnapshot(old(store), stopped, store, origin.release, old(written));
        e := Clear(lucky);
      }
    }

    /** The application is started and the directory cleared; what cannot be removed is left. */
    method NothingToUndo(lucky: bool) returns (e: Ended)
      requires Valid() && meta.NoMeta? && !stage.Preparing? && !stage.Applying?
      modifies this`app, this`store, this`written, this`dir, this`saved, this`meta
      ensures Valid() && (lucky ==> e.Finished?) && old(store) <= store && meta.NoMeta?
    {
      e := Unquiesce(lucky);
      if e.Finished? {
        e := RemoveTree(lucky);
        if e.Raised? { e := Finished; }
      }
    }

    // ----- the update -----

    /** Removing meta.json is the commit point; an exception or a death may still come just after it. */
    method Commit(unlink: Unlink) returns (e: Ended)
      requires Valid() && stage.Applying? && Applied(files, target, origin) && stopped <= store
      requires AppIs(app, target[StateJson].release)
      modifies this`meta, this`stage, this`atCommit
      ensures Valid() && e == unlink.Ending()
      ensures meta == if unlink.TookEffect() then NoMeta else old(meta)
      ensures if unlink.TookEffect() then stage.Committed? && atCommit == store else stage.Applying?
    {
      if unlink.TookEffect() { meta, stage, atCommit := NoMeta, Committed, store; }
      e := unlink.Ending();
    }

    /** Cleaning up after the commit never changes the outcome. */
    method CleanUp(lucky: bool) returns (e: Ended)
      requires Valid() && stage.Committed?
      modifies this`snapshot, this`dir, this`saved, this`meta
      ensures Valid() && !e.Raised? && (lucky ==> e.Finished? && !dir)
    {
      e := Discard(lucky);
      if e.Died? { return; }
      e := RemoveTree(lucky);
      if e.Raised? { e := Finished; }
    }

    /** Before meta.json counts, a failure only cleans up and starts the old release again. */
    method GiveUp() returns (e: Ended)
      requires Valid() && stage.Preparing?
      modifies this`app, this`store, this`written, this`snapshot, this`dir, this`saved, this`meta, this`stage
      ensures Valid() && stage.Undone? && !e.Finished? && old(store) <= store
    {
      EnterUndone();
      e := Sweep();
      if e.Died? { return; }
      e := Unquiesce(false);
      if !e.Died? { e := Raised; }
    }

    method Sweep() returns (e: Ended)
      requires Valid() && stage.Undone?
      modifies this`snapshot, this`dir, this`saved, this`meta
      ensures Valid()
    {
      e := RemoveTree(false);
      if !e.Died? { e := Discard(false); }
    }

    /** From the snapshot on: commit, or roll back.  `reached` says whether meta.json was to be
        removed at all.  The installer only knows of the commit once the call has returned: an
        exception just after it is answered like any other, by a rollback that finds nothing to undo. */
    method Switch(to: Release, next: map<Path, Content>, generation: nat, unlink: Unlink, lucky: bool)
      returns (e: Ended, ghost reached: bool)
      requires Valid() && stage.Applying? && HasAll(next) && target == next && next[StateJson].release == to
      requires store == stopped
      modifies this`files, this`app, this`store, this`written, this`snapshot, this`dir, this`saved,
               this`meta, this`stage, this`atCommit
      ensures Valid() && !stage.Idle? && !stage.Preparing?
      ensures stage.Committed? <==> reached && unlink.TookEffect()
      ensures e.Finished? ==> reached && unlink == Clean && app == Running(to)
      ensures e.Raised? ==> (stage.Committed? <==> reached && unlink == RaisedAfter)
      ensures lucky ==> reached && e == unlink.Ending() && (unlink == RaisedBefore ==> stage.Undone?)
    {
      e := Apply(to, next, lucky);
      reached := e.Finished?;
      if e.Finished? { e := Commit(unlink); }
      if e.Raised? { e := Abandon(generation, lucky); }
    }

    /** A failed update is rolled back and reported as a failure. */
    method Abandon(generation: nat, lucky: bool) returns (e: Ended)
      requires Valid() && (stage.Applying? || stage.Committed?)
      modifies this`files, this`app, this`store, this`written, this`snapshot, this`dir, this`saved,
               this`meta, this`stage
      ensures Valid() && !e.Finished? && !stage.Idle? && !stage.Preparing?
      ensures stage.Committed? <==> old(stage).Committed?
      ensures lucky && old(meta).NoMeta? ==> e.Raised?
      ensures lucky && old(stage).Applying? && HasAll(old(saved)) ==> e.Raised? && stage.Undone?
    {
      e := Rollback(generation, lucky);
      if e.Finished? { e := Raised; }
    }

    /** The update ends committed, or with everything put back, or (after a death or a failed
        rollback) in a state that the next rollback finishes.  It is committed exactly when the
        removal of meta.json took effect, and then reported as a failure exactly when an exception
        came just after that.  The state file of the new contents names the new release. */
    method Update(to: Release, next: map<Path, Content>, generation: nat, unlink: Unlink, lucky: bool)
      returns (e: Ended, ghost reached: bool)
      requires Valid() && HasAll(next) && next[StateJson].release == to
      modifies this
      ensures Valid()
      ensures old(dir) ==> e.Raised? && files == old(files) && store == old(store)
      ensures !old(dir) ==> StateJson in old(files) && target == next && old(store) <= stopped
      ensures !old(dir) ==> origin == Origin(old(files), old(store), old(files)[StateJson].release)
      ensures !old(dir) ==> !stage.Idle? && (stage.Committed? <==> reached && unlink.TookEffect())
      ensures !old(dir) && stage.Committed? ==> Applied(files, next, origin) && stopped <= atCommit <= store
      ensures !old(dir) && e.Finished? ==> reached && unlink == Clean && app == Running(to)
      ensures !old(dir) && e.Raised? ==> (stage.Committed? <==> reached && unlink == RaisedAfter)
      ensures lucky && !old(dir) ==> reached && e == unlink.Ending() && (unlink == RaisedBefore ==> stage.Undone?)
    {
      reached := false;
      if dir { return Raised, false; }
      saved := map[];
      EnterPreparing(next);
      e, reached := Attempt(files[StateJson].release, to, next, generation, unlink, lucky);
    }

    method Attempt(from: Release, to: Release, next: map<Path, Content>, generation: nat, unlink: Unlink, lucky: bool)
      returns (e: Ended, ghost reached: bool)
      requires Valid() && stage.Preparing? && meta.NoMeta? && saved == map[] && from == origin.release
      requires HasAll(next) && target == next && next[StateJson].release == to
      modifies this`files, this`app, this`store, this`written, this`snapshot, this`dir, this`saved,
               this`meta, this`stage, this`stopped, this`atCommit
      ensures Valid() && !stage.Idle?
      ensures stage.Committed? <==> reached && unlink.TookEffect()
      ensures e.Finished? ==> reached && unlink == Clean && app == Running(to)
      ensures e.Raised? ==> (stage.Committed? <==> reached && unlink == RaisedAfter)
      ensures lucky ==> reached && e == unlink.Ending() && (unlink == RaisedBefore ==> stage.Undone?)
    {
      reached := false;
      e := Prepare(from, lucky);
      if e.Raised? {
        e := GiveUp();
      } else if e.Finished? {
        e, reached := Proceed(to, next, generation, unlink, lucky);
      }
    }

    method Proceed(to: Release, next: map<Path, Content>, generation: nat, unlink: Unlink, lucky: bool)
      returns (e: Ended, ghost reached: bool)
      requires Valid() && stage.Preparing? && meta.Meta?
      requires HasAll(next) && target == next && next[StateJson].release == to
      modifies this`files, this`app, this`store, this`written, this`snapshot, this`dir, this`saved,
               this`meta, this`stage, this`atCommit
      ensures Valid() && !stage.Idle? && !stage.Preparing?
      ensures stage.Committed? <==> reached && unlink.TookEffect()
      ensures e.Finished? ==> reached && unlink == Clean && app == Running(to)
      ensures e.Raised? ==> (stage.Committed? <==> reached && unlink == RaisedAfter)
      ensures lucky ==> reached && e == unlink.Ending() && (unlink == RaisedBefore ==> stage.Undone?)
    {
      EnterApplying();
      e, reached := Switch(to, next, generation, unlink, lucky);
      if e.Finished? { e := CleanUp(lucky); }
    }

    /** The run that misleads: every call succeeds, and the exception comes just after meta.json is gone. */
    method FailureIsReportedThoughCommitted(to: Release, next: map<Path, Content>, generation: nat) returns (e: Ended)
      requires Valid() && !dir && HasAll(next) && next[StateJson].release == to
      modifies this
      ensures Valid() && e.Raised? && stage.Committed? && Applied(files, next, origin)
      ensures old(store) <= stopped <= atCommit <= store
    {
      ghost var reached;
      e, reached := Update(to, next, generation, RaisedAfter, true);
    }

    /** All or nothing: an update cut off anywhere, then any number of rollbacks cut off anywhere, with
        the application writing in between whenever it runs, then one rollback whose calls succeed.  If
        the removal of meta.json was reached and took effect, the new release is in place with everything
        storage held then.  Otherwise every file is as it was, and storage is what it was when the
        application was stopped, with everything it held before the update, plus later writes of the old
        release. */
    method UpdateAndRecover(to: Release, next: map<Path, Content>, unlink: Unlink, attempts: nat)
      returns (e: Ended, ghost reached: bool)
      requires Valid() && !dir && HasAll(next) && next[StateJson].release == to
      modifies this
      ensures Valid() && StateJson in old(files)
      ensures origin == Origin(old(files), old(store), old(files)[StateJson].release)
      ensures old(store) <= stopped && (reached && unlink.TookEffect() ==> stopped <= atCommit <= store)
      ensures reached && unlink.TookEffect() ==> Applied(files, next, origin)
      ensures !(reached && unlink.TookEffect()) ==> Restored(files, origin) && Grown(stopped, store, origin.release)
      ensures e.Finished? ==> reached && unlink == Clean
      ensures e.Raised? ==> (reached && unlink.TookEffect() <==> reached && unlink == RaisedAfter)
    {
      var generation: nat := *;
      e, reached := Update(to, next, generation, unlink, false);
      Recover(attempts);
    }

    /** Rollbacks cut off anywhere, then one whose calls succeed. */
    method Recover(attempts: nat)
      requires Valid() && !stage.Idle?
      modifies this`files, this`app, this`store, this`written, this`snapshot, this`dir, this`saved,
               this`meta, this`stage
      ensures Valid() && (stage.Undone? || stage.Committed?) && (stage.Committed? <==> old(stage).Committed?)
    {
      for i := 0 to attempts
        invariant Valid() && !stage.Idle? && (stage.Committed? <==> old(stage).Committed?)
      {
        var generation: nat := *;
        Elapse();
        var again := Rollback(generation, false);
      }
      var generation: nat := *;
      Elapse();
      var last := Rollback(generation, true);
    }
  }

  /** An update is undone and the old release runs again; the rollback is cut off before it removes
      the snapshot. */
  method UndoneNotCleared(files: map<Path, Content>, store: seq<Write>, written: nat, next: map<Path, Content>,
                          generation: nat)
    returns (h: Host)
    requires HasAll(files) && Below(store, written)
    ensures fresh(h) && h.Valid() && h.stage.Undone? && h.meta.Meta? && HasAll(h.saved)
    ensures h.snapshot == Snapshot(h.stopped, true) && store <= h.stopped <= h.store
    ensures h.origin.release == files[StateJson].release && h.app == Running(files[StateJson].release)
  {
    h := new Host(files, store, written);
    h.EnterPreparing(next);
    var e := h.Prepare(files[StateJson].release, true);
    h.EnterApplying();
    e := h.PutBackAll(generation, true);
  }

  /** The run that loses writes: the application works, and the rollback that the operator is then told
      to run restores the snapshot over that work. */
  method RerunLosesWrites(files: map<Path, Content>, store: seq<Write>, written: nat, next: map<Path, Content>,
                          generation: nat)
    returns (h: Host, e: Ended, ghost before: seq<Write>, ghost lost: Write)
    requires HasAll(files) && Below(store, written)
    ensures h.Valid() && e.Finished? && h.stage.Undone? && h.app == Running(files[StateJson].release)
    ensures before != [] && lost == before[|before| - 1] && lost.release == files[StateJson].release
    ensures store <= before && lost !in h.store && !(before <= h.store)
  {
    h := UndoneNotCleared(files, store, written, next, generation);
    ghost var since := h.written;
    h.Work(1);
    before := h.store;
    lost := before[|before| - 1];
    ghost var later := h.written;
    e := h.Rollback(generation, true);
    NeverAgain(lost, h.stopped, h.store, files[StateJson].release, since, later);
  }

  lemma NeverAgain(lost: Write, stopped: seq<Write>, after: seq<Write>, release: Release, since: nat, later: nat)
    requires Below(stopped, since) && since <= lost.id < later && Added(stopped, after, release, later)
    ensures lost !in after
  {
    forall i | 0 <= i < |after| ensures after[i] != lost { assert i < |stopped| ==> after[i] == stopped[i]; }
  }
}
