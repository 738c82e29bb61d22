/**
 Values shared by the modules: a backup folder, the reconciled row that describes
 it, the manifest found in it, the operator's retention policy, and a few facts
 about sets and sequences.
 */
module Records {

  datatype Option<T> = None | Some(value: T)

  /** A backup folder, named by its UTC second, or by its text when the name is
      not a timestamp.  `Layout` proves that the two readings never overlap and
      that distinct seconds have distinct folder names. */
  datatype Dir = At(second: int) | Odd(name: string)

  datatype RowState = Complete | ManifestOnly | ArchiveOnly | Damaged

  datatype Manifest = Manifest(installation: string, project: string, sound: bool)

  /** One row of bucket_backups.  `markedAt` is delete_started_at. */
  datatype Row = Row(dir: Dir, state: RowState, installation: string, project: string, size: int, markedAt: int)

  datatype Policy = Policy(daily: int, weekly: int)

  /** The second of Go's zero time, recorded for a folder whose name does not parse. */
  const ZERO_TIME := -62135596800

  function TakenAt(dir: Dir): int {
    if dir.At? then dir.second else ZERO_TIME
  }

  /** The complete rows, in order. */
  function CompleteRows(rows: seq<Row>): seq<Row> {
    if rows == [] then []
    else (if rows[0].state.Complete? then [rows[0]] else []) + CompleteRows(rows[1..])
  }

  lemma HasMember<T>(s: set<T>)
    requires s != {}
    ensures exists x :: x in s
  {
    assert (forall x :: x !in s) ==> s == {};
  }

  ghost function Pick<T>(s: set<T>): (x: T)
    requires s != {}
    ensures x in s
  {
    HasMember(s);
    var x :| x in s;
    x
  }

  lemma TakeSnoc<T>(s: seq<T>, i: nat)
    requires i < |s|
    ensures s[..i + 1] == s[..i] + [s[i]]
  {
  }

  lemma TakeAll<T>(s: seq<T>)
    ensures s[..|s|] == s
  {
  }
}
