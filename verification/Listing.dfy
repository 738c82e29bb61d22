/**
 The layout rules applied to one complete listing of a database's folder.
 */
module Listing {
  import opened Records
  import opened Layout

  datatype Object = Object(key: string, size: int)

  datatype File = ArchiveFile | ManifestFile | OtherFile

  /** Where an object lies: a file of a folder, or anywhere else, where it is never touched. */
  datatype Slot = Elsewhere | InFolder(name: string, file: File)

  function SlotOf(root: string, key: string): Slot {
    var parts := Split(TrimPrefix(key, root));
    if |parts| != 2 then Elsewhere
    else InFolder(parts[0],
        if parts[1] == ARCHIVE then ArchiveFile else if parts[1] == MANIFEST then ManifestFile else OtherFile)
  }

  datatype Found = Found(archive: bool, manifest: bool, unexpected: bool, size: int)

  ghost predicate Present(root: string, objects: seq<Object>, name: string, file: File) {
    exists o :: o in objects && SlotOf(root, o.key) == InFolder(name, file)
  }

  /** What the listing holds of one folder, whatever its order. */
  ghost predicate Shows(root: string, objects: seq<Object>, name: string, f: Found) {
    && f.archive == Present(root, objects, name, ArchiveFile)
    && f.manifest == Present(root, objects, name, ManifestFile)
    && f.unexpected == Present(root, objects, name, OtherFile)
    && (if f.archive then Sized(root, objects, name, f.size) else f.size == 0)
  }

  /** An archive of the folder has this size. */
  ghost predicate Sized(root: string, objects: seq<Object>, name: string, size: int) {
    exists o :: o in objects && SlotOf(root, o.key) == InFolder(name, ArchiveFile) && o.size == size
  }

  ghost predicate Named(root: string, objects: seq<Object>, name: string) {
    || Present(root, objects, name, ArchiveFile)
    || Present(root, objects, name, ManifestFile)
    || Present(root, objects, name, OtherFile)
  }

  datatype Listed = Listed(name: string, directory: string, takenAt: int, state: RowState, size: int)

  function Classified(root: string, name: string, f: Found): Listed {
    var t := ParseDirectorySegment(name);
    Listed(name, root + name, if t.Some? then t.value else ZERO_TIME,
           if t.None? || f.unexpected then Damaged
           else if f.archive && f.manifest then Complete else if f.archive then ArchiveOnly else ManifestOnly,
           f.size)
  }

  /** The four states in the layout's own terms: only a timestamp folder with exactly the two
      files is complete, and anything unexpected makes a folder damaged. */
  lemma StatesMean(root: string, objects: seq<Object>, name: string, f: Found)
    requires Shows(root, objects, name, f) && Named(root, objects, name)
    ensures var s := Classified(root, name, f).state; var other := Present(root, objects, name, OtherFile);
      var a, m := Present(root, objects, name, ArchiveFile), Present(root, objects, name, ManifestFile);
      && (s.Damaged? <==> DirOf(name).Odd? || other)
      && (s.Complete? <==> DirOf(name).At? && !other && a && m)
      && (s.ArchiveOnly? <==> DirOf(name).At? && !other && a && !m)
      && (s.ManifestOnly? <==> DirOf(name).At? && !other && !a && m)
  {
  }

  // ----- gathering -----

  /** A folder's record after one more object. */
  function Noted(f: Found, file: File, size: int): Found {
    match file
    case ArchiveFile => f.(archive := true, size := size)
    case ManifestFile => f.(manifest := true)
    case OtherFile => f.(unexpected := true)
  }

  lemma PresentMore(root: string, objects: seq<Object>, o: Object, name: string, file: File)
    ensures Present(root, objects + [o], name, file) <==>
      Present(root, objects, name, file) || SlotOf(root, o.key) == InFolder(name, file)
  {
    var all := objects + [o];
    assert forall x :: x in all <==> x in objects || x == o;
  }

  lemma SizedMore(root: string, objects: seq<Object>, o: Object, name: string, size: int)
    ensures Sized(root, objects + [o], name, size) <==>
      Sized(root, objects, name, size) || (SlotOf(root, o.key) == InFolder(name, ArchiveFile) && o.size == size)
  {
    var all := objects + [o];
    assert forall x :: x in all <==> x in objects || x == o;
  }

  /** One object changes the record of its own folder, and of no other. */
  lemma ShowsMore(root: string, objects: seq<Object>, o: Object, name: string, f: Found)
    requires Shows(root, objects, name, f)
    ensures var slot := SlotOf(root, o.key);
      Shows(root, objects + [o], name, if slot.InFolder? && slot.name == name then Noted(f, slot.file, o.size) else f)
  {
    PresentMore(root, objects, o, name, ArchiveFile);
    PresentMore(root, objects, o, name, ManifestFile);
    PresentMore(root, objects, o, name, OtherFile);
    SizedMore(root, objects, o, name, f.size);
    SizedMore(root, objects, o, name, o.size);
  }

  function Nothing(): Found { Found(false, false, false, 0) }

  function Lookup(found: map<string, Found>, name: string): Found { if name in found then found[name] else Nothing() }

  ghost predicate Gathered(root: string, objects: seq<Object>, found: map<string, Found>) {
    && (forall name :: name in found <==> Named(root, objects, name))
    && (forall name :: Shows(root, objects, name, Lookup(found, name)))
  }

  lemma GatherStep(root: string, objects: seq<Object>, o: Object, found: map<string, Found>, after: map<string, Found>)
    requires Gathered(root, objects, found)
    requires var slot := SlotOf(root, o.key);
      after == if slot.InFolder? then found[slot.name := Noted(Lookup(found, slot.name), slot.file, o.size)] else found
    ensures Gathered(root, objects + [o], after)
  {
    forall name
      ensures name in after <==> Named(root, objects + [o], name)
      ensures Shows(root, objects + [o], name, Lookup(after, name))
    {
      ShowsMore(root, objects, o, name, Lookup(found, name));
      PresentMore(root, objects, o, name, ArchiveFile);
      PresentMore(root, objects, o, name, ManifestFile);
      PresentMore(root, objects, o, name, OtherFile);
    }
  }

  /** The folders of a complete listing; deeper nesting is never touched. */
  method Gather(root: string, objects: seq<Object>) returns (found: map<string, Found>)
    ensures Gathered(root, objects, found)
  {
    found := map[];
    for i := 0 to |objects|
      invariant Gathered(root, objects[..i], found)
    {
      var o := objects[i];
      TakeSnoc(objects, i);
      ghost var before := found;
      var slot := SlotOf(root, o.key);
      if slot.InFolder? { found := found[slot.name := Noted(Lookup(found, slot.name), slot.file, o.size)]; }
      GatherStep(root, objects[..i], o, before, found);
    }
    TakeAll(objects);
  }

  /** With distinct keys a folder has one reading, so the listing's order does not matter. */
  lemma ReadingIsUnique(root: string, objects: seq<Object>, others: seq<Object>, name: string, f: Found, g: Found)
    requires (forall o :: o in objects <==> o in others) && Shows(root, objects, name, f)
    requires Shows(root, others, name, g)
    requires forall o, p | o in objects && p in objects &&
        SlotOf(root, o.key) == SlotOf(root, p.key) == InFolder(name, ArchiveFile) ::
      o.size == p.size
    ensures f == g
  {
  }

  // ----- order -----

  /** Newest first; folders of one moment in reverse text order. */
  predicate Precedes(a: Listed, b: Listed) {
    a.takenAt > b.takenAt || (a.takenAt == b.takenAt && TextLess(b.directory, a.directory))
  }

  lemma {:induction false} TextTotal(a: string, b: string)
    ensures TextLess(a, b) || TextLess(b, a) || a == b
    ensures !(TextLess(a, b) && TextLess(b, a))
  {
    if a != [] && b != [] {
      TextTotal(a[1..], b[1..]);
      assert a == [a[0]] + a[1..] && b == [b[0]] + b[1..];
    }
  }

  lemma {:induction false} TextTransitive(a: string, b: string, c: string)
    requires TextLess(a, b) && TextLess(b, c)
    ensures TextLess(a, c)
  {
    if a != [] && a[0] == b[0] && b[0] == c[0] { TextTransitive(a[1..], b[1..], c[1..]); }
  }

  lemma PrecedesTransitive(a: Listed, b: Listed, c: Listed)
    requires Precedes(a, b) && Precedes(b, c)
    ensures Precedes(a, c)
  {
    if a.takenAt == b.takenAt == c.takenAt { TextTransitive(c.directory, b.directory, a.directory); }
  }

  predicate IsFirst(root: string, names: set<string>, found: map<string, Found>, n: string) {
    && n in names
    && forall m | m in names && m != n ::
         Precedes(Classified(root, n, Lookup(found, n)), Classified(root, m, Lookup(found, m)))
  }

  lemma {:induction false} HasFirst(root: string, names: set<string>, found: map<string, Found>)
    requires names != {}
    ensures exists n :: IsFirst(root, names, found, n)
    decreases names
  {
    HasMember(names);
    var x :| x in names;
    var rest := names - {x};
    if rest == {} {
      assert names == {x};
      assert IsFirst(root, names, found, x);
    } else {
      HasFirst(root, rest, found);
      var c :| IsFirst(root, rest, found, c);
      FirstOfMore(root, rest, found, c, x);
      assert rest + {x} == names;
    }
  }

  lemma EitherPrecedes(root: string, found: map<string, Found>, x: string, c: string)
    requires x != c
    ensures
      || Precedes(Classified(root, x, Lookup(found, x)), Classified(root, c, Lookup(found, c)))
      || Precedes(Classified(root, c, Lookup(found, c)), Classified(root, x, Lookup(found, x)))
  {
    LessByParts(root, root, x, c);
    LessByParts(root, root, c, x);
    TextTotal(x, c);
  }

  lemma FirstOfMore(root: string, rest: set<string>, found: map<string, Found>, c: string, x: string)
    requires IsFirst(root, rest, found, c) && x !in rest
    ensures exists n :: IsFirst(root, rest + {x}, found, n)
  {
    var a, b := Classified(root, x, Lookup(found, x)), Classified(root, c, Lookup(found, c));
    EitherPrecedes(root, found, x, c);
    if Precedes(b, a) {
      assert IsFirst(root, rest + {x}, found, c);
    } else {
      forall m | m in rest + {x} && m != x ensures Precedes(a, Classified(root, m, Lookup(found, m))) {
        if m != c { PrecedesTransitive(a, b, Classified(root, m, Lookup(found, m))); }
      }
      assert IsFirst(root, rest + {x}, found, x);
    }
  }

  ghost predicate SortedPart(root: string, found: map<string, Found>, out: seq<Listed>, todo: set<string>) {
    && (forall i | 0 <= i < |out| ::
          && out[i].name in found && out[i].name !in todo
          && out[i] == Classified(root, out[i].name, Lookup(found, out[i].name)))
    && (forall i, name | 0 <= i < |out| && name in todo ::
          Precedes(out[i], Classified(root, name, Lookup(found, name))))
    && (forall i, j | 0 <= i < j < |out| :: out[i].name != out[j].name && Precedes(out[i], out[j]))
    && (forall name | name in found && name !in todo :: Classified(root, name, Lookup(found, name)) in out)
  }

  lemma SortedStep(root: string, found: map<string, Found>, out: seq<Listed>, todo: set<string>, name: string)
    requires SortedPart(root, found, out, todo) && todo <= found.Keys
    requires name in todo && IsFirst(root, todo, found, name)
    ensures SortedPart(root, found, out + [Classified(root, name, Lookup(found, name))], todo - {name})
  {
    var e := Classified(root, name, Lookup(found, name));
    var next := out + [e];
    assert next[|out|] == e && next[..|out|] == out;
    forall i, n | 0 <= i < |next| && n in todo - {name}
      ensures Precedes(next[i], Classified(root, n, Lookup(found, n)))
    {
      assert i < |out| ==> next[i] == out[i];
    }
    forall n | n in found && n !in todo - {name}
      ensures Classified(root, n, Lookup(found, n)) in next
    {
      assert n == name || Classified(root, n, Lookup(found, n)) in out;
    }
  }

  /** One entry per folder, classified by what it holds, newest first. */
  method EntriesFrom(root: string, objects: seq<Object>) returns (out: seq<Listed>, ghost found: map<string, Found>)
    ensures Gathered(root, objects, found) && SortedPart(root, found, out, {})
  {
    var gathered := Gather(root, objects);
    found := gathered;
    out := [];
    var todo := gathered.Keys;
    while todo != {}
      invariant todo <= gathered.Keys && SortedPart(root, gathered, out, todo)
      decreases todo
    {
      HasFirst(root, todo, gathered);
      var name :| name in todo && IsFirst(root, todo, gathered, name);
      SortedStep(root, gathered, out, todo, name);
      out, todo := out + [Classified(root, name, Lookup(gathered, name))], todo - {name};
    }
  }
}
