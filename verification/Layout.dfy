/**
 Where backups live in the bucket: <root><database>/<timestamp>/, with an archive
 and a manifest in each folder; root is the configured folder, ending in a slash.
 */
module Layout {
  import opened Calendar
  import opened Records

  const ARCHIVE := "archive.dump"
  const MANIFEST := "manifest.json"

  // ----- the name of a folder -----

  predicate Digit(c: char) { '0' <= c <= '9' }

  function Value(c: char): int
    requires Digit(c)
  {
    (c - '0') as int
  }

  function Figure(n: int): (c: char)
    requires 0 <= n <= 9
    ensures Digit(c) && Value(c) == n
  {
    '0' + (n as char)
  }

  function Two(n: int): (s: string)
    requires 0 <= n <= 99
    ensures |s| == 2
  {
    [Figure(n / 10), Figure(n % 10)]
  }

  function Four(n: int): (s: string)
    requires 0 <= n <= 9999
    ensures |s| == 4
  {
    Two(n / 100) + Two(n % 100)
  }

  function Format(c: Civil): (s: string)
    requires Valid(c)
    ensures |s| == 16
  {
    Four(c.year) + (Two(c.month) + (Two(c.day) + ("T" + (Two(c.hour) + (Two(c.minute) + (Two(c.second) + "Z"))))))
  }

  function Pair(a: char, b: char): int
    requires Digit(a) && Digit(b)
  {
    10 * Value(a) + Value(b)
  }

  /** Eight digits, a T, six digits, a Z. */
  predicate Shaped(s: string) {
    |s| == 16 && s[8] == 'T' && s[15] == 'Z' && forall i | 0 <= i < 15 && i != 8 :: Digit(s[i])
  }

  function Reading(s: string): Civil
    requires Shaped(s)
  {
    Civil(100 * Pair(s[0], s[1]) + Pair(s[2], s[3]), Pair(s[4], s[5]), Pair(s[6], s[7]),
          Pair(s[9], s[10]), Pair(s[11], s[12]), Pair(s[13], s[14]))
  }

  /** A folder name is a real UTC second in that form, or nothing. */
  function ParseDirectorySegment(s: string): Option<int> {
    if Shaped(s) && Valid(Reading(s)) then Some(SecondOf(Reading(s))) else None
  }

  function Folder(t: int): string
    requires InRange(t)
  {
    DateOfSecond(t);
    Format(CivilOf(t))
  }

  lemma TwoReads(n: int)
    requires 0 <= n <= 99
    ensures Digit(Two(n)[0]) && Digit(Two(n)[1]) && Pair(Two(n)[0], Two(n)[1]) == n
  {
  }

  lemma FormatReads(c: Civil)
    requires Valid(c)
    ensures Shaped(Format(c)) && Reading(Format(c)) == c
  {
    var s := Format(c);
    TwoReads(c.year / 100);
    TwoReads(c.year % 100);
    TwoReads(c.month);
    TwoReads(c.day);
    TwoReads(c.hour);
    TwoReads(c.minute);
    TwoReads(c.second);
    assert
      && s[0..2] == Two(c.year / 100) && s[2..4] == Two(c.year % 100) && s[4..6] == Two(c.month)
      && s[6..8] == Two(c.day);
    assert s[9..11] == Two(c.hour) && s[11..13] == Two(c.minute) && s[13..15] == Two(c.second);
    assert s[8] == 'T' && s[15] == 'Z';
    assert forall i | 0 <= i < 15 && i != 8 :: Digit(s[i]) by {
      assert s[0] == s[0..2][0] && s[1] == s[0..2][1] && s[2] == s[2..4][0] && s[3] == s[2..4][1];
      assert s[4] == s[4..6][0] && s[5] == s[4..6][1] && s[6] == s[6..8][0] && s[7] == s[6..8][1];
      assert s[9] == s[9..11][0] && s[10] == s[9..11][1] && s[11] == s[11..13][0] && s[12] == s[11..13][1];
      assert s[13] == s[13..15][0] && s[14] == s[13..15][1];
    }
  }

  lemma PairWrites(a: char, b: char)
    requires Digit(a) && Digit(b)
    ensures 0 <= Pair(a, b) <= 99 && Two(Pair(a, b)) == [a, b]
  {
  }

  lemma ReadingFormats(s: string)
    requires Shaped(s) && Valid(Reading(s))
    ensures Format(Reading(s)) == s
  {
    var c := Reading(s);
    PairWrites(s[0], s[1]);
    PairWrites(s[2], s[3]);
    PairWrites(s[4], s[5]);
    PairWrites(s[6], s[7]);
    PairWrites(s[9], s[10]);
    PairWrites(s[11], s[12]);
    PairWrites(s[13], s[14]);
    assert c.year / 100 == Pair(s[0], s[1]) && c.year % 100 == Pair(s[2], s[3]);
    assert Format(c) == [s[0], s[1], s[2], s[3], s[4], s[5], s[6], s[7],
      'T', s[9], s[10], s[11], s[12], s[13], s[14], 'Z'];
  }

  /** Every second of the years 0000 to 9999 is read back from its folder name. */
  lemma FolderReadsBack(t: int)
    requires InRange(t)
    ensures ParseDirectorySegment(Folder(t)) == Some(t)
  {
    DateOfSecond(t);
    FormatReads(CivilOf(t));
  }

  /** And a name that reads as a second is that second's folder name. */
  lemma NameIsItsFolder(s: string)
    requires ParseDirectorySegment(s).Some?
    ensures InRange(ParseDirectorySegment(s).value) && Folder(ParseDirectorySegment(s).value) == s
  {
    DateIsInRange(Reading(s));
    ReadingFormats(s);
  }

  function DirOf(name: string): Dir {
    var t := ParseDirectorySegment(name);
    if t.Some? then At(t.value) else Odd(name)
  }

  /** Distinct folders are told apart by what their names read as. */
  lemma DirsAreDistinct(a: string, b: string)
    ensures DirOf(a) == DirOf(b) <==> a == b
  {
    if ParseDirectorySegment(a).Some? { NameIsItsFolder(a); }
    if ParseDirectorySegment(b).Some? { NameIsItsFolder(b); }
  }

  // ----- text order -----

  predicate TextLess(a: string, b: string) {
    b != [] && (a == [] || a[0] < b[0] || (a[0] == b[0] && TextLess(a[1..], b[1..])))
  }

  lemma {:induction false} LessByParts(x: string, y: string, u: string, v: string)
    requires |x| == |y|
    ensures TextLess(x + u, y + v) <==> TextLess(x, y) || (x == y && TextLess(u, v))
  {
    if x == [] {
      assert x + u == u && y + v == v;
    } else {
      assert (x + u)[1..] == x[1..] + u && (y + v)[1..] == y[1..] + v;
      LessByParts(x[1..], y[1..], u, v);
      assert x == [x[0]] + x[1..] && y == [y[0]] + y[1..];
    }
  }

  lemma TwoLess(m: int, n: int)
    requires 0 <= m <= 99 && 0 <= n <= 99
    ensures TextLess(Two(m), Two(n)) <==> m < n
    ensures Two(m) == Two(n) <==> m == n
  {
    TwoReads(m);
    TwoReads(n);
    var a, b := Two(m), Two(n);
    assert a[1..] == [a[1]] && b[1..] == [b[1]] && a[1..][1..] == [] && b[1..][1..] == [];
    assert TextLess(a[1..], b[1..]) <==> a[1] < b[1];
  }

  lemma FourLess(m: int, n: int)
    requires 0 <= m <= 9999 && 0 <= n <= 9999
    ensures TextLess(Four(m), Four(n)) <==> m < n
    ensures Four(m) == Four(n) <==> m == n
  {
    TwoLess(m / 100, n / 100);
    TwoLess(m % 100, n % 100);
    LessByParts(Two(m / 100), Two(n / 100), Two(m % 100), Two(n % 100));
    assert Four(m)[..2] == Two(m / 100) && Four(m)[2..] == Two(m % 100);
    assert Four(n)[..2] == Two(n / 100) && Four(n)[2..] == Two(n % 100);
  }

  lemma TimeLess(a: Civil, b: Civil)
    requires Valid(a) && Valid(b)
    ensures TextLess(Two(a.hour) + (Two(a.minute) + (Two(a.second) + "Z")),
                     Two(b.hour) + (Two(b.minute) + (Two(b.second) + "Z"))) <==>
      Clock(a) < Clock(b)
  {
    TwoLess(a.hour, b.hour);
    TwoLess(a.minute, b.minute);
    TwoLess(a.second, b.second);
    LessByParts(Two(a.hour), Two(b.hour), Two(a.minute) + (Two(a.second) + "Z"), Two(b.minute) + (Two(b.second) + "Z"));
    LessByParts(Two(a.minute), Two(b.minute), Two(a.second) + "Z", Two(b.second) + "Z");
    LessByParts(Two(a.second), Two(b.second), "Z", "Z");
    assert !TextLess("Z", "Z");
  }

  lemma TextFollowsDates(a: Civil, b: Civil)
    requires Valid(a) && Valid(b)
    ensures TextLess(Format(a), Format(b)) <==> Before(a, b)
  {
    var ta, tb := Two(a.hour) + (Two(a.minute) + (Two(a.second) + "Z")),
      Two(b.hour) + (Two(b.minute) + (Two(b.second) + "Z"));
    FourLess(a.year, b.year);
    TwoLess(a.month, b.month);
    TwoLess(a.day, b.day);
    TimeLess(a, b);
    LessByParts(Four(a.year), Four(b.year), Two(a.month) + (Two(a.day) + ("T" + ta)),
                Two(b.month) + (Two(b.day) + ("T" + tb)));
    LessByParts(Two(a.month), Two(b.month), Two(a.day) + ("T" + ta), Two(b.day) + ("T" + tb));
    LessByParts(Two(a.day), Two(b.day), "T" + ta, "T" + tb);
    LessByParts("T", "T", ta, tb);
    assert !TextLess("T", "T");
  }

  /** Newest first is exactly reverse text order of the folder names. */
  lemma NewestFirstIsReverseText(s: int, t: int)
    requires InRange(s) && InRange(t)
    ensures s < t <==> TextLess(Folder(s), Folder(t))
  {
    DateOfSecond(s);
    DateOfSecond(t);
    TextFollowsDates(CivilOf(s), CivilOf(t));
    SecondsFollowDates(CivilOf(s), CivilOf(t));
  }

  // ----- keys -----

  predicate Plain(s: string) { '/' !in s }

  /** A lower-case letter, then up to 62 letters, digits and underscores. */
  predicate ValidDatabaseSegment(name: string) {
    && 1 <= |name| <= 63 && 'a' <= name[0] <= 'z'
    && forall i | 0 <= i < |name| :: 'a' <= name[i] <= 'z' || '0' <= name[i] <= '9' || name[i] == '_'
  }

  function Split(s: string): (parts: seq<string>)
    ensures |parts| >= 1
  {
    if s == [] then [""]
    else
      var rest := Split(s[1..]);
      if s[0] == '/' then [""] + rest else [[s[0]] + rest[0]] + rest[1..]
  }

  function Join(parts: seq<string>): string
    requires |parts| >= 1
  {
    if |parts| == 1 then parts[0] else parts[0] + ("/" + Join(parts[1..]))
  }

  /** Splitting is exact: the parts hold no slash, and joining them gives the text back. */
  lemma {:induction false} SplitJoins(s: string)
    ensures Join(Split(s)) == s && forall i | 0 <= i < |Split(s)| :: Plain(Split(s)[i])
  {
    if s != [] {
      SplitJoins(s[1..]);
      var rest := Split(s[1..]);
      if s[0] == '/' {
        assert ([""] + rest)[1..] == rest;
      } else {
        assert ([[s[0]] + rest[0]] + rest[1..])[1..] == rest[1..];
        assert s == [s[0]] + s[1..];
      }
    }
  }

  lemma {:induction false} SplitPlain(a: string, b: string)
    requires Plain(a)
    ensures Split(a + ("/" + b)) == [a] + Split(b)
    ensures Split(a) == [a]
  {
    if a == [] {
      assert a + ("/" + b) == "/" + b && ("/" + b)[1..] == b;
    } else {
      assert (a + ("/" + b))[1..] == a[1..] + ("/" + b);
      SplitPlain(a[1..], b);
      assert a == [a[0]] + a[1..];
    }
  }

  lemma SplitThree(a: string, b: string, c: string)
    requires Plain(a) && Plain(b) && Plain(c)
    ensures Split(a + ("/" + (b + ("/" + c)))) == [a, b, c]
  {
    SplitPlain(a, b + ("/" + c));
    SplitPlain(b, c);
    SplitPlain(c, "");
  }

  lemma JoinThree(parts: seq<string>)
    requires |parts| == 3
    ensures Join(parts) == parts[0] + ("/" + (parts[1] + ("/" + parts[2])))
  {
    assert Join(parts[1..]) == parts[1] + ("/" + Join(parts[1..][1..]));
    assert Join(parts[1..][1..]) == parts[2];
  }

  function BackupKey(root: string, db: string, t: int): string
    requires InRange(t)
  {
    root + (db + ("/" + Folder(t)))
  }

  function ManifestKey(directory: string): string { directory + ("/" + MANIFEST) }
  function ArchiveKey(directory: string): string { directory + ("/" + ARCHIVE) }

  datatype Entry = Entry(directory: string, manifestKey: string, archiveKey: string, takenAt: int)

  predicate HasPrefix(s: string, prefix: string) { prefix <= s }

  function TrimPrefix(s: string, prefix: string): string { if HasPrefix(s, prefix) then s[|prefix|..] else s }

  /** An entry rebuilt from a manifest key, or nothing for a key outside the layout. */
  function EntryFor(root: string, key: string): Option<Entry> {
    var parts := Split(TrimPrefix(key, root));
    if !HasPrefix(key, root) || |parts| != 3 || parts[2] != MANIFEST || !ValidDatabaseSegment(parts[0]) then None
    else
      var t := ParseDirectorySegment(parts[1]);
      if t.None? then None
      else
        var directory := root + (parts[0] + ("/" + parts[1]));
        Some(Entry(directory, key, ArchiveKey(directory), t.value))
  }

  lemma FolderIsPlain(t: int)
    requires InRange(t)
    ensures Plain(Folder(t))
  {
    DateOfSecond(t);
    FormatReads(CivilOf(t));
    var s := Folder(t);
    forall i | 0 <= i < |s| ensures s[i] != '/' { assert i == 8 || i == 15 || Digit(s[i]); }
  }

  lemma Rebuilds(root: string, db: string, f: string, file: string)
    requires ValidDatabaseSegment(db) && Plain(f) && Plain(file)
    ensures var key := (root + (db + ("/" + f))) + ("/" + file);
      HasPrefix(key, root) && Split(TrimPrefix(key, root)) == [db, f, file]
  {
    var rest := db + ("/" + (f + ("/" + file)));
    var key := (root + (db + ("/" + f))) + ("/" + file);
    assert key == root + rest;
    assert key[|root|..] == rest;
    SplitThree(db, f, file);
  }

  /** What publication wrote is found again: same directory, same archive, same second. */
  lemma KeyRoundTrip(root: string, db: string, t: int)
    requires ValidDatabaseSegment(db) && InRange(t)
    ensures var directory := BackupKey(root, db, t);
      EntryFor(root, ManifestKey(directory)) == Some(Entry(directory, ManifestKey(directory), ArchiveKey(directory), t))
  {
    FolderIsPlain(t);
    FolderReadsBack(t);
    Rebuilds(root, db, Folder(t), MANIFEST);
  }

  /** And nothing else is: an entry is only ever rebuilt from a key publication could have written. */
  lemma OnlyOurKeys(root: string, key: string)
    requires EntryFor(root, key).Some?
    ensures var e := EntryFor(root, key).value; var db := Split(TrimPrefix(key, root))[0];
      && ValidDatabaseSegment(db) && InRange(e.takenAt)
      && e.directory == BackupKey(root, db, e.takenAt) && key == ManifestKey(e.directory)
  {
    var rest := TrimPrefix(key, root);
    var parts := Split(rest);
    SplitJoins(rest);
    NameIsItsFolder(parts[1]);
    JoinThree(parts);
    assert key == root + rest;
  }

  /** Distinct databases or seconds have distinct directories. */
  lemma KeysAreDistinct(root: string, db1: string, t1: int, db2: string, t2: int)
    requires ValidDatabaseSegment(db1) && ValidDatabaseSegment(db2) && InRange(t1) && InRange(t2)
    ensures BackupKey(root, db1, t1) == BackupKey(root, db2, t2) <==> db1 == db2 && t1 == t2
  {
    if BackupKey(root, db1, t1) == BackupKey(root, db2, t2) {
      KeyRoundTrip(root, db1, t1);
      KeyRoundTrip(root, db2, t2);
      var a, b := db1 + ("/" + Folder(t1)), db2 + ("/" + Folder(t2));
      assert BackupKey(root, db1, t1)[|root|..] == a && BackupKey(root, db2, t2)[|root|..] == b;
      assert a[..|a| - 17] == db1 && b[..|b| - 17] == db2;
    }
  }

  // ----- a manifest and its folder -----

  /** The index of the last slash, or -1. */
  function LastSlash(s: string): (i: int)
    ensures -1 <= i < |s|
  {
    if s == [] then -1 else if s[|s| - 1] == '/' then |s| - 1 else LastSlash(s[..|s| - 1])
  }

  function Parent(directory: string): string {
    var i := LastSlash(directory); if i > 0 then directory[..i] else directory
  }

  function DirectoryName(directory: string): string { directory[LastSlash(directory) + 1..] }

  predicate HasSuffix(s: string, suffix: string) { |suffix| <= |s| && s[|s| - |suffix|..] == suffix }

  datatype ManifestText = ManifestText(version: int, manifestKey: string, archiveKey: string,
                                       db: string, createdAt: int)

  /** The contents of a manifest agree with the folder that holds it. */
  predicate CheckManifest(m: ManifestText, e: Entry) {
    && m.version == 1 && m.manifestKey == e.manifestKey && m.archiveKey == e.archiveKey
    && ValidDatabaseSegment(m.db) && HasSuffix(Parent(e.directory), "/" + m.db)
    && InRange(m.createdAt) && Folder(m.createdAt) == DirectoryName(e.directory)
  }

  lemma {:induction false} LastSlashOf(a: string, b: string)
    requires Plain(b)
    ensures LastSlash(a + ("/" + b)) == |a|
  {
    var s := a + ("/" + b);
    if b == [] {
      assert s[|s| - 1] == '/';
    } else {
      assert s[|s| - 1] == b[|b| - 1];
      assert s[..|s| - 1] == a + ("/" + b[..|b| - 1]);
      LastSlashOf(a, b[..|b| - 1]);
    }
  }

  lemma ParentOf(parent: string, name: string)
    requires parent != [] && Plain(name)
    ensures Parent(parent + ("/" + name)) == parent && DirectoryName(parent + ("/" + name)) == name
  {
    LastSlashOf(parent, name);
  }

  lemma SameTail(a: string, b: string, c: string, d: string)
    requires Plain(b) && Plain(d) && a + ("/" + b) == c + ("/" + d)
    ensures b == d
  {
    LastSlashOf(a, b);
    LastSlashOf(c, d);
    assert b == (a + ("/" + b))[|a| + 1..];
    assert d == (c + ("/" + d))[|c| + 1..];
  }

  /** After the last slash of a text ending in a plain segment there is only that segment. */
  lemma SuffixIsSegment(root: string, db: string, other: string)
    requires root != [] && root[|root| - 1] == '/' && Plain(db) && Plain(other)
    ensures HasSuffix(root + db, "/" + other) <==> other == db
  {
    var s, suffix, front := root + db, "/" + other, root[..|root| - 1];
    assert s == front + ("/" + db);
    if other == db { assert s[|front|..] == suffix; }
    if HasSuffix(s, suffix) {
      assert s == s[..|s| - |suffix|] + suffix;
      SameTail(s[..|s| - |suffix|], other, front, db);
    }
  }

  lemma SegmentIsPlain(name: string)
    requires ValidDatabaseSegment(name)
    ensures Plain(name)
  {
    forall i | 0 <= i < |name| ensures name[i] != '/' {}
  }

  /** Only the manifest that publication wrote for this folder passes. */
  lemma ManifestBelongs(root: string, db: string, t: int, m: ManifestText)
    requires root != [] && root[|root| - 1] == '/' && ValidDatabaseSegment(db) && InRange(t)
    ensures var directory := BackupKey(root, db, t);
      CheckManifest(m, Entry(directory, ManifestKey(directory), ArchiveKey(directory), t)) <==>
      m == ManifestText(1, ManifestKey(directory), ArchiveKey(directory), db, t)
  {
    var directory := BackupKey(root, db, t);
    FolderIsPlain(t);
    assert directory == (root + db) + ("/" + Folder(t));
    ParentOf(root + db, Folder(t));
    SegmentIsPlain(db);
    if ValidDatabaseSegment(m.db) { SegmentIsPlain(m.db); SuffixIsSegment(root, db, m.db); }
    FolderReadsBack(t);
    if InRange(m.createdAt) { FolderReadsBack(m.createdAt); }
  }
}
