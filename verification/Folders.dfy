/**
 The same folder at three levels: the keys of a listing, the classified entries
 made from them, and the bucket the worker's protocol speaks of.
 */
module Folders {
  import opened Records
  import opened Layout
  import opened Listing
  import BucketProtocol
  import Cache

  /** b holds exactly the files these objects are. */
  ghost predicate Abstracts(b: BucketProtocol.Bucket, root: string, objects: seq<Object>) {
    && (forall name :: DirOf(name) in b.archives <==> Present(root, objects, name, ArchiveFile))
    && (forall name :: DirOf(name) in b.manifests <==> Present(root, objects, name, ManifestFile))
    && (forall name :: DirOf(name) in b.unexpected <==> Present(root, objects, name, OtherFile))
    && (forall d | d in BucketProtocol.Folders(b) :: exists name :: DirOf(name) == d)
  }

  /** A classified folder as the reconciler takes it up. */
  function AsEntry(l: Listed): Cache.Entry { Cache.Entry(DirOf(l.name), l.state, l.size) }

  lemma SameState(b: BucketProtocol.Bucket, root: string, objects: seq<Object>, name: string, f: Found)
    requires Abstracts(b, root, objects) && Shows(root, objects, name, f) && Named(root, objects, name)
    ensures DirOf(name) in BucketProtocol.Folders(b)
    ensures Classified(root, name, f).state == BucketProtocol.StateOf(b, DirOf(name))
    ensures Classified(root, name, f).takenAt == TakenAt(DirOf(name))
  {
    StatesMean(root, objects, name, f);
  }

  /** What the layout rules make of a listing is, folder by folder, what the protocol's listing of
      the bucket says: the same folders, each once, in the same states and with the same times. */
  lemma ListingIsBucket(b: BucketProtocol.Bucket, root: string, objects: seq<Object>, found: map<string, Found>,
                        out: seq<Listed>)
    requires Abstracts(b, root, objects) && Gathered(root, objects, found) && SortedPart(root, found, out, {})
    ensures forall i | 0 <= i < |out| ::
      && DirOf(out[i].name) in BucketProtocol.Listing(b)
      && AsEntry(out[i]).state == BucketProtocol.Listing(b)[DirOf(out[i].name)].state
      && out[i].takenAt == TakenAt(DirOf(out[i].name))
    ensures forall i, j | 0 <= i < j < |out| :: AsEntry(out[i]).dir != AsEntry(out[j]).dir
    ensures forall d | d in BucketProtocol.Listing(b) :: exists l :: l in out && AsEntry(l).dir == d
  {
    forall i | 0 <= i < |out| ensures DirOf(out[i].name) in BucketProtocol.Folders(b)
      ensures out[i].state == BucketProtocol.StateOf(b, DirOf(out[i].name))
      ensures out[i].takenAt == TakenAt(DirOf(out[i].name))
    {
      SameState(b, root, objects, out[i].name, Listing.Lookup(found, out[i].name));
    }
    forall i, j | 0 <= i < j < |out|
      ensures AsEntry(out[i]).dir != AsEntry(out[j]).dir
    {
      DirsAreDistinct(out[i].name, out[j].name);
    }
    forall d | d in BucketProtocol.Folders(b) ensures exists l :: l in out && AsEntry(l).dir == d {
      var name :| DirOf(name) == d;
      assert Named(root, objects, name);
      assert Classified(root, name, Listing.Lookup(found, name)) in out;
    }
  }
}
