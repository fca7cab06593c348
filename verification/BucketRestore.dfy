/** A bucket's archives in a repository, and a restore that takes its own first. */
module BucketRestore {
  import opened Wrappers
  import opened Tarball
  import opened TarballRoundTrip
  import opened TarWriter
  import opened Bucket

  datatype Failure =
    /** Nothing was touched. */
    | Refused
    /** The bucket was being written; what it held is the snapshot `before`. */
    | Interrupted(before: string)

  class Repository {
    var archives: map<string, Blob>
    /** The ids the state recorded: what a restore takes unasked. */
    var taken: set<string>

    constructor ()
      ensures Valid() && archives == map[] && taken == {}
    {
      archives, taken := map[], {};
    }

    /** Whatever else the repository holds, what is recorded is the whole of a bucket. */
    ghost predicate Valid()
      reads this
    {
      forall id | id in taken :: id in archives && IsWhole(archives[id])
    }

    method Save(id: string, bytes: Blob)
      requires Valid() && id !in archives
      modifies this`archives
      ensures Valid() && archives == old(archives)[id := bytes]
    {
      archives := archives[id := bytes];
    }

    /** What was read, saved as `id`; part of it saved when the reading failed is forgotten, if
        it can be. */
    method BackUp(read: seq<Option<Opened>>, id: string) returns (saved: bool)
      requires Valid() && id !in archives
      modifies this
      ensures Valid() && taken == old(taken)
      ensures forall other | other in old(archives) :: other in archives && archives[other] == old(archives)[other]
      ensures saved ==>
                (forall o | o in read :: Archivable(o)) && id in archives && archives[id] == Archive(Archived(read))
    {
      var archive := WriteArchive(read);
      if archive.Some? {
        saved := *;
        if saved { Save(id, archive.value); }
      } else {
        var part, forgotten, bytes: Blob := *, *, *;
        if part && !forgotten { Save(id, bytes); }
        saved := false;
      }
    }

    /** Recorded only once the whole of it was read and saved. */
    method Snapshot(read: seq<Option<Opened>>, id: string) returns (ok: bool)
      requires Valid() && id !in archives
      modifies this
      ensures Valid()
      ensures forall other | other in old(archives) :: other in archives && archives[other] == old(archives)[other]
      ensures taken == old(taken) || taken == old(taken) + {id}
      ensures ok ==> id in taken && (forall o | o in read :: Archivable(o)) && archives[id] == Archive(Archived(read))
      ensures (exists o :: o in read && !Archivable(o)) ==> !ok && taken == old(taken)
    {
      ok := BackUp(read, id);
      if !ok { return; }
      var recorded := *;
      if recorded {
        taken := taken + {id};
        assert IsWhole(archives[id]);
      }
      ok := recorded;
    }

    /** `read`: the bucket as it is, read for the copy taken first. */
    method RestoreInPlace(b: Bucket, source: string, read: seq<Option<Opened>>, id: string, dumped: bool)
      returns (r: Result<string, Failure>)
      requires Valid() && id !in archives && source in archives
      requires (forall o | o in read :: Archivable(o)) ==> IsListing(Archived(read), b.contents)
      modifies this, b
      ensures Valid()
      ensures r == Err(Refused) ==> b.contents == old(b.contents)
      // Otherwise the copy of what it held is there and recorded, and the bucket is the one
      // archived, or was being made so.
      ensures r != Err(Refused) ==>
                id in taken && id in archives && IsArchiveOf(archives[id], old(b.contents))
      // Interrupted: nothing was deleted yet, or every object of a whole archive is in place.
      ensures r.Err? && r.error.Interrupted? ==>
                && r.error.before == id
                && (old(b.contents).Keys <= b.contents.Keys || HoldsArchived(b.contents, old(archives)[source]))
      ensures r.Err? && r.error.Interrupted? && (!dumped || !ReadAll(TarReader(), old(archives)[source], 0).whole) ==>
                old(b.contents).Keys <= b.contents.Keys
      ensures r.Ok? ==> r.value == id && RestoredFrom(b.contents, old(archives)[source])
    {
      var ok := Snapshot(read, id);
      if !ok { return Err(Refused); }
      assert IsArchiveOf(archives[id], b.contents);
      var restored := b.Restore(archives[source], dumped);
      r := if restored then Ok(id) else Err(Interrupted(id));
    }
  }

  ghost predicate IsWhole(archive: Blob) {
    exists read: seq<Option<Opened>> :: (forall o | o in read :: Archivable(o)) && archive == Archive(Archived(read))
  }

  ghost predicate IsArchiveOf(archive: Blob, contents: Contents) {
    exists objects: seq<Object> :: IsListing(objects, contents) && archive == Archive(objects)
  }

  predicate RestoredFrom(contents: Contents, archive: Blob) {
    var r := ReadAll(TarReader(), archive, 0);
    r.whole && contents == PutAll(map[], r.objects)
  }

  /** Undone: what a bucket is restored to from the copy taken first is what it was. */
  lemma UndoneByTheCopy(was: Contents, objects: seq<Object>, became: Contents)
    requires IsListing(objects, was) && (forall o | o in objects :: Writable(EntryOf(o)))
    requires |objects| < 0x1_0000_0000_0000_0000 && RestoredFrom(became, Archive(objects))
    ensures became == was
  {
    var archive := Archive(objects);
    assert archive[..|archive|] == archive;
    RestoredIsWhatWasArchived(was, objects, |archive|);
  }
}
