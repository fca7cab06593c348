/** A bucket that goes into one archive, and is made again of it. */
module Bucket {
  import opened Wrappers
  import opened Tarball
  import opened TarballRoundTrip
  import Bytes

  datatype Stored = Stored(headers: seq<(Blob, Blob)>, content: Blob)

  type Contents = map<Blob, Stored>

  /** Objects put one after another: of two under one key, the last stays. */
  function PutAll(contents: Contents, objects: seq<Object>): Contents {
    if objects == [] then contents
    else
      var n := |objects| - 1;
      PutAll(contents, objects[..n])[objects[n].path := Stored(objects[n].headers, objects[n].content)]
  }

  function Keys(objects: seq<Object>): set<Blob> {
    set o | o in objects :: o.path
  }

  lemma {:induction false} PutAllKeys(contents: Contents, objects: seq<Object>)
    ensures PutAll(contents, objects).Keys == contents.Keys + Keys(objects)
  {
    if objects != [] {
      var n := |objects| - 1;
      PutAllKeys(contents, objects[..n]);
      assert objects == objects[..n] + [objects[n]];
    }
  }

  /** What a bucket held before shows only under keys that were not put. */
  lemma {:induction false} PutOver(contents: Contents, objects: seq<Object>, key: Blob)
    requires key in Keys(objects)
    ensures key in PutAll(contents, objects) && key in PutAll(map[], objects)
    ensures PutAll(contents, objects)[key] == PutAll(map[], objects)[key]
  {
    var n := |objects| - 1;
    var rest, last := objects[..n], objects[n];
    assert objects == rest + [last];
    if key != last.path {
      assert key in Keys(rest);
      PutOver(contents, rest, key);
    }
  }

  lemma NextPut(contents: Contents, before: seq<Object>, o: Object)
    ensures PutAll(contents, before + [o]) == PutAll(contents, before)[o.path := Stored(o.headers, o.content)]
  {
    assert (before + [o])[..|before|] == before;
  }

  // ---- The bucket ------------------------------------------------------------------

  class Bucket {
    var contents: Contents
    /** The store answered an error. */
    ghost var refused: bool

    constructor (contents: Contents)
      ensures this.contents == contents && !refused
    {
      this.contents, refused := contents, false;
    }

    /** An object refused may be there all the same. */
    method Put(o: Object) returns (ok: bool)
      modifies this
      ensures contents == old(contents) || contents == old(contents)[o.path := Stored(o.headers, o.content)]
      ensures ok ==> contents == old(contents)[o.path := Stored(o.headers, o.content)]
      ensures refused == (old(refused) || !ok)
    {
      var reached, answered := *, *;
      if reached { contents := contents[o.path := Stored(o.headers, o.content)]; }
      ok := reached && answered;
      refused := refused || !ok;
    }

    method Delete(key: Blob) returns (ok: bool)
      modifies this
      ensures contents == old(contents) || contents == old(contents) - {key}
      ensures ok ==> contents == old(contents) - {key}
      ensures refused == (old(refused) || !ok)
    {
      var reached, answered := *, *;
      if reached { contents := contents - {key}; }
      ok := reached && answered;
      refused := refused || !ok;
    }

    /** One object put; cut short, what was sent of it is refused by its length. True when its
        padding follows too. */
    method WriteOne(input: Blob, e: Entry, n: nat) returns (ok: bool)
      modifies this
      ensures old(contents).Keys <= contents.Keys
      ensures ok ==> |input| >= n + e.size + Padding(e.size)
                     && contents == old(contents)[e.path := Stored(e.headers, input[n..n + e.size])]
      ensures ok ==> refused == old(refused)
      ensures !ok ==> refused || |input| < n + e.size + Padding(e.size)
    {
      var end := n + e.size;
      if |input| < end { return false; }
      ok := Put(Object(e.path, e.mtime, e.headers, input[n..end]));
      ok := ok && |input| >= end + Padding(e.size);
    }

    /** Every object of the archive put, as it is read: their keys; nothing when one could not
        be, or when the archive is not whole. */
    method WriteBack(next: Reader, archive: Blob) returns (kept: Option<set<Blob>>)
      modifies this
      ensures old(contents).Keys <= contents.Keys
      ensures kept.Some? ==>
                var r := ReadAll(next, archive, 0);
                r.whole && contents == PutAll(old(contents), r.objects) && kept.value == Keys(r.objects)
      ensures kept.Some? ==> refused == old(refused)
      ensures kept.None? ==> refused || !ReadAll(next, archive, 0).whole
    {
      var input, done: seq<Object> := archive, [];
      while true
        invariant contents == PutAll(old(contents), done) && old(contents).Keys <= contents.Keys
        invariant LeftToRead(next, archive, input, done) && refused == old(refused)
        decreases |input|
      {
        match next(input, |done|) {
          case None => return None;
          case Some((TheEnd, _)) =>
            NothingLeft(next, archive, input, done);
            return Some(Keys(done));
          case Some((AnObject(e), n)) =>
            if n == 0 { return None; }
            CutHere(next, input, e, n, |done|);
            var ok := WriteOne(input, e, n);
            if !ok { return None; }
            var o, after := Object(e.path, e.mtime, e.headers, input[n..n + e.size]), n + e.size + Padding(e.size);
            NextPut(old(contents), done, o);
            LessLeft(next, archive, input, done, e, n);
            done, input := done + [o], input[after..];
        }
      }
    }

    /** Keys the archive does not say are deleted, now that it came to its trailer; `listed`: the
        bucket, as it is then. */
    method DeleteOthers(kept: set<Blob>, listed: seq<Blob>) returns (ok: bool)
      modifies this
      ensures forall key | key in contents :: key in old(contents) && contents[key] == old(contents)[key]
      ensures forall key | key in old(contents) && key in kept :: key in contents
      ensures ok ==> forall key | key in listed && key !in kept :: key !in contents
      ensures refused == (old(refused) || !ok)
    {
      for i := 0 to |listed|
        invariant refused == old(refused)
        invariant forall key | key in contents :: key in old(contents) && contents[key] == old(contents)[key]
        invariant forall key | key in old(contents) && key in kept :: key in contents
        invariant forall j | 0 <= j < i && listed[j] !in kept :: listed[j] !in contents
      {
        if listed[i] !in kept {
          ok := Delete(listed[i]);
          if !ok { return; }
        }
      }
      ok := true;
    }

    method List() returns (listed: Option<seq<Blob>>)
      modifies this`refused
      ensures listed.Some? ==> forall key :: key in contents <==> key in listed.value
      ensures refused == (old(refused) || listed.None?)
    {
      if * {
        refused := true;
        return None;
      }
      var left, out: seq<Blob> := contents.Keys, [];
      while left != {}
        invariant refused == old(refused)
        invariant forall key :: key in contents <==> key in left || key in out
        decreases |left|
      {
        var key :| key in left;
        left, out := left - {key}, out + [key];
      }
      listed := Some(out);
    }

    /** The bucket put back as the archive holds it: exactly so when it is done; and until the
        archive is known whole, nothing was deleted. `dumped`: restic gave it without error. */
    method Restore(archive: Blob, dumped: bool) returns (ok: bool)
      modifies this
      ensures ok ==> var r := ReadAll(TarReader(), archive, 0); r.whole && contents == PutAll(map[], r.objects)
      ensures !ReadAll(TarReader(), archive, 0).whole || !dumped ==> !ok && old(contents).Keys <= contents.Keys
      ensures !old(refused) ==> (ok <==> ReadAll(TarReader(), archive, 0).whole && dumped && !refused)
      ensures !ok ==> old(contents).Keys <= contents.Keys || HoldsArchived(contents, archive)
    {
      ghost var objects := ReadAll(TarReader(), archive, 0).objects;
      var kept := WriteBack(TarReader(), archive);
      if !dumped || kept == None { return false; }
      PutAllKeys(old(contents), objects);
      PutAllKeys(map[], objects);
      forall key | key in Keys(objects) ensures contents[key] == PutAll(map[], objects)[key] {
        PutOver(old(contents), objects, key);
      }
      var listed := List();
      if listed == None { return false; }
      ok := DeleteOthers(kept.value, listed.value);
    }
  }

  /** The archive is whole, and every object of it is in the bucket. */
  predicate HoldsArchived(contents: Contents, archive: Blob) {
    var r := ReadAll(TarReader(), archive, 0);
    r.whole && forall key | key in Keys(r.objects) ::
      key in contents && key in PutAll(map[], r.objects) && contents[key] == PutAll(map[], r.objects)[key]
  }

  /** `done` was read of the archive, and `input` is left. */
  predicate LeftToRead(next: Reader, archive: Blob, input: Blob, done: seq<Object>) {
    var left := ReadAll(next, input, |done|);
    ReadAll(next, archive, 0) == Read(done + left.objects, left.whole)
  }

  lemma NothingLeft(next: Reader, archive: Blob, input: Blob, done: seq<Object>)
    requires LeftToRead(next, archive, input, done)
    requires next(input, |done|).Some? && next(input, |done|).value.0 == TheEnd
    ensures ReadAll(next, archive, 0) == Read(done, true)
  {
    assert done + [] == done;
  }

  lemma OneIsRead(next: Reader, input: Blob, e: Entry, n: nat, count: nat)
    requires next(input, count) == Some((AnObject(e), n)) && n > 0 && |input| >= n + e.size + Padding(e.size)
    ensures var o, others := Object(e.path, e.mtime, e.headers, input[n..n + e.size]),
                             ReadAll(next, input[n + e.size + Padding(e.size)..], count + 1);
            ReadAll(next, input, count) == Read([o] + others.objects, others.whole)
  {
  }

  lemma CutHere(next: Reader, input: Blob, e: Entry, n: nat, count: nat)
    requires next(input, count) == Some((AnObject(e), n)) && n > 0
    ensures |input| < n + e.size + Padding(e.size) ==> !ReadAll(next, input, count).whole
  {
  }

  lemma LessLeft(next: Reader, archive: Blob, input: Blob, done: seq<Object>, e: Entry, n: nat)
    requires LeftToRead(next, archive, input, done)
    requires next(input, |done|) == Some((AnObject(e), n)) && n > 0 && |input| >= n + e.size + Padding(e.size)
    ensures LeftToRead(next, archive, input[n + e.size + Padding(e.size)..],
                       done + [Object(e.path, e.mtime, e.headers, input[n..n + e.size])])
  {
    var o := Object(e.path, e.mtime, e.headers, input[n..n + e.size]);
    OneIsRead(next, input, e, n, |done|);
    var others := ReadAll(next, input[n + e.size + Padding(e.size)..], |done + [o]|);
    assert done + ([o] + others.objects) == done + [o] + others.objects;
  }

  // ---- An archive of the bucket ----------------------------------------------------

  /** The objects a bucket lists: each of its keys once, as it is stored. */
  ghost predicate IsListing(objects: seq<Object>, contents: Contents) {
    && (forall j, k | 0 <= j < k < |objects| :: objects[j].path != objects[k].path)
    && Keys(objects) == contents.Keys
    && (forall o | o in objects :: o.path in contents && contents[o.path] == Stored(o.headers, o.content))
  }

  lemma {:induction false} ListingIsTheBucket(objects: seq<Object>, contents: Contents)
    requires forall j, k | 0 <= j < k < |objects| :: objects[j].path != objects[k].path
    requires forall o | o in objects :: o.path in contents && contents[o.path] == Stored(o.headers, o.content)
    ensures forall key | key in Keys(objects) ::
              key in PutAll(map[], objects) && key in contents && PutAll(map[], objects)[key] == contents[key]
  {
    if objects != [] {
      var n := |objects| - 1;
      var rest, last := objects[..n], objects[n];
      assert objects == rest + [last];
      ListingIsTheBucket(rest, contents);
    }
  }

  lemma ListingPutBack(was: Contents, objects: seq<Object>)
    requires IsListing(objects, was)
    ensures PutAll(map[], objects) == was
  {
    ListingIsTheBucket(objects, was);
    PutAllKeys(map[], objects);
  }

  /** What of a listing an archive cannot carry is no part of the bucket. */
  lemma ListingAsRead(was: Contents, objects: seq<Object>)
    requires IsListing(objects, was)
    ensures IsListing(AllAsRead(objects), was)
  {
    var read := AllAsRead(objects);
    forall key ensures key in Keys(read) <==> key in Keys(objects) {
      if key in Keys(read) {
        var o :| o in read && o.path == key;
        var i :| 0 <= i < |read| && read[i] == o;
        assert objects[i] in objects;
      }
      if key in Keys(objects) {
        var o :| o in objects && o.path == key;
        var i :| 0 <= i < |objects| && objects[i] == o;
        assert read[i] in read;
      }
    }
    forall o | o in read ensures o.path in was && was[o.path] == Stored(o.headers, o.content) {
      var i :| 0 <= i < |read| && read[i] == o;
      assert objects[i] in objects;
    }
  }

  /** Whatever the bucket became since, restoring the archive of what it was — a pass's, or
      the copy a restore takes first — makes it that again, key for key; and the part restic
      gave of it is enough exactly when its trailer came through. */
  lemma RestoredIsWhatWasArchived(was: Contents, objects: seq<Object>, cut: nat)
    requires IsListing(objects, was) && (forall o | o in objects :: Writable(EntryOf(o)))
    requires |objects| < 0x1_0000_0000_0000_0000 && cut <= |Archive(objects)|
    ensures var r := ReadAll(TarReader(), Archive(objects)[..cut], 0);
            && (r.whole <==> cut >= |EntriesBytes(EntryStart, objects)| + BLOCK + Bytes.Width(|objects|))
            && (r.whole ==> PutAll(map[], r.objects) == was)
  {
    ListingAsRead(was, objects);
    ListingPutBack(was, AllAsRead(objects));
    WholeIffUncut(objects, cut);
  }
}
