/** The archive as it is written, object after object, chunk after chunk. */
module TarWriter {
  import opened Wrappers
  import opened Sequences
  import opened Tarball

  lemma {:induction false} OneMore(start: Entry -> Blob, objects: seq<Object>, o: Object)
    ensures EntriesBytes(start, objects + [o]) == EntriesBytes(start, objects) + EntryBytes(start, o)
  {
    if objects == [] {
      assert [] + [o] == [o];
      assert EntriesBytes(start, [o][1..]) == [];
    } else {
      assert (objects + [o])[1..] == objects[1..] + [o];
      OneMore(start, objects[1..], o);
      Regrouped(EntryBytes(start, objects[0]), EntriesBytes(start, objects[1..]), EntryBytes(start, o));
    }
  }

  class Writer {
    /** What comes before an entry's content. */
    const start: Entry -> Blob
    var out: Blob
    var count: nat
    /** How much of the open entry's content has yet to come. */
    var owed: nat
    var size: nat
    ghost var written: seq<Object>
    /** The open entry, and its content so far. */
    ghost var open: Option<(Entry, Blob)>

    ghost predicate Valid()
      reads this
    {
      && count == |written| && (forall o | o in written :: o.path != TRAILER)
      && match open
         case None => owed == 0 && out == EntriesBytes(start, written)
         case Some((e, content)) =>
           && e.path != TRAILER && size == e.size == |content| + owed
           && out == EntriesBytes(start, written) + (start(e) + content)
    }

    constructor (start: Entry -> Blob)
      ensures Valid() && written == [] && open == None && this.start == start
    {
      this.start := start;
      out, count, owed, size := [], 0, 0, 0;
      written, open := [], None;
    }

    /** Refused for an object of the trailer's name, at which a reader would stop. */
    method Start(e: Entry) returns (ok: bool)
      requires Valid() && open == None
      modifies this
      ensures Valid() && written == old(written) && ok == (e.path != TRAILER)
      ensures open == if ok then Some((e, [])) else None
    {
      if owed != 0 || e.path == TRAILER { return false; }
      out := out + start(e);
      assert start(e) + [] == start(e);
      owed, size := e.size, e.size;
      open := Some((e, []));
      ok := true;
    }

    /** More than the object said it holds is refused: it changed under the read. */
    method Write(chunk: Blob) returns (ok: bool)
      requires Valid() && open.Some?
      modifies this
      ensures Valid() && written == old(written) && open.Some? && open.value.0 == old(open).value.0
      ensures ok == (|old(open).value.1| + |chunk| <= old(open).value.0.size)
      ensures open.value.1 == old(open).value.1 + if ok then chunk else []
    {
      if |chunk| > owed {
        assert open.value.1 + [] == open.value.1;
        return false;
      }
      Regrouped(EntriesBytes(start, written), start(open.value.0) + open.value.1, chunk);
      Regrouped(start(open.value.0), open.value.1, chunk);
      out := out + chunk;
      owed := owed - |chunk|;
      open := Some((open.value.0, open.value.1 + chunk));
      ok := true;
    }

    /** Nor is less: the entry is closed once every byte of it is written. */
    method EndEntry() returns (ok: bool)
      requires Valid() && open.Some?
      modifies this
      ensures Valid() && ok == (|old(open).value.1| == old(open).value.0.size)
      ensures if ok then open == None && written == old(written) + [ObjectOf(old(open).value.0, old(open).value.1)]
              else open == old(open) && written == old(written)
    {
      if owed != 0 { return false; }
      ghost var o := ObjectOf(open.value.0, open.value.1);
      out := out + Zeros(Padding(size));
      OneMore(start, written, o);
      Regrouped(EntriesBytes(start, written), start(open.value.0) + open.value.1, Zeros(Padding(size)));
      assert EntryOf(o) == open.value.0;
      count := count + 1;
      written, open := written + [o], None;
      ok := true;
    }

    /** Closed, with the count of what was written. */
    method Finish() returns (archive: Blob)
      requires Valid() && open == None
      ensures archive == EntriesBytes(start, written) + TrailerEnd(|written|)
    {
      archive := out + TrailerEnd(count);
    }
  }

  function ObjectOf(e: Entry, content: Blob): Object {
    Object(e.path, e.mtime, e.headers, content)
  }

  // ---- A bucket, object after object -----------------------------------------------

  /** An object as the store opened it: what it says of it, and what it then sends, to the
      end of it when it is `whole`. */
  datatype Opened = Opened(entry: Entry, chunks: seq<Blob>, whole: bool)

  function Flat(chunks: seq<Blob>): Blob {
    if chunks == [] then [] else Flat(chunks[..|chunks| - 1]) + chunks[|chunks| - 1]
  }

  lemma {:induction false} FlatGrows(chunks: seq<Blob>, k: nat)
    requires k <= |chunks|
    ensures |Flat(chunks[..k])| <= |Flat(chunks)|
  {
    if k < |chunks| {
      assert chunks[..|chunks| - 1][..k] == chunks[..k];
      FlatGrows(chunks[..|chunks| - 1], k);
    } else {
      assert chunks[..k] == chunks;
    }
  }

  /** It came whole, as long as it said, and is not named as the trailer. */
  predicate Archivable(o: Option<Opened>) {
    o.Some? && o.value.whole && |Flat(o.value.chunks)| == o.value.entry.size && o.value.entry.path != TRAILER
  }

  function Archived(read: seq<Option<Opened>>): seq<Object>
    requires forall o | o in read :: o.Some?
  {
    seq(|read|, i requires 0 <= i < |read| => ObjectOf(read[i].value.entry, Flat(read[i].value.chunks)))
  }

  method WriteObject(w: Writer, o: Option<Opened>) returns (ok: bool)
    requires w.Valid() && w.open == None
    modifies w
    ensures w.Valid() && ok == Archivable(o)
    ensures ok ==> w.open == None && w.written == old(w.written) + [ObjectOf(o.value.entry, Flat(o.value.chunks))]
  {
    if o == None { return false; }
    var e, chunks := o.value.entry, o.value.chunks;
    ok := w.Start(e);
    if !ok { return; }
    for i := 0 to |chunks|
      invariant w.Valid() && w.written == old(w.written) && w.open == Some((e, Flat(chunks[..i])))
    {
      assert chunks[..i + 1][..i] == chunks[..i];
      ok := w.Write(chunks[i]);
      if !ok {
        FlatGrows(chunks, i + 1);
        return;
      }
    }
    assert chunks[..|chunks|] == chunks;
    if !o.value.whole { return false; }
    ok := w.EndEntry();
  }

  method WriteObjects(w: Writer, read: seq<Option<Opened>>) returns (ok: bool)
    requires w.Valid() && w.open == None && w.written == []
    modifies w
    ensures ok <==> forall o | o in read :: Archivable(o)
    ensures ok ==> w.Valid() && w.open == None && w.written == Archived(read)
  {
    for i := 0 to |read|
      invariant w.Valid() && w.open == None
      invariant forall o | o in read[..i] :: Archivable(o)
      invariant w.written == Archived(read[..i])
    {
      assert read[..i + 1] == read[..i] + [read[i]];
      ok := WriteObject(w, read[i]);
      if !ok {
        assert read[i] in read;
        return;
      }
    }
    assert read[..|read|] == read;
    ok := true;
  }

  /** Every object of the bucket, as it was opened in the order it was listed; nothing when
      one of them failed: the archive is then never finished. */
  method WriteArchive(read: seq<Option<Opened>>) returns (archive: Option<Blob>)
    ensures archive.Some? <==> forall o | o in read :: Archivable(o)
    ensures archive.Some? ==> archive.value == Archive(Archived(read))
  {
    var w := new Writer(EntryStart);
    var ok := WriteObjects(w, read);
    if !ok { return None; }
    var bytes := w.Finish();
    archive := Some(bytes);
  }
}
