/** The bytes the emergency kit's fingerprint is taken of. */
module Fingerprint {
  import opened Wrappers
  import opened Sequences
  import opened Tarball

  datatype Destination = Destination(name: Blob, location: Blob, credentials: Option<Blob>)

  datatype Kit = Kit(
    publicKey: Blob,
    restic: Option<Blob>,
    destinations: seq<Destination>,
    unlock: Option<Blob>,
    luks: seq<(Blob, Blob)>,
    zfs: seq<(Blob, Blob)>)

  const UNLOCK := Ascii("swarm-unlock")
  const LUKS := Ascii("luks-recovery")
  const ZFS := Ascii("zfs-key")

  function OrEmpty(s: Option<Blob>): Blob {
    match s case None => [] case Some(v) => v
  }

  // ---- What is hashed --------------------------------------------------------------

  /** Parts, each ended by a zero. */
  function Ended(parts: seq<Blob>): Blob {
    if parts == [] then [] else parts[0] + [0] + Ended(parts[1..])
  }

  function DestinationParts(ds: seq<Destination>): seq<Blob> {
    if ds == [] then []
    else [ds[0].name, ds[0].location, OrEmpty(ds[0].credentials)] + DestinationParts(ds[1..])
  }

  function KeyParts(tag: Blob, keys: seq<(Blob, Blob)>): seq<Blob> {
    if keys == [] then [] else [tag, keys[0].0, keys[0].1] + KeyParts(tag, keys[1..])
  }

  function DiskParts(kit: Kit): seq<Blob> {
    KeyParts(LUKS, kit.luks) + KeyParts(ZFS, kit.zfs)
  }

  function Parts(kit: Kit): seq<Blob> {
    [kit.publicKey, OrEmpty(kit.restic)] + DestinationParts(kit.destinations)
  }

  /** Swarm's key has no zero after it. */
  function Hashed(kit: Kit): Blob {
    Ended(Parts(kit)) + (match kit.unlock case None => [] case Some(k) => UNLOCK + [0] + k) + Ended(DiskParts(kit))
  }

  lemma {:induction false} EndedBoth(a: seq<Blob>, b: seq<Blob>)
    ensures Ended(a + b) == Ended(a) + Ended(b)
  {
    if a == [] {
      assert a + b == b;
    } else {
      EndedBoth(a[1..], b);
      assert (a + b)[1..] == a[1..] + b;
    }
  }

  lemma EndedOne(part: Blob)
    ensures Ended([part]) == part + [0]
  {
    assert [part][1..] == [];
  }

  lemma DestinationsOneMore(ds: seq<Destination>, d: Destination)
    ensures DestinationParts(ds + [d]) == DestinationParts(ds) + [d.name, d.location, OrEmpty(d.credentials)]
  {
    if ds == [] {
      assert [] + [d] == [d] && [d][1..] == [];
    } else {
      DestinationsOneMore(ds[1..], d);
      assert (ds + [d])[1..] == ds[1..] + [d];
    }
  }

  lemma KeysOneMore(tag: Blob, keys: seq<(Blob, Blob)>, k: (Blob, Blob))
    ensures KeyParts(tag, keys + [k]) == KeyParts(tag, keys) + [tag, k.0, k.1]
  {
    if keys == [] {
      assert [] + [k] == [k] && [k][1..] == [];
    } else {
      KeysOneMore(tag, keys[1..], k);
      assert (keys + [k])[1..] == keys[1..] + [k];
    }
  }

  /** A part, and the zero after it. */
  method Update(h: Blob, part: Blob, ghost parts: seq<Blob>, ghost start: Blob) returns (out: Blob)
    requires h == start + Ended(parts)
    ensures out == h + (part + [0]) && out == start + Ended(parts + [part])
  {
    out := h + (part + [0]);
    EndedOne(part);
    EndedBoth(parts, [part]);
    Regrouped(start, Ended(parts), part + [0]);
  }

  method HashDestinations(h: Blob, ds: seq<Destination>) returns (out: Blob)
    ensures out == h + Ended(DestinationParts(ds))
  {
    out := h;
    for i := 0 to |ds|
      invariant out == h + Ended(DestinationParts(ds[..i]))
    {
      var d := ds[i];
      ghost var before := DestinationParts(ds[..i]);
      out := Update(out, d.name, before, h);
      out := Update(out, d.location, before + [d.name], h);
      out := Update(out, OrEmpty(d.credentials), before + [d.name] + [d.location], h);
      assert ds[..i + 1] == ds[..i] + [d];
      DestinationsOneMore(ds[..i], d);
      assert before + [d.name, d.location, OrEmpty(d.credentials)]
             == before + [d.name] + [d.location] + [OrEmpty(d.credentials)];
    }
    assert ds[..|ds|] == ds;
  }

  method HashKeys(h: Blob, tag: Blob, keys: seq<(Blob, Blob)>) returns (out: Blob)
    ensures out == h + Ended(KeyParts(tag, keys))
  {
    out := h;
    for i := 0 to |keys|
      invariant out == h + Ended(KeyParts(tag, keys[..i]))
    {
      var (node, key) := keys[i];
      ghost var before := KeyParts(tag, keys[..i]);
      out := Update(out, tag, before, h);
      out := Update(out, node, before + [tag], h);
      out := Update(out, key, before + [tag] + [node], h);
      assert keys[..i + 1] == keys[..i] + [keys[i]];
      KeysOneMore(tag, keys[..i], keys[i]);
      assert before + [tag, node, key] == before + [tag] + [node] + [key];
    }
    assert keys[..|keys|] == keys;
  }

  method HashParts(kit: Kit) returns (h: Blob)
    ensures h == Ended(Parts(kit))
  {
    h := Update([], kit.publicKey, [], []);
    h := Update(h, OrEmpty(kit.restic), [] + [kit.publicKey], []);
    ghost var first := [kit.publicKey, OrEmpty(kit.restic)];
    assert [] + [kit.publicKey] + [OrEmpty(kit.restic)] == first;
    h := HashDestinations(h, kit.destinations);
    EndedBoth(first, DestinationParts(kit.destinations));
  }

  method FingerprintOf(kit: Kit) returns (h: Blob)
    ensures h == Hashed(kit)
  {
    h := HashParts(kit);
    if kit.unlock.Some? {
      h := h + (UNLOCK + [0] + kit.unlock.value);
    } else {
      assert h + [] == h;
    }
    ghost var before := h;
    h := HashKeys(h, LUKS, kit.luks);
    h := HashKeys(h, ZFS, kit.zfs);
    EndedBoth(KeyParts(LUKS, kit.luks), KeyParts(ZFS, kit.zfs));
    Regrouped(before, Ended(KeyParts(LUKS, kit.luks)), Ended(KeyParts(ZFS, kit.zfs)));
  }

  // ---- Read back -------------------------------------------------------------------

  /** The parts ended by a zero, and what follows the last of them. */
  function Split(h: Blob): (seq<Blob>, Blob)
    decreases |h|
  {
    var part := UpTo(h, {0});
    if |part| == |h| then ([], h)
    else
      var (parts, tail) := Split(h[|part| + 1..]);
      ([part] + parts, tail)
  }

  predicate IsTag(part: Blob) {
    part == UNLOCK || part == LUKS || part == ZFS
  }

  /** Destinations, up to a tag or the end. */
  function TakeDestinations(parts: seq<Blob>): (seq<Destination>, seq<Blob>) {
    if |parts| < 3 || IsTag(parts[0]) then ([], parts)
    else
      var (ds, rest) := TakeDestinations(parts[3..]);
      ([Destination(parts[0], parts[1], Some(parts[2]))] + ds, rest)
  }

  function TakeKeys(tag: Blob, parts: seq<Blob>): (seq<(Blob, Blob)>, seq<Blob>) {
    if |parts| < 3 || parts[0] != tag then ([], parts)
    else
      var (keys, rest) := TakeKeys(tag, parts[3..]);
      ([(parts[1], parts[2])] + keys, rest)
  }

  /** Swarm's key, glued to the tag after it when there is one. */
  function TakeUnlock(parts: seq<Blob>, tail: Blob): (Option<Blob>, seq<Blob>) {
    if parts == [] || parts[0] != UNLOCK then (None, parts)
    else if |parts| == 1 then (Some(tail), [])
    else
      var tag := if EndsWith(parts[1], LUKS) then LUKS else ZFS;
      if !EndsWith(parts[1], tag) then (None, parts)
      else (Some(parts[1][..|parts[1]| - |tag|]), [tag] + parts[2..])
  }

  predicate EndsWith(s: Blob, end: Blob) {
    |end| <= |s| && s[|s| - |end|..] == end
  }

  function Decode(h: Blob): Option<Kit> {
    var (parts, tail) := Split(h);
    if |parts| < 2 then None
    else
      var (ds, rest) := TakeDestinations(parts[2..]);
      var (unlock, disks) := TakeUnlock(rest, tail);
      var (luks, others) := TakeKeys(LUKS, disks);
      Some(Kit(parts[0], Some(parts[1]), ds, unlock, luks, TakeKeys(ZFS, others).0))
  }

  /** A kit as it can be told back: absent and empty are one. */
  function Told(kit: Kit): Kit {
    kit.(restic := Some(OrEmpty(kit.restic)), destinations := ToldDestinations(kit.destinations))
  }

  function ToldDestinations(ds: seq<Destination>): seq<Destination> {
    if ds == [] then [] else [ds[0].(credentials := Some(OrEmpty(ds[0].credentials)))] + ToldDestinations(ds[1..])
  }

  /** No part holds a zero; no destination is named as a tag. */
  ghost predicate Tellable(kit: Kit) {
    && 0 !in kit.publicKey && 0 !in OrEmpty(kit.restic) && 0 !in OrEmpty(kit.unlock)
    && (forall d | d in kit.destinations ::
          0 !in d.name && 0 !in d.location && 0 !in OrEmpty(d.credentials) && !IsTag(d.name))
    && (forall k | k in kit.luks + kit.zfs :: 0 !in k.0 && 0 !in k.1)
  }

  predicate ZeroFree(parts: seq<Blob>) {
    forall p | p in parts :: 0 !in p
  }

  lemma {:induction false} UpToZero(part: Blob, rest: Blob)
    requires 0 !in part && (rest == [] || rest[0] == 0)
    ensures UpTo(part + rest, {0}) == part
  {
    if part == [] {
      assert part + rest == rest;
    } else {
      assert part[0] in part && (part + rest)[1..] == part[1..] + rest;
      UpToZero(part[1..], rest);
    }
  }

  lemma SplitStep(part: Blob, rest: Blob)
    requires 0 !in part
    ensures Split(part + ([0] + rest)) == ([part] + Split(rest).0, Split(rest).1)
  {
    var h := part + ([0] + rest);
    UpToZero(part, [0] + rest);
    assert |UpTo(h, {0})| == |part| && h[|part| + 1..] == rest;
  }

  lemma OneThenRest(part: Blob, others: Blob, tail: Blob)
    ensures part + [0] + others + tail == part + ([0] + (others + tail))
  {
  }

  lemma SplitTail(tail: Blob)
    requires 0 !in tail
    ensures Split(tail) == ([], tail)
  {
    UpToZero(tail, []);
    assert tail + [] == tail;
  }

  lemma {:induction false} SplitEnded(parts: seq<Blob>, tail: Blob)
    requires ZeroFree(parts) && 0 !in tail
    ensures Split(Ended(parts) + tail) == (parts, tail)
    decreases |parts|
  {
    if parts == [] {
      assert Ended(parts) + tail == tail;
      SplitTail(tail);
    } else {
      var part, rest := parts[0], Ended(parts[1..]) + tail;
      assert part in parts && forall p | p in parts[1..] :: p in parts;
      SplitEnded(parts[1..], tail);
      OneThenRest(part, Ended(parts[1..]), tail);
      assert Ended(parts) == part + [0] + Ended(parts[1..]);
      SplitStep(part, rest);
      assert parts == [part] + parts[1..];
    }
  }

  lemma {:induction false} DestinationsTaken(ds: seq<Destination>, rest: seq<Blob>)
    requires forall d | d in ds :: !IsTag(d.name)
    requires rest == [] || IsTag(rest[0])
    ensures TakeDestinations(DestinationParts(ds) + rest) == (ToldDestinations(ds), rest)
    decreases |ds|
  {
    if ds == [] {
      assert DestinationParts(ds) + rest == rest;
    } else {
      assert ds[0] in ds && forall d | d in ds[1..] :: d in ds;
      DestinationsTaken(ds[1..], rest);
      assert (DestinationParts(ds) + rest)[3..] == DestinationParts(ds[1..]) + rest;
    }
  }

  lemma KeysStep(tag: Blob, node: Blob, key: Blob, rest: seq<Blob>)
    ensures TakeKeys(tag, [tag, node, key] + rest) == ([(node, key)] + TakeKeys(tag, rest).0, TakeKeys(tag, rest).1)
  {
    var parts := [tag, node, key] + rest;
    assert parts[3..] == rest && parts[0] == tag && parts[1] == node && parts[2] == key;
  }

  lemma {:induction false} KeysTaken(tag: Blob, keys: seq<(Blob, Blob)>, rest: seq<Blob>)
    requires rest == [] || rest[0] != tag
    ensures TakeKeys(tag, KeyParts(tag, keys) + rest) == (keys, rest)
    decreases |keys|
  {
    if keys == [] {
      assert KeyParts(tag, keys) + rest == rest;
    } else {
      var others := KeyParts(tag, keys[1..]);
      KeysTaken(tag, keys[1..], rest);
      KeysStep(tag, keys[0].0, keys[0].1, others + rest);
      Regrouped([tag, keys[0].0, keys[0].1], others, rest);
      assert keys == [keys[0]] + keys[1..];
    }
  }

  lemma TagsApart()
    ensures UNLOCK != LUKS && LUKS != ZFS && UNLOCK != ZFS
    ensures 0 !in UNLOCK && 0 !in LUKS && 0 !in ZFS
    ensures forall k: Blob :: !EndsWith(k + ZFS, LUKS)
  {
    assert UNLOCK[0] == 0x73 && LUKS[0] == 0x6C && ZFS[0] == 0x7A;
    assert LUKS[12] == 0x79 && LUKS[11] == 0x72 && ZFS[6] == 0x79 && ZFS[5] == 0x65;
    forall k: Blob ensures !EndsWith(k + ZFS, LUKS) {
      var s := k + ZFS;
      if |LUKS| <= |s| {
        assert s[|s| - |LUKS|..][11] == s[|s| - 2] == ZFS[5];
      }
    }
  }

  lemma {:induction false} KeyPartsStart(tag: Blob, keys: seq<(Blob, Blob)>)
    requires 0 !in tag && forall k | k in keys :: 0 !in k.0 && 0 !in k.1
    ensures ZeroFree(KeyParts(tag, keys))
    ensures keys != [] ==> KeyParts(tag, keys)[0] == tag
  {
    if keys != [] {
      assert keys[0] in keys && forall k | k in keys[1..] :: k in keys;
      KeyPartsStart(tag, keys[1..]);
    }
  }

  lemma {:induction false} DestinationsZeroFree(ds: seq<Destination>)
    requires forall d | d in ds :: 0 !in d.name && 0 !in d.location && 0 !in OrEmpty(d.credentials)
    ensures ZeroFree(DestinationParts(ds))
  {
    if ds != [] {
      assert ds[0] in ds && forall d | d in ds[1..] :: d in ds;
      DestinationsZeroFree(ds[1..]);
    }
  }

  // ---- Any two kits ----------------------------------------------------------------

  /** Swarm's key is ended by the tag glued to it, or by the end. */
  function Glued(kit: Kit): (seq<Blob>, Blob) {
    var disks := DiskParts(kit);
    match kit.unlock
    case None => (Parts(kit) + disks, [])
    case Some(k) =>
      if disks == [] then (Parts(kit) + [UNLOCK], k)
      else (Parts(kit) + [UNLOCK, k + disks[0]] + disks[1..], [])
  }

  lemma GluedIsHashed(kit: Kit)
    ensures Hashed(kit) == Ended(Glued(kit).0) + Glued(kit).1
  {
    var parts, disks := Parts(kit), DiskParts(kit);
    match kit.unlock
    case None =>
      EndedBoth(parts, disks);
      assert Ended(parts) + [] + Ended(disks) == Ended(parts) + Ended(disks) + [];
    case Some(k) =>
      EndedOne(UNLOCK);
      EndedBoth(parts, [UNLOCK]);
      if disks == [] {
        assert Ended(parts) + (UNLOCK + [0] + k) + [] == Ended(parts) + (UNLOCK + [0]) + k;
      } else {
        GluedDisks(parts, k, disks);
      }
  }

  lemma Glue(parts: Blob, unlock: Blob, k: Blob, tag: Blob, others: Blob)
    ensures parts + (unlock + [0] + k) + (tag + [0] + others) == parts + (unlock + [0]) + (k + tag + [0]) + others + []
  {
  }

  lemma GluedDisks(parts: seq<Blob>, k: Blob, disks: seq<Blob>)
    requires disks != []
    ensures Ended(parts) + (UNLOCK + [0] + k) + Ended(disks)
            == Ended(parts + [UNLOCK, k + disks[0]] + disks[1..]) + []
  {
    var glued := k + disks[0];
    var two := [UNLOCK, glued];
    assert Ended(two) == (UNLOCK + [0]) + (glued + [0]) by {
      EndedOne(UNLOCK);
      EndedOne(glued);
      EndedBoth([UNLOCK], [glued]);
      assert [UNLOCK] + [glued] == two;
    }
    EndedBoth(parts, two);
    EndedBoth(parts + two, disks[1..]);
    Regrouped(Ended(parts), UNLOCK + [0], glued + [0]);
    Glue(Ended(parts), UNLOCK, k, disks[0], Ended(disks[1..]));
  }

  /** What of a kit's disks is read back, whatever is before. */
  lemma DisksTaken(kit: Kit)
    requires Tellable(kit)
    ensures var (luks, others) := TakeKeys(LUKS, DiskParts(kit)); luks == kit.luks && TakeKeys(ZFS, others).0 == kit.zfs
    ensures ZeroFree(DiskParts(kit))
    ensures DiskParts(kit) != [] ==> DiskParts(kit)[0] in {LUKS, ZFS}
  {
    TagsApart();
    var zfs := KeyParts(ZFS, kit.zfs);
    assert forall k | k in kit.luks :: k in kit.luks + kit.zfs;
    assert forall k | k in kit.zfs :: k in kit.luks + kit.zfs;
    KeyPartsStart(LUKS, kit.luks);
    KeyPartsStart(ZFS, kit.zfs);
    KeysTaken(LUKS, kit.luks, zfs);
    KeysTaken(ZFS, kit.zfs, []);
    assert zfs + [] == zfs;
  }

  lemma UnlockTaken(k: Blob, disks: seq<Blob>)
    requires disks != [] && disks[0] in {LUKS, ZFS}
    ensures TakeUnlock([UNLOCK, k + disks[0]] + disks[1..], []) == (Some(k), disks)
  {
    TagsApart();
    var parts := [UNLOCK, k + disks[0]] + disks[1..];
    var tag := disks[0];
    assert parts[1] == k + tag && EndsWith(k + tag, tag);
    assert tag == ZFS ==> !EndsWith(k + ZFS, LUKS);
    assert (k + tag)[..|k + tag| - |tag|] == k;
    assert parts[2..] == disks[1..] && [tag] + disks[1..] == disks;
  }

  function AfterDestinations(kit: Kit): seq<Blob> {
    var disks := DiskParts(kit);
    match kit.unlock
    case None => disks
    case Some(k) => if disks == [] then [UNLOCK] else [UNLOCK, k + disks[0]] + disks[1..]
  }

  lemma GluedParts(kit: Kit)
    ensures var parts := Glued(kit).0;
            && |parts| >= 2 && parts[0] == kit.publicKey && parts[1] == OrEmpty(kit.restic)
            && parts[2..] == DestinationParts(kit.destinations) + AfterDestinations(kit)
  {
    var first, rest := [kit.publicKey, OrEmpty(kit.restic)], AfterDestinations(kit);
    var ds := DestinationParts(kit.destinations);
    Regrouped(first, ds, rest);
    assert Glued(kit).0 == first + (ds + rest) by {
      if kit.unlock.Some? && DiskParts(kit) != [] {
        Regrouped(first + ds, [UNLOCK, kit.unlock.value + DiskParts(kit)[0]], DiskParts(kit)[1..]);
      }
    }
    assert (first + (ds + rest))[2..] == ds + rest;
  }

  lemma RestTaken(kit: Kit)
    requires Tellable(kit)
    ensures var (parts, tail) := Glued(kit);
            && |parts| >= 2 && parts[0] == kit.publicKey && parts[1] == OrEmpty(kit.restic)
            && TakeDestinations(parts[2..]).0 == ToldDestinations(kit.destinations)
            && TakeUnlock(TakeDestinations(parts[2..]).1, tail) == (kit.unlock, DiskParts(kit))
  {
    TagsApart();
    DisksTaken(kit);
    var (parts, tail) := Glued(kit);
    var disks := DiskParts(kit);
    GluedParts(kit);
    DestinationsTaken(kit.destinations, AfterDestinations(kit));
    if kit.unlock.Some? && disks != [] { UnlockTaken(kit.unlock.value, disks); }
  }

  lemma GluedZeroFree(kit: Kit)
    requires Tellable(kit)
    ensures ZeroFree(Glued(kit).0) && 0 !in Glued(kit).1
  {
    TagsApart();
    DisksTaken(kit);
    DestinationsZeroFree(kit.destinations);
    var disks := DiskParts(kit);
    if disks != [] { assert disks[0] in disks && forall p | p in disks[1..] :: p in disks; }
  }

  /** Everything a kit holds is told back from the bytes hashed. */
  lemma ToldBack(kit: Kit)
    requires Tellable(kit)
    ensures Decode(Hashed(kit)) == Some(Told(kit))
  {
    var (parts, tail) := Glued(kit);
    GluedIsHashed(kit);
    GluedZeroFree(kit);
    SplitEnded(parts, tail);
    RestTaken(kit);
    DisksTaken(kit);
  }

  /** So two kits hash the same bytes exactly when they hold the same. */
  lemma DifferentKitsDiffer(a: Kit, b: Kit)
    requires Tellable(a) && Tellable(b)
    ensures Hashed(a) == Hashed(b) <==> Told(a) == Told(b)
  {
    ToldBack(a);
    ToldBack(b);
    if Told(a) == Told(b) {
      assert a.unlock == b.unlock && a.luks == b.luks && a.zfs == b.zfs && a.publicKey == b.publicKey;
      ToldPartsAlike(a.destinations, b.destinations);
    }
  }

  lemma {:induction false} ToldPartsAlike(a: seq<Destination>, b: seq<Destination>)
    requires ToldDestinations(a) == ToldDestinations(b)
    ensures DestinationParts(a) == DestinationParts(b)
    decreases |a|
  {
    if a != [] && b != [] {
      var x, y := ToldDestinations(a), ToldDestinations(b);
      assert x[0] == y[0] && x[1..] == ToldDestinations(a[1..]) && y[1..] == ToldDestinations(b[1..]);
      ToldPartsAlike(a[1..], b[1..]);
    }
  }

  /** A destination named as a tag is not told from a key: the condition is needed. */
  lemma DestinationNamedAsATag(publicKey: Blob, node: Blob, key: Blob)
    ensures var a := Kit(publicKey, None, [Destination(LUKS, node, Some(key))], None, [], []);
            var b := Kit(publicKey, None, [], None, [(node, key)], []);
            Hashed(a) == Hashed(b) && Told(a) != Told(b)
  {
    var d, first, entry := Destination(LUKS, node, Some(key)), [publicKey, []], [LUKS, node, key];
    assert DestinationParts([d]) == entry by {
      DestinationsOneMore([], d);
      assert [] + [d] == [d] && [] + entry == entry;
    }
    assert KeyParts(LUKS, [(node, key)]) == entry by {
      KeysOneMore(LUKS, [], (node, key));
      assert [] + [(node, key)] == [(node, key)] && [] + entry == entry;
    }
    WithoutUnlock(Kit(publicKey, None, [d], None, [], []), first + entry, []);
    assert first + [] == first && entry + [] == entry;
    WithoutUnlock(Kit(publicKey, None, [], None, [(node, key)], []), first, entry);
    assert first + entry + [] == first + entry;
  }

  lemma WithoutUnlock(kit: Kit, parts: seq<Blob>, disks: seq<Blob>)
    requires kit.unlock == None && Parts(kit) == parts && DiskParts(kit) == disks
    ensures Hashed(kit) == Ended(parts + disks)
  {
    EndedBoth(parts, disks);
    assert Ended(parts) + [] == Ended(parts);
  }

  /** With nothing to unlock and nothing encrypted, the bytes are those hashed before either
      existed: a sheet printed then stays current. */
  lemma OlderSheetsStayCurrent(kit: Kit)
    requires kit.unlock == None && kit.luks == [] && kit.zfs == []
    ensures Hashed(kit) == Ended([kit.publicKey, OrEmpty(kit.restic)]) + Ended(DestinationParts(kit.destinations))
  {
    EndedBoth([kit.publicKey, OrEmpty(kit.restic)], DestinationParts(kit.destinations));
    WithoutUnlock(kit, Parts(kit), []);
    assert Parts(kit) + [] == Parts(kit);
  }
}
