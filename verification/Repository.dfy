/** A destination's repository: everything ever written into it, by Homelabus or not. */
module Repository {
  import opened Wrappers
  import opened Snapshots
  import opened Picking
  import opened SqliteOfPass

  datatype Write =
    /** A volume, by a pass or before an update. */
    | VolumeCopy(app: string, volume: string, ofPass: Option<string>, stopped: bool)
    /** A SQLite database at its place in its volume, by a pass. */
    | DatabaseCopy(app: string, volume: string, rel: string, pass: string)
    /** What a restore is about to overwrite. */
    | VolumeBefore(app: string, volume: string)
    | BucketCopy(app: string, bucket: string, pass: string)
    | BucketBefore(app: string, bucket: string)
    | Dump(app: string, database: string, file: string)
    | DumpBefore(app: string, database: string, file: string)
    /** Anyone with the repository's password: any paths, any tags. */
    | Other(paths: seq<string>, tags: seq<string>)

  /** `recorded`: the state knows it was taken. */
  datatype Entry = Entry(write: Write, id: string, epoch: Option<int>, recorded: bool)

  function TagsOf(w: Write): seq<string> {
    match w
    case VolumeCopy(app, _, Some(pass), _) => [APP_TAG + app, BACKED_UP, PASS_TAG + pass]
    case VolumeCopy(app, _, None, stopped) =>
      if stopped then [APP_TAG + app, BACKED_UP, STOPPED_TAG] else [APP_TAG + app, BACKED_UP]
    case DatabaseCopy(app, _, rel, pass) => [APP_TAG + app, DB_TAG + rel, SQLITE_KIND, PASS_TAG + pass]
    case VolumeBefore(app, _) => [APP_TAG + app, BEFORE_RESTORE]
    case BucketCopy(app, _, pass) => [APP_TAG + app, BUCKET_TAG, PASS_TAG + pass]
    case BucketBefore(app, _) => [APP_TAG + app, BEFORE_RESTORE]
    case Dump(app, database, _) => [APP_TAG + app, DB_TAG + database, DUMP_KIND]
    case DumpBefore(app, database, _) => [APP_TAG + app, DB_TAG + database, BEFORE_RESTORE]
    case Other(_, tags) => tags
  }

  function PathsOf(w: Write): seq<string> {
    match w
    case VolumeCopy(_, volume, _, _) => [VolumePath(volume)]
    case DatabaseCopy(_, volume, rel, _) => DatabasePaths(volume, rel)
    case VolumeBefore(_, volume) => [VolumePath(volume)]
    case BucketCopy(_, bucket, _) => [ArchivePath(bucket)]
    case BucketBefore(_, bucket) => [ArchivePath(bucket)]
    case Dump(_, _, file) => [STAGING + file]
    case DumpBefore(_, _, file) => [STAGING + file]
    case Other(paths, _) => paths
  }

  function SnapshotOf(e: Entry): Snapshot {
    Snapshot(e.id, e.epoch, PathsOf(e.write), TagsOf(e.write))
  }

  function Listing(log: seq<Entry>): (l: seq<Snapshot>)
    ensures |l| == |log|
  {
    seq(|log|, i requires 0 <= i < |log| => SnapshotOf(log[i]))
  }

  /** Written for the app, and recorded. */
  predicate Ours(e: Entry, app: string) {
    e.recorded && !e.write.Other? && e.write.app == app
  }

  /** The ids the state has of the app: those of what was written for it and recorded. */
  predicate Knows(taken: set<string>, log: seq<Entry>, app: string) {
    forall k | 0 <= k < |log| :: log[k].id in taken <==> Ours(log[k], app)
  }

  /** Ids are hashes: one length, none twice. A volume's name holds no slash. */
  ghost predicate Sane(log: seq<Entry>) {
    && (forall j, k | 0 <= j < k < |log| :: log[j].id != log[k].id)
    && (forall j, k | 0 <= j < |log| && 0 <= k < |log| :: |log[j].id| == |log[k].id|)
    && (forall k | 0 <= k < |log| :: VolumeNamed(log[k].write))
  }

  predicate VolumeNamed(w: Write) {
    match w
    case VolumeCopy(_, volume, _, _) => '/' !in volume
    case DatabaseCopy(_, volume, _, _) => '/' !in volume
    case VolumeBefore(_, volume) => '/' !in volume
    case _ => true
  }

  // ---- What each writer's snapshots are read as ----------------------------------

  lemma {:induction false} FirstIs(prefix: string, tags: seq<string>, k: nat)
    requires k < |tags| && prefix <= tags[k]
    requires forall j | 0 <= j < k :: !(prefix <= tags[j])
    ensures FirstWith(prefix, tags) == Some(tags[k])
  {
    if k > 0 { FirstIs(prefix, tags[1..], k - 1); }
  }

  lemma Firsts(a: string, b: string, c: string)
    ensures FirstWith(PASS_TAG, [APP_TAG + a, BACKED_UP, PASS_TAG + c]) == Some(PASS_TAG + c)
    ensures FirstWith(PASS_TAG, [APP_TAG + a, BACKED_UP]) == None
    ensures FirstWith(PASS_TAG, [APP_TAG + a, BACKED_UP, STOPPED_TAG]) == None
    ensures FirstWith(PASS_TAG, [APP_TAG + a, DB_TAG + b, SQLITE_KIND, PASS_TAG + c]) == Some(PASS_TAG + c)
    ensures FirstWith(DB_TAG, [APP_TAG + a, DB_TAG + b, SQLITE_KIND, PASS_TAG + c]) == Some(DB_TAG + b)
  {
    TagsApart();
    PrefixedApart(a);
    PrefixedApart(b);
    PrefixedApart(c);
    FirstIs(PASS_TAG, [APP_TAG + a, BACKED_UP, PASS_TAG + c], 2);
    FirstIs(PASS_TAG, [APP_TAG + a, DB_TAG + b, SQLITE_KIND, PASS_TAG + c], 3);
    FirstIs(DB_TAG, [APP_TAG + a, DB_TAG + b, SQLITE_KIND, PASS_TAG + c], 1);
  }

  lemma PassOfVolume(e: Entry)
    requires e.write.VolumeCopy?
    ensures PassOf(SnapshotOf(e)) ==
            match e.write.ofPass case None => None case Some(t) => Some(PASS_TAG + t)
  {
    Firsts(e.write.app, "", match e.write.ofPass case None => "" case Some(t) => t);
  }

  lemma DatabaseCopyReads(e: Entry)
    requires e.write.DatabaseCopy?
    ensures PassOf(SnapshotOf(e)) == Some(PASS_TAG + e.write.pass)
    ensures DatabaseOf(SnapshotOf(e)) == Some(e.write.rel)
  {
    Firsts(e.write.app, e.write.rel, e.write.pass);
    PrefixedApart(e.write.rel);
  }

  lemma SamePass(t: string, u: string)
    ensures PASS_TAG + t == PASS_TAG + u <==> t == u
  {
    assert (PASS_TAG + t)[|PASS_TAG|..] == t && (PASS_TAG + u)[|PASS_TAG|..] == u;
  }

  /** No snapshot but a database's is one. */
  lemma OnlyDatabases(w: Write)
    ensures SQLITE_KIND in TagsOf(w) && !w.Other? ==> w.DatabaseCopy?
  {
    TagsApart();
    match w
    case VolumeCopy(app, _, pass, _) => PrefixedApart(app); if pass.Some? { PrefixedApart(pass.value); }
    case DatabaseCopy(_, _, _, _) =>
    case VolumeBefore(app, _) => PrefixedApart(app);
    case BucketCopy(app, _, pass) => PrefixedApart(app); PrefixedApart(pass);
    case BucketBefore(app, _) => PrefixedApart(app);
    case Dump(app, database, _) => PrefixedApart(app); PrefixedApart(database);
    case DumpBefore(app, database, _) => PrefixedApart(app); PrefixedApart(database);
    case Other(_, _) =>
  }

  lemma DatabaseIsInside(volume: string, other: string, rel: string)
    requires '/' !in volume && '/' !in other
    ensures Inside(volume, DatabasePaths(other, rel)) <==> volume == other
  {
    var paths := DatabasePaths(other, rel);
    OneVolume(volume, other, rel);
    OneVolume(volume, other, rel + "-wal");
    OneVolume(volume, other, rel + "-shm");
    assert paths[0] == VolumePath(other) + "/" + rel;
    assert paths[1] == VolumePath(other) + "/" + (rel + "-wal");
    assert paths[2] == VolumePath(other) + "/" + (rel + "-shm");
    assert paths[0] in paths;
  }

  /** Recorded, a snapshot is one of `pass`'s databases of `volume` exactly when it was
      written as one. */
  lemma TakenByMeans(e: Entry, app: string, volume: string, pass: string, taken: set<string>)
    requires e.id in taken <==> Ours(e, app)
    requires '/' !in volume && VolumeNamed(e.write)
    ensures TakenBy(SnapshotOf(e), volume, PASS_TAG + pass, taken)
            <==> Ours(e, app) && e.epoch.Some? && e.write.DatabaseCopy?
                 && e.write.volume == volume && e.write.pass == pass
  {
    OnlyDatabases(e.write);
    if e.write.DatabaseCopy? {
      DatabaseCopyReads(e);
      SamePass(e.write.pass, pass);
      DatabaseIsInside(volume, e.write.volume, e.write.rel);
      var tags := TagsOf(e.write);
      assert tags[2] == SQLITE_KIND;
    }
  }

  // ---- What a restore puts together ----------------------------------------------

  predicate PassDatabase(e: Entry, app: string, volume: string, rel: string, pass: string) {
    Ours(e, app) && e.epoch.Some? && e.write.DatabaseCopy?
    && e.write.volume == volume && e.write.rel == rel && e.write.pass == pass
  }

  /** With a volume's snapshot of a pass go back exactly the databases that the same pass
      archived there of the same volume, each from its earliest — whatever else was written,
      by other passes, updates, restores or strangers, and however it was tagged. */
  lemma DatabasesOfTheSamePass(log: seq<Entry>, app: string, of: Entry, taken: set<string>,
                               first: map<string, Snapshot>)
    requires Sane(log) && Knows(taken, log, app)
    requires of in log && of.write.VolumeCopy? && of.write.ofPass.Some?
    requires PassOf(SnapshotOf(of)).Some? ==>
               PutTogether(Listing(log), of.write.volume, PassOf(SnapshotOf(of)).value, taken, first)
    ensures forall rel | rel in first :: IsOneOf(log, first[rel], app, of.write.volume, rel, of.write.ofPass.value)
    ensures forall k | 0 <= k < |log| && log[k].write.DatabaseCopy? ::
              PassDatabase(log[k], app, of.write.volume, log[k].write.rel, of.write.ofPass.value) ==>
                log[k].write.rel in first
  {
    var volume, pass := of.write.volume, of.write.ofPass.value;
    var tag := PASS_TAG + pass;
    var l := Listing(log);
    PassOfVolume(of);
    var o: nat :| o < |log| && log[o] == of;
    forall k | 0 <= k < |log| ensures l[k] == SnapshotOf(log[k]) && l[k] in l {}
    forall k, rel | 0 <= k < |log|
      ensures TakenOf(l[k], rel, volume, tag, taken) <==> PassDatabase(log[k], app, volume, rel, pass)
    {
      TakenByMeans(log[k], app, volume, pass, taken);
      if log[k].write.DatabaseCopy? { DatabaseCopyReads(log[k]); }
    }
    forall rel | rel in first
      ensures IsOneOf(log, first[rel], app, volume, rel, pass)
    {
      var k: nat :| k < |l| && first[rel] == l[k] && IsEarliest(l, k, rel, volume, tag, taken);
      assert EarliestEntry(log, k, app, volume, rel, pass);
    }
    forall k | 0 <= k < |log| && log[k].write.DatabaseCopy? && PassDatabase(log[k], app, volume, log[k].write.rel, pass)
      ensures log[k].write.rel in first
    {
      assert TakenOf(l[k], log[k].write.rel, volume, tag, taken);
    }
  }

  predicate IsOneOf(log: seq<Entry>, s: Snapshot, app: string, volume: string, rel: string, pass: string) {
    exists k: nat :: k < |log| && s == SnapshotOf(log[k]) && EarliestEntry(log, k, app, volume, rel, pass)
  }

  predicate EarliestEntry(log: seq<Entry>, k: nat, app: string, volume: string, rel: string, pass: string)
    requires k < |log|
  {
    && PassDatabase(log[k], app, volume, rel, pass)
    && forall j | 0 <= j < |log| && PassDatabase(log[j], app, volume, rel, pass) ::
         log[k].epoch.value < log[j].epoch.value || (log[k].epoch == log[j].epoch && k <= j)
  }

  // ---- What a restore takes ------------------------------------------------------

  function HoldsPath(path: string): Snapshot -> bool {
    (s: Snapshot) => path in s.paths
  }

  predicate CopyOf(e: Entry, app: string, volume: string) {
    Ours(e, app) && e.write.VolumeCopy? && e.write.volume == volume
  }

  /** Of what the state knows, only a copy of the volume is a candidate. */
  lemma CandidateMeans(e: Entry, app: string, volume: string, taken: set<string>)
    requires e.id in taken <==> Ours(e, app)
    requires '/' !in volume && VolumeNamed(e.write)
    ensures Candidate(SnapshotOf(e), HoldsPath(VolumePath(volume))) && e.id in taken <==> CopyOf(e, app, volume)
  {
    TagsApart();
    match e.write
    case VolumeCopy(app, other, pass, _) =>
      PrefixedApart(app);
      if pass.Some? { PrefixedApart(pass.value); }
      VolumePathsApart(volume, other);
    case VolumeBefore(app, other) => assert TagsOf(e.write)[1] == BEFORE_RESTORE;
    case DatabaseCopy(_, other, rel, _) =>
      NotAVolume(volume, other, rel);
      NotAVolume(volume, other, rel + "-wal");
      NotAVolume(volume, other, rel + "-shm");
      assert DatabasePaths(other, rel)[1] == VolumePath(other) + "/" + (rel + "-wal");
      assert DatabasePaths(other, rel)[2] == VolumePath(other) + "/" + (rel + "-shm");
    case BucketCopy(_, bucket, _) =>
      OutsideVolumes(volume, bucket + ".tar");
      assert ArchivePath(bucket) == ARCHIVES + (bucket + ".tar");
    case BucketBefore(_, bucket) =>
      OutsideVolumes(volume, bucket + ".tar");
      assert ArchivePath(bucket) == ARCHIVES + (bucket + ".tar");
    case Dump(_, _, file) => OutsideVolumes(volume, file);
    case DumpBefore(_, _, file) => OutsideVolumes(volume, file);
    case Other(_, _) =>
  }

  lemma NotAVolume(volume: string, other: string, rest: string)
    requires '/' !in volume
    ensures VolumePath(volume) != VolumePath(other) + "/" + rest
  {
    var path := VolumePath(other) + "/" + rest;
    assert path[|VOLUMES| + |other|] == '/';
    if |VolumePath(volume)| == |path| {
      assert VolumePath(volume)[|VOLUMES| + |other|] == volume[|other|];
      assert volume[|other|] in volume;
    }
  }

  /** None named, a restore takes the last copy of the volume that the state recorded — never
      what a stranger wrote, nor what a restore saved first. */
  lemma LastCopyIsTaken(log: seq<Entry>, app: string, volume: string, taken: set<string>, now: int) returns (n: nat)
    requires Sane(log) && Knows(taken, log, app) && '/' !in volume
    ensures n <= |log|
    ensures n > 0 ==> CopyOf(log[n - 1], app, volume)
    ensures forall j | n <= j < |log| :: !CopyOf(log[j], app, volume)
    ensures Pick(Listing(log), HoldsPath(VolumePath(volume)), None, taken, now).snapshot
            == if n == 0 then None else Some(SnapshotOf(log[n - 1]))
  {
    forall k | 0 <= k < |log|
      ensures Candidate(Listing(log)[k], HoldsPath(VolumePath(volume))) && Listing(log)[k].id in taken
              <==> CopyOf(log[k], app, volume)
    {
      CandidateMeans(log[k], app, volume, taken);
    }
    n := LastOf(log, Listing(log), HoldsPath(VolumePath(volume)), e => CopyOf(e, app, volume), taken, now);
  }

  lemma LastOf(log: seq<Entry>, l: seq<Snapshot>, holds: Snapshot -> bool, meant: Entry -> bool, taken: set<string>,
               now: int)
    returns (n: nat)
    requires |l| == |log|
    requires forall k | 0 <= k < |log| :: Candidate(l[k], holds) && l[k].id in taken <==> meant(log[k])
    ensures n <= |log|
    ensures n > 0 ==> meant(log[n - 1])
    ensures forall j | n <= j < |log| :: !meant(log[j])
    ensures Pick(l, holds, None, taken, now).snapshot == if n == 0 then None else Some(l[n - 1])
  {
    n := UnnamedMeaning(l, holds, taken, now);
  }

  /** Restored twice, the volume comes back from the same copy: between the two were written
      the first restore's own copy, and anything but another copy of the volume. */
  lemma RestoredTwice(log: seq<Entry>, more: seq<Entry>, app: string, volume: string, taken: set<string>,
                      later: set<string>, now: int, then': int)
    requires Sane(log) && Knows(taken, log, app) && Sane(log + more) && Knows(later, log + more, app) && '/' !in volume
    requires forall k | 0 <= k < |more| :: !CopyOf(more[k], app, volume)
    ensures Pick(Listing(log + more), HoldsPath(VolumePath(volume)), None, later, then').snapshot
            == Pick(Listing(log), HoldsPath(VolumePath(volume)), None, taken, now).snapshot
  {
    var all := log + more;
    forall j | |log| <= j < |all| ensures !CopyOf(all[j], app, volume) {
      assert all[j] == more[j - |log|];
    }
    assert forall k | 0 <= k < |log| :: all[k] == log[k];
    var n := LastCopyIsTaken(log, app, volume, taken, now);
    var m := LastCopyIsTaken(all, app, volume, later, then');
  }

  /** The restore is undone by naming the copy it took first, whatever came since. */
  lemma NamedIsTaken(log: seq<Entry>, k: nat, path: string, taken: set<string>, now: int)
    requires Sane(log) && k < |log| && path in PathsOf(log[k].write)
    ensures Pick(Listing(log), HoldsPath(path), Some(log[k].id), taken, now) == Picked(Some(SnapshotOf(log[k])), [])
  {
    NamedWhole(Listing(log), HoldsPath(path), k, taken, now);
  }

  /** The last pass that copied a volume is what comes back: its copy of the volume, and with
      it its own databases of the volume, all of them and no other. */
  lemma LastPassComesBack(log: seq<Entry>, app: string, volume: string, pass: string, c: nat, taken: set<string>,
                          now: int,
                          first: map<string, Snapshot>)
    requires Sane(log) && Knows(taken, log, app) && '/' !in volume
    requires c < |log| && CopyOf(log[c], app, volume) && log[c].write.ofPass == Some(pass)
    requires forall j | c < j < |log| :: !CopyOf(log[j], app, volume)
    requires PutTogether(Listing(log), volume, PASS_TAG + pass, taken, first)
    ensures Pick(Listing(log), HoldsPath(VolumePath(volume)), None, taken, now).snapshot == Some(SnapshotOf(log[c]))
    ensures PassOf(SnapshotOf(log[c])) == Some(PASS_TAG + pass)
    ensures forall rel | rel in first :: IsOneOf(log, first[rel], app, volume, rel, pass)
    ensures forall k | 0 <= k < |log| && log[k].write.DatabaseCopy? ::
              PassDatabase(log[k], app, volume, log[k].write.rel, pass) ==> log[k].write.rel in first
  {
    var n := LastCopyIsTaken(log, app, volume, taken, now);
    assert n - 1 == c;
    PassOfVolume(log[c]);
    DatabasesOfTheSamePass(log, app, log[c], taken, first);
  }

  // ---- Dumps ---------------------------------------------------------------------

  datatype Engine = Postgres | Mariadb

  function Extension(engine: Engine): string {
    if engine == Postgres then ".dump" else ".sql"
  }

  predicate EndsWith(s: string, end: string) {
    |end| <= |s| && s[|s| - |end|..] == end
  }

  /** The tag of its database, and its one file the staging's dump of the engine. */
  function HoldsDumpOf(engine: Engine, database: string): Snapshot -> bool {
    (s: Snapshot) =>
      DB_TAG + database in s.tags && |s.paths| == 1 && STAGING <= s.paths[0] && EndsWith(s.paths[0], Extension(engine))
  }

  predicate DumpOf(e: Entry, app: string, engine: Engine, database: string) {
    Ours(e, app) && e.write.Dump? && e.write.database == database && EndsWith(STAGING + e.write.file, Extension(engine))
  }

  lemma DbTagIs(app: string, database: string, other: string)
    ensures DB_TAG + database != APP_TAG + app
    ensures DB_TAG + database != PASS_TAG + other
    ensures DB_TAG + database == DB_TAG + other <==> database == other
    ensures DB_TAG + database !in {BACKED_UP, STOPPED_TAG, BUCKET_TAG, BEFORE_RESTORE, DUMP_KIND}
  {
    assert (DB_TAG + database)[0] == 'd' && (APP_TAG + app)[0] == 'a' && (PASS_TAG + other)[0] == 'p';
    assert (DB_TAG + database)[|DB_TAG|..] == database && (DB_TAG + other)[|DB_TAG|..] == other;
    assert BACKED_UP[0] == 'k' && STOPPED_TAG[0] == 'k' && BUCKET_TAG[0] == 'k';
    assert BEFORE_RESTORE[0] == 'k' && DUMP_KIND[0] == 'k';
  }

  /** Everything else a writer leaves has another tag, another number of files, or is a copy
      taken before a restore. */
  lemma NoDump(e: Entry, engine: Engine, database: string)
    requires !e.write.Dump? && !e.write.Other?
    ensures !Candidate(SnapshotOf(e), HoldsDumpOf(engine, database))
  {
    match e.write
    case VolumeCopy(app, _, pass, _) => DbTagIs(app, database, if pass.Some? then pass.value else "");
    case VolumeBefore(app, _) => DbTagIs(app, database, "");
    case DatabaseCopy(_, _, _, _) =>
    case BucketCopy(app, _, pass) => DbTagIs(app, database, pass);
    case BucketBefore(app, _) => DbTagIs(app, database, "");
    case DumpBefore(_, _, _) => assert TagsOf(e.write)[2] == BEFORE_RESTORE;
  }

  lemma DumpIs(e: Entry, engine: Engine, database: string)
    requires e.write.Dump?
    ensures Candidate(SnapshotOf(e), HoldsDumpOf(engine, database))
            <==> e.write.database == database && EndsWith(STAGING + e.write.file, Extension(engine))
  {
    DumpTags(e.write.app, e.write.database, e.write.file, database);
    assert PathsOf(e.write) == [STAGING + e.write.file] && STAGING <= STAGING + e.write.file;
  }

  lemma DumpTags(app: string, name: string, file: string, database: string)
    ensures DB_TAG + database in TagsOf(Dump(app, name, file)) <==> name == database
    ensures BEFORE_RESTORE !in TagsOf(Dump(app, name, file))
  {
    DbTagIs(app, database, name);
    PrefixedApart(app);
    PrefixedApart(name);
    TagsApart();
    assert TagsOf(Dump(app, name, file))[1] == DB_TAG + name;
  }

  /** A copy of a SQLite database carries the tag of a database of that name too, and is
      never taken for its dump; nor is another engine's. */
  lemma DumpMeans(e: Entry, app: string, engine: Engine, database: string, taken: set<string>)
    requires e.id in taken <==> Ours(e, app)
    ensures Candidate(SnapshotOf(e), HoldsDumpOf(engine, database)) && e.id in taken
            <==> DumpOf(e, app, engine, database)
  {
    if e.write.Dump? { DumpIs(e, engine, database); }
    else if !e.write.Other? { NoDump(e, engine, database); }
  }

  lemma DumpsOf(log: seq<Entry>, app: string, engine: Engine, database: string, taken: set<string>)
    requires Knows(taken, log, app)
    ensures forall k | 0 <= k < |log| ::
              Candidate(Listing(log)[k], HoldsDumpOf(engine, database)) && Listing(log)[k].id in taken
              <==> DumpOf(log[k], app, engine, database)
  {
    forall k | 0 <= k < |log|
      ensures Candidate(Listing(log)[k], HoldsDumpOf(engine, database)) && Listing(log)[k].id in taken
              <==> DumpOf(log[k], app, engine, database)
    {
      assert Listing(log)[k] == SnapshotOf(log[k]);
      DumpMeans(log[k], app, engine, database, taken);
    }
  }

  lemma LastDumpIsTaken(log: seq<Entry>, app: string, engine: Engine, database: string, taken: set<string>, now: int)
    returns (n: nat)
    requires Sane(log) && Knows(taken, log, app)
    ensures n <= |log|
    ensures n > 0 ==> DumpOf(log[n - 1], app, engine, database)
    ensures forall j | n <= j < |log| :: !DumpOf(log[j], app, engine, database)
    ensures Pick(Listing(log), HoldsDumpOf(engine, database), None, taken, now).snapshot
            == if n == 0 then None else Some(SnapshotOf(log[n - 1]))
  {
    DumpsOf(log, app, engine, database, taken);
    n := LastOf(log, Listing(log), HoldsDumpOf(engine, database), e => DumpOf(e, app, engine, database), taken, now);
  }

  // ---- Where a database goes back ------------------------------------------------

  /** The directory of a path; `None` without one. */
  function Parent(path: string): Option<string> {
    if path == [] then None
    else if path[|path| - 1] == '/' then Some(path[..|path| - 1])
    else Parent(path[..|path| - 1])
  }

  /** The files' directory in the volume, when they share one. */
  function FilesDir(paths: seq<string>, volume: string): Option<string> {
    var root := VolumePath(volume);
    if paths == [] then None
    else
      match Parent(paths[0])
      case None => None
      case Some(dir) =>
        if (dir == root || root + "/" <= dir) && forall p | p in paths :: Parent(p) == Some(dir) then Some(dir)
    else None
  }

  lemma {:induction false} ParentOfLonger(path: string, name: string)
    requires '/' !in name
    ensures Parent(path + name) == Parent(path)
  {
    if name == [] {
      assert path + name == path;
    } else {
      var n := |name| - 1;
      assert (path + name)[..|path + name| - 1] == path + name[..n];
      assert name[n] in name;
      ParentOfLonger(path, name[..n]);
    }
  }

  lemma {:induction false} ParentIsInside(root: string, rel: string)
    ensures var dir := Parent(root + "/" + rel);
            dir.Some? && (dir.value == root || root + "/" <= dir.value)
  {
    var path := root + "/" + rel;
    if rel == [] {
      assert path == root + "/" && path[..|path| - 1] == root;
    } else {
      var n := |rel| - 1;
      assert path[..|path| - 1] == root + "/" + rel[..n];
      if rel[n] != '/' {
        ParentIsInside(root, rel[..n]);
      }
    }
  }

  /** A database and its journal files are put back in one directory of their volume: what
      Homelabus archived is never refused there. */
  lemma CopiesHaveOneDirectory(volume: string, rel: string)
    ensures FilesDir(DatabasePaths(volume, rel), volume) == Parent(VolumePath(volume) + "/" + rel)
    ensures Parent(VolumePath(volume) + "/" + rel).Some?
  {
    var file := VolumePath(volume) + "/" + rel;
    ParentIsInside(VolumePath(volume), rel);
    ParentOfLonger(file, "-wal");
    ParentOfLonger(file, "-shm");
  }
}
