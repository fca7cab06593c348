/** From a pass to the restore after it. */
module PassRestore {
  import opened Wrappers
  import opened Snapshots
  import opened Picking
  import opened SqliteOfPass
  import opened Repository
  import opened PassWorld
  import Pass

  // ---- What the state knows ------------------------------------------------------

  /** The ids the state has of an app: what a restore of it looks into. */
  function IdsTaken(w: World, app: string): set<string> {
    set t | t in w.taken && t.0 == app :: t.1
  }

  /** Every repository's recorded entries are known by their ids, and nothing else of it. */
  ghost predicate KnowsThem(w: World, app: string) {
    forall d :: Knows(IdsTaken(w, app), LogOf(w, d), app)
  }

  /** Ids are hashes: none twice in any repository, and what was written since `start` has
      none the state ever knew. */
  ghost predicate IdsApart(start: World, w: World) {
    && (forall d, d', i, j | 0 <= i < |LogOf(w, d)| && 0 <= j < |LogOf(w, d')| && (d != d' || i != j) ::
          LogOf(w, d)[i].id != LogOf(w, d')[j].id)
    && (forall d, i, t | |LogOf(start, d)| <= i < |LogOf(w, d)| && t in start.taken :: LogOf(w, d)[i].id != t.1)
  }

  lemma IdIsTaken(w: World, app: string, id: string)
    ensures id in IdsTaken(w, app) <==> (app, id) in w.taken
  {
    assert (app, id) in w.taken ==> (app, id).0 == app && (app, id).1 == id;
  }

  /** What the state knew of an entry as the pass began, it knows as it ends. */
  lemma OldIsKnown(plan: Plan, start: World, w: World, app: string, dest: string, k: nat)
    requires Sound(plan, start, w) && IdsApart(start, w) && KnowsThem(start, app) && k < |LogOf(start, dest)|
    ensures k < |LogOf(w, dest)| && (LogOf(w, dest)[k].id in IdsTaken(w, app) <==> Ours(LogOf(w, dest)[k], app))
  {
    LogGrew(start, w, dest);
    var e := LogOf(start, dest)[k];
    assert LogOf(w, dest)[k] == e;
    assert Knows(IdsTaken(start, app), LogOf(start, dest), app);
    IdIsTaken(start, app, e.id);
    IdIsTaken(w, app, e.id);
    forall d, i | |LogOf(start, d)| <= i < |LogOf(w, d)| ensures (app, e.id) !in Ledger(LogOf(w, d)[i]) {
      assert LogOf(w, d)[i].id != LogOf(w, dest)[k].id;
    }
    assert !TakenSince(start, w, (app, e.id));
  }

  /** And what was written since, by its own id. */
  lemma NewIsKnown(plan: Plan, start: World, w: World, app: string, dest: string, k: nat)
    requires Sound(plan, start, w) && IdsApart(start, w) && |LogOf(start, dest)| <= k < |LogOf(w, dest)|
    ensures LogOf(w, dest)[k].id in IdsTaken(w, app) <==> Ours(LogOf(w, dest)[k], app)
  {
    var e := LogOf(w, dest)[k];
    IdIsTaken(w, app, e.id);
    assert OwnWrite(plan, e) && Ledger(e) <= w.taken;
    if Ours(e, app) { assert (app, e.id) in Ledger(e); }
    if (app, e.id) in w.taken {
      assert TakenSince(start, w, (app, e.id));
      var d, i :| |LogOf(start, d)| <= i < |LogOf(w, d)| && (app, e.id) in Ledger(LogOf(w, d)[i]);
      assert LogOf(w, d)[i].id == e.id;
      assert d == dest && i == k;
    }
  }

  /** A state that knew, as the pass began, what each repository held of an app knows it as the
      pass ends, whoever wrote there meanwhile and whichever archives failed. */
  lemma StillKnowsThem(plan: Plan, start: World, w: World, app: string)
    requires Sound(plan, start, w) && IdsApart(start, w) && KnowsThem(start, app)
    ensures KnowsThem(w, app)
  {
    forall d ensures Knows(IdsTaken(w, app), LogOf(w, d), app) {
      forall k | 0 <= k < |LogOf(w, d)| ensures LogOf(w, d)[k].id in IdsTaken(w, app) <==> Ours(LogOf(w, d)[k], app) {
        if k < |LogOf(start, d)| {
          OldIsKnown(plan, start, w, app, d, k);
        } else {
          NewIsKnown(plan, start, w, app, d, k);
        }
      }
    }
  }

  // ---- What comes back -----------------------------------------------------------

  /** Where the pass's own copy of a volume lies, of those it said it took. */
  lemma OwnCopyIsThere(plan: Plan, start: World, w: World, app: string, dest: string, volume: string) returns (c: nat)
    requires Sound(plan, start, w) && Reached(w.events, app, dest) && volume in plan.volumes(app)
    requires forall e | e in LogOf(start, dest) && e.write.VolumeCopy? :: e.write.ofPass != Some(plan.token)
    ensures |LogOf(start, dest)| <= c < |LogOf(w, dest)|
    ensures CopyOf(LogOf(w, dest)[c], app, volume) && LogOf(w, dest)[c].write.ofPass == Some(plan.token)
  {
    var log := LogOf(w, dest);
    var said :| said in w.events && said.Done? && said.app == app && said.kind == Volumes && said.dest == dest;
    assert True(plan, w, said);
    var e :| e in log && IsCopy(e, app, volume, plan.token);
    c :| 0 <= c < |log| && log[c] == e;
    LogGrew(start, w, dest);
    forall i | 0 <= i < |LogOf(start, dest)| ensures log[i] in LogOf(start, dest) {
      assert log[i] == LogOf(start, dest)[i];
    }
  }

  /** Past where the pass began to write, every copy of a volume is its own. */
  lemma NewestIsThePass(plan: Plan, log: seq<Entry>, began: nat, own: nat, app: string, volume: string,
                        taken: set<string>, now: int) returns (c: nat)
    requires Sane(log) && Knows(taken, log, app) && '/' !in volume
    requires began <= own < |log| && CopyOf(log[own], app, volume)
    requires forall i | began <= i < |log| :: OwnWrite(plan, log[i])
    ensures c < |log| && CopyOf(log[c], app, volume) && log[c].write.ofPass == Some(plan.token)
    ensures PassOf(SnapshotOf(log[c])) == Some(PASS_TAG + plan.token)
    ensures Pick(Listing(log), HoldsPath(VolumePath(volume)), None, taken, now).snapshot == Some(SnapshotOf(log[c]))
  {
    var n := LastCopyIsTaken(log, app, volume, taken, now);
    c := n - 1;
    assert own <= c && OwnWrite(plan, log[c]);
    PassOfVolume(log[c]);
  }

  /** After a pass that said it copied an app's volumes to a destination, whatever strangers
      wrote there meanwhile, a restore that names nothing takes a copy of that pass. */
  lemma RestoreTakesThePass(plan: Plan, start: World, w: World, app: string, dest: string, volume: string,
                            now: int) returns (c: nat)
    requires Sound(plan, start, w) && Reached(w.events, app, dest) && volume in plan.volumes(app)
    requires KnowsThem(start, app) && IdsApart(start, w) && Sane(LogOf(w, dest)) && '/' !in volume
    requires forall e | e in LogOf(start, dest) && e.write.VolumeCopy? :: e.write.ofPass != Some(plan.token)
    ensures c < |LogOf(w, dest)|
    ensures CopyOf(LogOf(w, dest)[c], app, volume) && LogOf(w, dest)[c].write.ofPass == Some(plan.token)
    ensures PassOf(SnapshotOf(LogOf(w, dest)[c])) == Some(PASS_TAG + plan.token)
    ensures Pick(Listing(LogOf(w, dest)), HoldsPath(VolumePath(volume)), None, IdsTaken(w, app), now).snapshot
            == Some(SnapshotOf(LogOf(w, dest)[c]))
  {
    StillKnowsThem(plan, start, w, app);
    var own := OwnCopyIsThere(plan, start, w, app, dest, volume);
    assert forall i | |LogOf(start, dest)| <= i < |LogOf(w, dest)| :: OwnWrite(plan, LogOf(w, dest)[i]);
    c := NewestIsThePass(plan, LogOf(w, dest), |LogOf(start, dest)|, own, app, volume, IdsTaken(w, app), now);
  }

  /** And it puts back with it databases of that pass alone — among them every one the pass
      said it archived there. */
  lemma PassThenRestore(plan: Plan, start: World, w: World, app: string, dest: string, volume: string,
                        now: int, first: map<string, Snapshot>)
    requires Sound(plan, start, w) && Reached(w.events, app, dest) && volume in plan.volumes(app)
    requires KnowsThem(start, app) && IdsApart(start, w) && Sane(LogOf(w, dest)) && '/' !in volume
    requires forall e | e in LogOf(start, dest) && e.write.VolumeCopy? :: e.write.ofPass != Some(plan.token)
    requires PutTogether(Listing(LogOf(w, dest)), volume, PASS_TAG + plan.token, IdsTaken(w, app), first)
    ensures forall rel | rel in first :: IsOneOf(LogOf(w, dest), first[rel], app, volume, rel, plan.token)
    ensures forall e | e in w.events && e.Done? && e.app == app && e.kind == Sqlite && e.dest == dest ::
              |e.item| == 2 && (e.item[0] == volume ==> e.item[1] in first)
  {
    var log := LogOf(w, dest);
    var c := RestoreTakesThePass(plan, start, w, app, dest, volume, now);
    StillKnowsThem(plan, start, w, app);
    DatabasesOfTheSamePass(log, app, log[c], IdsTaken(w, app), first);
    forall e | e in w.events && e.Done? && e.app == app && e.kind == Sqlite && e.dest == dest
      ensures |e.item| == 2 && (e.item[0] == volume ==> e.item[1] in first)
    {
      assert |e.item| == 2 by { assert True(plan, w, e); }
      if e.item[0] == volume { var k := ArchivedIsThere(plan, w, e); }
    }
  }

  /** What a pass said it archived of a database is in the repository. */
  lemma ArchivedIsThere(plan: Plan, w: World, e: Event) returns (k: nat)
    requires Honest(plan, w) && e in w.events && e.Done? && e.kind == Sqlite
    ensures |e.item| == 2 && k < |LogOf(w, e.dest)|
    ensures PassDatabase(LogOf(w, e.dest)[k], e.app, e.item[0], e.item[1], plan.token)
  {
    var log := LogOf(w, e.dest);
    assert True(plan, w, e);
    var x :| x in log && IsSaid(plan, x, e);
    k :| 0 <= k < |log| && log[k] == x;
  }

  /** When no archive of a database failed, that is every database staged from the volume. */
  lemma EveryDatabaseComesBack(plan: Plan, start: World, w0: World, w: World, b: BackedUp, dest: string,
                               now: int, first: map<string, Snapshot>, bases: seq<string>, k: nat)
    requires Sound(plan, start, w) && Reached(w.events, b.app, dest) && b.volume in plan.volumes(b.app)
    requires KnowsThem(start, b.app) && IdsApart(start, w) && Sane(LogOf(w, dest)) && '/' !in b.volume
    requires forall e | e in LogOf(start, dest) && e.write.VolumeCopy? :: e.write.ofPass != Some(plan.token)
    requires PutTogether(Listing(LogOf(w, dest)), b.volume, PASS_TAG + plan.token, IdsTaken(w, b.app), first)
    requires Pass.DatabasesServed(plan, w0, w, b) && plan.staged(b.app, b.volume) == Some(bases) && k < |bases|
    requires forall e | e in w.events && e.Failed? && e.app == b.app && e.to == Some(dest) :: e.kind != Sqlite
    ensures bases[k] in first
  {
    PassThenRestore(plan, start, w, b.app, dest, b.volume, now, first);
    assert Pass.SqliteTried(plan, w, b, [dest]);
    assert Pass.TriedOnEach(w, b.app, Sqlite, [b.volume, bases[k]], [dest]);
    assert dest in [dest];
    var e :| e in w.events && Attempt(e, b.app, Sqlite, [b.volume, bases[k]], dest);
    assert e.Done?;
  }
}
