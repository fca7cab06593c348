/** A repository listed by date, as restic does, however strangers date what they write. */
module Listed {
  import opened Wrappers
  import opened Ordering
  import opened Picking
  import opened Repository
  import opened Snapshots

  function ByDate(): (Snapshot, Snapshot) -> bool {
    (a: Snapshot, b: Snapshot) => a.epoch.Some? && b.epoch.Some? && a.epoch.value < b.epoch.value
  }

  /** The snapshots of a log, each once, none before an older one. */
  ghost predicate ListsByDate(l: seq<Snapshot>, log: seq<Entry>) {
    && (forall s :: s in l <==> s in Listing(log))
    && (forall i, j | 0 <= i < j < |l| :: l[i] != l[j] && !ByDate()(l[j], l[i]))
  }

  /** What was written for an app and recorded is dated in the order it was written. */
  predicate DatedAsWritten(log: seq<Entry>, app: string) {
    forall j, k | 0 <= j < k < |log| && Ours(log[j], app) && Ours(log[k], app) ::
      ByDate()(SnapshotOf(log[j]), SnapshotOf(log[k]))
  }

  lemma {:induction false} OwnIncrease(l: seq<Snapshot>, taken: set<string>, lt: (Snapshot, Snapshot) -> bool)
    requires forall i, j | 0 <= i < j < |l| && l[i].id in taken && l[j].id in taken :: lt(l[i], l[j])
    ensures Increasing(TakenOnly(l, taken), lt)
    decreases |l|
  {
    if l != [] {
      var rest, last := l[..|l| - 1], l[|l| - 1];
      OwnIncrease(rest, taken, lt);
      if last.id in taken {
        var own := TakenOnly(rest, taken);
        forall i | 0 <= i < |own| ensures lt(own[i], last) {
          assert own[i] in rest;
          var k :| 0 <= k < |rest| && rest[k] == own[i];
          assert lt(l[k], l[|l| - 1]);
        }
      }
    }
  }

  /** Two of the app's own are dated apart. */
  lemma OwnAreApart(log: seq<Entry>, app: string, taken: set<string>, a: Snapshot, b: Snapshot)
    requires Knows(taken, log, app) && DatedAsWritten(log, app)
    requires a in Listing(log) && b in Listing(log) && a.id in taken && b.id in taken
    ensures a == b || ByDate()(a, b) || ByDate()(b, a)
  {
    var j: nat :| j < |log| && Listing(log)[j] == a;
    var k: nat :| k < |log| && Listing(log)[k] == b;
    assert a == SnapshotOf(log[j]) && b == SnapshotOf(log[k]);
    assert Ours(log[j], app) && Ours(log[k], app);
  }

  /** Homelabus's own part of the listing is in the order it was written. */
  lemma OwnPartIsTheLogs(log: seq<Entry>, l: seq<Snapshot>, app: string, taken: set<string>)
    requires Knows(taken, log, app) && DatedAsWritten(log, app) && ListsByDate(l, log)
    ensures TakenOnly(l, taken) == TakenOnly(Listing(log), taken)
  {
    forall i, j | 0 <= i < j < |l| && l[i].id in taken && l[j].id in taken ensures ByDate()(l[i], l[j]) {
      assert l[i] in l && l[j] in l;
      OwnAreApart(log, app, taken, l[i], l[j]);
    }
    OwnIncrease(l, taken, ByDate());
    forall i, j | 0 <= i < j < |log| && Listing(log)[i].id in taken && Listing(log)[j].id in taken
      ensures ByDate()(Listing(log)[i], Listing(log)[j])
    {
      assert Ours(log[i], app) && Ours(log[j], app);
    }
    OwnIncrease(Listing(log), taken, ByDate());
    IncreasingIsUnique(TakenOnly(l, taken), TakenOnly(Listing(log), taken), ByDate());
  }

  /** Whatever dates strangers give theirs, an unnamed restore takes of the listing by date what
      it would of one in the order of writing: the last copy of the volume, for one. */
  lemma DatesChangeNothing(log: seq<Entry>, l: seq<Snapshot>, app: string, holds: Snapshot -> bool, taken: set<string>,
                           now: int)
    requires Knows(taken, log, app) && DatedAsWritten(log, app) && ListsByDate(l, log)
    ensures Pick(l, holds, None, taken, now).snapshot == Pick(Listing(log), holds, None, taken, now).snapshot
  {
    OwnPartIsTheLogs(log, l, app, taken);
    ForeignersChangeNothing(l, holds, taken, now);
    ForeignersChangeNothing(Listing(log), holds, taken, now);
  }
}
