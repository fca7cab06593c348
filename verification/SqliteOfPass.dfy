/** The databases that go back with a volume's snapshot. */
module SqliteOfPass {
  import opened Wrappers
  import opened Snapshots

  function FirstWith(prefix: string, tags: seq<string>): (t: Option<string>)
    ensures t.Some? ==> t.value in tags && prefix <= t.value
    ensures t.None? ==> forall u | u in tags :: !(prefix <= u)
  {
    if tags == [] then None
    else if prefix <= tags[0] then Some(tags[0])
    else
      assert forall u :: u in tags <==> u == tags[0] || u in tags[1..];
      FirstWith(prefix, tags[1..])
  }

  function PassOf(s: Snapshot): Option<string> {
    FirstWith(PASS_TAG, s.tags)
  }

  function DatabaseOf(s: Snapshot): Option<string> {
    match FirstWith(DB_TAG, s.tags)
    case None => None
    case Some(t) => Some(t[|DB_TAG|..])
  }

  predicate Inside(volume: string, paths: seq<string>) {
    paths != [] && forall p | p in paths :: VolumePath(volume) + "/" <= p
  }

  /** A consistent snapshot of a database of `volume` that Homelabus took with that pass. */
  predicate TakenBy(s: Snapshot, volume: string, pass: string, taken: set<string>) {
    && SQLITE_KIND in s.tags && PassOf(s) == Some(pass) && s.id in taken
    && Inside(volume, s.paths) && s.epoch.Some? && DatabaseOf(s).Some?
  }

  predicate TakenOf(s: Snapshot, db: string, volume: string, pass: string, taken: set<string>) {
    TakenBy(s, volume, pass, taken) && DatabaseOf(s) == Some(db)
  }

  /** The `k`th is the earliest of its database, the first listed of those as early. */
  predicate IsEarliest(snapshots: seq<Snapshot>, k: nat, db: string, volume: string, pass: string, taken: set<string>)
    requires k < |snapshots|
  {
    && TakenOf(snapshots[k], db, volume, pass, taken)
    && forall j | 0 <= j < |snapshots| && TakenOf(snapshots[j], db, volume, pass, taken) ::
         snapshots[k].epoch.value < snapshots[j].epoch.value
         || (snapshots[k].epoch == snapshots[j].epoch && k <= j)
  }

  /** One snapshot for each database of the pass in the volume, its earliest. */
  ghost predicate PutTogether(snapshots: seq<Snapshot>, volume: string, pass: string, taken: set<string>,
                              first: map<string, Snapshot>) {
    && (forall s | s in snapshots && TakenBy(s, volume, pass, taken) :: DatabaseOf(s).value in first)
    && (forall db | db in first ::
          exists k: nat :: k < |snapshots| && first[db] == snapshots[k]
                        && IsEarliest(snapshots, k, db, volume, pass, taken))
  }

  lemma EarliestSoFar(snapshots: seq<Snapshot>, k: nat, db: string, volume: string, pass: string, taken: set<string>,
                      s: Snapshot)
    requires k < |snapshots| && IsEarliest(snapshots, k, db, volume, pass, taken)
    requires TakenOf(s, db, volume, pass, taken) ==> snapshots[k].epoch.value <= s.epoch.value
    ensures IsEarliest(snapshots + [s], k, db, volume, pass, taken)
  {
  }

  method OfPass(snapshots: seq<Snapshot>, volume: string, of: Snapshot, taken: set<string>)
    returns (first: map<string, Snapshot>)
    ensures match PassOf(of)
            case None => first == map[]
            case Some(pass) => PutTogether(snapshots, volume, pass, taken, first)
  {
    first := map[];
    if PassOf(of) == None { return; }
    var pass := PassOf(of).value;
    for i := 0 to |snapshots|
      invariant PutTogether(snapshots[..i], volume, pass, taken, first)
    {
      var s := snapshots[i];
      ghost var before := snapshots[..i];
      assert snapshots[..i + 1] == before + [s];
      if TakenBy(s, volume, pass, taken) {
        var db := DatabaseOf(s).value;
        if db !in first || first[db].epoch.None? || first[db].epoch.value > s.epoch.value {
          NewEarliest(before, db, volume, pass, taken, s, first);
          AddedTogether(before, volume, pass, taken, s, first, db);
          first := first[db := s];
        } else {
          KeptTogether(before, volume, pass, taken, s, first);
        }
      } else {
        KeptTogether(before, volume, pass, taken, s, first);
      }
    }
    assert snapshots[..|snapshots|] == snapshots;
  }

  lemma NewEarliest(before: seq<Snapshot>, db: string, volume: string, pass: string, taken: set<string>, s: Snapshot,
                    first: map<string, Snapshot>)
    requires PutTogether(before, volume, pass, taken, first) && TakenOf(s, db, volume, pass, taken)
    requires db in first && first[db].epoch.Some? ==> first[db].epoch.value > s.epoch.value
    ensures IsEarliest(before + [s], |before|, db, volume, pass, taken)
  {
    forall j | 0 <= j < |before| && TakenOf(before[j], db, volume, pass, taken)
      ensures s.epoch.value < before[j].epoch.value
    {
      assert before[j] in before;
      var k: nat :| k < |before| && first[db] == before[k] && IsEarliest(before, k, db, volume, pass, taken);
    }
  }

  lemma StillTogether(before: seq<Snapshot>, volume: string, pass: string, taken: set<string>, s: Snapshot,
                      first: map<string, Snapshot>, db: string)
    requires PutTogether(before, volume, pass, taken, first) && db in first
    requires TakenOf(s, db, volume, pass, taken) ==> first[db].epoch.Some? && first[db].epoch.value <= s.epoch.value
    ensures exists k: nat :: k < |before + [s]| && first[db] == (before + [s])[k]
              && IsEarliest(before + [s], k, db, volume, pass, taken)
  {
    var k: nat :| k < |before| && first[db] == before[k] && IsEarliest(before, k, db, volume, pass, taken);
    EarliestSoFar(before, k, db, volume, pass, taken, s);
    assert (before + [s])[k] == before[k];
  }

  /** A snapshot no earlier than its database's changes nothing. */
  lemma KeptTogether(before: seq<Snapshot>, volume: string, pass: string, taken: set<string>, s: Snapshot,
                     first: map<string, Snapshot>)
    requires PutTogether(before, volume, pass, taken, first)
    requires TakenBy(s, volume, pass, taken) ==>
               var db := DatabaseOf(s).value;
               db in first && first[db].epoch.Some? && first[db].epoch.value <= s.epoch.value
    ensures PutTogether(before + [s], volume, pass, taken, first)
  {
    forall db | db in first
      ensures exists k: nat :: k < |before + [s]| && first[db] == (before + [s])[k]
                && IsEarliest(before + [s], k, db, volume, pass, taken)
    {
      StillTogether(before, volume, pass, taken, s, first, db);
    }
  }

  lemma AddedTogether(before: seq<Snapshot>, volume: string, pass: string, taken: set<string>, s: Snapshot,
                      first: map<string, Snapshot>, db: string)
    requires PutTogether(before, volume, pass, taken, first) && TakenOf(s, db, volume, pass, taken)
    requires IsEarliest(before + [s], |before|, db, volume, pass, taken)
    ensures PutTogether(before + [s], volume, pass, taken, first[db := s])
  {
    var now, added := before + [s], first[db := s];
    forall other | other in added
      ensures exists k: nat :: k < |now| && added[other] == now[k] && IsEarliest(now, k, other, volume, pass, taken)
    {
      if other != db {
        StillTogether(before, volume, pass, taken, s, first, other);
      } else {
        assert now[|before|] == s;
      }
    }
  }
}
