/** The snapshot a restore takes, of a repository anyone may have written into. */
module Picking {
  import opened Wrappers
  import opened Sequences
  import opened Snapshots

  const CLOCK_SKEW := 3600

  datatype SetAside = NotTaken | Future

  datatype Picked = Picked(snapshot: Option<Snapshot>, setAside: seq<(Snapshot, SetAside)>)

  function Why(s: Snapshot, now: int): SetAside {
    if s.epoch.Some? && s.epoch.value > now + CLOCK_SKEW then Future else NotTaken
  }

  /** The newest first: the listing is read from its end. */
  function Pick(snapshots: seq<Snapshot>, holds: Snapshot -> bool, wanted: Option<string>, taken: set<string>,
                now: int): Picked
    decreases |snapshots|
  {
    if snapshots == [] then Picked(None, [])
    else
      var rest, s := snapshots[..|snapshots| - 1], snapshots[|snapshots| - 1];
      if !Considered(s, holds, wanted) then Pick(rest, holds, wanted, taken, now)
      else if s.id in taken || wanted == Some(s.id) then Picked(Some(s), [])
      else if wanted.Some? then Picked(None, [(s, Why(s, now))])
      else
        var older := Pick(rest, holds, wanted, taken, now);
        older.(setAside := [(s, Why(s, now))] + older.setAside)
  }

  /** Of the right volume, and named — or, when none is named, no copy a restore took. */
  predicate Considered(s: Snapshot, holds: Snapshot -> bool, wanted: Option<string>) {
    holds(s) && match wanted case Some(w) => w <= s.id case None => BEFORE_RESTORE !in s.tags
  }

  method PickWhere(snapshots: seq<Snapshot>, holds: Snapshot -> bool, wanted: Option<string>, taken: set<string>,
                   now: int)
    returns (picked: Picked)
    ensures picked == Pick(snapshots, holds, wanted, taken, now)
  {
    picked := Picked(None, []);
    var n: nat := |snapshots|;
    assert snapshots[..n] == snapshots;
    while n > 0
      invariant n <= |snapshots|
      invariant var older := Pick(snapshots[..n], holds, wanted, taken, now);
                Pick(snapshots, holds, wanted, taken, now)
                == Picked(older.snapshot, picked.setAside + older.setAside)
      invariant picked.snapshot == None
    {
      n := n - 1;
      assert snapshots[..n + 1][..n] == snapshots[..n];
      var s := snapshots[n];
      if !holds(s) { continue; }
      match wanted {
        case Some(w) =>
          if !(w <= s.id) { continue; }
          if s.id in taken || s.id == w {
            return picked.(snapshot := Some(s));
          } else {
            return picked.(setAside := picked.setAside + [(s, Why(s, now))]);
          }
        case None =>
          if BEFORE_RESTORE in s.tags { continue; }
          if s.id in taken { return picked.(snapshot := Some(s)); }
          picked := picked.(setAside := picked.setAside + [(s, Why(s, now))]);
      }
    }
  }

  // ---- None named --------------------------------------------------------------

  predicate Candidate(s: Snapshot, holds: Snapshot -> bool) {
    holds(s) && BEFORE_RESTORE !in s.tags
  }

  function Reversed<T>(s: seq<T>): seq<T> {
    seq(|s|, i requires 0 <= i < |s| => s[|s| - 1 - i])
  }

  /** What is said of a candidate Homelabus never took. */
  function Foreign(s: Snapshot, holds: Snapshot -> bool, taken: set<string>, now: int): Option<(Snapshot, SetAside)> {
    if Candidate(s, holds) && s.id !in taken then Some((s, Why(s, now))) else None
  }

  lemma NewestFirst<T, U>(f: T -> Option<U>, older: seq<T>, newest: T)
    ensures FilterMap(f, Reversed(older + [newest]))
            == (match f(newest) case None => [] case Some(y) => [y]) + FilterMap(f, Reversed(older))
  {
    var all := Reversed(older + [newest]);
    assert all[0] == newest && all[1..] == Reversed(older);
  }

  /** Taken is the newest candidate Homelabus took, the `n`th of the listing; set aside, from
      the newest, the candidates written after it — all of them foreign. */
  lemma {:induction false} UnnamedMeaning(snapshots: seq<Snapshot>, holds: Snapshot -> bool, taken: set<string>,
                                          now: int)
    returns (n: nat)
    ensures n <= |snapshots|
    ensures n > 0 ==> Candidate(snapshots[n - 1], holds) && snapshots[n - 1].id in taken
    ensures forall j | n <= j < |snapshots| :: Candidate(snapshots[j], holds) ==> snapshots[j].id !in taken
    ensures Pick(snapshots, holds, None, taken, now)
            == Picked(if n == 0 then None else Some(snapshots[n - 1]),
                      FilterMap(s => Foreign(s, holds, taken, now), Reversed(snapshots[n..])))
    decreases |snapshots|
  {
    if snapshots == [] {
      n := 0;
    } else {
      var last := |snapshots| - 1;
      var rest, s := snapshots[..last], snapshots[last];
      if Candidate(s, holds) && s.id in taken {
        n := last + 1;
      } else {
        n := UnnamedMeaning(rest, holds, taken, now);
        assert rest[n..] + [s] == snapshots[n..];
        NewestFirst(x => Foreign(x, holds, taken, now), rest[n..], s);
      }
    }
  }

  /** A snapshot set aside is dated ahead of the clock, by more than any skew, or is one
      Homelabus did not take. */
  lemma WhyMeans(s: Snapshot, now: int)
    ensures Why(s, now) == Future <==> exists t: int :: s.epoch == Some(t) && t - now > 3600
    ensures Why(s, now) == NotTaken <==> s.epoch == None || s.epoch.value <= now + 3600
  {
  }

  /** Homelabus's own part of a listing. */
  function TakenOnly(snapshots: seq<Snapshot>, taken: set<string>): (own: seq<Snapshot>)
    ensures forall s :: s in own <==> s in snapshots && s.id in taken
  {
    if snapshots == [] then []
    else
      var own, s := TakenOnly(snapshots[..|snapshots| - 1], taken), snapshots[|snapshots| - 1];
      assert forall x :: x in snapshots <==> x in snapshots[..|snapshots| - 1] || x == s;
      if s.id in taken then own + [s] else own
  }

  /** Whoever writes into the repository, what is taken is what would be taken of
      Homelabus's own snapshots alone. */
  lemma {:induction false} ForeignersChangeNothing(snapshots: seq<Snapshot>, holds: Snapshot -> bool,
                                                   taken: set<string>, now: int)
    ensures Pick(TakenOnly(snapshots, taken), holds, None, taken, now)
            == Picked(Pick(snapshots, holds, None, taken, now).snapshot, [])
    decreases |snapshots|
  {
    if snapshots != [] {
      var rest, s := snapshots[..|snapshots| - 1], snapshots[|snapshots| - 1];
      ForeignersChangeNothing(rest, holds, taken, now);
      if s.id in taken {
        var own := TakenOnly(rest, taken);
        assert (own + [s])[..|own + [s]| - 1] == own;
      }
    }
  }

  /** What comes after and is not a candidate Homelabus took is passed over: a restore's own
      copy among them, recorded as it is. */
  lemma {:induction false} LaterPassedOver(snapshots: seq<Snapshot>, more: seq<Snapshot>, holds: Snapshot -> bool,
                                           taken: set<string>, more': set<string>, now: int)
    requires forall s | s in more :: Candidate(s, holds) ==> s.id !in taken + more'
    requires forall s | s in snapshots :: s.id !in more'
    ensures Pick(snapshots + more, holds, None, taken + more', now).snapshot
            == Pick(snapshots, holds, None, taken, now).snapshot
    decreases |snapshots| + |more|
  {
    if more != [] {
      var init := more[..|more| - 1];
      assert (snapshots + more)[..|snapshots + more| - 1] == snapshots + init;
      assert (snapshots + more)[|snapshots + more| - 1] == more[|more| - 1];
      assert more[|more| - 1] in more;
      LaterPassedOver(snapshots, init, holds, taken, more', now);
    } else if snapshots != [] {
      assert snapshots + more == snapshots;
      var rest := snapshots[..|snapshots| - 1];
      assert snapshots[|snapshots| - 1] in snapshots;
      assert rest + [] == rest;
      LaterPassedOver(rest, [], holds, taken, more', now);
    }
  }

  // ---- One named ---------------------------------------------------------------

  /** Only the newest of those the name begins is looked at: taken when Homelabus took it or
      when it is named whole, and set aside alone otherwise. */
  lemma {:induction false} NamedMeaning(snapshots: seq<Snapshot>, holds: Snapshot -> bool, w: string,
                                        taken: set<string>, now: int)
    returns (n: nat)
    ensures n <= |snapshots|
    ensures forall j | n <= j < |snapshots| :: !(holds(snapshots[j]) && w <= snapshots[j].id)
    ensures n > 0 ==> holds(snapshots[n - 1]) && w <= snapshots[n - 1].id
    ensures Pick(snapshots, holds, Some(w), taken, now) ==
            if n == 0 then Picked(None, [])
            else
              var s := snapshots[n - 1];
              if s.id in taken || s.id == w then Picked(Some(s), []) else Picked(None, [(s, Why(s, now))])
    decreases |snapshots|
  {
    if snapshots == [] {
      n := 0;
    } else {
      var last := |snapshots| - 1;
      if Considered(snapshots[last], holds, Some(w)) {
        n := last + 1;
      } else {
        n := NamedMeaning(snapshots[..last], holds, w, taken, now);
      }
    }
  }

  /** Named whole, a snapshot is found wherever it lies and whoever took it, the copy a restore
      took first included: ids are hashes, all of one length and none twice. */
  lemma {:induction false} NamedWhole(snapshots: seq<Snapshot>, holds: Snapshot -> bool, k: nat, taken: set<string>,
                                      now: int)
    requires k < |snapshots| && holds(snapshots[k])
    requires forall j | 0 <= j < |snapshots| && j != k ::
               |snapshots[j].id| == |snapshots[k].id| && snapshots[j].id != snapshots[k].id
    ensures Pick(snapshots, holds, Some(snapshots[k].id), taken, now) == Picked(Some(snapshots[k]), [])
  {
    var n := NamedMeaning(snapshots, holds, snapshots[k].id, taken, now);
  }
}
