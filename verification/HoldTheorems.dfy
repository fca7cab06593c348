/** What the hold protocol is for, on every run; and what its rule on who may begin is for. */
module HoldTheorems {
  import opened Wrappers
  import opened Holds
  import opened HoldProtocol
  import opened HoldRuns
  import opened HoldSafety

  /** Who acts; nobody, for what reconciliation and Swarm do. */
  function Actor(a: Action): Option<nat> {
    match a
    case Check(p, _, _, _, _) => Some(p)
    case Daemon(p, _) => Some(p)
    case Advance(p) => Some(p)
    case Act(p) => Some(p)
    case ReadHolds(p, _) => Some(p)
    case ScaleUp(p, _) => Some(p)
    case Fail(p) => Some(p)
    case Crash(p) => Some(p)
    case _ => None
  }

  // ---- No lost replicas --------------------------------------------------------

  /** A disciplined run from rest ends there. */
  ghost predicate Reachable(orig: map<string, nat>, st: State) {
    exists start :: Init(orig, start) && Reaches(orig, start, st, true)
  }

  lemma ReachableIsSound(orig: map<string, nat>, st: State)
    requires Reachable(orig, st)
    ensures Inv(orig, st)
  {
    var start :| Init(orig, start) && Reaches(orig, start, st, true);
    ReachedIsSound(orig, start, st);
  }

  lemma ServiceIsSound(orig: map<string, nat>, st: State, s: string)
    requires Reachable(orig, st) && s in orig
    ensures Keyed(orig, st) && NotLost(orig[s], ViewOf(orig, st, s))
  {
    ReachableIsSound(orig, st);
  }

  lemma ProcIsSound(orig: map<string, nat>, st: State, p: nat)
    requires Reachable(orig, st) && p in st.procs
    ensures Keyed(orig, st) && Sound(orig, st, st.procs[p])
  {
    ReachableIsSound(orig, st);
  }

  /** Below its own count, with no hold that says it: only reconciliation, where it is let
      act, would start it again. */
  predicate Lost(orig: map<string, nat>, st: State, s: string) {
    && s in orig && s in st.desired && st.desired[s] < orig[s]
    && !(s in st.holds && st.holds[s].count == Some(orig[s]))
  }

  /** The scale-up that gives `s` back fails, or asks for nothing, the holds being unread. */
  predicate LeavesDown(st: State, a: Action, s: string) {
    && a.ScaleUp? && a.p in st.procs && st.procs[a.p].phase.Starting?
    && 0 < st.procs[a.p].phase.i <= |st.procs[a.p].services|
    && var (r, caller) := st.procs[a.p].services[st.procs[a.p].phase.i - 1];
       && r == s
       && if GiveBack(Seen(st.procs[a.p].phase.seen, s), caller) > 0 then !a.ok else st.procs[a.p].phase.seen == None
  }

  lemma ExcusedByLeaving(orig: map<string, nat>, st: State, a: Action, s: string)
    requires Enabled(orig, st, a) && s !in st.excused && s in Apply(orig, st, a).excused
    ensures LeavesDown(st, a, s)
  {
  }

  lemma {:induction false} ExcusedOnTheWay(orig: map<string, nat>, start: State, actions: seq<Action>, s: string,
                                           n: nat)
    requires Runs(orig, start, actions, false) && n <= |actions|
    requires s !in start.excused && s in At(orig, start, actions, n).excused
    ensures exists j | 0 <= j < n :: LeavesDown(At(orig, start, actions, j), actions[j], s)
    decreases n
  {
    EachIsEnabled(orig, start, actions, n - 1);
    if s in At(orig, start, actions, n - 1).excused {
      ExcusedOnTheWay(orig, start, actions, s, n - 1);
    } else {
      ExcusedByLeaving(orig, At(orig, start, actions, n - 1), actions[n - 1], s);
    }
  }

  /** Wherever every process stands or died, a service is at 0 or at its own count; it is lost
      only if, somewhere on the way, a process starting it again left it down. Not lost and
      down, it is held, and its hold says its own count. */
  lemma NoLostReplicas(orig: map<string, nat>, start: State, actions: seq<Action>, s: string)
    requires Init(orig, start) && Runs(orig, start, actions, true) && Runs(orig, start, actions, false) && s in orig
    ensures var st := After(orig, start, actions);
            && s in st.desired && st.desired[s] in {0, orig[s]}
            && (Lost(orig, st, s) ==>
                  exists j | 0 <= j < |actions| :: LeavesDown(At(orig, start, actions, j), actions[j], s))
            && (!Lost(orig, st, s) && st.desired[s] != orig[s] ==>
                  s in st.holds && st.holds[s].count == Some(orig[s]))
  {
    var st := After(orig, start, actions);
    assert Reaches(orig, start, st, true);
    ServiceIsSound(orig, st, s);
    if Lost(orig, st, s) {
      LastIsAfter(orig, start, actions);
      ExcusedOnTheWay(orig, start, actions, s, |actions|);
    }
  }

  /** What `p` gives back by is what it read, if it reads at all. */
  predicate ReadWell(st: State, p: nat) {
    p in st.procs && st.procs[p].phase.Starting? ==> st.procs[p].phase.seen.Some?
  }

  lemma StillReadWell(orig: map<string, nat>, st: State, a: Action, p: nat)
    requires Enabled(orig, st, a) && ReadWell(st, p) && (a.ReadHolds? ==> a.ok)
    ensures ReadWell(Apply(orig, st, a), p)
  {
    if Actor(a) == Some(p) {
      if a.Advance? { NextReads(st.procs[p]); }
    }
  }

  lemma NextReads(q: Proc)
    ensures Next(q).Some? && Next(q).value.phase.Starting? ==> q.phase.Starting?
  {
  }

  lemma {:induction false} HoldsWereRead(orig: map<string, nat>, start: State, actions: seq<Action>, n: nat, p: nat)
    requires Init(orig, start) && Runs(orig, start, actions, false) && n <= |actions|
    requires forall j | 0 <= j < |actions| :: actions[j].ReadHolds? ==> actions[j].ok
    ensures ReadWell(At(orig, start, actions, n), p)
    decreases n
  {
    if n > 0 {
      EachIsEnabled(orig, start, actions, n - 1);
      HoldsWereRead(orig, start, actions, n - 1, p);
      StillReadWell(orig, At(orig, start, actions, n - 1), actions[n - 1], p);
    }
  }

  /** With the holds read and the scale-ups done, no process that dies, no error and nobody
      else's work loses a service. */
  lemma NothingIsLost(orig: map<string, nat>, start: State, actions: seq<Action>, s: string)
    requires Init(orig, start) && Runs(orig, start, actions, true) && Runs(orig, start, actions, false) && s in orig
    requires forall j | 0 <= j < |actions| :: actions[j].ReadHolds? || actions[j].ScaleUp? ==> actions[j].ok
    ensures !Lost(orig, After(orig, start, actions), s)
  {
    NoLostReplicas(orig, start, actions, s);
    if Lost(orig, After(orig, start, actions), s) {
      var j :| 0 <= j < |actions| && LeavesDown(At(orig, start, actions, j), actions[j], s);
      HoldsWereRead(orig, start, actions, j, actions[j].p);
      assert false;
    }
  }

  predicate Releases(st: State, a: Action, s: string) {
    a.Act? && a.p in st.procs && st.procs[a.p].phase.Releasing?
    && st.procs[a.p].phase.i < |st.procs[a.p].services|
    && st.procs[a.p].services[st.procs[a.p].phase.i].0 == s
  }

  /** One service's release, and nothing else anyone does, loses it: exactly when it is
      released below its own count. */
  lemma LostWhenReleasedDown(orig: map<string, nat>, st: State, a: Action, s: string)
    requires Reachable(orig, st) && Enabled(orig, st, a) && s in orig && !Lost(orig, st, s)
    ensures s in st.desired
    ensures Lost(orig, Apply(orig, st, a), s) <==> Releases(st, a, s) && st.desired[s] < orig[s]
  {
    ServiceIsSound(orig, st, s);
    if a.Act? {
      LostByActing(orig, st, a, s);
    } else if a.ScaleUp? {
      NotLostByStarting(orig, st, a, s);
    }
  }

  lemma LostByActing(orig: map<string, nat>, st: State, a: Action, s: string)
    requires Reachable(orig, st) && Enabled(orig, st, a) && a.Act? && s in orig && !Lost(orig, st, s)
    ensures s in st.desired
    ensures Lost(orig, Apply(orig, st, a), s) <==> Releases(st, a, s) && st.desired[s] < orig[s]
  {
    var q, st' := st.procs[a.p], Apply(orig, st, a);
    ProcIsSound(orig, st, a.p);
    ServiceIsSound(orig, st, s);
    ActedViews(orig, st, a.p);
    var v, v' := ViewOf(orig, st, s), ViewOf(orig, st', s);
    if q.services[q.phase.i].0 == s {
      assert Knows(orig[s], v, q, q.phase.i);
      assert v' == ActedOn(q, v);
    } else {
      assert v' == v;
    }
  }

  lemma NotLostByScaling(own: nat, v: View, seen: Option<Hold>, caller: nat, ok: bool)
    requires NotLost(own, v) && caller in {0, own} && (seen == None || seen == v.hold)
    requires v.desired == own || (v.hold.Some? && v.hold.value.count == Some(own))
    ensures var v' := ScaledOn(v, seen, seen == None, caller, ok);
            v'.hold == v.hold && v'.desired in {v.desired, own}
  {
  }

  lemma ScaledAnyView(orig: map<string, nat>, st: State, p: nat, ok: bool, s: string)
    requires Keyed(orig, st) && p in st.procs && Sound(orig, st, st.procs[p]) && s in orig
    requires st.procs[p].phase.Starting? && 0 < st.procs[p].phase.i
    requires NotLost(orig[s], ViewOf(orig, st, s))
    requires var v := ViewOf(orig, st, s); v.desired == orig[s] || (v.hold.Some? && v.hold.value.count == Some(orig[s]))
    ensures var st' := ScaledUp(st, p, st.procs[p], ok);
            && Keyed(orig, st')
            && var v, v' := ViewOf(orig, st, s), ViewOf(orig, st', s);
               v'.hold == v.hold && v'.desired in {v.desired, orig[s]}
  {
    var q := st.procs[p];
    var (r, caller) := q.services[q.phase.i - 1];
    ScaledViews(orig, st, p, ok);
    if r == s {
      assert Knows(orig[s], ViewOf(orig, st, s), q, q.phase.i - 1);
      NotLostByScaling(orig[s], ViewOf(orig, st, s), Seen(q.phase.seen, s), caller, ok);
    }
  }

  lemma NotLostByStarting(orig: map<string, nat>, st: State, a: Action, s: string)
    requires Reachable(orig, st) && Enabled(orig, st, a) && a.ScaleUp? && s in orig && !Lost(orig, st, s)
    ensures !Lost(orig, Apply(orig, st, a), s)
  {
    ProcIsSound(orig, st, a.p);
    ServiceIsSound(orig, st, s);
    ScaledAnyView(orig, st, a.p, a.ok, s);
  }

  lemma HoldGivesBack(own: nat, v: View, caller: nat)
    requires NotLost(own, v) && caller in {0, own}
    requires v.desired == own || (v.hold.Some? && v.hold.value.count == Some(own))
    ensures ScaledOn(v, v.hold, false, caller, true).desired == own
  {
  }

  lemma ScaledToItsOwn(orig: map<string, nat>, st: State, p: nat, s: string, caller: nat)
    requires Keyed(orig, st) && p in st.procs && Sound(orig, st, st.procs[p])
    requires st.procs[p].phase.Starting? && 0 < st.procs[p].phase.i && st.procs[p].phase.seen.Some?
    requires st.procs[p].services[st.procs[p].phase.i - 1] == (s, caller)
    ensures s in orig && caller in {0, orig[s]} && Row(st.procs[p].phase.seen.value, s) == ViewOf(orig, st, s).hold
    ensures var st' := ScaledUp(st, p, st.procs[p], true);
            && Keyed(orig, st')
            && ViewOf(orig, st', s) == ScaledOn(ViewOf(orig, st, s), ViewOf(orig, st, s).hold, false, caller, true)
  {
    var q := st.procs[p];
    assert Knows(orig[s], ViewOf(orig, st, s), q, q.phase.i - 1);
    ScaledViews(orig, st, p, true);
  }

  /** `start`, having read the holds, gives a service that is not lost its own count — whatever
      its caller read from Swarm, the 0 of a dead process included. */
  lemma StartGivesBack(orig: map<string, nat>, st: State, p: nat)
    requires Reachable(orig, st) && Enabled(orig, st, ScaleUp(p, true)) && st.procs[p].phase.seen.Some?
    ensures var (s, caller) := st.procs[p].services[st.procs[p].phase.i - 1];
            && s in orig
            && (!Lost(orig, st, s) ==>
                  var st' := Apply(orig, st, ScaleUp(p, true)); s in st'.desired && st'.desired[s] == orig[s])
  {
    var (s, caller) := st.procs[p].services[st.procs[p].phase.i - 1];
    ProcIsSound(orig, st, p);
    ScaledToItsOwn(orig, st, p, s, caller);
    ServiceIsSound(orig, st, s);
    if !Lost(orig, st, s) { HoldGivesBack(orig[s], ViewOf(orig, st, s), caller); }
  }

  // ---- What others do to a held service ----------------------------------------

  /** Reconciliation scales `s` to its own count. */
  predicate Corrects(a: Action, s: string) {
    a.Correct? && a.s == s && a.ok
  }

  predicate EverCorrected(actions: seq<Action>, s: string) {
    exists j | 0 <= j < |actions| :: Corrects(actions[j], s)
  }

  /** Some reconciliation has noted `s`, found unheld, and has yet to correct it. */
  ghost predicate Pending(st: State, s: string) {
    exists r :: r in st.rounds && s in st.rounds[r].noted
  }

  /** `p` and the rows of `s` as they were; its count so too, or corrected. */
  predicate SameButCorrected(orig: map<string, nat>, st: State, st': State, p: nat, s: string, corrected: bool) {
    && p in st.procs && p in st'.procs && st'.procs[p] == st.procs[p]
    && s in orig && s in st.desired && s in st'.desired
    && st'.desired[s] == (if corrected then orig[s] else st.desired[s])
    && Row(st'.holds, s) == Row(st.holds, s)
  }

  lemma OtherProcsLeaveItAlone(orig: map<string, nat>, st: State, a: Action, p: nat, s: string)
    requires Keyed(orig, st) && Enabled(orig, st, a) && (a.Act? || a.ScaleUp?) && a.p != p && p in st.procs
    requires Sound(orig, st, st.procs[a.p]) && s in orig && s !in Owned(st.procs[a.p])
    ensures p in Apply(orig, st, a).procs && Apply(orig, st, a).procs[p] == st.procs[p]
    ensures Keyed(orig, Apply(orig, st, a)) && ViewOf(orig, Apply(orig, st, a), s) == ViewOf(orig, st, s)
  {
    var st' := Apply(orig, st, a);
    OwnedOf(st.procs[a.p]);
    if a.Act? { ActedViews(orig, st, a.p); } else { ScaledViews(orig, st, a.p, a.ok); }
    assert ViewOf(orig, st', s) == ViewOf(orig, st, s);
  }

  /** What moves no service but those reconciliation corrects and Swarm runs. */
  lemma StillView(orig: map<string, nat>, st: State, a: Action, p: nat, s: string)
    requires Keyed(orig, st) && Enabled(orig, st, a) && Actor(a) != Some(p) && !a.Act? && !a.ScaleUp?
    requires p in st.procs && s in orig
    ensures var st' := Apply(orig, st, a);
            && p in st'.procs && st'.procs[p] == st.procs[p] && Keyed(orig, st')
            && var v, v' := ViewOf(orig, st, s), ViewOf(orig, st', s);
               && v'.hold == v.hold
               && v'.desired == (if Corrects(a, s) then orig[s] else v.desired)
               && v'.running <= Max(v.running, v.desired)
  {
  }

  /** What others can do to the view of a service that is not theirs. */
  lemma OthersView(orig: map<string, nat>, st: State, a: Action, p: nat, s: string)
    requires Inv(orig, st) && Enabled(orig, st, a) && Actor(a) != Some(p)
    requires p in st.procs && s in orig && s in Owned(st.procs[p])
    ensures var st' := Apply(orig, st, a);
            && p in st'.procs && st'.procs[p] == st.procs[p] && Keyed(orig, st')
            && var v, v' := ViewOf(orig, st, s), ViewOf(orig, st', s);
               && v'.hold == v.hold
               && v'.desired == (if Corrects(a, s) then orig[s] else v.desired)
               && v'.running <= Max(v.running, v.desired)
  {
    if a.Act? || a.ScaleUp? {
      assert Owned(st.procs[a.p]) !! Owned(st.procs[p]);
      OtherProcsLeaveItAlone(orig, st, a, p, s);
    } else {
      StillView(orig, st, a, p, s);
    }
  }

  /** Held, a service is noted by no reconciliation that had not noted it before. */
  lemma NoneNotedHeld(orig: map<string, nat>, st: State, a: Action, s: string)
    requires Enabled(orig, st, a) && s in st.holds && !Pending(st, s)
    ensures !Pending(Apply(orig, st, a), s) && !Corrects(a, s)
  {
    var st' := Apply(orig, st, a);
    forall r | r in st'.rounds ensures s !in st'.rounds[r].noted {
      if r in st.rounds { assert s !in st.rounds[r].noted; }
    }
  }

  lemma {:induction false} RunsLeaveItAlone(orig: map<string, nat>, st: State, actions: seq<Action>, p: nat, s: string)
    requires Inv(orig, st) && Runs(orig, st, actions, true) && Runs(orig, st, actions, false)
    requires p in st.procs && s in Owned(st.procs[p]) && s in orig
    requires forall j | 0 <= j < |actions| :: Actor(actions[j]) != Some(p)
    ensures SameButCorrected(orig, st, After(orig, st, actions), p, s, EverCorrected(actions, s))
    ensures s in st.holds && !Pending(st, s) ==> !EverCorrected(actions, s)
    decreases |actions|
  {
    if actions != [] {
      var a, rest := actions[0], actions[1..];
      var st' := Apply(orig, st, a);
      OthersView(orig, st, a, p, s);
      StepKeepsInvariant(orig, st, a);
      RunsLeaveItAlone(orig, st', rest, p, s);
      FirstOrLater(actions, s);
      if s in st.holds && !Pending(st, s) {
        assert ViewOf(orig, st', s).hold == ViewOf(orig, st, s).hold;
        NoneNotedHeld(orig, st, a, s);
      }
    }
  }

  lemma FirstOrLater(actions: seq<Action>, s: string)
    requires actions != []
    ensures EverCorrected(actions, s) <==> Corrects(actions[0], s) || EverCorrected(actions[1..], s)
  {
    var rest := actions[1..];
    if EverCorrected(rest, s) {
      var j :| 0 <= j < |rest| && Corrects(rest[j], s);
      assert Corrects(actions[j + 1], s);
    }
    if j :| 0 < j < |actions| && Corrects(actions[j], s) {
      assert Corrects(rest[j - 1], s);
    }
  }

  /** Whatever copies, daemon starts and reconciliation do until a restore (or a copy) acts
      again, its services keep their rows, and their counts but for corrections; and from the
      moment its row is recorded a service is corrected only where that was pending by then. */
  lemma OnlyCorrectionsReachIt(orig: map<string, nat>, st: State, actions: seq<Action>, p: nat, k: nat)
    requires Reachable(orig, st) && Runs(orig, st, actions, true) && Runs(orig, st, actions, false)
    requires p in st.procs && !st.procs[p].phase.Releasing? && k < |st.procs[p].services|
    requires forall j | 0 <= j < |actions| :: Actor(actions[j]) != Some(p)
    ensures var s := st.procs[p].services[k].0;
            && SameButCorrected(orig, st, After(orig, st, actions), p, s, EverCorrected(actions, s))
            && (s in st.holds && !Pending(st, s) ==> !EverCorrected(actions, s))
            && (st.procs[p].allHeld ==> s in st.holds)
  {
    ReachableIsSound(orig, st);
    OwnedOf(st.procs[p]);
    RunsLeaveItAlone(orig, st, actions, p, st.procs[p].services[k].0);
    if st.procs[p].allHeld { HeldAreSeen(orig, st, st.procs[p], st.procs[p].services[k].0); }
  }

  /** Others may move the count of a service. */
  ghost predicate CanBeMoved(orig: map<string, nat>, st: State, p: nat, s: string) {
    exists actions: seq<Action> ::
      && Runs(orig, st, actions, true) && Runs(orig, st, actions, false)
      && (forall j | 0 <= j < |actions| :: Actor(actions[j]) != Some(p))
      && s in st.desired && s in After(orig, st, actions).desired
      && After(orig, st, actions).desired[s] != st.desired[s]
  }

  /** Once its row is recorded they can if and only if it is below its own count and a
      correction of it is pending. */
  lemma CanBeMovedIff(orig: map<string, nat>, st: State, p: nat, k: nat)
    requires Reachable(orig, st)
    requires p in st.procs && !st.procs[p].phase.Releasing? && k < |st.procs[p].services|
    requires st.procs[p].services[k].0 in st.holds
    ensures var s := st.procs[p].services[k].0;
            && s in orig && s in st.desired
            && (CanBeMoved(orig, st, p, s) <==> st.desired[s] < orig[s] && Pending(st, s))
  {
    var s := st.procs[p].services[k].0;
    ProcIsSound(orig, st, p);
    ServiceIsSound(orig, st, s);
    if CanBeMoved(orig, st, p, s) {
      var actions :| Runs(orig, st, actions, true) && Runs(orig, st, actions, false)
        && (forall j | 0 <= j < |actions| :: Actor(actions[j]) != Some(p))
        && s in After(orig, st, actions).desired && After(orig, st, actions).desired[s] != st.desired[s];
      OnlyCorrectionsReachIt(orig, st, actions, p, k);
    }
    if st.desired[s] < orig[s] && Pending(st, s) {
      var r :| r in st.rounds && s in st.rounds[r].noted;
      OneRuns(orig, st, Correct(r, s, true));
    }
  }

  lemma OneRuns(orig: map<string, nat>, st: State, a: Action)
    requires Enabled(orig, st, a) && Disciplined(st, a)
    ensures Runs(orig, st, [a], true) && Runs(orig, st, [a], false) && After(orig, st, [a]) == Apply(orig, st, a)
  {
    assert [a][1..] == [];
    assert Runs(orig, Apply(orig, st, a), [], true) && Runs(orig, Apply(orig, st, a), [], false);
  }

  // ---- Nobody begins under another ----------------------------------------------

  /** A restore never begins on a service a copy has stopped, nor a copy on a restore's. */
  lemma NoneBeginsUnderAnother(orig: map<string, nat>, st: State, a: Action, p: nat, s: string)
    requires Reachable(orig, st) && a.Check? && p in st.procs && s in Owned(st.procs[p])
    requires st.procs[p].allHeld && !SameFamily(st.procs[p].kind, a.kind) && s in Names(a.services)
    ensures !Enabled(orig, st, a)
  {
    ProcIsSound(orig, st, p);
    HeldAreSeen(orig, st, st.procs[p], s);
  }
}
