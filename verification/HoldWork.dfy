/** What is written under, or copied, is stopped: on every run, and exactly when. */
module HoldWork {
  import opened Wrappers
  import opened Holds
  import opened HoldProtocol
  import opened HoldRuns
  import opened HoldSafety
  import opened HoldTheorems

  /** Up to the work: it has read its counts, and started nothing yet. */
  predicate Early(phase: Phase) {
    phase.Checked? || phase.Holding? || phase.Noting? || phase.Stopping? || phase.Waiting? || phase.Working?
  }

  /** The action `p` begins with. */
  predicate Begins(a: Action, p: nat) {
    (a.Check? || a.Daemon?) && a.p == p
  }

  predicate EarlyAt(st: State, p: nat) {
    p in st.procs && Early(st.procs[p].phase)
  }

  /** One step of a process that stays early: on to the next phase, or the next service. */
  predicate EarlyStep(q: Proc, q': Proc) {
    || q' == q
    || (PhaseDone(q) && Next(q) == Some(q'))
    || (Acts(q) && q' == q.(phase := Onward(q.phase)))
  }

  lemma OthersKeepIt(orig: map<string, nat>, st: State, a: Action, p: nat)
    requires Enabled(orig, st, a) && !Begins(a, p) && Actor(a) != Some(p) && p in Apply(orig, st, a).procs
    ensures p in st.procs && Apply(orig, st, a).procs[p] == st.procs[p]
  {
  }

  lemma ItStaysEarly(orig: map<string, nat>, st: State, a: Action, p: nat)
    requires Enabled(orig, st, a) && !Begins(a, p) && Actor(a) == Some(p) && EarlyAt(Apply(orig, st, a), p)
    ensures EarlyAt(st, p) && (a.Act? || a.Advance?)
    ensures a.Act? ==> Apply(orig, st, a).procs[p] == st.procs[p].(phase := Onward(st.procs[p].phase))
    ensures a.Advance? ==> Next(st.procs[p]) == Some(Apply(orig, st, a).procs[p])
  {
    if a.Advance? { NextPhase(st.procs[p]); }
  }

  lemma EarlyBefore(orig: map<string, nat>, st: State, a: Action, p: nat)
    requires Enabled(orig, st, a) && !Begins(a, p) && EarlyAt(Apply(orig, st, a), p)
    ensures EarlyAt(st, p) && Apply(orig, st, a).procs[p].services == st.procs[p].services
    ensures EarlyStep(st.procs[p], Apply(orig, st, a).procs[p])
    ensures Actor(a) == Some(p) ==> a.Act? || a.Advance?
  {
    if Actor(a) == Some(p) {
      ItStaysEarly(orig, st, a, p);
      if a.Advance? { NextPhase(st.procs[p]); }
    } else {
      OthersKeepIt(orig, st, a, p);
    }
  }

  lemma NextPhase(q: Proc)
    ensures Next(q).Some? && Early(Next(q).value.phase) ==> Early(q.phase) && Next(q).value.services == q.services
  {
  }

  /** Early at the end, it was all the way: no process comes back to a phase it left. */
  lemma {:induction false} EarlyAllAlong(orig: map<string, nat>, st: State, actions: seq<Action>, p: nat)
    requires Runs(orig, st, actions, false) && EarlyAt(After(orig, st, actions), p)
    requires forall j | 0 <= j < |actions| :: !Begins(actions[j], p)
    ensures EarlyAt(st, p) && After(orig, st, actions).procs[p].services == st.procs[p].services
    decreases |actions|
  {
    if actions != [] {
      EarlyAllAlong(orig, Apply(orig, st, actions[0]), actions[1..], p);
      EarlyBefore(orig, st, actions[0], p);
    }
  }

  /** The `k`th service is still to be gone past. */
  predicate ToStop(phase: Phase, k: nat) {
    phase.Checked? || phase.Holding? || phase.Noting? || (phase.Stopping? && phase.i <= k)
  }

  /** It goes past it. */
  predicate GoesPast(st: State, a: Action, p: nat, k: nat) {
    a == Act(p) && p in st.procs && st.procs[p].phase == Stopping(k)
  }

  /** The view of the `k`th service after a step of a process that stays early. */
  predicate ViewMoves(orig: map<string, nat>, st: State, a: Action, p: nat, k: nat, v: View, v': View)
    requires p in st.procs && k < |st.procs[p].services| && st.procs[p].services[k].0 in orig
  {
    var (s, count) := st.procs[p].services[k];
    && (v.hold.Some? ==> v'.hold.Some?)
    && v'.desired == (if Corrects(a, s) then orig[s] else if GoesPast(st, a, p, k) && count > 0 then 0 else v.desired)
    && v'.running <= Max(v.running, v.desired)
    && (a == Act(p) && st.procs[p].phase == Waiting(k) ==> v.running == 0)
  }

  lemma ActedViewOfAny(orig: map<string, nat>, st: State, p: nat, k: nat)
    requires Keyed(orig, st) && p in st.procs && CanAct(st, st.procs[p]) && Shape(orig, st.procs[p])
    requires k < |st.procs[p].services|
    ensures var q, st', s := st.procs[p], Acted(st, p, st.procs[p]), st.procs[p].services[k].0;
            && Acts(q) && s in orig && Keyed(orig, st')
            && st'.procs == st.procs[p := q.(phase := Onward(q.phase))]
            && ViewOf(orig, st', s) == (if q.phase.i == k then ActedOn(q, ViewOf(orig, st, s)) else ViewOf(orig, st, s))
  {
    ActedViews(orig, st, p);
  }

  lemma ItsOwnView(orig: map<string, nat>, st: State, a: Action, p: nat, k: nat)
    requires Keyed(orig, st) && Enabled(orig, st, a) && Actor(a) == Some(p) && (a.Act? || a.Advance?)
    requires EarlyAt(st, p) && Sound(orig, st, st.procs[p]) && k < |st.procs[p].services|
    ensures var s, st' := st.procs[p].services[k].0, Apply(orig, st, a);
            s in orig && Keyed(orig, st') && ViewMoves(orig, st, a, p, k, ViewOf(orig, st, s), ViewOf(orig, st', s))
  {
    var s := st.procs[p].services[k].0;
    if a.Act? {
      ActedViewOfAny(orig, st, p, k);
    } else {
      assert ViewOf(orig, Apply(orig, st, a), s) == ViewOf(orig, st, s);
    }
  }

  lemma OneStepView(orig: map<string, nat>, st: State, a: Action, p: nat, k: nat)
    requires Inv(orig, st) && Enabled(orig, st, a) && !Begins(a, p) && EarlyAt(Apply(orig, st, a), p)
    requires p in st.procs && k < |st.procs[p].services| && st.procs[p].services[k].0 in orig
    ensures var s, st' := st.procs[p].services[k].0, Apply(orig, st, a);
            && Keyed(orig, st') && st'.procs[p].services == st.procs[p].services
            && EarlyStep(st.procs[p], st'.procs[p]) && (Actor(a) != Some(p) ==> st'.procs[p] == st.procs[p])
            && ViewMoves(orig, st, a, p, k, ViewOf(orig, st, s), ViewOf(orig, st', s))
  {
    EarlyBefore(orig, st, a, p);
    if Actor(a) == Some(p) {
      ItsOwnView(orig, st, a, p, k);
    } else {
      OwnedOf(st.procs[p]);
      OthersView(orig, st, a, p, st.procs[p].services[k].0);
    }
  }

  /** Gone past, `desired` replicas asked for, and none of its tasks once waited for. */
  predicate Down(q: Proc, v: View, k: nat, desired: nat) {
    && !ToStop(q.phase, k) && v.desired == desired
    && (q.phase.Working? || (q.phase.Waiting? && k < q.phase.i) ==> desired == 0 ==> v.running == 0)
  }

  lemma StillDown(q: Proc, q': Proc, v: View, v': View, k: nat, desired: nat, desired': nat)
    requires k < |q.services| && Early(q.phase) && Early(q'.phase) && Down(q, v, k, desired) && EarlyStep(q, q')
    requires v'.desired == desired' && (desired' == desired || 0 < desired') && v'.running <= Max(v.running, v.desired)
    requires q.phase == Waiting(k) && q'.phase == Waiting(k + 1) ==> v.running == 0
    ensures Down(q', v', k, desired')
  {
  }

  /** Once gone past, only a correction moves it. */
  lemma {:induction false} DownAllAlong(orig: map<string, nat>, st: State, actions: seq<Action>, p: nat, k: nat,
                                        desired: nat)
    requires Inv(orig, st) && Runs(orig, st, actions, true) && Runs(orig, st, actions, false)
    requires EarlyAt(st, p) && k < |st.procs[p].services| && st.procs[p].services[k].0 in orig
    requires Down(st.procs[p], ViewOf(orig, st, st.procs[p].services[k].0), k, desired)
    requires forall j | 0 <= j < |actions| :: !Begins(actions[j], p)
    requires EarlyAt(After(orig, st, actions), p)
    ensures var s, end := st.procs[p].services[k].0, After(orig, st, actions);
            && Keyed(orig, end)
            && (Down(end.procs[p], ViewOf(orig, end, s), k, if EverCorrected(actions, s) then orig[s] else desired))
    decreases |actions|
  {
    if actions != [] {
      var a, s := actions[0], st.procs[p].services[k].0;
      EarlyAllAlong(orig, Apply(orig, st, a), actions[1..], p);
      DownOneStep(orig, st, a, p, k, desired);
      StepKeepsInvariant(orig, st, a);
      DownAllAlong(orig, Apply(orig, st, a), actions[1..], p, k, if Corrects(a, s) then orig[s] else desired);
      FirstOrLater(actions, s);
    }
  }

  lemma DownOneStep(orig: map<string, nat>, st: State, a: Action, p: nat, k: nat, desired: nat)
    requires Inv(orig, st) && Enabled(orig, st, a) && !Begins(a, p) && EarlyAt(Apply(orig, st, a), p)
    requires EarlyAt(st, p) && k < |st.procs[p].services| && st.procs[p].services[k].0 in orig
    requires Down(st.procs[p], ViewOf(orig, st, st.procs[p].services[k].0), k, desired)
    ensures var s, st' := st.procs[p].services[k].0, Apply(orig, st, a);
            && Keyed(orig, st') && st'.procs[p].services == st.procs[p].services
            && Down(st'.procs[p], ViewOf(orig, st', s), k, if Corrects(a, s) then orig[s] else desired)
  {
    var q, q', s := st.procs[p], Apply(orig, st, a).procs[p], st.procs[p].services[k].0;
    OneStepView(orig, st, a, p, k);
    PastIsOnce(orig, st, a, p, k);
    StillDown(q, q', ViewOf(orig, st, s), ViewOf(orig, Apply(orig, st, a), s), k, desired,
              if Corrects(a, s) then orig[s] else desired);
  }

  lemma PastIsOnce(orig: map<string, nat>, st: State, a: Action, p: nat, k: nat)
    requires Enabled(orig, st, a) && EarlyAt(st, p) && EarlyAt(Apply(orig, st, a), p) && !ToStop(st.procs[p].phase, k)
    ensures !GoesPast(st, a, p, k)
    ensures st.procs[p].phase == Waiting(k) && Apply(orig, st, a).procs[p].phase == Waiting(k + 1) ==> a == Act(p)
  {
  }

  /** Where its stop leaves it: as reconciliation last made it, or at 0. */
  function Left(orig: map<string, nat>, s: string, count: nat, desired: nat, before: seq<Action>, since: seq<Action>)
    : nat
    requires s in orig
  {
    if EverCorrected(since, s) then orig[s]
    else if count > 0 then 0
    else if EverCorrected(before, s) then orig[s] else desired
  }

  /** The step that goes past it. */
  lemma StopStep(orig: map<string, nat>, st: State, a: Action, p: nat, k: nat)
    requires Inv(orig, st) && Enabled(orig, st, a) && EarlyAt(Apply(orig, st, a), p) && GoesPast(st, a, p, k)
    requires EarlyAt(st, p) && k < |st.procs[p].services| && st.procs[p].services[k].0 in orig
    ensures var (s, count), st' := st.procs[p].services[k], Apply(orig, st, a);
            && Keyed(orig, st') && st'.procs[p].services == st.procs[p].services
            && Down(st'.procs[p], ViewOf(orig, st', s), k, if count > 0 then 0 else st.desired[s])
  {
    OneStepView(orig, st, a, p, k);
  }

  /** And those before it. */
  lemma StepToStop(orig: map<string, nat>, st: State, a: Action, p: nat, k: nat)
    requires Inv(orig, st) && Enabled(orig, st, a) && !Begins(a, p) && EarlyAt(Apply(orig, st, a), p)
    requires EarlyAt(st, p) && k < |st.procs[p].services| && st.procs[p].services[k].0 in orig
    requires ToStop(st.procs[p].phase, k) && !GoesPast(st, a, p, k)
    ensures var s, st' := st.procs[p].services[k].0, Apply(orig, st, a);
            && Keyed(orig, st') && st'.procs[p].services == st.procs[p].services && ToStop(st'.procs[p].phase, k)
            && st'.desired[s] == if Corrects(a, s) then orig[s] else st.desired[s]
  {
    OneStepView(orig, st, a, p, k);
    StillToStop(orig, st, a, p, k);
    var v' := ViewOf(orig, Apply(orig, st, a), st.procs[p].services[k].0);
  }

  lemma StillToStop(orig: map<string, nat>, st: State, a: Action, p: nat, k: nat)
    requires Enabled(orig, st, a) && EarlyAt(st, p) && !Begins(a, p) && EarlyAt(Apply(orig, st, a), p)
    requires k < |st.procs[p].services| && ToStop(st.procs[p].phase, k) && !GoesPast(st, a, p, k)
    ensures ToStop(Apply(orig, st, a).procs[p].phase, k)
  {
    EarlyBefore(orig, st, a, p);
  }

  /** What is left of it at the end of a run. */
  predicate EndsAt(orig: map<string, nat>, end: State, s: string, desired: nat) {
    s in end.desired && s in end.running && end.desired[s] == desired && (desired == 0 ==> end.running[s] == 0)
  }

  lemma StopsNow(orig: map<string, nat>, st: State, a: Action, rest: seq<Action>, p: nat, k: nat)
    requires Inv(orig, st) && Enabled(orig, st, a) && Disciplined(st, a) && GoesPast(st, a, p, k)
    requires var st' := Apply(orig, st, a); Runs(orig, st', rest, true) && Runs(orig, st', rest, false)
    requires EarlyAt(st, p) && k < |st.procs[p].services| && st.procs[p].services[k].0 in orig
    requires EarlyAt(Apply(orig, st, a), p) && forall j | 0 <= j < |rest| :: !Begins(rest[j], p)
    requires var end := After(orig, Apply(orig, st, a), rest); EarlyAt(end, p) && end.procs[p].phase.Working?
    ensures var (s, count) := st.procs[p].services[k];
            EndsAt(orig, After(orig, Apply(orig, st, a), rest), s,
                   if EverCorrected(rest, s) then orig[s] else if count > 0 then 0 else st.desired[s])
  {
    var (s, count) := st.procs[p].services[k];
    StepKeepsInvariant(orig, st, a);
    StopStep(orig, st, a, p, k);
    EndsDown(orig, Apply(orig, st, a), rest, p, k, if count > 0 then 0 else st.desired[s]);
  }

  lemma EndsDown(orig: map<string, nat>, st: State, actions: seq<Action>, p: nat, k: nat, desired: nat)
    requires Inv(orig, st) && Runs(orig, st, actions, true) && Runs(orig, st, actions, false)
    requires EarlyAt(st, p) && k < |st.procs[p].services| && st.procs[p].services[k].0 in orig
    requires Down(st.procs[p], ViewOf(orig, st, st.procs[p].services[k].0), k, desired)
    requires forall j | 0 <= j < |actions| :: !Begins(actions[j], p)
    requires EarlyAt(After(orig, st, actions), p) && After(orig, st, actions).procs[p].phase.Working?
    ensures var s := st.procs[p].services[k].0;
            EndsAt(orig, After(orig, st, actions), s, if EverCorrected(actions, s) then orig[s] else desired)
  {
    var end := After(orig, st, actions);
    DownAllAlong(orig, st, actions, p, k, desired);
    assert ViewOf(orig, end, st.procs[p].services[k].0).desired == end.desired[st.procs[p].services[k].0];
  }

  /** A process that comes to its work went past its `k`th service on the way, and not before. */
  lemma {:induction false} FindStop(orig: map<string, nat>, st: State, actions: seq<Action>, p: nat, k: nat)
    returns (j: nat)
    requires Runs(orig, st, actions, false) && forall j | 0 <= j < |actions| :: !Begins(actions[j], p)
    requires EarlyAt(st, p) && k < |st.procs[p].services| && ToStop(st.procs[p].phase, k)
    requires EarlyAt(After(orig, st, actions), p) && After(orig, st, actions).procs[p].phase.Working?
    ensures j < |actions| && GoesPast(At(orig, st, actions, j), actions[j], p, k)
    ensures forall i | 0 <= i <= j :: ToStopAt(At(orig, st, actions, i), p, k, st.procs[p].services)
    ensures forall i | 0 <= i < j :: !GoesPast(At(orig, st, actions, i), actions[i], p, k)
    decreases |actions|
  {
    var a, st' := actions[0], Apply(orig, st, actions[0]);
    EarlyAllAlong(orig, st', actions[1..], p);
    if GoesPast(st, a, p, k) {
      j := 0;
    } else {
      EarlyBefore(orig, st, a, p);
      StillToStop(orig, st, a, p, k);
      var i := FindStop(orig, st', actions[1..], p, k);
      j := i + 1;
      forall n | 0 <= n <= j ensures ToStopAt(At(orig, st, actions, n), p, k, st.procs[p].services) {
        if n > 0 { assert ToStopAt(At(orig, st', actions[1..], n - 1), p, k, st.procs[p].services); }
      }
      forall n | 0 <= n < j ensures !GoesPast(At(orig, st, actions, n), actions[n], p, k) {
        if n > 0 { assert !GoesPast(At(orig, st', actions[1..], n - 1), actions[1..][n - 1], p, k); }
      }
    }
  }

  predicate ToStopAt(st: State, p: nat, k: nat, services: seq<Counted>) {
    EarlyAt(st, p) && st.procs[p].services == services && ToStop(st.procs[p].phase, k)
  }

  lemma OneBeforeItsStop(orig: map<string, nat>, st: State, actions: seq<Action>, p: nat, k: nat,
                         services: seq<Counted>, i: nat)
    requires Inv(orig, st) && Runs(orig, st, actions, true) && Runs(orig, st, actions, false) && i < |actions|
    requires k < |services| && services[k].0 in orig && !Begins(actions[i], p)
    requires ToStopAt(At(orig, st, actions, i), p, k, services)
    requires ToStopAt(At(orig, st, actions, i + 1), p, k, services)
    requires !GoesPast(At(orig, st, actions, i), actions[i], p, k)
    ensures var s, at, next := services[k].0, At(orig, st, actions, i), At(orig, st, actions, i + 1);
            && s in at.desired && s in next.desired
            && next.desired[s] == if Corrects(actions[i], s) then orig[s] else at.desired[s]
  {
    var at := At(orig, st, actions, i);
    EachIsEnabled(orig, st, actions, i);
    SoundAt(orig, st, actions, i);
    StepToStop(orig, at, actions[i], p, k);
    assert ViewOf(orig, at, services[k].0).desired == at.desired[services[k].0];
  }

  /** A count only corrections move. */
  lemma {:induction false} OnlyCorrected(counts: seq<nat>, own: nat, actions: seq<Action>, s: string, j: nat)
    requires j < |counts| && j <= |actions|
    requires forall i | 0 <= i < j :: counts[i + 1] == if Corrects(actions[i], s) then own else counts[i]
    ensures counts[j] == if EverCorrected(actions[..j], s) then own else counts[0]
    decreases j
  {
    if j > 0 {
      OnlyCorrected(counts, own, actions, s, j - 1);
      LastOrSooner(actions[..j], s);
      assert actions[..j][..j - 1] == actions[..j - 1];
      assert counts[j - 1 + 1] == if Corrects(actions[j - 1], s) then own else counts[j - 1];
    }
  }

  function CountOf(st: State, s: string): nat {
    if s in st.desired then st.desired[s] else 0
  }

  function Counts(orig: map<string, nat>, st: State, actions: seq<Action>, s: string, j: nat): (counts: seq<nat>)
    requires Runs(orig, st, actions, false) && j <= |actions|
    ensures |counts| == j + 1 && forall i | 0 <= i <= j :: counts[i] == CountOf(At(orig, st, actions, i), s)
  {
    seq(j + 1, i requires 0 <= i <= j => CountOf(At(orig, st, actions, i), s))
  }

  /** Until then, only a correction moved it. */
  lemma BeforeItsStop(orig: map<string, nat>, st: State, actions: seq<Action>, p: nat, k: nat, services: seq<Counted>,
                      j: nat)
    requires Inv(orig, st) && Runs(orig, st, actions, true) && Runs(orig, st, actions, false) && j <= |actions|
    requires k < |services| && services[k].0 in orig && forall i | 0 <= i < |actions| :: !Begins(actions[i], p)
    requires forall i | 0 <= i <= j :: ToStopAt(At(orig, st, actions, i), p, k, services)
    requires forall i | 0 <= i < j :: !GoesPast(At(orig, st, actions, i), actions[i], p, k)
    ensures var s := services[k].0;
            CountOf(At(orig, st, actions, j), s)
            == if EverCorrected(actions[..j], s) then orig[s] else CountOf(st, s)
  {
    var s := services[k].0;
    var counts := Counts(orig, st, actions, s, j);
    forall i | 0 <= i < j ensures counts[i + 1] == if Corrects(actions[i], s) then orig[s] else counts[i] {
      assert ToStopAt(At(orig, st, actions, i), p, k, services);
      assert ToStopAt(At(orig, st, actions, i + 1), p, k, services);
      OneBeforeItsStop(orig, st, actions, p, k, services, i);
    }
    OnlyCorrected(counts, orig[s], actions, s, j);
    assert counts[0] == CountOf(At(orig, st, actions, 0), s);
  }

  lemma LastOrSooner(actions: seq<Action>, s: string)
    requires actions != []
    ensures var n := |actions| - 1;
            EverCorrected(actions, s) <==> EverCorrected(actions[..n], s) || Corrects(actions[n], s)
  {
    var n := |actions| - 1;
    if j :| 0 <= j < n && Corrects(actions[j], s) { assert Corrects(actions[..n][j], s); }
    if j :| 0 <= j < |actions[..n]| && Corrects(actions[..n][j], s) { assert Corrects(actions[j], s); }
  }

  /** The first action is the one that goes past it. */
  lemma StopsFirst(orig: map<string, nat>, st: State, actions: seq<Action>, p: nat, k: nat)
    requires Inv(orig, st) && Runs(orig, st, actions, true) && Runs(orig, st, actions, false)
    requires EarlyAt(st, p) && k < |st.procs[p].services| && st.procs[p].services[k].0 in orig
    requires forall j | 0 <= j < |actions| :: !Begins(actions[j], p)
    requires EarlyAt(After(orig, st, actions), p) && After(orig, st, actions).procs[p].phase.Working?
    requires actions != [] && GoesPast(st, actions[0], p, k)
    ensures var (s, count) := st.procs[p].services[k];
            && s in st.desired
            && EndsAt(orig, After(orig, st, actions), s,
                      if EverCorrected(actions, s) then orig[s] else if count > 0 then 0 else st.desired[s])
  {
    EarlyAllAlong(orig, Apply(orig, st, actions[0]), actions[1..], p);
    StopsNow(orig, st, actions[0], actions[1..], p, k);
    FirstOrLater(actions, st.procs[p].services[k].0);
  }

  lemma FromItsStop(orig: map<string, nat>, st: State, actions: seq<Action>, p: nat, k: nat, services: seq<Counted>,
                    j: nat)
    requires Inv(orig, st) && Runs(orig, st, actions, true) && Runs(orig, st, actions, false) && j < |actions|
    requires k < |services| && services[k].0 in orig && forall i | 0 <= i < |actions| :: !Begins(actions[i], p)
    requires ToStopAt(At(orig, st, actions, j), p, k, services)
    requires GoesPast(At(orig, st, actions, j), actions[j], p, k)
    requires EarlyAt(After(orig, st, actions), p) && After(orig, st, actions).procs[p].phase.Working?
    ensures var (s, count) := services[k];
            EndsAt(orig, After(orig, st, actions), s,
                   if EverCorrected(actions[j..], s) then orig[s] else if count > 0 then 0
                   else CountOf(At(orig, st, actions, j), s))
  {
    SuffixRuns(orig, st, actions, j, true);
    SoundAt(orig, st, actions, j);
    StopsFirst(orig, At(orig, st, actions, j), actions[j..], p, k);
  }

  /** Where the service stands as its process works: `j` is when the process went past it. */
  lemma StopsAlong(orig: map<string, nat>, st: State, actions: seq<Action>, p: nat, k: nat, services: seq<Counted>)
    returns (j: nat)
    requires Inv(orig, st) && Runs(orig, st, actions, true) && Runs(orig, st, actions, false)
    requires ToStopAt(st, p, k, services) && k < |services| && services[k].0 in orig
    requires forall j | 0 <= j < |actions| :: !Begins(actions[j], p)
    requires EarlyAt(After(orig, st, actions), p) && After(orig, st, actions).procs[p].phase.Working?
    ensures j < |actions| && GoesPast(At(orig, st, actions, j), actions[j], p, k)
    ensures var (s, count) := services[k];
            EndsAt(orig, After(orig, st, actions), s, Left(orig, s, count, CountOf(st, s), actions[..j], actions[j..]))
  {
    j := FindStop(orig, st, actions, p, k);
    BeforeItsStop(orig, st, actions, p, k, services, j);
    FromItsStop(orig, st, actions, p, k, services, j);
  }

  /** Held as its process begins, with no correction pending, it is never corrected. */
  lemma {:induction false} NeverCorrected(orig: map<string, nat>, st: State, actions: seq<Action>, p: nat, k: nat)
    requires Inv(orig, st) && Runs(orig, st, actions, true) && Runs(orig, st, actions, false)
    requires EarlyAt(st, p) && k < |st.procs[p].services| && st.procs[p].services[k].0 in orig
    requires forall j | 0 <= j < |actions| :: !Begins(actions[j], p)
    requires EarlyAt(After(orig, st, actions), p)
    requires st.procs[p].services[k].0 in st.holds && !Pending(st, st.procs[p].services[k].0)
    ensures !EverCorrected(actions, st.procs[p].services[k].0)
    decreases |actions|
  {
    if actions != [] {
      var a, s := actions[0], st.procs[p].services[k].0;
      var st' := Apply(orig, st, a);
      EarlyAllAlong(orig, st', actions[1..], p);
      OneStepView(orig, st, a, p, k);
      StepKeepsInvariant(orig, st, a);
      NoneNotedHeld(orig, st, a, s);
      assert ViewOf(orig, st', s).hold.Some?;
      NeverCorrected(orig, st', actions[1..], p, k);
      FirstOrLater(actions, s);
    }
  }

  /** What is written under, or copied, is stopped. From a check on, whatever else happens:
      once its process works, a service it counted is at 0 with no task exactly when no
      correction came since the process went past it, and it had counted it running or it was
      at 0 at the check and not corrected before either. Held at the check, as a dead process
      leaves it, with none pending, it is never corrected. */
  lemma WorkIsOnStoppedServices(orig: map<string, nat>, st: State, begin: Action, actions: seq<Action>, k: nat)
    returns (j: nat)
    requires Reachable(orig, st) && begin.Check? && Enabled(orig, st, begin) && Disciplined(st, begin)
    requires k < |begin.services|
    requires var began := Apply(orig, st, begin); Runs(orig, began, actions, true) && Runs(orig, began, actions, false)
    requires forall j | 0 <= j < |actions| :: !Begins(actions[j], begin.p)
    requires var end := After(orig, Apply(orig, st, begin), actions);
             begin.p in end.procs && end.procs[begin.p].phase.Working?
    ensures j < |actions| && GoesPast(At(orig, Apply(orig, st, begin), actions, j), actions[j], begin.p, k)
    ensures var end, (s, count) := After(orig, Apply(orig, st, begin), actions), begin.services[k];
            && s in orig && s in st.desired && s in end.desired && s in end.running
            && (end.desired[s] == 0 && end.running[s] == 0 <==>
                  orig[s] == 0 || (!EverCorrected(actions[j..], s)
                                   && (count > 0 || (st.desired[s] == 0 && !EverCorrected(actions[..j], s)))))
            && (s in st.holds && !Pending(st, s) ==> !EverCorrected(actions, s))
  {
    var began := Apply(orig, st, begin);
    var p, s := begin.p, begin.services[k].0;
    ServiceIsSound(orig, st, s);
    ReachableIsSound(orig, st);
    StepKeepsInvariant(orig, st, begin);
    EarlyAllAlong(orig, began, actions, p);
    j := StopsAlong(orig, began, actions, p, k, begin.services);
    if s in st.holds && !Pending(st, s) {
      NeverCorrected(orig, began, actions, p, k);
    }
  }
}
