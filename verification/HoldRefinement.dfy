/** The calls are runs of the protocol: what its steps keep, each call keeps, whatever its
    answer. */
module HoldRefinement {
  import opened Wrappers
  import opened Holds
  import opened HoldCalls
  import opened HoldEffects
  import opened HoldProtocol
  import opened HoldRuns
  import opened HoldSafety

  lemma ActOn(orig: map<string, nat>, start: State, st: State, p: nat, disciplined: bool)
    requires Reaches(orig, start, st, disciplined) && p in st.procs && CanAct(st, st.procs[p])
    ensures Reaches(orig, start, Acted(st, p, st.procs[p]), disciplined)
  {
    Step(orig, start, st, Act(p), disciplined);
  }

  lemma ToNextPhase(orig: map<string, nat>, start: State, st: State, p: nat, q: Proc, next: Proc, disciplined: bool)
    requires Reaches(orig, start, st, disciplined) && p in st.procs && st.procs[p] == q
    requires PhaseDone(q) && Next(q) == Some(next)
    ensures Reaches(orig, start, st.(procs := st.procs[p := next]), disciplined)
  {
    Step(orig, start, st, Advance(p), disciplined);
  }

  lemma OverIt<V>(m: map<nat, V>, p: nat, a: V, b: V)
    ensures m[p := a][p := b] == m[p := b]
    ensures p in m && m[p] == a ==> m[p := a] == m
  {
  }

  // ---- One service -------------------------------------------------------------

  lemma OneHold(orig: map<string, nat>, start: State, st: State, p: nat, q: Proc, noting: bool, m: nat,
                disciplined: bool)
    requires Reaches(orig, start, st, disciplined) && p in st.procs && st.procs[p] == q.(phase := Holding(m, noting))
    requires m < |q.services|
    ensures Reaches(orig, start, st.(holds := HoldRow(st.holds, q.services[m].0, q.services[m].1, q.why),
                                     procs := st.procs[p := q.(phase := Holding(m + 1, noting))]), disciplined)
  {
    ActOn(orig, start, st, p, disciplined);
  }

  lemma OneStop(orig: map<string, nat>, start: State, st: State, p: nat, q: Proc, n: nat, disciplined: bool)
    requires Reaches(orig, start, st, disciplined) && p in st.procs && st.procs[p] == q.(phase := Stopping(n))
    requires n < |q.services|
    requires q.services[n].0 in st.desired
    ensures var (s, count) := q.services[n];
            Reaches(orig, start, st.(desired := if count > 0 then st.desired[s := 0] else st.desired,
                                     procs := st.procs[p := q.(phase := Stopping(n + 1))]), disciplined)
  {
    ActOn(orig, start, st, p, disciplined);
  }

  lemma OneRelease(orig: map<string, nat>, start: State, st: State, p: nat, q: Proc, m: nat, disciplined: bool)
    requires Reaches(orig, start, st, disciplined) && p in st.procs && st.procs[p] == q.(phase := Releasing(m))
    requires m < |q.services|
    ensures Reaches(orig, start, st.(holds := ReleaseRow(st.holds, q.services[m].0),
                                     procs := st.procs[p := q.(phase := Releasing(m + 1))]), disciplined)
  {
    ActOn(orig, start, st, p, disciplined);
  }

  lemma OneStart(orig: map<string, nat>, start: State, st: State, p: nat, q: Proc, seen: Option<Table>, i: nat,
                 ok: bool, disciplined: bool)
    requires Reaches(orig, start, st, disciplined) && p in st.procs && st.procs[p] == q.(phase := Starting(i + 1, seen))
    requires i < |q.services|
    ensures var n := GiveBack(Seen(seen, q.services[i].0), q.services[i].1);
            var st' := ScaledUp(st, p, st.procs[p], ok);
            && Reaches(orig, start, st', disciplined)
            && st'.desired == (if n > 0 && ok then st.desired[q.services[i].0 := n] else st.desired)
            && st'.holds == st.holds && st'.running == st.running
            && st'.procs == st.procs[p := q.(failed := q.failed || (n > 0 && !ok), phase := Starting(i, seen))]
  {
    Step(orig, start, st, ScaleUp(p, ok), disciplined);
  }

  // ---- Every service -----------------------------------------------------------

  /** `hold_services`, cut short after `m` rows or not. */
  lemma {:induction false} HoldingIsARun(orig: map<string, nat>, start: State, st: State, p: nat, q: Proc, noting: bool,
                                         m: nat, disciplined: bool)
    requires Reaches(orig, start, st, disciplined) && p in st.procs && st.procs[p] == q.(phase := Holding(0, noting))
    requires m <= |q.services|
    ensures Reaches(orig, start, st.(holds := HoldAll(st.holds, q.services[..m], q.why),
                                     procs := st.procs[p := q.(phase := Holding(m, noting))]), disciplined)
    decreases m
  {
    OverIt(st.procs, p, st.procs[p], st.procs[p]);
    if m > 0 {
      var before := st.(holds := HoldAll(st.holds, q.services[..m - 1], q.why),
                        procs := st.procs[p := q.(phase := Holding(m - 1, noting))]);
      HoldingIsARun(orig, start, st, p, q, noting, m - 1, disciplined);
      OneHold(orig, start, before, p, q, noting, m - 1, disciplined);
      assert q.services[..m][..m - 1] == q.services[..m - 1];
      OverIt(st.procs, p, q.(phase := Holding(m - 1, noting)), q.(phase := Holding(m, noting)));
    }
  }

  /** The services stopped, one after another, until one cannot be. */
  lemma {:induction false} StoppingIsARun(orig: map<string, nat>, start: State, st: State, p: nat, q: Proc, n: nat,
                                          disciplined: bool)
    requires Reaches(orig, start, st, disciplined) && p in st.procs && st.procs[p] == q.(phase := Stopping(0))
    requires n <= |q.services|
    requires Names(q.services) <= st.desired.Keys
    ensures Reaches(orig, start, st.(desired := StopAll(st.desired, q.services[..n]),
                                     procs := st.procs[p := q.(phase := Stopping(n))]), disciplined)
    decreases n
  {
    OverIt(st.procs, p, st.procs[p], st.procs[p]);
    if n > 0 {
      var before := st.(desired := StopAll(st.desired, q.services[..n - 1]),
                        procs := st.procs[p := q.(phase := Stopping(n - 1))]);
      StoppingIsARun(orig, start, st, p, q, n - 1, disciplined);
      StillThere(st.desired, q.services, n - 1);
      OneStop(orig, start, before, p, q, n - 1, disciplined);
      assert q.services[..n][..n - 1] == q.services[..n - 1];
      OverIt(st.procs, p, q.(phase := Stopping(n - 1)), q.(phase := Stopping(n)));
    }
  }

  lemma StillThere(desired: Counts, services: seq<Counted>, n: nat)
    requires n < |services| && Names(services) <= desired.Keys
    ensures services[n].0 in StopAll(desired, services[..n])
  {
    assert services[n].0 in Names(services);
    forall s | s in Names(services[..n]) ensures s in desired {
      var k :| 0 <= k < n && services[..n][k].0 == s;
      assert services[k].0 in Names(services);
    }
    StopKeys(desired, services[..n]);
  }

  /** `release_services`, cut short after `m` rows or not. */
  lemma {:induction false} ReleasingIsARun(orig: map<string, nat>, start: State, st: State, p: nat, q: Proc, m: nat,
                                           disciplined: bool)
    requires Reaches(orig, start, st, disciplined) && p in st.procs && st.procs[p] == q.(phase := Releasing(0))
    requires m <= |q.services|
    ensures Reaches(orig, start, st.(holds := ReleaseAll(st.holds, q.services[..m]),
                                     procs := st.procs[p := q.(phase := Releasing(m))]), disciplined)
    decreases m
  {
    OverIt(st.procs, p, st.procs[p], st.procs[p]);
    if m == 0 {
      assert ReleaseAll(st.holds, q.services[..0]) == st.holds;
    } else {
      var before := st.(holds := ReleaseAll(st.holds, q.services[..m - 1]),
                        procs := st.procs[p := q.(phase := Releasing(m - 1))]);
      ReleasingIsARun(orig, start, st, p, q, m - 1, disciplined);
      OneRelease(orig, start, before, p, q, m - 1, disciplined);
      ReleasedMore(st.holds, q.services, m - 1);
      OverIt(st.procs, p, q.(phase := Releasing(m - 1)), q.(phase := Releasing(m)));
    }
  }

  lemma ReleasedMore(holds: Table, services: seq<Counted>, m: nat)
    requires m < |services|
    ensures ReleaseRow(ReleaseAll(holds, services[..m]), services[m].0) == ReleaseAll(holds, services[..m + 1])
  {
    assert services[..m + 1][..m] == services[..m];
    NamesButLast(services[..m + 1]);
  }

  /** A scale-up was asked for and failed, from the `i`th service on. */
  predicate OneFails(services: seq<Counted>, seen: Option<Table>, failed: set<nat>, i: nat) {
    exists k | i <= k < |services| :: k in failed && GiveBack(Seen(seen, services[k].0), services[k].1) > 0
  }

  lemma FailsFrom(services: seq<Counted>, seen: Option<Table>, failed: set<nat>, i: nat)
    requires i < |services|
    ensures OneFails(services, seen, failed, i)
       <==> OneFails(services, seen, failed, i + 1)
            || (i in failed && GiveBack(Seen(seen, services[i].0), services[i].1) > 0)
  {
  }

  /** `start`'s scale-ups from the last service down to the `i`th, those of `failed` failing;
      `f`: the process then knows that one did. */
  lemma {:induction false} StartingIsARun(orig: map<string, nat>, start: State, st: State, p: nat, q: Proc,
                                          seen: Option<Table>, failed: set<nat>, i: nat, disciplined: bool)
    returns (started: State, f: bool)
    requires Reaches(orig, start, st, disciplined) && p in st.procs && i <= |q.services|
    requires st.procs[p] == q.(phase := Starting(|q.services|, seen))
    ensures Reaches(orig, start, started, disciplined)
    ensures started.desired == StartFrom(st.desired, if seen.None? then map[] else seen.value, q.services, failed, i)
    ensures started.holds == st.holds && started.running == st.running && p in started.procs
    ensures started.procs == st.procs[p := q.(failed := f, phase := Starting(i, seen))]
    ensures f <==> q.failed || OneFails(q.services, seen, failed, i)
    decreases |q.services| - i
  {
    OverIt(st.procs, p, st.procs[p], st.procs[p]);
    if i == |q.services| {
      started, f := st, q.failed;
      assert q.(failed := q.failed, phase := Starting(i, seen)) == st.procs[p];
    } else {
      var before, b := StartingIsARun(orig, start, st, p, q, seen, failed, i + 1, disciplined);
      OneStart(orig, start, before, p, q.(failed := b), seen, i, i !in failed, disciplined);
      started := ScaledUp(before, p, before.procs[p], i !in failed);
      SeenIs(seen, q.services[i].0);
      f := b || (GiveBack(Seen(seen, q.services[i].0), q.services[i].1) > 0 && i in failed);
      FailsFrom(q.services, seen, failed, i);
      OverIt(st.procs, p, q.(failed := b, phase := Starting(i + 1, seen)), q.(failed := f, phase := Starting(i, seen)));
    }
  }

  lemma SeenIs(seen: Option<Table>, s: string)
    ensures Seen(seen, s) == Row(if seen.None? then map[] else seen.value, s)
  {
  }

  /** The holds read or not, and the scale-ups. */
  lemma ReadingIsARun(orig: map<string, nat>, start: State, st: State, p: nat, q: Proc, read: bool, failed: set<nat>,
                      disciplined: bool)
    returns (started: State, next: Proc)
    requires Reaches(orig, start, st, disciplined) && p in st.procs && st.procs[p] == q.(phase := Reading)
    ensures Reaches(orig, start, started, disciplined)
    ensures started.desired == StartFrom(st.desired, if read then st.holds else map[], q.services, failed, 0)
    ensures started.holds == st.holds && started.running == st.running && started.procs == st.procs[p := next]
    ensures next == q.(failed := next.failed, phase := Releasing(0))
    ensures next.failed <==> q.failed || OneFails(q.services, if read then Some(st.holds) else None, failed, 0)
  {
    var seen := if read then Some(st.holds) else None;
    var reading := st.(procs := st.procs[p := q.(phase := Starting(|q.services|, seen))]);
    assert Apply(orig, st, ReadHolds(p, read)) == reading;
    Step(orig, start, st, ReadHolds(p, read), disciplined);
    var scaled, f := StartingIsARun(orig, start, reading, p, q, seen, failed, 0, disciplined);
    next := q.(failed := f, phase := Releasing(0));
    ToNextPhase(orig, start, scaled, p, scaled.procs[p], next, disciplined);
    OverIt(st.procs, p, reading.procs[p], scaled.procs[p]);
    OverIt(st.procs, p, scaled.procs[p], next);
    started := scaled.(procs := st.procs[p := next]);
  }

  /** The whole of `start`: what the call's contract says it leaves is where a run of the
      protocol ends, whether the holds were read or not and whichever scale-ups failed. */
  lemma StartIsARun(orig: map<string, nat>, start: State, st: State, p: nat, q: Proc, read: bool, failed: set<nat>,
                    done: nat, disciplined: bool)
    returns (after: State, next: Proc)
    requires Reaches(orig, start, st, disciplined) && p in st.procs && st.procs[p] == q.(phase := Reading)
    requires done <= |q.services|
    ensures Reaches(orig, start, after, disciplined)
    ensures after.desired == StartFrom(st.desired, if read then st.holds else map[], q.services, failed, 0)
    ensures after.holds == ReleaseAll(st.holds, q.services[..done]) && after.running == st.running
    ensures after.procs == st.procs[p := next]
    ensures next == q.(failed := next.failed, phase := Releasing(done))
    ensures next.failed <==> q.failed || OneFails(q.services, if read then Some(st.holds) else None, failed, 0)
    ensures disciplined && Inv(orig, start) ==> Inv(orig, after)
  {
    var started, first := ReadingIsARun(orig, start, st, p, q, read, failed, disciplined);
    ReleasingIsARun(orig, start, started, p, first, done, disciplined);
    next := first.(phase := Releasing(done));
    OverIt(st.procs, p, first, next);
    after := started.(holds := ReleaseAll(started.holds, first.services[..done]), procs := st.procs[p := next]);
    KeptAlong(orig, start, after, disciplined);
  }

  lemma KeptAlong(orig: map<string, nat>, start: State, st: State, disciplined: bool)
    requires Reaches(orig, start, st, disciplined)
    ensures disciplined && Inv(orig, start) ==> Inv(orig, st)
  {
    if disciplined && Inv(orig, start) { ReachedIsSound(orig, start, st); }
  }

  // ---- Noting and waiting ------------------------------------------------------

  lemma OneNote(orig: map<string, nat>, start: State, st: State, p: nat, q: Proc, m: nat, disciplined: bool)
    requires Reaches(orig, start, st, disciplined) && p in st.procs && st.procs[p] == q.(phase := Noting(m))
    requires m < |q.services| && q.node.Some?
    ensures Reaches(orig, start, st.(holds := NoteRow(st.holds, q.services[m].0, q.node.value),
                                     procs := st.procs[p := q.(phase := Noting(m + 1))]), disciplined)
  {
    ActOn(orig, start, st, p, disciplined);
  }

  /** `set_hold_node`, cut short after `m` rows or not. */
  lemma {:induction false} NotingIsARun(orig: map<string, nat>, start: State, st: State, p: nat, q: Proc, m: nat,
                                        disciplined: bool)
    requires Reaches(orig, start, st, disciplined) && p in st.procs && st.procs[p] == q.(phase := Noting(0))
    requires m <= |q.services| && q.node.Some?
    ensures Reaches(orig, start, st.(holds := NoteAll(st.holds, q.services[..m], q.node.value),
                                     procs := st.procs[p := q.(phase := Noting(m))]), disciplined)
    decreases m
  {
    OverIt(st.procs, p, st.procs[p], st.procs[p]);
    if m > 0 {
      var before := st.(holds := NoteAll(st.holds, q.services[..m - 1], q.node.value),
                        procs := st.procs[p := q.(phase := Noting(m - 1))]);
      NotingIsARun(orig, start, st, p, q, m - 1, disciplined);
      OneNote(orig, start, before, p, q, m - 1, disciplined);
      assert q.services[..m][..m - 1] == q.services[..m - 1];
      OverIt(st.procs, p, q.(phase := Noting(m - 1)), q.(phase := Noting(m)));
    }
  }

  /** No task left of any. */
  function Emptied(running: Counts, services: seq<Counted>): Counts
    decreases |services|
  {
    if services == [] then running
    else var n := |services| - 1; Emptied(running, services[..n])[services[n].0 := 0]
  }

  lemma {:induction false} EmptiedAt(running: Counts, services: seq<Counted>, s: string)
    requires s in running
    ensures var empty := Emptied(running, services);
            s in empty && empty[s] == (if s in Names(services) then 0 else running[s])
    decreases |services|
  {
    if services != [] {
      EmptiedAt(running, services[..|services| - 1], s);
      NamesButLast(services);
    }
  }

  lemma OneWait(orig: map<string, nat>, start: State, st: State, p: nat, q: Proc, n: nat, disciplined: bool)
    requires Reaches(orig, start, st, disciplined) && p in st.procs && st.procs[p] == q.(phase := Waiting(n))
    requires n < |q.services| && q.services[n].0 in st.desired && q.services[n].0 in st.running
    ensures Reaches(orig, start, st.(running := st.running[q.services[n].0 := 0],
                                     procs := st.procs[p := q.(phase := Waiting(n + 1))]), disciplined)
  {
    var gone := Apply(orig, st, Tasks(q.services[n].0, 0));
    Step(orig, start, st, Tasks(q.services[n].0, 0), disciplined);
    ActOn(orig, start, gone, p, disciplined);
  }

  /** The tasks exit, one service after another. */
  lemma {:induction false} WaitingIsARun(orig: map<string, nat>, start: State, st: State, p: nat, q: Proc, n: nat,
                                         disciplined: bool)
    requires Reaches(orig, start, st, disciplined) && p in st.procs && st.procs[p] == q.(phase := Waiting(0))
    requires n <= |q.services| && Names(q.services) <= st.desired.Keys && Names(q.services) <= st.running.Keys
    ensures Reaches(orig, start, st.(running := Emptied(st.running, q.services[..n]),
                                     procs := st.procs[p := q.(phase := Waiting(n))]), disciplined)
    decreases n
  {
    OverIt(st.procs, p, st.procs[p], st.procs[p]);
    if n > 0 {
      var before := st.(running := Emptied(st.running, q.services[..n - 1]),
                        procs := st.procs[p := q.(phase := Waiting(n - 1))]);
      WaitingIsARun(orig, start, st, p, q, n - 1, disciplined);
      assert q.services[n - 1].0 in Names(q.services);
      EmptiedAt(st.running, q.services[..n - 1], q.services[n - 1].0);
      OneWait(orig, start, before, p, q, n - 1, disciplined);
      assert q.services[..n][..n - 1] == q.services[..n - 1];
      OverIt(st.procs, p, q.(phase := Waiting(n - 1)), q.(phase := Waiting(n)));
    }
  }

  // ---- A whole begin -----------------------------------------------------------

  /** The process a check makes, at a phase of its begin; `noted`: its node is. */
  function Beginner(kind: Kind, why: string, services: seq<Counted>, node: Option<string>, allHeld: bool, phase: Phase)
    : Proc
  {
    Proc(kind, why, services, node, allHeld, false, [], phase)
  }

  predicate MayBegin(orig: map<string, nat>, st: State, check: Action, disciplined: bool) {
    check.Check? && Enabled(orig, st, check) && (disciplined ==> Disciplined(st, check))
  }

  lemma CheckedIsARun(orig: map<string, nat>, start: State, st: State, a: Action, disciplined: bool)
    returns (checked: State)
    requires Reaches(orig, start, st, disciplined) && MayBegin(orig, st, a, disciplined)
    ensures Reaches(orig, start, checked, disciplined)
    ensures checked == st.(procs := st.procs[a.p :=
                             Beginner(a.kind, a.why, a.services, a.node, false, Holding(0, a.node.Some?))])
  {
    Step(orig, start, st, a, disciplined);
    var q := Beginner(a.kind, a.why, a.services, a.node, false, Checked);
    var q' := q.(phase := Holding(0, a.node.Some?));
    var first := st.(procs := st.procs[a.p := q]);
    assert Apply(orig, st, a) == first;
    ToNextPhase(orig, start, first, a.p, q, q', disciplined);
    OverIt(st.procs, a.p, q, q');
    checked := st.(procs := st.procs[a.p := q']);
  }

  /** The rows the node is noted on, and those notes, cut short anywhere: the process is gone
      and nothing else moved. */
  lemma NotNotedIsARun(orig: map<string, nat>, start: State, st: State, a: Action, left: Table, c: Course,
                       disciplined: bool)
    returns (after: State)
    requires Reaches(orig, start, st, disciplined) && MayBegin(orig, st, a, disciplined) && a.node.Some?
    requires a.services != [] && LeftNoting(st.holds, left, a.services, a.why, a.node.value, c)
    ensures Reaches(orig, start, after, disciplined) && after == st.(holds := left)
    ensures disciplined && Inv(orig, start) ==> Inv(orig, after)
  {
    var p := a.p;
    var checked := CheckedIsARun(orig, start, st, a, disciplined);
    var q := Beginner(a.kind, a.why, a.services, a.node, false, Holding(0, true));
    HoldingIsARun(orig, start, checked, p, q, true, c.rows, disciplined);
    var held := st.(holds := HoldAll(st.holds, a.services[..c.rows], a.why),
                    procs := st.procs[p := q.(phase := Holding(c.rows, true))]);
    OverIt(st.procs, p, q, q.(phase := Holding(c.rows, true)));
    if c.rows < |a.services| {
      assert a.services[..0] == [];
      GaveUp(orig, start, st, held, p, disciplined);
      after := held.(procs := st.procs);
    } else {
      var q' := q.(allHeld := true, phase := Noting(0));
      ToNextPhase(orig, start, held, p, held.procs[p], q', disciplined);
      OverIt(st.procs, p, held.procs[p], q');
      var noting := held.(procs := st.procs[p := q']);
      NotingIsARun(orig, start, noting, p, q', c.noted, disciplined);
      OverIt(st.procs, p, q', q'.(phase := Noting(c.noted)));
      var noted := noting.(holds := left, procs := st.procs[p := q'.(phase := Noting(c.noted))]);
      GaveUp(orig, start, st, noted, p, disciplined);
      after := noted.(procs := st.procs);
    }
    KeptAlong(orig, start, after, disciplined);
  }

  /** An error nothing undoes: the process is gone. */
  lemma GaveUp(orig: map<string, nat>, start: State, st: State, now: State, p: nat, disciplined: bool)
    requires Reaches(orig, start, now, disciplined) && p in now.procs && p !in st.procs
    requires now.procs == st.procs[p := now.procs[p]]
    requires CanFail(now.procs[p]) && AfterFailure(now.procs[p]) == None
    ensures Reaches(orig, start, now.(procs := st.procs), disciplined)
  {
    Step(orig, start, now, Fail(p), disciplined);
    assert now.procs - {p} == st.procs;
  }

  /** Noted, if it was to be: about to be held by `stop`. */
  lemma NotedIsARun(orig: map<string, nat>, start: State, st: State, a: Action, disciplined: bool)
    returns (noted: State)
    requires Reaches(orig, start, st, disciplined) && MayBegin(orig, st, a, disciplined)
    ensures Reaches(orig, start, noted, disciplined)
    ensures noted == st.(holds := Noted(st.holds, a.services, a.why, a.node),
                         procs := st.procs[a.p :=
                           Beginner(a.kind, a.why, a.services, a.node, a.node.Some?, Holding(0, false))])
  {
    var p, n := a.p, |a.services|;
    var checked := CheckedIsARun(orig, start, st, a, disciplined);
    if a.node.None? { return checked; }
    assert a.services[..n] == a.services;
    var q := Beginner(a.kind, a.why, a.services, a.node, false, Holding(0, true));
    HoldingIsARun(orig, start, checked, p, q, true, n, disciplined);
    var held := st.(holds := HoldAll(st.holds, a.services, a.why),
                    procs := st.procs[p := q.(phase := Holding(n, true))]);
    OverIt(st.procs, p, q, q.(phase := Holding(n, true)));
    var q' := q.(allHeld := true, phase := Noting(0));
    ToNextPhase(orig, start, held, p, held.procs[p], q', disciplined);
    OverIt(st.procs, p, held.procs[p], q');
    noted := AllNoted(orig, start, st, held.(procs := st.procs[p := q']), p, q', disciplined);
  }

  lemma AllNoted(orig: map<string, nat>, start: State, st: State, now: State, p: nat, q: Proc, disciplined: bool)
    returns (noted: State)
    requires Reaches(orig, start, now, disciplined) && now.procs == st.procs[p := q]
    requires q.phase == Noting(0) && q.node.Some?
    ensures Reaches(orig, start, noted, disciplined)
    ensures noted == now.(holds := NoteAll(now.holds, q.services, q.node.value),
                          procs := st.procs[p := q.(phase := Holding(0, false))])
  {
    var n := |q.services|;
    assert q.services[..n] == q.services;
    NotingIsARun(orig, start, now, p, q, n, disciplined);
    var last := now.(holds := NoteAll(now.holds, q.services, q.node.value),
                     procs := st.procs[p := q.(phase := Noting(n))]);
    OverIt(st.procs, p, q, last.procs[p]);
    ToNextPhase(orig, start, last, p, last.procs[p], q.(phase := Holding(0, false)), disciplined);
    OverIt(st.procs, p, last.procs[p], q.(phase := Holding(0, false)));
    noted := last.(procs := st.procs[p := q.(phase := Holding(0, false))]);
  }

  /** `stop`, until every row is recorded. */
  lemma HeldIsARun(orig: map<string, nat>, start: State, st: State, now: State, p: nat, q: Proc, disciplined: bool)
    returns (held: State)
    requires Reaches(orig, start, now, disciplined) && now.procs == st.procs[p := q] && q.phase == Holding(0, false)
    ensures Reaches(orig, start, held, disciplined)
    ensures held == now.(holds := HoldAll(now.holds, q.services, q.why),
                         procs := st.procs[p := q.(allHeld := true, phase := Stopping(0))])
  {
    var n := |q.services|;
    assert q.services[..n] == q.services;
    HoldingIsARun(orig, start, now, p, q, false, n, disciplined);
    var last := now.(holds := HoldAll(now.holds, q.services, q.why),
                     procs := st.procs[p := q.(phase := Holding(n, false))]);
    OverIt(st.procs, p, q, last.procs[p]);
    var next := q.(allHeld := true, phase := Stopping(0));
    ToNextPhase(orig, start, last, p, last.procs[p], next, disciplined);
    OverIt(st.procs, p, last.procs[p], next);
    held := last.(procs := st.procs[p := next]);
  }

  /** And until every service is gone past. */
  lemma StoppedIsARun(orig: map<string, nat>, start: State, st: State, now: State, p: nat, q: Proc, disciplined: bool)
    returns (stopped: State)
    requires Reaches(orig, start, now, disciplined) && now.procs == st.procs[p := q] && q.phase == Stopping(0)
    requires Names(q.services) <= now.desired.Keys
    ensures Reaches(orig, start, stopped, disciplined)
    ensures stopped == now.(desired := StopAll(now.desired, q.services),
                            procs := st.procs[p := q.(phase := Waiting(0))])
  {
    var n := |q.services|;
    assert q.services[..n] == q.services;
    StoppingIsARun(orig, start, now, p, q, n, disciplined);
    var last := now.(desired := StopAll(now.desired, q.services), procs := st.procs[p := q.(phase := Stopping(n))]);
    OverIt(st.procs, p, q, last.procs[p]);
    ToNextPhase(orig, start, last, p, last.procs[p], q.(phase := Waiting(0)), disciplined);
    OverIt(st.procs, p, last.procs[p], q.(phase := Waiting(0)));
    stopped := last.(procs := st.procs[p := q.(phase := Waiting(0))]);
  }

  lemma WaitedIsARun(orig: map<string, nat>, start: State, st: State, now: State, p: nat, q: Proc, disciplined: bool)
    returns (working: State)
    requires Reaches(orig, start, now, disciplined) && now.procs == st.procs[p := q] && q.phase == Waiting(0)
    requires Names(q.services) <= now.desired.Keys && Names(q.services) <= now.running.Keys
    ensures Reaches(orig, start, working, disciplined)
    ensures working == now.(running := Emptied(now.running, q.services), procs := st.procs[p := q.(phase := Working)])
  {
    var n := |q.services|;
    assert q.services[..n] == q.services;
    WaitingIsARun(orig, start, now, p, q, n, disciplined);
    var last := now.(running := Emptied(now.running, q.services), procs := st.procs[p := q.(phase := Waiting(n))]);
    OverIt(st.procs, p, q, last.procs[p]);
    ToNextPhase(orig, start, last, p, last.procs[p], q.(phase := Working), disciplined);
    OverIt(st.procs, p, last.procs[p], q.(phase := Working));
    working := last.(procs := st.procs[p := q.(phase := Working)]);
  }

  /** A copy or a restore that begins: noted, held, stopped, with no task left of any. */
  lemma BegunIsARun(orig: map<string, nat>, start: State, st: State, a: Action, disciplined: bool)
    returns (working: State)
    requires Reaches(orig, start, st, disciplined) && MayBegin(orig, st, a, disciplined)
    requires Names(a.services) <= st.desired.Keys && Names(a.services) <= st.running.Keys
    ensures Reaches(orig, start, working, disciplined)
    ensures working == st.(
              desired := StopAll(st.desired, a.services), running := Emptied(st.running, a.services),
              holds := HoldAll(Noted(st.holds, a.services, a.why, a.node), a.services, a.why),
              procs := st.procs[a.p := Beginner(a.kind, a.why, a.services, a.node, true, Working)])
    ensures disciplined && Inv(orig, start) ==> Inv(orig, working)
  {
    var p := a.p;
    var q := Beginner(a.kind, a.why, a.services, a.node, true, Stopping(0));
    var noted := NotedIsARun(orig, start, st, a, disciplined);
    var held := HeldIsARun(orig, start, st, noted, p, noted.procs[p], disciplined);
    var stopped := StoppedIsARun(orig, start, st, held, p, q, disciplined);
    StopKeys(st.desired, a.services);
    working := WaitedIsARun(orig, start, st, stopped, p, q.(phase := Waiting(0)), disciplined);
    KeptAlong(orig, start, working, disciplined);
  }

  lemma FailedIsARun(orig: map<string, nat>, start: State, st: State, now: State, p: nat, q: Proc, disciplined: bool)
    returns (failed: State)
    requires Reaches(orig, start, now, disciplined) && now.procs == st.procs[p := q]
    requires CanFail(q) && AfterFailure(q) == Some(q.(phase := Reading))
    ensures Reaches(orig, start, failed, disciplined)
    ensures failed == now.(procs := st.procs[p := q.(phase := Reading)])
  {
    Step(orig, start, now, Fail(p), disciplined);
    OverIt(st.procs, p, q, q.(phase := Reading));
    failed := now.(procs := st.procs[p := q.(phase := Reading)]);
  }

  /** `stop` answering an error before every row is recorded. */
  lemma CutHoldingIsARun(orig: map<string, nat>, start: State, st: State, now: State, p: nat, q: Proc, rows: nat,
                         disciplined: bool)
    returns (cut: State)
    requires Reaches(orig, start, now, disciplined) && now.procs == st.procs[p := q] && q.phase == Holding(0, false)
    requires rows < |q.services|
    ensures Reaches(orig, start, cut, disciplined)
    ensures cut == now.(holds := HoldAll(now.holds, q.services[..rows], q.why),
                        procs := st.procs[p := q.(phase := Reading)])
  {
    HoldingIsARun(orig, start, now, p, q, false, rows, disciplined);
    var last := q.(phase := Holding(rows, false));
    OverIt(st.procs, p, q, last);
    cut := FailedIsARun(orig, start, st, now.(holds := HoldAll(now.holds, q.services[..rows], q.why),
                                              procs := st.procs[p := last]), p, last, disciplined);
  }

  /** And after: a service that does not stop, or a task that does not exit. */
  lemma CutStoppingIsARun(orig: map<string, nat>, start: State, st: State, now: State, p: nat, q: Proc, down: nat,
                          disciplined: bool)
    returns (cut: State)
    requires Reaches(orig, start, now, disciplined) && now.procs == st.procs[p := q] && q.phase == Stopping(0)
    requires CutShort(q.services, |q.services|, down) && Names(q.services) <= now.desired.Keys
    ensures Reaches(orig, start, cut, disciplined)
    ensures cut == now.(desired := StopAll(now.desired, q.services[..down]),
                        procs := st.procs[p := q.(phase := Reading)])
  {
    if down < |q.services| {
      StoppingIsARun(orig, start, now, p, q, down, disciplined);
      var last := q.(phase := Stopping(down));
      OverIt(st.procs, p, q, last);
      cut := FailedIsARun(orig, start, st, now.(desired := StopAll(now.desired, q.services[..down]),
                                                procs := st.procs[p := last]), p, last, disciplined);
    } else {
      assert q.services[..down] == q.services;
      var stopped := StoppedIsARun(orig, start, st, now, p, q, disciplined);
      cut := FailedIsARun(orig, start, st, stopped, p, q.(phase := Waiting(0)), disciplined);
    }
  }

  lemma CutShortIsARun(orig: map<string, nat>, start: State, st: State, now: State, p: nat, q: Proc, rows: nat,
                       down: nat, disciplined: bool)
    returns (cut: State, next: Proc)
    requires Reaches(orig, start, now, disciplined) && now.procs == st.procs[p := q] && q.phase == Holding(0, false)
    requires CutShort(q.services, rows, down) && Names(q.services) <= now.desired.Keys
    ensures Reaches(orig, start, cut, disciplined)
    ensures cut == now.(holds := HoldAll(now.holds, q.services[..rows], q.why),
                        desired := StopAll(now.desired, q.services[..down]), procs := st.procs[p := next])
    ensures next == q.(allHeld := next.allHeld, phase := Reading)
  {
    if rows < |q.services| {
      cut := CutHoldingIsARun(orig, start, st, now, p, q, rows, disciplined);
      next := q.(phase := Reading);
    } else {
      assert q.services[..rows] == q.services;
      var held := HeldIsARun(orig, start, st, now, p, q, disciplined);
      cut := CutStoppingIsARun(orig, start, st, held, p, q.(allHeld := true, phase := Stopping(0)), down, disciplined);
      next := q.(allHeld := true, phase := Reading);
    }
  }

  /** A begin that fails and that `start` undoes, as far as either comes: what the calls'
      contracts say is left is where a run ends, with the process gone. */
  lemma UndoneIsARun(orig: map<string, nat>, start: State, st: State, a: Action, desired: Counts, holds: Table,
                     c: Course, startedAgain: bool, disciplined: bool)
    returns (after: State)
    requires Reaches(orig, start, st, disciplined) && MayBegin(orig, st, a, disciplined)
    requires Names(a.services) <= st.desired.Keys
    requires WentBack(st.desired, Noted(st.holds, a.services, a.why, a.node), desired, holds, a.services, a.why, c,
                      startedAgain)
    ensures Reaches(orig, start, after, disciplined)
    ensures after.desired == desired && after.holds == holds && after.running == st.running && after.procs == st.procs
    ensures disciplined && Inv(orig, start) ==> Inv(orig, after)
  {
    var p := a.p;
    var noted := NotedIsARun(orig, start, st, a, disciplined);
    var cut, q := CutShortIsARun(orig, start, st, noted, p, noted.procs[p], c.rows, c.down, disciplined);
    var back, last := StartIsARun(orig, start, cut, p, q, c.read, c.failed, c.gave, disciplined);
    OverIt(st.procs, p, q, last);
    after := OverAfter(orig, start, st, back, p, last, disciplined);
    KeptAlong(orig, start, after, disciplined);
  }

  /** Released or not, `start` is over. */
  lemma OverAfter(orig: map<string, nat>, start: State, st: State, now: State, p: nat, q: Proc, disciplined: bool)
    returns (over: State)
    requires Reaches(orig, start, now, disciplined) && p !in st.procs && now.procs == st.procs[p := q]
    requires q.phase.Releasing? && q.phase.i <= |q.services| && q.queue == []
    ensures Reaches(orig, start, over, disciplined) && over == now.(procs := st.procs)
  {
    assert now.procs - {p} == st.procs;
    var a := if q.phase.i == |q.services| then Advance(p) else Fail(p);
    Step(orig, start, now, a, disciplined);
    over := Apply(orig, now, a);
  }

  // ---- A daemon start ----------------------------------------------------------

  /** The process on the rest of what a daemon start found. */
  function Starter(found: seq<Counted>): Proc
    requires found != []
  {
    Proc(Restart, "", [found[0]], None, true, false, found[1..], Reading)
  }

  /** One copy's hold, given back and released, or one of the two at most: `q`, the process
      then. */
  lemma OneRestartIsARun(orig: map<string, nat>, start: State, st: State, now: State, p: nat, found: seq<Counted>,
                         read: bool, scaled: bool, released: bool, disciplined: bool)
    returns (after: State, q: Proc)
    requires Reaches(orig, start, now, disciplined) && found != [] && now.procs == st.procs[p := Starter(found)]
    requires found[0].0 in now.holds && now.holds[found[0].0].count == Some(found[0].1)
    requires found[0].1 == 0 ==> scaled
    ensures Reaches(orig, start, after, disciplined)
    ensures after.holds == (if released then ReleaseRow(now.holds, found[0].0) else now.holds)
    ensures after.running == now.running
    ensures after.desired == if scaled && found[0].1 > 0 then now.desired[found[0].0 := found[0].1] else now.desired
    ensures after.procs == st.procs[p := q]
    ensures q == Starter(found).(failed := q.failed, phase := Releasing(if released then 1 else 0))
    ensures q.failed <==> !scaled
  {
    var first, failed: set<nat> := Starter(found), if scaled then {} else {0};
    after, q := StartIsARun(orig, start, now, p, first, read, failed, if released then 1 else 0, disciplined);
    OverIt(st.procs, p, first, q);
    OneGiven(now.desired, now.holds, found[0], read, failed);
    FailsFrom([found[0]], if read then Some(now.holds) else None, failed, 0);
    assert first.services[..1] == [found[0]] && [found[0]][0].0 in Names([found[0]]);
    assert Names([found[0]]) == {found[0].0} && first.services[..0] == [] && Names([]) == {};
  }

  lemma OneGiven(desired: Counts, holds: Table, one: Counted, read: bool, failed: set<nat>)
    requires one.0 in holds && holds[one.0].count == Some(one.1)
    ensures StartFrom(desired, if read then holds else map[], [one], failed, 0)
            == if one.1 > 0 && 0 !in failed then desired[one.0 := one.1] else desired
  {
    var seen: Table := if read then holds else map[];
    assert StartFrom(desired, seen, [one], failed, 1) == desired;
    assert GiveBack(Row(seen, one.0), one.1) == one.1;
  }

  /** The rows a daemon start found that it has not come to. */
  predicate StillFound(holds: Table, found: seq<Counted>, n: nat) {
    forall k | n <= k < |found| :: found[k].0 in holds && holds[found[k].0].count == Some(found[k].1)
  }

  lemma NextFound(holds: Table, found: seq<Counted>, n: nat)
    requires n < |found| && Distinct(found) && StillFound(holds, found, 0)
    ensures StillFound(ReleaseAll(holds, found[..n]), found, n)
    ensures ReleaseRow(ReleaseAll(holds, found[..n]), found[n].0) == ReleaseAll(holds, found[..n + 1])
  {
    var before := found[..n];
    assert forall j | 0 <= j < n :: before[j] == found[j];
    ReleasedMore(holds, found, n);
  }

  /** Given back and released, and on to the next. */
  lemma OnToNext(orig: map<string, nat>, start: State, st: State, now: State, p: nat, left: seq<Counted>, read: bool,
                 disciplined: bool)
    returns (after: State)
    requires Reaches(orig, start, now, disciplined) && |left| > 1 && now.procs == st.procs[p := Starter(left)]
    requires left[0].0 in now.holds && now.holds[left[0].0].count == Some(left[0].1)
    ensures Reaches(orig, start, after, disciplined) && after.running == now.running
    ensures after.holds == ReleaseRow(now.holds, left[0].0)
    ensures after.desired == if left[0].1 > 0 then now.desired[left[0].0 := left[0].1] else now.desired
    ensures after.procs == st.procs[p := Starter(left[1..])]
  {
    var given, q := OneRestartIsARun(orig, start, st, now, p, left, read, true, true, disciplined);
    assert q == Starter(left).(phase := Releasing(1));
    ToNextPhase(orig, start, given, p, q, Starter(left[1..]), disciplined);
    OverIt(st.procs, p, q, Starter(left[1..]));
    after := given.(procs := st.procs[p := Starter(left[1..])]);
  }

  /** Each but the last given back and released, the holds read each time or not. */
  lemma {:induction false} RestartingIsARun(orig: map<string, nat>, start: State, st: State, now: State, p: nat,
                                            found: seq<Counted>, read: bool, n: nat, disciplined: bool)
    returns (after: State)
    requires Reaches(orig, start, now, disciplined) && n < |found| && Distinct(found)
    requires now.procs == st.procs[p := Starter(found)] && StillFound(now.holds, found, 0)
    ensures Reaches(orig, start, after, disciplined) && after.running == now.running
    ensures after.desired == GiveAll(now.desired, found[..n]) && after.holds == ReleaseAll(now.holds, found[..n])
    ensures after.procs == st.procs[p := Starter(found[n..])]
    decreases n
  {
    if n == 0 {
      after := now;
      assert found[0..] == found && found[..0] == [] && Names([]) == {};
    } else {
      var before := RestartingIsARun(orig, start, st, now, p, found, read, n - 1, disciplined);
      var left := found[n - 1..];
      assert left[0] == found[n - 1] && left[1..] == found[n..];
      NextFound(now.holds, found, n - 1);
      GivenNext(now.desired, found, n - 1);
      after := OnToNext(orig, start, st, before, p, left, read, disciplined);
    }
  }

  /** A daemon start, whatever it answers: what the call's contract says is left is where a run
      ends. `started` were given back and released, and of the next, when it failed, one of the
      two at most. */
  lemma RestartedIsARun(orig: map<string, nat>, start: State, st: State, p: nat, found: seq<Counted>, read: bool,
                        ok: bool, started: nat, given: bool, released: bool, disciplined: bool)
    returns (after: State)
    requires Reaches(orig, start, st, disciplined) && Enabled(orig, st, Daemon(p, found))
    requires disciplined ==> Disciplined(st, Daemon(p, found))
    requires RestartAnswers(found, ok, started, given, released)
    ensures Reaches(orig, start, after, disciplined) && after.running == st.running && after.procs == st.procs
    ensures after.desired == GiveAll(st.desired, found[..started + if !ok && given then 1 else 0])
    ensures after.holds == ReleaseAll(st.holds, found[..started + if !ok && released then 1 else 0])
    ensures disciplined && Inv(orig, start) ==> Inv(orig, after)
  {
    var n := if ok then |found| - 1 else started;
    after := RestartedTo(orig, start, st, p, found, read, n, ok || given, ok || released, disciplined);
    KeptAlong(orig, start, after, disciplined);
  }

  /** The first `n` given back and released, and of the next what `scaled` and `freed` say. */
  lemma RestartedTo(orig: map<string, nat>, start: State, st: State, p: nat, found: seq<Counted>, read: bool, n: nat,
                    scaled: bool, freed: bool, disciplined: bool)
    returns (after: State)
    requires Reaches(orig, start, st, disciplined) && Enabled(orig, st, Daemon(p, found))
    requires disciplined ==> Disciplined(st, Daemon(p, found))
    requires n < |found| && (found[n].1 == 0 ==> scaled) && (scaled && freed ==> n == |found| - 1)
    ensures Reaches(orig, start, after, disciplined) && after.running == st.running && after.procs == st.procs
    ensures after.desired == GiveAll(st.desired, found[..n + if scaled then 1 else 0])
    ensures after.holds == ReleaseAll(st.holds, found[..n + if freed then 1 else 0])
  {
    var now := FoundIsARun(orig, start, st, p, found, disciplined);
    var before := RestartingIsARun(orig, start, st, now, p, found, read, n, disciplined);
    NextFound(st.holds, found, n);
    GivenNext(st.desired, found, n);
    assert found[n..][0] == found[n];
    after := LastIsARun(orig, start, st, before, p, found[n..], read, scaled, freed, disciplined);
  }

  lemma FoundIsARun(orig: map<string, nat>, start: State, st: State, p: nat, found: seq<Counted>, disciplined: bool)
    returns (now: State)
    requires Reaches(orig, start, st, disciplined) && Enabled(orig, st, Daemon(p, found))
    requires disciplined ==> Disciplined(st, Daemon(p, found))
    ensures Reaches(orig, start, now, disciplined) && found != [] && p !in st.procs && Distinct(found)
    ensures now == st.(procs := st.procs[p := Starter(found)]) && StillFound(st.holds, found, 0)
  {
    Step(orig, start, st, Daemon(p, found), disciplined);
    now := Apply(orig, st, Daemon(p, found));
  }

  /** The last one, or one that failed: the process is over. */
  lemma LastIsARun(orig: map<string, nat>, start: State, st: State, now: State, p: nat, left: seq<Counted>, read: bool,
                   scaled: bool, released: bool, disciplined: bool)
    returns (after: State)
    requires Reaches(orig, start, now, disciplined) && p !in st.procs && left != []
    requires now.procs == st.procs[p := Starter(left)]
    requires left[0].0 in now.holds && now.holds[left[0].0].count == Some(left[0].1)
    requires (left[0].1 == 0 ==> scaled) && (scaled && released ==> |left| == 1)
    ensures Reaches(orig, start, after, disciplined) && after.running == now.running && after.procs == st.procs
    ensures after.holds == (if released then ReleaseRow(now.holds, left[0].0) else now.holds)
    ensures after.desired == if scaled && left[0].1 > 0 then now.desired[left[0].0 := left[0].1] else now.desired
  {
    var last, q := OneRestartIsARun(orig, start, st, now, p, left, read, scaled, released, disciplined);
    after := RestartOver(orig, start, st, last, p, q, disciplined);
  }

  lemma RestartOver(orig: map<string, nat>, start: State, st: State, now: State, p: nat, q: Proc, disciplined: bool)
    returns (over: State)
    requires Reaches(orig, start, now, disciplined) && p !in st.procs && now.procs == st.procs[p := q]
    requires q.phase.Releasing? && |q.services| == 1 && q.phase.i <= 1
    requires q.phase.i == 1 ==> q.queue == [] || q.failed
    ensures Reaches(orig, start, over, disciplined) && over == now.(procs := st.procs)
  {
    assert now.procs - {p} == st.procs;
    var a := if q.phase.i == 1 then Advance(p) else Fail(p);
    Step(orig, start, now, a, disciplined);
    over := Apply(orig, now, a);
  }
}
