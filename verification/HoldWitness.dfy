/** Runs that end badly: what each rule and each answer of the protocol is needed for. */
module HoldWitness {
  import opened Wrappers
  import opened Holds
  import opened HoldProtocol
  import opened HoldRuns
  import opened HoldTheorems

  function Single(kind: Kind, why: string, s: string, count: nat, allHeld: bool, phase: Phase): Proc {
    Proc(kind, why, [(s, count)], None, allHeld, false, [], phase)
  }

  lemma TwiceIsOnce<V>(m: map<nat, V>, p: nat, a: V, b: V)
    ensures m[p := a][p := b] == m[p := b]
  {
  }

  /** The check, then the hold. */
  lemma Begin(orig: map<string, nat>, start: State, st: State, p: nat, kind: Kind, why: string, s: string,
              count: nat, disciplined: bool)
    returns (begun: State)
    requires Reaches(orig, start, st, disciplined)
    requires var check := Check(p, kind, why, [(s, count)], None);
             Enabled(orig, st, check) && (disciplined ==> Disciplined(st, check))
    ensures Reaches(orig, start, begun, disciplined)
    ensures begun == Put(st, p, Some(Single(kind, why, s, count, false, Holding(0, false))))
  {
    var st1 := Apply(orig, st, Check(p, kind, why, [(s, count)], None));
    Step(orig, start, st, Check(p, kind, why, [(s, count)], None), disciplined);
    begun := Apply(orig, st1, Advance(p));
    Step(orig, start, st1, Advance(p), disciplined);
  }

  lemma HoldIt(orig: map<string, nat>, start: State, st: State, p: nat, kind: Kind, why: string, s: string,
             count: nat, disciplined: bool)
    returns (held: State)
    requires Reaches(orig, start, st, disciplined)
    requires p in st.procs && st.procs[p] == Single(kind, why, s, count, false, Holding(0, false))
    ensures Reaches(orig, start, held, disciplined)
    ensures held == Put(st, p, Some(Single(kind, why, s, count, true, Stopping(0))))
                      .(holds := HoldRow(st.holds, s, count, why))
  {
    var st1 := Apply(orig, st, Act(p));
    Step(orig, start, st, Act(p), disciplined);
    held := Apply(orig, st1, Advance(p));
    Step(orig, start, st1, Advance(p), disciplined);
    TwiceIsOnce(st.procs, p, st1.procs[p], held.procs[p]);
  }

  lemma Stop(orig: map<string, nat>, start: State, st: State, p: nat, kind: Kind, why: string, s: string,
             count: nat, disciplined: bool)
    returns (stopped: State)
    requires Reaches(orig, start, st, disciplined) && s in st.desired
    requires p in st.procs && st.procs[p] == Single(kind, why, s, count, true, Stopping(0))
    ensures Reaches(orig, start, stopped, disciplined)
    ensures stopped == Put(st, p, Some(Single(kind, why, s, count, true, Waiting(0))))
                         .(desired := if count > 0 then st.desired[s := 0] else st.desired)
  {
    var st1 := Apply(orig, st, Act(p));
    Step(orig, start, st, Act(p), disciplined);
    stopped := Apply(orig, st1, Advance(p));
    Step(orig, start, st1, Advance(p), disciplined);
    TwiceIsOnce(st.procs, p, st1.procs[p], stopped.procs[p]);
  }

  /** No task of it left: the work begins. */
  lemma Wait(orig: map<string, nat>, start: State, st: State, p: nat, kind: Kind, why: string, s: string,
             count: nat, disciplined: bool)
    returns (working: State)
    requires Reaches(orig, start, st, disciplined) && s in st.desired && s in st.running
    requires p in st.procs && st.procs[p] == Single(kind, why, s, count, true, Waiting(0))
    ensures Reaches(orig, start, working, disciplined)
    ensures working == Put(st, p, Some(Single(kind, why, s, count, true, Working))).(running := st.running[s := 0])
  {
    var st1 := Apply(orig, st, Tasks(s, 0));
    Step(orig, start, st, Tasks(s, 0), disciplined);
    var st2 := Apply(orig, st1, Act(p));
    Step(orig, start, st1, Act(p), disciplined);
    working := Apply(orig, st2, Advance(p));
    Step(orig, start, st2, Advance(p), disciplined);
    TwiceIsOnce(st.procs, p, st2.procs[p], working.procs[p]);
  }

  /** `start` of one service: `read`, whether the holds can be; `ok`, whether it is scaled. */
  lemma GiveItBack(orig: map<string, nat>, start: State, st: State, p: nat, q: Proc, read: bool, ok: bool,
                   disciplined: bool)
    returns (back: State)
    requires Reaches(orig, start, st, disciplined) && p in st.procs && st.procs[p] == q.(phase := Reading)
    requires |q.services| == 1
    ensures var (s, caller) := q.services[0];
            var seen := if read then Some(st.holds) else None;
            var n := GiveBack(Seen(seen, s), caller);
            && Reaches(orig, start, back, disciplined)
            && back.procs == st.procs[p := q.(failed := q.failed || (n > 0 && !ok), phase := Starting(0, seen))]
            && back.desired == (if n > 0 && ok then st.desired[s := n] else st.desired)
            && back.running == st.running && back.holds == st.holds && back.rounds == st.rounds
  {
    var st1 := Apply(orig, st, ReadHolds(p, read));
    Step(orig, start, st, ReadHolds(p, read), disciplined);
    back := Apply(orig, st1, ScaleUp(p, ok));
    Step(orig, start, st1, ScaleUp(p, ok), disciplined);
    TwiceIsOnce(st.procs, p, st1.procs[p], back.procs[p]);
  }

  /** And released: the process is over. */
  lemma Release(orig: map<string, nat>, start: State, st: State, p: nat, q: Proc, disciplined: bool)
    returns (over: State)
    requires Reaches(orig, start, st, disciplined) && p in st.procs && st.procs[p] == q && q.phase.Starting?
    requires q.phase.i == 0
    requires |q.services| == 1 && q.queue == []
    ensures Reaches(orig, start, over, disciplined)
    ensures over == st.(procs := st.procs - {p}, holds := ReleaseRow(st.holds, q.services[0].0))
  {
    var st1 := Apply(orig, st, Advance(p));
    Step(orig, start, st, Advance(p), disciplined);
    var st2 := Apply(orig, st1, Act(p));
    Step(orig, start, st1, Act(p), disciplined);
    over := Apply(orig, st2, Advance(p));
    Step(orig, start, st2, Advance(p), disciplined);
    TwiceIsOnce(st.procs, p, st1.procs[p], st2.procs[p]);
    assert over.procs == st.procs - {p};
  }

  /** A copy or a restore of one service, from the check until it is held. */
  lemma BeginAndHold(orig: map<string, nat>, start: State, st: State, p: nat, kind: Kind, why: string, s: string,
                     count: nat, disciplined: bool)
    returns (held: State)
    requires Reaches(orig, start, st, disciplined)
    requires var check := Check(p, kind, why, [(s, count)], None);
             Enabled(orig, st, check) && (disciplined ==> Disciplined(st, check))
    ensures Reaches(orig, start, held, disciplined)
    ensures held == st.(procs := st.procs[p := Single(kind, why, s, count, true, Stopping(0))],
                        holds := HoldRow(st.holds, s, count, why))
  {
    var begun := Begin(orig, start, st, p, kind, why, s, count, disciplined);
    held := HoldIt(orig, start, begun, p, kind, why, s, count, disciplined);
    TwiceIsOnce(st.procs, p, begun.procs[p], held.procs[p]);
  }

  /** And until the work begins. */
  lemma WholeStop(orig: map<string, nat>, start: State, st: State, p: nat, kind: Kind, why: string, s: string,
                  count: nat, disciplined: bool)
    returns (working: State)
    requires Reaches(orig, start, st, disciplined) && s in st.desired && s in st.running
    requires var check := Check(p, kind, why, [(s, count)], None);
             Enabled(orig, st, check) && (disciplined ==> Disciplined(st, check))
    ensures Reaches(orig, start, working, disciplined)
    ensures working.procs == st.procs[p := Single(kind, why, s, count, true, Working)]
    ensures working.holds == HoldRow(st.holds, s, count, why)
    ensures working.desired == (if count > 0 then st.desired[s := 0] else st.desired)
    ensures working.running == st.running[s := 0] && working.rounds == st.rounds
  {
    var held := BeginAndHold(orig, start, st, p, kind, why, s, count, disciplined);
    var stopped := Stop(orig, start, held, p, kind, why, s, count, disciplined);
    working := Wait(orig, start, stopped, p, kind, why, s, count, disciplined);
    TwiceIsOnce(st.procs, p, held.procs[p], stopped.procs[p]);
    TwiceIsOnce(st.procs, p, stopped.procs[p], working.procs[p]);
  }

  /** A daemon start, given back what it found. */
  lemma WholeRestart(orig: map<string, nat>, start: State, st: State, p: nat, s: string, count: nat, disciplined: bool)
    returns (over: State)
    requires Reaches(orig, start, st, disciplined) && count > 0
    requires var daemon := Daemon(p, [(s, count)]);
             Enabled(orig, st, daemon) && (disciplined ==> Disciplined(st, daemon))
    ensures Reaches(orig, start, over, disciplined)
    ensures over.procs == st.procs && over.holds == ReleaseRow(st.holds, s)
    ensures over.desired == st.desired[s := count] && over.running == st.running
  {
    var q := Proc(Restart, "", [(s, count)], None, true, false, [], Reading);
    var found := Apply(orig, st, Daemon(p, [(s, count)]));
    Step(orig, start, st, Daemon(p, [(s, count)]), disciplined);
    assert [(s, count)][1..] == [];
    var back := GiveItBack(orig, start, found, p, q, true, true, disciplined);
    over := Release(orig, start, back, p, q.(phase := Starting(0, Some(found.holds))), disciplined);
    assert over.procs == st.procs;
  }

  const COPYING := COPY_HOLD + "a volume"
  const RESTORING := "restore"

  lemma SaysWhichIsWhich()
    ensures IsCopy(COPYING) && !IsCopy(RESTORING)
  {
    assert COPY_HOLD[0] == 'b' && RESTORING[0] == 'r';
    assert COPYING[..|COPY_HOLD|] == COPY_HOLD;
  }

  /** A first copy or restore of one service, from rest to its work. */
  lemma FromRest(s: string, own: nat, kind: Kind, why: string) returns (start: State, working: State)
    requires own > 0 && SaysItsKind(kind, why)
    ensures var orig := map[s := own]; Init(orig, start) && Reaches(orig, start, working, true)
    ensures working.procs == map[1 := Single(kind, why, s, own, true, Working)] && working.rounds == map[]
    ensures working.holds == map[s := Hold(why, Some(own), None)]
    ensures working.desired == map[s := 0] && working.running == map[s := 0]
  {
    var orig := map[s := own];
    start := State(orig, orig, map[], map[], map[], {});
    Here(orig, start, true);
    working := WholeStop(orig, start, start, 1, kind, why, s, own, true);
  }

  /** With a copy still running, a daemon start gives its service back and releases it; a
      restore then finds it free — and the copy's end starts it under that restore. */
  lemma DaemonStartUnderALiveCopy(s: string, own: nat) returns (start: State, st: State)
    requires own > 0
    ensures var orig := map[s := own]; Init(orig, start) && Reaches(orig, start, st, false)
    ensures 3 in st.procs && st.procs[3].kind == Restore && st.procs[3].phase.Working?
    ensures st.procs[3].services == [(s, own)] && s in st.desired && st.desired[s] == own
  {
    var orig := map[s := own];
    SaysWhichIsWhich();
    start := State(orig, orig, map[], map[], map[], {});
    Here(orig, start, false);
    var copying := WholeStop(orig, start, start, 1, Copy, COPYING, s, own, false);
    assert FoundByDaemon(copying.holds, [(s, own)]) by { assert [(s, own)][0].0 in Names([(s, own)]); }
    var restarted := WholeRestart(orig, start, copying, 2, s, own, false);
    var restoring := WholeStop(orig, start, restarted, 3, Restore, RESTORING, s, own, false);
    var ended := Apply(orig, restoring, Advance(1));
    Step(orig, start, restoring, Advance(1), false);
    st := GiveItBack(orig, start, ended, 1, Single(Copy, COPYING, s, own, true, Working), true, true, false);
  }

  /** The work over, `start` and its release, and the process gone. */
  lemma WholeEnd(orig: map<string, nat>, start: State, st: State, p: nat, q: Proc, read: bool, ok: bool,
                 disciplined: bool)
    returns (over: State)
    requires Reaches(orig, start, st, disciplined) && p in st.procs && st.procs[p] == q && q.phase.Working?
    requires |q.services| == 1 && q.queue == []
    ensures var (s, caller) := q.services[0];
            var n := GiveBack(if read then Row(st.holds, s) else None, caller);
            && Reaches(orig, start, over, disciplined)
            && over.procs == st.procs - {p} && over.holds == ReleaseRow(st.holds, s)
            && over.running == st.running && over.rounds == st.rounds
            && over.desired == (if n > 0 && ok then st.desired[s := n] else st.desired)
  {
    var ended := Apply(orig, st, Advance(p));
    Step(orig, start, st, Advance(p), disciplined);
    var back := GiveItBack(orig, start, ended, p, q, read, ok, disciplined);
    over := Release(orig, start, back, p, back.procs[p], disciplined);
    assert over.procs == st.procs - {p};
  }

  /** A copy over, and its service not scaled up: lost, and nobody at work. */
  lemma LostByAFailedScaleUp(s: string, own: nat) returns (start: State, st: State)
    requires own > 0
    ensures var orig := map[s := own]; Init(orig, start) && Reaches(orig, start, st, true) && Lost(orig, st, s)
    ensures st.procs == map[] && st.holds == map[] && st.desired == map[s := 0] && st.running == map[s := 0]
    ensures st.rounds == map[]
  {
    var orig := map[s := own];
    SaysWhichIsWhich();
    var copying: State;
    start, copying := FromRest(s, own, Copy, COPYING);
    st := WholeEnd(orig, start, copying, 1, copying.procs[1], true, false, true);
  }

  /** A restore dies, and its retry reads the 0 it left; the holds cannot be read as the retry
      ends, and it releases a service left to reconciliation alone. */
  lemma LostUnread(s: string, own: nat) returns (start: State, st: State)
    requires own > 0
    ensures var orig := map[s := own]; Init(orig, start) && Reaches(orig, start, st, true) && Lost(orig, st, s)
    ensures st.procs == map[] && s !in st.holds
  {
    var orig := map[s := own];
    SaysWhichIsWhich();
    var restoring: State;
    start, restoring := FromRest(s, own, Restore, RESTORING);
    var died := Apply(orig, restoring, Crash(1));
    Step(orig, start, restoring, Crash(1), true);
    assert died.procs == map[];
    var again := WholeStop(orig, start, died, 2, Restore, RESTORING, s, 0, true);
    st := WholeEnd(orig, start, again, 2, again.procs[2], false, true, true);
  }

  /** A begin that fails, starts its service again and cannot release it: the hold stays, with
      nobody at work. */
  lemma HoldLeftByAFailedBegin(s: string, own: nat) returns (start: State, st: State)
    requires own > 0
    ensures var orig := map[s := own]; Init(orig, start) && Reaches(orig, start, st, true)
    ensures st.procs == map[] && st.desired == map[s := own] && st.holds == map[s := Hold(RESTORING, Some(own), None)]
  {
    var orig := map[s := own];
    SaysWhichIsWhich();
    start := State(orig, orig, map[], map[], map[], {});
    Here(orig, start, true);
    var held := BeginAndHold(orig, start, start, 1, Restore, RESTORING, s, own, true);
    var failed := Apply(orig, held, Fail(1));
    Step(orig, start, held, Fail(1), true);
    var q := Single(Restore, RESTORING, s, own, true, Reading);
    var back := GiveItBack(orig, start, failed, 1, q, true, true, true);
    st := ReleaseNothing(orig, start, back, 1, back.procs[1], true);
    assert st.procs == map[];
  }

  lemma ReleaseNothing(orig: map<string, nat>, start: State, st: State, p: nat, q: Proc, disciplined: bool)
    returns (over: State)
    requires Reaches(orig, start, st, disciplined) && p in st.procs && st.procs[p] == q
    requires q.phase.Starting? && q.phase.i == 0 && q.services != []
    ensures Reaches(orig, start, over, disciplined)
    ensures over == st.(procs := st.procs - {p})
  {
    var releasing := Apply(orig, st, Advance(p));
    Step(orig, start, st, Advance(p), disciplined);
    over := Apply(orig, releasing, Fail(p));
    Step(orig, start, releasing, Fail(p), disciplined);
    assert over.procs == st.procs - {p};
  }

  const ROUND: nat := 9

  /** Reconciliation lists the services. */
  lemma Listed(orig: map<string, nat>, start: State, st: State, disciplined: bool) returns (listed: State)
    requires Reaches(orig, start, st, disciplined) && ROUND !in st.rounds
    ensures Reaches(orig, start, listed, disciplined)
    ensures listed == st.(rounds := st.rounds[ROUND := Round(st.desired, {}, true)])
  {
    listed := Apply(orig, st, List(ROUND));
    Step(orig, start, st, List(ROUND), disciplined);
  }

  /** Finds one of them unheld, off its count as listed. */
  lemma Noticed(orig: map<string, nat>, start: State, st: State, s: string, disciplined: bool) returns (noticed: State)
    requires Reaches(orig, start, st, disciplined) && Enabled(orig, st, Look(ROUND, s))
    ensures Reaches(orig, start, noticed, disciplined)
    ensures noticed == st.(rounds := noticed.rounds) && ROUND in noticed.rounds && s in noticed.rounds[ROUND].noted
  {
    noticed := Apply(orig, st, Look(ROUND, s));
    Step(orig, start, st, Look(ROUND, s), disciplined);
  }

  /** And scales it. */
  lemma PutRight(orig: map<string, nat>, start: State, st: State, s: string, disciplined: bool) returns (right: State)
    requires Reaches(orig, start, st, disciplined) && s in orig
    requires ROUND in st.rounds && s in st.rounds[ROUND].noted
    ensures Reaches(orig, start, right, disciplined)
    ensures right.desired == st.desired[s := orig[s]] && right.running == st.running
    ensures right.holds == st.holds && right.procs == st.procs
  {
    right := Apply(orig, st, Correct(ROUND, s, true));
    Step(orig, start, st, Correct(ROUND, s, true), disciplined);
  }

  /** Reconciliation lists a service while a copy has it stopped, and reads its hold once the
      copy gave it back and released it. */
  lemma NotedInBetween(s: string, own: nat) returns (start: State, noted: State)
    requires own > 0
    ensures var orig := map[s := own]; Init(orig, start) && Reaches(orig, start, noted, true)
    ensures noted.procs == map[] && noted.holds == map[] && noted.desired == map[s := own]
    ensures noted.running == map[s := 0] && ROUND in noted.rounds && s in noted.rounds[ROUND].noted
  {
    var orig := map[s := own];
    SaysWhichIsWhich();
    var copying: State;
    start, copying := FromRest(s, own, Copy, COPYING);
    var listed := Listed(orig, start, copying, true);
    var copied := WholeEnd(orig, start, listed, 1, Single(Copy, COPYING, s, own, true, Working), true, true, true);
    noted := Noticed(orig, start, copied, s, true);
  }

  /** A restore then holds it, stops it and works — and the correction starts it under that
      restore. Every call on the way did what it was asked. */
  lemma LateCorrection(s: string, own: nat) returns (start: State, before: State, st: State)
    requires own > 0
    ensures var orig := map[s := own]; Init(orig, start) && Reaches(orig, start, before, true)
    ensures 2 in before.procs && before.procs[2] == Single(Restore, RESTORING, s, own, true, Working)
    ensures before.desired == map[s := 0] && before.running == map[s := 0]
    ensures before.holds == map[s := Hold(RESTORING, Some(own), None)]
    ensures var orig := map[s := own];
            Enabled(orig, before, Correct(ROUND, s, true)) && st == Apply(orig, before, Correct(ROUND, s, true))
    ensures Reaches(map[s := own], start, st, true)
    ensures st.desired == map[s := own] && st.procs == before.procs && st.holds == before.holds
  {
    var orig := map[s := own];
    SaysWhichIsWhich();
    var noted: State;
    start, noted := NotedInBetween(s, own);
    before := WholeStop(orig, start, noted, 2, Restore, RESTORING, s, own, true);
    st := Apply(orig, before, Correct(ROUND, s, true));
    Step(orig, start, before, Correct(ROUND, s, true), true);
  }

  /** A service no hold lies on, at 0: its count is read, reconciliation starts it before the
      row is written, and the 0 read leaves it running under the restore. */
  lemma ReadBeforeHeld(s: string, own: nat) returns (start: State, st: State)
    requires own > 0
    ensures var orig := map[s := own]; Init(orig, start) && Reaches(orig, start, st, true)
    ensures 2 in st.procs && st.procs[2].kind == Restore && st.procs[2].phase.Working?
    ensures st.procs[2].services == [(s, 0)] && s in st.desired && st.desired[s] == own
  {
    var orig := map[s := own];
    SaysWhichIsWhich();
    var down: State;
    start, down := LostByAFailedScaleUp(s, own);
    var begun := Begin(orig, start, down, 2, Restore, RESTORING, s, 0, true);
    var listed := Listed(orig, start, begun, true);
    var noticed := Noticed(orig, start, listed, s, true);
    var started := PutRight(orig, start, noticed, s, true);
    var held := HoldIt(orig, start, started, 2, Restore, RESTORING, s, 0, true);
    var stopped := Stop(orig, start, held, 2, Restore, RESTORING, s, 0, true);
    st := Wait(orig, start, stopped, 2, Restore, RESTORING, s, 0, true);
  }
}
