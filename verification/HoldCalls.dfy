/** The calls themselves: `stop`, `start`, and what begins and ends with them, each with
    whatever Swarm and the state answer. */
module HoldCalls {
  import opened Wrappers
  import opened Holds
  import opened HoldProtocol
  import opened HoldEffects

  /** What keeps a restore from beginning. */
  datatype NotStopped =
    /** A copy holds this service. */
    | Copying(service: string)
    | Unread
    /** The holds that were to note the node failed. */
    | NotNoted
    /** Undone by `start`, which may have failed too. */
    | Failed(startedAgain: bool)

  /** Why no copy is taken. */
  datatype NotCopied =
    | Restoring(service: string)
    | Unreadable
    | Undone(startedAgain: bool)

  /** A service a restore holds, or a copy. */
  predicate HeldOtherwise(holds: Table, copy: bool, s: string) {
    s in holds && IsCopy(holds[s].why) != copy
  }

  /** How far a begin that was not made went, and how far `start` came undoing it. */
  datatype Course = Course(
    /** Rows `stop` recorded; rows recorded and noted, when the node was being noted. */
    rows: nat, noted: nat,
    /** Services gone past, stopping them. */
    down: nat,
    /** Whether the holds could be read, the services not scaled up, the rows released. */
    read: bool, failed: set<nat>, gave: nat)

  const NOWHERE := Course(0, 0, 0, false, {}, 0)

  /** Where `stop` can answer an error. */
  predicate CutShort(services: seq<Counted>, rows: nat, down: nat) {
    && services != [] && rows <= |services| && down <= |services| && (down > 0 ==> rows == |services|)
    && (rows == |services| && down < |services| ==> services[down].1 > 0)
  }

  /** `stop` cut short, and `start`: the counts and the holds either leaves. */
  predicate WentBack(counts: Counts, table: Table, desired: Counts, holds: Table, services: seq<Counted>, why: string,
                     c: Course, startedAgain: bool) {
    && CutShort(services, c.rows, c.down) && c.gave <= |services|
    && desired == StartFrom(StopAll(counts, services[..c.down]),
                            if c.read then HoldAll(table, services[..c.rows], why) else map[],
                            services, c.failed, 0)
    && holds == ReleaseAll(HoldAll(table, services[..c.rows], why), services[..c.gave])
    && (startedAgain <==> c.failed == {} && c.gave == |services|)
  }

  /** None of the first `n` services is held. */
  predicate NoneHeld(holds: Table, services: seq<Counted>, n: nat)
    requires n <= |services|
  {
    forall k | 0 <= k < n :: services[k].0 !in holds
  }

  class Cluster {
    var desired: Counts
    var running: Counts
    var holds: Table
    /** Something answered an error, or a task did not exit in time. */
    ghost var trouble: bool

    constructor (desired: Counts, running: Counts, holds: Table)
      ensures this.desired == desired && this.running == running && this.holds == holds && !trouble
    {
      this.desired, this.running, this.holds, trouble := desired, running, holds, false;
    }

    // ---- What Swarm and the state answer ---------------------------------------

    method Scale(s: string, n: nat) returns (ok: bool)
      modifies this`desired, this`trouble
      ensures desired == if ok then old(desired)[s := n] else old(desired)
      ensures ok ==> s in old(desired)
      ensures trouble == (old(trouble) || !ok)
    {
      ok := *;
      ok := ok && s in desired;
      trouble := trouble || !ok;
      if ok { desired := desired[s := n]; }
    }

    /** The tasks Swarm says run: none is started past the count asked for. */
    method Running(s: string) returns (n: Option<nat>)
      modifies this`running, this`trouble
      ensures trouble == (old(trouble) || n.None?)
      ensures n.Some? ==> s in desired && s in old(running) && n.value <= Max(old(running)[s], desired[s])
      ensures running == if n.Some? then old(running)[s := n.value] else old(running)
    {
      n := None;
      if s in desired && s in running {
        var k: int := *;
        if 0 <= k <= Max(running[s], desired[s]) {
          n := Some(k);
          running := running[s := k];
        }
      }
      trouble := trouble || n.None?;
    }

    /** How many rows were written before the state answered an error, if it did. */
    method HoldServices(services: seq<Counted>, why: string) returns (done: nat)
      modifies this`holds, this`trouble
      ensures trouble == (old(trouble) || done < |services|)
      ensures done <= |services| && holds == HoldAll(old(holds), services[..done], why)
    {
      done := 0;
      while done < |services|
        invariant trouble == old(trouble)
        invariant done <= |services| && holds == HoldAll(old(holds), services[..done], why)
      {
        if * {
          trouble := true;
          return;
        }
        assert services[..done + 1][..done] == services[..done];
        holds := HoldRow(holds, services[done].0, services[done].1, why);
        done := done + 1;
      }
    }

    method SetHoldNode(services: seq<Counted>, node: string) returns (done: nat)
      modifies this`holds, this`trouble
      ensures trouble == (old(trouble) || done < |services|)
      ensures done <= |services| && holds == NoteAll(old(holds), services[..done], node)
    {
      done := 0;
      while done < |services|
        invariant trouble == old(trouble)
        invariant done <= |services| && holds == NoteAll(old(holds), services[..done], node)
      {
        if * {
          trouble := true;
          return;
        }
        assert services[..done + 1][..done] == services[..done];
        holds := NoteRow(holds, services[done].0, node);
        done := done + 1;
      }
    }

    method ReleaseServices(services: seq<Counted>) returns (done: nat)
      modifies this`holds, this`trouble
      ensures trouble == (old(trouble) || done < |services|)
      ensures done <= |services| && holds == ReleaseAll(old(holds), services[..done])
    {
      done := 0;
      while done < |services|
        invariant trouble == old(trouble)
        invariant done <= |services| && holds == ReleaseAll(old(holds), services[..done])
      {
        if * {
          trouble := true;
          return;
        }
        assert services[..done + 1][..done] == services[..done];
        NamesButLast(services[..done + 1]);
        holds := ReleaseRow(holds, services[done].0);
        done := done + 1;
      }
    }

    // ---- stop, start -----------------------------------------------------------

    /** Asks for no replica of each service that ran: how many were gone past. */
    method ScaleDown(services: seq<Counted>) returns (down: nat)
      modifies this`desired, this`trouble
      ensures trouble == (old(trouble) || down < |services|)
      ensures down <= |services| && desired == StopAll(old(desired), services[..down])
      ensures down < |services| ==> services[down].1 > 0
    {
      down := 0;
      while down < |services|
        invariant down <= |services| && desired == StopAll(old(desired), services[..down])
        invariant trouble == old(trouble)
      {
        assert services[..down + 1][..down] == services[..down];
        var (s, count) := services[down];
        if count > 0 {
          var scaled := Scale(s, 0);
          if !scaled { return; }
        }
        down := down + 1;
      }
    }

    /** Waits, `polls` times in all, for every task to exit. */
    method Wait(services: seq<Counted>, polls: nat) returns (ok: bool)
      requires Distinct(services)
      modifies this`running, this`trouble
      ensures trouble == (old(trouble) || !ok)
      ensures !ok ==> services != []
      ensures ok ==> forall k | 0 <= k < |services| ::
                services[k].0 in desired && services[k].0 in running && running[services[k].0] == 0
    {
      var left, k := polls, 0;
      while k < |services|
        invariant k <= |services| && trouble == old(trouble)
        invariant forall j | 0 <= j < k ::
                    services[j].0 in desired && services[j].0 in running && running[services[j].0] == 0
        decreases |services| - k, left
      {
        var n := Running(services[k].0);
        if n == None || (n.value > 0 && left == 0) {
          trouble := true;
          return false;
        }
        if n.value > 0 { left := left - 1; } else { k := k + 1; }
      }
      ok := true;
    }

    /** `held` rows were recorded and `down` services gone past, whatever the answer; all of
        them, and no task left of any, when it is true. */
    method Stop(services: seq<Counted>, why: string, polls: nat) returns (ok: bool, held: nat, down: nat)
      requires Distinct(services)
      modifies this
      ensures held <= |services| && holds == HoldAll(old(holds), services[..held], why)
      ensures down <= |services| && desired == StopAll(old(desired), services[..down])
      ensures !ok ==> CutShort(services, held, down)
      ensures trouble == (old(trouble) || !ok)
      ensures ok ==> held == down == |services| && Names(services) <= desired.Keys
      ensures ok ==> forall k | 0 <= k < |services| ::
                services[k].0 in running && running[services[k].0] == 0
    {
      ok, down := false, 0;
      held := HoldServices(services, why);
      if held < |services| { return; }
      down := ScaleDown(services);
      if down < |services| { return; }
      ok := Wait(services, polls);
    }

    /** The services of `failed` could not be scaled up; `read`: the holds could be. Answers
        no error exactly when every service was given back and released. */
    method Start(stopped: seq<Counted>) returns (ok: bool, ghost read: bool, ghost failed: set<nat>, ghost done: nat)
      modifies this`desired, this`holds, this`trouble
      ensures trouble == (old(trouble) || !ok)
      ensures desired == StartFrom(old(desired), if read then old(holds) else map[], stopped, failed, 0)
      ensures done <= |stopped| && holds == ReleaseAll(old(holds), stopped[..done])
      ensures ok <==> failed == {} && done == |stopped|
      // Only where there was something to give.
      ensures var seen := if read then old(holds) else map[];
              forall k | k in failed :: k < |stopped| && GiveBack(Row(seen, stopped[k].0), stopped[k].1) > 0
    {
      ok, failed := true, {};
      var seen: Table := map[];
      read := false;
      if * { seen, read := holds, true; }
      var i: nat := |stopped|;
      while i > 0
        invariant i <= |stopped| && seen == (if read then old(holds) else map[]) && holds == old(holds)
        invariant ok <==> failed == {}
        invariant forall k | k in failed :: i <= k < |stopped| && GiveBack(Row(seen, stopped[k].0), stopped[k].1) > 0
        invariant desired == StartFrom(old(desired), seen, stopped, failed, i)
        invariant trouble == (old(trouble) || !ok)
      {
        i := i - 1;
        var (s, caller) := stopped[i];
        var n := GiveBack(Row(seen, s), caller);
        if n > 0 {
          var scaled := Scale(s, n);
          if !scaled {
            FailedBelow(old(desired), seen, stopped, failed, i);
            ok, failed := false, failed + {i};
          }
        }
      }
      var released := ReleaseServices(stopped);
      ok, done := ok && released == |stopped|, released;
    }

    // ---- What begins and ends with them ----------------------------------------

    /** `stop`, and `start` when it fails: whether that worked, and `None` when all stopped. */
    method StopOrUndo(services: seq<Counted>, why: string, polls: nat) returns (undone: Option<bool>, ghost c: Course)
      requires Distinct(services) && Names(services) <= desired.Keys
      modifies this
      ensures undone.Some? ==>
                && WentBack(old(desired), old(holds), desired, holds, services, why, c, undone.value)
                && (NoneHeld(holds, services, c.rows) <==> c.rows <= c.gave)
      ensures undone == Some(true) ==> holds == ReleaseAll(old(holds), services)
      ensures undone == Some(true) && c.read ==> desired == StartAll(old(desired), old(holds), services)
      ensures !old(trouble) ==> (undone == None <==> !trouble)
      ensures undone == None ==>
                && holds == HoldAll(old(holds), services, why)
                && desired == StopAll(old(desired), services)
                && (forall k | 0 <= k < |services| :: services[k].0 in running && running[services[k].0] == 0)
    {
      c := NOWHERE;
      assert services[..|services|] == services;
      var ok, m, n := Stop(services, why, polls);
      if ok { return None, c; }
      HeldGivesBackTheSame(old(holds), services, m, why);
      HeldThenReleased(old(holds), services, m, why);
      UndoneIsStart(old(desired), holds, old(holds), services, n);
      var again, read, failed, done := Start(services);
      NoneHeldIff(old(holds), services, why, m, done);
      undone, c := Some(again), Course(m, 0, n, read, failed, done);
    }

    /** What Swarm is asked to run of each service; an error when one cannot be read. */
    method ReadCounts(names: seq<string>) returns (services: Option<seq<Counted>>)
      modifies this`trouble
      ensures trouble == (old(trouble) || services.None?)
      ensures services.Some? ==> Reads(desired, names, services.value)
    {
      var read: seq<Counted> := [];
      for k := 0 to |names|
        invariant |read| == k && Reads(desired, names[..k], read) && trouble == old(trouble)
      {
        var answered := *;
        if !answered || names[k] !in desired {
          trouble := true;
          return None;
        }
        read := read + [(names[k], desired[names[k]])];
      }
      assert names[..|names|] == names;
      services := Some(read);
    }

    /** Refused, with nothing moved, exactly when a service is held by the other kind; only a
        state that cannot be read hides it. */
    method FirstHeldOtherwise(services: seq<Counted>, copy: bool) returns (found: Option<string>, unread: bool)
      modifies this`trouble
      ensures trouble == (old(trouble) || unread)
      ensures found.Some? ==> !unread && exists k | 0 <= k < |services| ::
                services[k].0 == found.value && HeldOtherwise(holds, copy, services[k].0)
      ensures !unread && found.None? ==>
                forall k | 0 <= k < |services| :: !HeldOtherwise(holds, copy, services[k].0)
    {
      found, unread := None, false;
      for k := 0 to |services|
        invariant forall j | 0 <= j < k :: !HeldOtherwise(holds, copy, services[j].0)
        invariant trouble == old(trouble)
      {
        if * {
          trouble := true;
          return None, true;
        }
        var s := services[k].0;
        if s in holds && IsCopy(holds[s].why) != copy { return Some(s), false; }
      }
    }

    /** `at`: where the volume to be written lies, when one is. */
    method StopForRestore(services: seq<Counted>, why: string, at: Option<string>, polls: nat)
      returns (refused: Option<NotStopped>, ghost c: Course)
      requires Distinct(services) && Names(services) <= desired.Keys
      modifies this
      ensures (exists k | 0 <= k < |services| :: HeldOtherwise(old(holds), false, services[k].0)) ==>
                refused.Some? && (refused.value.Copying? || refused.value.Unread?)
      ensures refused.Some? && refused.value.Copying? ==>
                exists k | 0 <= k < |services| :: HeldOtherwise(old(holds), false, services[k].0)
                                                  && services[k].0 == refused.value.service
      // Nothing else keeps it from beginning.
      ensures !old(trouble) && !trouble && refused.Some? ==> refused.value.Copying?
      // Refused: nothing moved.
      ensures refused.Some? && (refused.value.Copying? || refused.value.Unread?) ==>
                desired == old(desired) && holds == old(holds) && running == old(running)
      // Not noted: nothing moved but the holds, and whatever was recorded is left.
      ensures refused == Some(NotNoted) ==>
                && at.Some? && desired == old(desired) && running == old(running)
                && LeftNoting(old(holds), holds, services, why, at.value, c)
                && (NoneHeld(holds, services, c.rows) <==> c.rows == 0)
      // Failed: `start` undid it, as far as it came; none of the rows recorded is left exactly
      // when as many were released.
      ensures refused.Some? && refused.value.Failed? ==>
                && WentBack(old(desired), Noted(old(holds), services, why, at), desired, holds, services, why, c,
                            refused.value.startedAgain)
                && var rows := if at.Some? then |services| else c.rows;
                   NoneHeld(holds, services, rows) <==> rows <= c.gave
      ensures refused == Some(Failed(true)) ==> holds == ReleaseAll(old(holds), services)
      ensures refused == Some(Failed(true)) && c.read ==> desired == StartAll(old(desired), old(holds), services)
      // Begun: held and stopped, every one.
      ensures refused == None ==>
                && holds == HoldAll(Noted(old(holds), services, why, at), services, why)
                && desired == StopAll(old(desired), services)
                && (forall k | 0 <= k < |services| :: services[k].0 in running && running[services[k].0] == 0)
      // Begun, every row says where the volume written is, or what it said before.
      ensures refused == None ==> (forall k | 0 <= k < |services| :: services[k].0 in holds)
                                  && SayWhere(holds, services, at, old(holds))
      // Failed, whatever rows are left say it too.
      ensures refused.Some? && refused.value.Failed? ==> SayWhere(holds, services, at, old(holds))
    {
      c := NOWHERE;
      var held, unread := FirstHeldOtherwise(services, false);
      if unread { return Some(Unread), c; }
      if held.Some? { return Some(Copying(held.value)), c; }
      if at.Some? {
        var noted, rows, notes := Note(services, why, at.value);
        if !noted { return Some(NotNoted), Course(rows, notes, 0, false, {}, 0); }
      }
      var undone, c' := StopNoted(services, why, at, polls, old(holds));
      c := c';
      refused := match undone case None => None case Some(again) => Some(Failed(again));
    }

    /** `stop`, the node noted when there is one, and `start` when it fails; `table`: the holds
        before any of it. */
    method StopNoted(services: seq<Counted>, why: string, at: Option<string>, polls: nat, ghost table: Table)
      returns (undone: Option<bool>, ghost c: Course)
      requires Distinct(services) && Names(services) <= desired.Keys && holds == Noted(table, services, why, at)
      modifies this
      ensures undone.Some? ==>
                && WentBack(old(desired), old(holds), desired, holds, services, why, c, undone.value)
                && var rows := if at.Some? then |services| else c.rows;
                   NoneHeld(holds, services, rows) <==> rows <= c.gave
      ensures undone == Some(true) ==> holds == ReleaseAll(table, services)
      ensures undone == Some(true) && c.read ==> desired == StartAll(old(desired), table, services)
      ensures !old(trouble) ==> (undone == None <==> !trouble)
      ensures undone == None ==>
                && holds == HoldAll(old(holds), services, why)
                && desired == StopAll(old(desired), services)
                && (forall k | 0 <= k < |services| :: services[k].0 in running && running[services[k].0] == 0)
                && (forall k | 0 <= k < |services| :: services[k].0 in holds)
      ensures SayWhere(holds, services, at, table)
    {
      NotedGivesTheSame(table, services, why, at);
      UndoneIsStart(desired, holds, table, services, 0);
      assert StopAll(desired, services[..0]) == desired;
      undone, c := StopOrUndo(services, why, polls);
      if undone.Some? && at.Some? { NotedNoneHeldIff(table, services, why, at.value, c.rows, c.gave); }
      NodesAfter(table, services, why, at, if undone.Some? then c.rows else |services|,
                 if undone.Some? then c.gave else 0);
    }

    /** The node noted, on rows of its own. */
    method Note(services: seq<Counted>, why: string, node: string) returns (ok: bool, ghost rows: nat, ghost notes: nat)
      requires Distinct(services)
      modifies this`holds, this`trouble
      ensures trouble == (old(trouble) || !ok)
      ensures ok ==> holds == Noted(old(holds), services, why, Some(node))
      ensures !ok ==>
                && LeftNoting(old(holds), holds, services, why, node, Course(rows, notes, 0, false, {}, 0))
                && (NoneHeld(holds, services, rows) <==> rows == 0)
    {
      assert services[..|services|] == services;
      var done := HoldServices(services, why);
      rows, notes := done, 0;
      if done < |services| {
        NoneHeldIff(old(holds), services, why, done, 0);
        return false, done, 0;
      }
      NoneHeldIff(old(holds), services, why, done, 0);
      ghost var held := holds;
      var noted := SetHoldNode(services, node);
      NotedNoneHeld(held, services, node, noted, done);
      ok, notes := noted == |services|, noted;
    }

    /** The services written by what is copied: what to start again after. `counted`: them and
        what Swarm ran of each. */
    method StopForCopy(names: seq<string>, volumes: string, orchestrated: bool, polls: nat)
      returns (r: Result<seq<Counted>, NotCopied>, ghost counted: seq<Counted>, ghost c: Course)
      requires forall j, k | 0 <= j < k < |names| :: names[j] != names[k]
      modifies this
      ensures (exists k | 0 <= k < |names| :: HeldOtherwise(old(holds), true, names[k])) ==> r.Err?
      ensures !old(trouble) && !trouble && orchestrated && r.Err? ==> r.error.Restoring?
      ensures r.Err? && !r.error.Undone? ==>
                desired == old(desired) && holds == old(holds) && running == old(running)
      ensures r.Err? && r.error.Undone? ==>
                && Reads(old(desired), names, counted)
                && WentBack(old(desired), old(holds), desired, holds, counted, COPY_HOLD + volumes, c,
                            r.error.startedAgain)
                && (NoneHeld(holds, counted, c.rows) <==> c.rows <= c.gave)
      ensures r.Err? && r.error == Undone(true) ==> holds == ReleaseAll(old(holds), counted)
      ensures r.Err? && r.error == Undone(true) && c.read ==> desired == StartAll(old(desired), old(holds), counted)
      ensures r.Ok? ==>
                && Reads(old(desired), names, r.value)
                && holds == HoldAll(old(holds), r.value, COPY_HOLD + volumes)
                && desired == StopAll(old(desired), r.value)
                && (forall k | 0 <= k < |names| :: names[k] in running && running[names[k]] == 0)
    {
      c, counted := NOWHERE, [];
      if names == [] { return Ok([]), [], c; }
      if !orchestrated { return Err(Unreadable), [], c; }
      for k := 0 to |names|
        invariant forall j | 0 <= j < k :: !HeldOtherwise(holds, true, names[j])
        invariant desired == old(desired) && holds == old(holds) && running == old(running) && trouble == old(trouble)
      {
        if * {
          trouble := true;
          return Err(Unreadable), [], c;
        }
        if names[k] in holds && !IsCopy(holds[names[k]].why) { return Err(Restoring(names[k])), [], c; }
      }
      var read := ReadCounts(names);
      if read == None { return Err(Unreadable), [], c; }
      var services := read.value;
      assert forall s | s in Names(services) :: s in names;
      var undone, c' := StopOrUndo(services, COPY_HOLD + volumes, polls);
      c, counted := c', services;
      if undone.Some? { return Err(Undone(undone.value)), services, c; }
      assert forall k | 0 <= k < |names| :: services[k].0 == names[k];
      r := Ok(services);
    }

    /** `start`, of one service whose hold says the count its caller does: `given`, whether it
        was scaled, `released`, whether its row went. */
    method StartOne(s: string, count: nat) returns (ok: bool, ghost given: bool, ghost released: bool)
      requires s in holds && holds[s].count == Some(count)
      modifies this`desired, this`holds, this`trouble
      ensures trouble == (old(trouble) || !ok)
      ensures desired == (if given && count > 0 then old(desired)[s := count] else old(desired))
      ensures holds == (if released then old(holds) - {s} else old(holds))
      ensures ok <==> given && released
      ensures count == 0 ==> given
    {
      ghost var before, counts := holds, desired;
      var one := [(s, count)];
      ghost var read, failed, done;
      ok, read, failed, done := Start(one);
      ghost var seen: Table := if read then before else map[];
      assert StartFrom(counts, seen, one, failed, 1) == counts;
      assert GiveBack(Row(seen, s), count) == count;
      assert one[..1] == one && one[..0] == [];
      NamesButLast(one);
      assert Names([]) == {} && Names(one) == {s};
      given, released := 0 !in failed, done == 1;
      assert failed <= {0};
    }

    /** The `k`th row; `table` and `counts`: as they were before any. */
    method RestartNext(found: seq<Counted>, k: nat, ghost table: Table, ghost counts: Counts)
      returns (ok: bool, ghost given: bool, ghost released: bool)
      requires FoundByDaemon(table, found) && k < |found|
      requires holds == ReleaseAll(table, found[..k]) && desired == GiveAll(counts, found[..k])
      modifies this`desired, this`holds, this`trouble
      ensures trouble == (old(trouble) || !ok)
      ensures (ok <==> given && released) && (found[k].1 == 0 ==> given)
      ensures desired == GiveAll(counts, found[..k + if given then 1 else 0])
      ensures holds == ReleaseAll(table, found[..k + if released then 1 else 0])
    {
      var (s, count) := found[k];
      FoundNext(table, found, k);
      GivenNext(counts, found, k);
      ok, given, released := StartOne(s, count);
    }

    /** One row after another, until one fails. */
    method RestartFound(found: seq<Counted>) returns (ok: bool, started: nat, ghost given: bool, ghost released: bool)
      requires FoundByDaemon(holds, found)
      modifies this`desired, this`holds, this`trouble
      ensures RestartAnswers(found, ok, started, given, released)
      ensures trouble == (old(trouble) || !ok)
      ensures desired == GiveAll(old(desired), found[..started + if !ok && given then 1 else 0])
      ensures holds == ReleaseAll(old(holds), found[..started + if !ok && released then 1 else 0])
    {
      started, given, released := 0, true, false;
      ghost var table, counts := holds, desired;
      assert found[..0] == [] && Names([]) == {};
      while started < |found|
        invariant started <= |found| && trouble == old(trouble)
        invariant holds == ReleaseAll(table, found[..started])
        invariant desired == GiveAll(counts, found[..started])
      {
        ok, given, released := RestartNext(found, started, table, counts);
        if !ok { return; }
        started := started + 1;
      }
      ok := true;
    }

    /** `found`: the rows of copies that say a count, as they were read. `given`, `released`:
        how far the one that failed came. */
    method RestartInterruptedCopies(found: seq<Counted>)
      returns (ok: bool, started: nat, ghost given: bool, ghost released: bool)
      requires FoundByDaemon(holds, found)
      modifies this
      ensures RestartAnswers(found, ok, started, given, released)
      ensures trouble == (old(trouble) || !ok)
      // Each count recorded is given back, whether `start` could read the holds again or not,
      // and its hold released; of the one that failed, one of the two at most.
      ensures desired == GiveAll(old(desired), found[..started + if !ok && given then 1 else 0])
      ensures holds == ReleaseAll(old(holds), found[..started + if !ok && released then 1 else 0])
      // No copy that says a count is left holding anything, and every other hold stays.
      ensures ok ==> forall s | s in holds :: holds[s].count.Some? ==> !IsCopy(holds[s].why)
      ensures holds - Names(found) == old(holds) - Names(found)
      ensures desired - Names(found) == old(desired) - Names(found) && Given(desired, found, started)
    {
      ok, started, given, released := RestartFound(found);
      AllGiven(old(desired), found, started + if !ok && given then 1 else 0);
      SomeReleased(old(holds), found, started + if !ok && released then 1 else 0);
      assert found[..|found|] == found;
    }
  }

  /** All of them, or those before the one that failed: not both scaled and released. */
  predicate RestartAnswers(found: seq<Counted>, ok: bool, started: nat, given: bool, released: bool) {
    if ok then started == |found|
    else started < |found| && !(given && released) && (found[started].1 == 0 ==> given)
  }

  /** The first of `found` run what their holds said, those that said something. */
  function GiveAll(desired: Counts, found: seq<Counted>): Counts
    decreases |found|
  {
    if found == [] then desired
    else
      var n := |found| - 1;
      var rest := GiveAll(desired, found[..n]);
      if found[n].1 > 0 then rest[found[n].0 := found[n].1] else rest
  }

  lemma GivenNext(desired: Counts, found: seq<Counted>, k: nat)
    requires k < |found|
    ensures GiveAll(desired, found[..k + 1])
            == var rest := GiveAll(desired, found[..k]);
               if found[k].1 > 0 then rest[found[k].0 := found[k].1] else rest
  {
    assert found[..k + 1][..k] == found[..k];
  }

  lemma SomeReleased(holds: Table, found: seq<Counted>, n: nat)
    requires n <= |found|
    ensures ReleaseAll(holds, found[..n]) - Names(found) == holds - Names(found)
  {
    forall s | s in Names(found[..n]) ensures s in Names(found) {
      var k :| 0 <= k < n && found[..n][k].0 == s;
      assert found[k].0 in Names(found);
    }
  }

  lemma {:induction false} AllGiven(desired: Counts, found: seq<Counted>, n: nat)
    requires n <= |found| && Distinct(found)
    ensures Given(GiveAll(desired, found[..n]), found, n)
    ensures GiveAll(desired, found[..n]) - Names(found) == desired - Names(found)
    decreases n
  {
    if n > 0 {
      AllGiven(desired, found, n - 1);
      GivenNext(desired, found, n - 1);
      assert found[n - 1].0 in Names(found);
    }
  }

  /** The first `n` of `found` run what their holds said, those that said something. */
  predicate Given(desired: Counts, found: seq<Counted>, n: nat)
    requires n <= |found|
  {
    forall k | 0 <= k < n && found[k].1 > 0 :: found[k].0 in desired && desired[found[k].0] == found[k].1
  }

  /** The next row found is still there once those before it are released. */
  lemma FoundNext(holds: Table, found: seq<Counted>, k: nat)
    requires FoundByDaemon(holds, found) && k < |found|
    ensures var (s, count) := found[k];
            var left := ReleaseAll(holds, found[..k]);
            && s in Names(found) && s in left && left[s].count == Some(count)
            && left - {s} == ReleaseAll(holds, found[..k + 1])
            && Names(found[..k]) <= Names(found)
  {
    var upTo := found[..k + 1];
    assert upTo[..k] == found[..k] && upTo[k] == found[k];
    assert forall j | 0 <= j <= k :: upTo[j] == found[j];
    NamesButLast(upTo);
  }

  /** The services of `names` and what Swarm is asked to run of each. */
  predicate Reads(desired: Counts, names: seq<string>, services: seq<Counted>) {
    |services| == |names|
    && forall k | 0 <= k < |names| :: names[k] in desired && services[k] == (names[k], desired[names[k]])
  }

  /** The holds once the node is noted, when one is. */
  function Noted(holds: Table, services: seq<Counted>, why: string, at: Option<string>): Table {
    match at
    case None => holds
    case Some(node) => NoteAll(HoldAll(holds, services, why), services, node)
  }

  /** What a failed note leaves: the rows recorded, all of them once one is noted, not all
      noted. */
  predicate LeftNoting(holds: Table, left: Table, services: seq<Counted>, why: string, node: string, c: Course) {
    && c.rows <= |services| && c.noted < |services| && (c.noted > 0 ==> c.rows == |services|)
    && left == NoteAll(HoldAll(holds, services[..c.rows], why), services[..c.noted], node)
  }

  /** Of the first `rows` services recorded and the first `gave` released, none is held exactly
      when no row was recorded past those released. */
  lemma ReleasedHeldIff(held: Table, services: seq<Counted>, rows: nat, gave: nat)
    requires Distinct(services) && rows <= |services| && gave <= |services|
    requires forall k | 0 <= k < rows :: services[k].0 in held
    ensures NoneHeld(ReleaseAll(held, services[..gave]), services, rows) <==> rows <= gave
  {
    var released := services[..gave];
    assert forall j | 0 <= j < gave :: released[j] == services[j];
    if rows <= gave {
      forall k | 0 <= k < rows ensures services[k].0 !in ReleaseAll(held, released) {
        assert released[k].0 in Names(released);
      }
    } else {
      assert services[gave].0 !in Names(released);
    }
  }

  lemma NoneHeldIff(holds: Table, services: seq<Counted>, why: string, rows: nat, gave: nat)
    requires Distinct(services) && rows <= |services| && gave <= |services|
    ensures NoneHeld(ReleaseAll(HoldAll(holds, services[..rows], why), services[..gave]), services, rows)
            <==> rows <= gave
    ensures gave == 0 ==> (NoneHeld(HoldAll(holds, services[..rows], why), services, rows) <==> rows == 0)
  {
    var before := services[..rows];
    assert forall j | 0 <= j < rows :: before[j] == services[j];
    forall k | 0 <= k < rows ensures services[k].0 in HoldAll(holds, before, why) {
      HoldAllAt(holds, before, why, services[k].0);
      assert before[k].0 in Names(before);
    }
    ReleasedHeldIff(HoldAll(holds, before, why), services, rows, gave);
    assert services[..0] == [] && ReleaseAll(HoldAll(holds, before, why), []) == HoldAll(holds, before, why);
  }

  /** Noting holds and frees nothing. */
  lemma NotedNoneHeld(held: Table, services: seq<Counted>, node: string, notes: nat, rows: nat)
    requires notes <= |services| && rows <= |services|
    ensures NoneHeld(NoteAll(held, services[..notes], node), services, rows) <==> NoneHeld(held, services, rows)
  {
    forall k | 0 <= k < rows
      ensures services[k].0 in NoteAll(held, services[..notes], node) <==> services[k].0 in held
    {
      NoteAllAt(held, services[..notes], node, services[k].0);
    }
  }

  lemma NotedNoneHeldIff(holds: Table, services: seq<Counted>, why: string, node: string, rows: nat, gave: nat)
    requires Distinct(services) && rows <= |services| && gave <= |services|
    ensures var held := HoldAll(Noted(holds, services, why, Some(node)), services[..rows], why);
            NoneHeld(ReleaseAll(held, services[..gave]), services, |services|) <==> |services| <= gave
  {
    var noted := Noted(holds, services, why, Some(node));
    var before := services[..rows];
    assert forall j | 0 <= j < rows :: before[j] == services[j];
    forall k | 0 <= k < |services| ensures services[k].0 in HoldAll(noted, before, why) {
      HoldAllAt(holds, services, why, services[k].0);
      NoteAllAt(HoldAll(holds, services, why), services, node, services[k].0);
      HoldAllAt(noted, before, why, services[k].0);
      assert services[k].0 in Names(services);
    }
    ReleasedHeldIff(HoldAll(noted, before, why), services, |services|, gave);
  }

  /** The rows say where the volume to be written is; what they said before, when none is. */
  predicate SayWhere(left: Table, services: seq<Counted>, at: Option<string>, before: Table) {
    forall k | 0 <= k < |services| && services[k].0 in left ::
      left[services[k].0].node == if at.Some? then at else NodeOf(before, services[k].0)
  }

  /** Noted, held and then released as far as it went, what is left says the node noted, and
      what it said before when none is. */
  lemma NodesAfter(holds: Table, services: seq<Counted>, why: string, at: Option<string>, rows: nat, gave: nat)
    requires Distinct(services) && rows <= |services| && gave <= |services|
    ensures var held := HoldAll(Noted(holds, services, why, at), services[..rows], why);
            var left := ReleaseAll(held, services[..gave]);
            && (gave == 0 ==> left == held)
            && (rows == |services| ==>
                  services[..rows] == services && forall k | 0 <= k < rows :: services[k].0 in held)
            && SayWhere(left, services, at, holds)
  {
    var noted := Noted(holds, services, why, at);
    var before := services[..rows];
    var held := HoldAll(noted, before, why);
    assert forall j | 0 <= j < rows :: before[j] == services[j];
    assert services[..0] == [];
    forall k | 0 <= k < |services|
      ensures NodeOf(held, services[k].0) == if at.Some? then at else NodeOf(holds, services[k].0)
      ensures k < rows ==> services[k].0 in held
    {
      if at.Some? { NotedSaysTheNode(holds, services, why, at.value, k); }
      HeldSaysTheSameNode(noted, services, rows, why, services[k].0);
      HoldAllAt(noted, before, why, services[k].0);
      if k < rows { assert before[k].0 in Names(before); }
    }
  }

  /** The counts an undone begin leaves, service by service: given back, or left down where it
      had got to, or as they were. */
  lemma WentBackAt(counts: Counts, table: Table, desired: Counts, holds: Table, services: seq<Counted>, why: string,
                   c: Course, startedAgain: bool, k: nat)
    requires Distinct(services) && Names(services) <= counts.Keys && k < |services|
    requires WentBack(counts, table, desired, holds, services, why, c, startedAgain)
    ensures var (s, caller) := services[k];
            var n := GiveBack(if c.read then Row(table, s) else None, caller);
            && s in counts && s in desired
            && desired[s] == (if n > 0 && k !in c.failed then n
                              else if k < c.down && caller > 0 then 0
                              else counts[s])
            && (s in holds <==> (k < c.rows || s in table) && c.gave <= k)
  {
    var (s, _) := services[k];
    var held, stopped := services[..c.rows], services[..c.down];
    assert forall j | 0 <= j < c.rows :: held[j] == services[j];
    assert forall j | 0 <= j < c.down :: stopped[j] == services[j];
    assert s in Names(services);
    StopKeys(counts, stopped);
    StopAllAt(counts, stopped, s);
    HoldAllAt(table, held, why, s);
    HeldGivesBackTheSame(table, services, c.rows, why);
    var seen := if c.read then HoldAll(table, held, why) else map[];
    StartFromAt(StopAll(counts, stopped), seen, services, c.failed, 0, s);
    if k < c.down { assert stopped[k].0 == s; }
    WentBackHolds(table, services, why, c.rows, c.gave, k);
  }

  lemma WentBackHolds(table: Table, services: seq<Counted>, why: string, rows: nat, gave: nat, k: nat)
    requires Distinct(services) && rows <= |services| && gave <= |services| && k < |services|
    ensures var s := services[k].0;
            s in ReleaseAll(HoldAll(table, services[..rows], why), services[..gave])
            <==> (k < rows || s in table) && gave <= k
  {
    var held, given, s := services[..rows], services[..gave], services[k].0;
    assert forall j | 0 <= j < rows :: held[j] == services[j];
    assert forall j | 0 <= j < gave :: given[j] == services[j];
    HoldAllAt(table, held, why, s);
    if k < rows { assert held[k].0 == s; }
    if k < gave { assert given[k].0 == s; }
  }

  lemma NotedGivesTheSame(holds: Table, services: seq<Counted>, why: string, at: Option<string>)
    requires Distinct(services)
    ensures SameToGive(Noted(holds, services, why, at), holds, services)
    ensures ReleaseAll(Noted(holds, services, why, at), services) == ReleaseAll(holds, services)
  {
    assert services[..|services|] == services;
    if at.Some? {
      var held := HoldAll(holds, services, why);
      HeldGivesBackTheSame(holds, services, |services|, why);
      NotedGivesBackTheSame(held, services, at.value);
      forall s ensures (s in NoteAll(held, services, at.value)) == (s in held)
        ensures s in held && s !in Names(services) ==> NoteAll(held, services, at.value)[s] == held[s]
      {
        NoteAllAt(held, services, at.value, s);
      }
      HeldThenReleased(holds, services, |services|, why);
      HeldAreReleased(NoteAll(held, services, at.value), held, services);
    }
  }

  lemma HeldThenReleased(holds: Table, services: seq<Counted>, m: nat, why: string)
    requires Distinct(services) && m <= |services|
    ensures ReleaseAll(HoldAll(holds, services[..m], why), services) == ReleaseAll(holds, services)
  {
    var held := HoldAll(holds, services[..m], why);
    assert forall j | 0 <= j < m :: services[..m][j] == services[j];
    forall s
      ensures (s in held) ==> (s in holds || s in Names(services))
      ensures s in holds ==> s in held && (s !in Names(services) ==> held[s] == holds[s])
    {
      HoldAllAt(holds, services[..m], why, s);
    }
    HeldAreReleased(held, holds, services);
  }

  /** A failed begin leaves every count as it was exactly when each service it scaled up again
      stood at what it was given, and each it left down stood at 0. */
  lemma WentBackLeavesCountsIff(counts: Counts, table: Table, desired: Counts, holds: Table, services: seq<Counted>,
                                why: string, c: Course, startedAgain: bool)
    requires Distinct(services) && Names(services) <= counts.Keys
    requires WentBack(counts, table, desired, holds, services, why, c, startedAgain)
    ensures desired == counts <==> forall k | 0 <= k < |services| :: BackAsItWas(counts, table, services, c, k)
  {
    forall k | 0 <= k < |services|
      ensures services[k].0 in counts && services[k].0 in desired
      ensures desired[services[k].0] == counts[services[k].0] <==> BackAsItWas(counts, table, services, c, k)
    {
      WentBackAt(counts, table, desired, holds, services, why, c, startedAgain, k);
    }
    if forall k | 0 <= k < |services| :: BackAsItWas(counts, table, services, c, k) {
      forall s | s in counts ensures s in desired && desired[s] == counts[s] {
        if k :| 0 <= k < |services| && services[k].0 == s {
          assert BackAsItWas(counts, table, services, c, k);
        } else {
          OthersAsTheyWere(counts, table, desired, holds, services, why, c, startedAgain, s);
        }
      }
      StartKeysOf(counts, table, desired, holds, services, why, c, startedAgain);
    }
  }

  /** The `k`th service: given back what it ran, or left at the 0 it was at, or not moved. */
  predicate BackAsItWas(counts: Counts, table: Table, services: seq<Counted>, c: Course, k: nat)
    requires k < |services|
  {
    var (s, caller) := services[k];
    var n := GiveBack(if c.read then Row(table, s) else None, caller);
    s in counts
    && if n > 0 && k !in c.failed then counts[s] == n else k < c.down && caller > 0 ==> counts[s] == 0
  }

  lemma FirstOnes(services: seq<Counted>, n: nat)
    requires n <= |services|
    ensures Names(services[..n]) <= Names(services)
    ensures Distinct(services) ==> Distinct(services[..n])
  {
    forall s | s in Names(services[..n]) ensures s in Names(services) {
      var k :| 0 <= k < n && services[..n][k].0 == s;
      assert services[k].0 in Names(services);
    }
  }

  lemma OthersAsTheyWere(counts: Counts, table: Table, desired: Counts, holds: Table, services: seq<Counted>,
                         why: string, c: Course, startedAgain: bool, s: string)
    requires Distinct(services) && Names(services) <= counts.Keys && s in counts
    requires WentBack(counts, table, desired, holds, services, why, c, startedAgain)
    requires forall k | 0 <= k < |services| :: services[k].0 != s
    ensures s in desired && desired[s] == counts[s]
  {
    var stopped := services[..c.down];
    var seen := if c.read then HoldAll(table, services[..c.rows], why) else map[];
    FirstOnes(services, c.down);
    StopKeys(counts, stopped);
    StopAllAt(counts, stopped, s);
    assert s !in Names(services);
    StartFromAt(StopAll(counts, stopped), seen, services, c.failed, 0, s);
  }

  lemma StartKeysOf(counts: Counts, table: Table, desired: Counts, holds: Table, services: seq<Counted>,
                    why: string, c: Course, startedAgain: bool)
    requires Distinct(services) && Names(services) <= counts.Keys
    requires WentBack(counts, table, desired, holds, services, why, c, startedAgain)
    ensures desired.Keys == counts.Keys
  {
    var stopped := services[..c.down];
    FirstOnes(services, c.down);
    StopKeys(counts, stopped);
    StartKeys(StopAll(counts, stopped), if c.read then HoldAll(table, services[..c.rows], why) else map[], services,
              c.failed, 0);
  }

  /** A service not reached yet changes nothing of what was started after it. */
  lemma {:induction false} FailedBelowFrom(desired: Counts, seen: Table, services: seq<Counted>, failed: set<nat>,
                                           i: nat, j: nat)
    requires i < j <= |services|
    ensures StartFrom(desired, seen, services, failed + {i}, j) == StartFrom(desired, seen, services, failed, j)
    decreases |services| - j
  {
    if j < |services| { FailedBelowFrom(desired, seen, services, failed, i, j + 1); }
  }

  lemma FailedBelow(desired: Counts, seen: Table, services: seq<Counted>, failed: set<nat>, i: nat)
    requires i < |services|
    ensures StartFrom(desired, seen, services, failed + {i}, i) == StartFrom(desired, seen, services, failed, i + 1)
  {
    FailedBelowFrom(desired, seen, services, failed, i, i + 1);
  }
}
