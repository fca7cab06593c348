/** Copies, restores, daemon starts and reconciliations, each a process that may die between
    any two calls, over one Swarm and one table of holds. */
module HoldProtocol {
  import opened Wrappers
  import opened Holds

  datatype Kind = Copy | Restore | Restart

  /** Where a process stands. An index counts the services dealt with: from the first while
      stopping and releasing, from the last while starting. */
  datatype Phase =
    /** What holds its services has been read; nothing is written. */
    | Checked
    /** `noting`: the hold taken to note a node, before `stop` takes its own. */
    | Holding(i: nat, noting: bool)
    | Noting(i: nat)
    | Stopping(i: nat)
    | Waiting(i: nat)
    /** Copying, or writing the volume. */
    | Working
    /** `start` begins by reading the holds. */
    | Reading
    /** `seen` is what it read; `None`: they could not be read. */
    | Starting(i: nat, seen: Option<Table>)
    | Releasing(i: nat)

  datatype Proc = Proc(
    kind: Kind,
    why: string,
    services: seq<Counted>,
    /** Where the volume written lives, when one is. */
    node: Option<string>,
    /** Every row was written once: what others read says who holds the services. */
    allHeld: bool,
    /** A scale-up failed: `start` answers an error. */
    failed: bool,
    /** What a daemon start has left to start, after `services`. */
    queue: seq<Counted>,
    phase: Phase)

  /** One pass of reconciliation: what it listed, and the services it found unheld and off
      their count, to be corrected; nothing more is looked at once it corrects. */
  datatype Round = Round(listed: map<string, nat>, noted: set<string>, looking: bool)

  datatype State = State(
    desired: map<string, nat>,
    running: map<string, nat>,
    holds: Table,
    procs: map<nat, Proc>,
    /** Reconciliations under way: the daemon's, and any run by hand. */
    rounds: map<nat, Round>,
    /** Services whose scale-up failed, or that `start` left at the 0 its caller read because
        it could not read the holds. */
    excused: set<string>)

  datatype Action =
    | Check(p: nat, kind: Kind, why: string, services: seq<Counted>, node: Option<string>)
    | Daemon(p: nat, found: seq<Counted>)
    /** The phase is done: on to the next. */
    | Advance(p: nat)
    /** The next service of the phase. */
    | Act(p: nat)
    | ReadHolds(p: nat, ok: bool)
    | ScaleUp(p: nat, ok: bool)
    /** The call answers an error, or the wait is too long. */
    | Fail(p: nat)
    | Crash(p: nat)
    /** Reconciliation lists the services, with what is asked of each. */
    | List(r: nat)
    /** It reads that nothing holds one it listed off its count. */
    | Look(r: nat, s: string)
    /** And scales it, whatever holds it by then. */
    | Correct(r: nat, s: string, ok: bool)
    /** The round is over, or its process is. */
    | Leave(r: nat)
    /** Swarm starts or stops tasks. */
    | Tasks(s: string, n: nat)

  function Names(services: seq<Counted>): set<string> {
    set k | 0 <= k < |services| :: services[k].0
  }

  predicate Distinct(services: seq<Counted>) {
    forall j, k | 0 <= j < k < |services| :: services[j].0 != services[k].0
  }

  /** The counts a caller can have read: a service runs its own or none. */
  predicate Readable(orig: map<string, nat>, services: seq<Counted>) {
    forall k | 0 <= k < |services| :: services[k].0 in orig && services[k].1 in {0, orig[services[k].0]}
  }

  /** `why` is a copy's exactly for a copy. */
  predicate SaysItsKind(kind: Kind, why: string) {
    kind != Restart && (kind == Copy <==> IsCopy(why))
  }

  /** What `stop_for_copy` and `stop_for_restore` look for before they write anything. */
  predicate Free(holds: Table, kind: Kind, services: seq<Counted>) {
    forall k | 0 <= k < |services| :: services[k].0 in holds ==>
      (kind == Copy <==> IsCopy(holds[services[k].0].why))
  }

  predicate FoundByDaemon(holds: Table, found: seq<Counted>) {
    && Distinct(found)
    && (forall k | 0 <= k < |found| :: found[k].0 in holds
          && IsCopy(holds[found[k].0].why) && holds[found[k].0].count == Some(found[k].1))
    && (forall s | s in holds && IsCopy(holds[s].why) && holds[s].count.Some? :: s in Names(found))
  }

  predicate Enabled(orig: map<string, nat>, st: State, a: Action) {
    match a
    case Check(p, kind, why, services, node) =>
      && p !in st.procs && SaysItsKind(kind, why) && (node.Some? ==> kind == Restore)
      && Distinct(services) && Readable(orig, services) && Free(st.holds, kind, services)
    case Daemon(p, found) =>
      p !in st.procs && found != [] && FoundByDaemon(st.holds, found)
    case Advance(p) => p in st.procs && PhaseDone(st.procs[p])
    case Act(p) => p in st.procs && CanAct(st, st.procs[p])
    case ReadHolds(p, _) => p in st.procs && st.procs[p].phase.Reading?
    case ScaleUp(p, _) =>
      p in st.procs && st.procs[p].phase.Starting? && 0 < st.procs[p].phase.i <= |st.procs[p].services|
    case Fail(p) => p in st.procs && CanFail(st.procs[p])
    case Crash(p) => p in st.procs
    case List(r) => r !in st.rounds
    case Look(r, s) =>
      && r in st.rounds && st.rounds[r].looking && s in orig && s !in st.holds
      && s in st.rounds[r].listed && st.rounds[r].listed[s] != orig[s]
    case Correct(r, s, _) => r in st.rounds && s in st.rounds[r].noted && s in orig
    case Leave(r) => r in st.rounds
    case Tasks(s, n) => s in st.desired && s in st.running && n <= Max(st.running[s], st.desired[s])
  }

  predicate PhaseDone(q: Proc) {
    match q.phase
    case Checked => true
    case Holding(i, _) => i == |q.services|
    case Noting(i) => i == |q.services|
    case Stopping(i) => i == |q.services|
    case Waiting(i) => i == |q.services|
    case Working => true
    case Reading => false
    case Starting(i, _) => i == 0
    case Releasing(i) => i == |q.services|
  }

  predicate CanAct(st: State, q: Proc) {
    match q.phase
    case Holding(i, _) => i < |q.services|
    case Noting(i) => i < |q.services| && q.node.Some?
    case Stopping(i) => i < |q.services| && q.services[i].0 in st.desired
    case Waiting(i) => i < |q.services| && q.services[i].0 in st.running && st.running[q.services[i].0] == 0
    case Releasing(i) => i < |q.services|
    case _ => false
  }

  predicate CanFail(q: Proc) {
    match q.phase
    case Holding(i, _) => i < |q.services|
    case Noting(i) => i < |q.services|
    case Stopping(i) => i < |q.services| && q.services[i].1 > 0
    case Waiting(i) => i < |q.services|
    case Releasing(i) => i < |q.services|
    case _ => false
  }

  /** The process at its next phase; `None`: it is over. */
  function Next(q: Proc): Option<Proc> {
    match q.phase
    case Checked => Some(q.(phase := Holding(0, q.node.Some?)))
    case Holding(_, true) => Some(q.(allHeld := true, phase := Noting(0)))
    case Noting(_) => Some(q.(phase := Holding(0, false)))
    case Holding(_, false) => Some(q.(allHeld := true, phase := Stopping(0)))
    case Stopping(_) => Some(q.(phase := Waiting(0)))
    case Waiting(_) => Some(q.(phase := Working))
    case Working => Some(q.(phase := Reading))
    case Reading => Some(q)
    case Starting(_, _) => Some(q.(phase := Releasing(0)))
    case Releasing(_) =>
      if q.queue == [] || q.failed then None
      else Some(q.(services := [q.queue[0]], queue := q.queue[1..], phase := Reading))
  }

  /** After an error: a hold taken to note a node is left as it is, and so is a release cut
      short; every other stop is undone by `start`. */
  function AfterFailure(q: Proc): Option<Proc> {
    match q.phase
    case Holding(_, true) => None
    case Noting(_) => None
    case Releasing(_) => None
    case _ => Some(q.(phase := Reading))
  }

  function Put(st: State, p: nat, q: Option<Proc>): State {
    st.(procs := if q.None? then st.procs - {p} else st.procs[p := q.value])
  }

  function Onward(phase: Phase): Phase {
    match phase
    case Holding(i, noting) => Holding(i + 1, noting)
    case Noting(i) => Noting(i + 1)
    case Stopping(i) => Stopping(i + 1)
    case Waiting(i) => Waiting(i + 1)
    case Releasing(i) => Releasing(i + 1)
    case _ => phase
  }

  function Acted(st: State, p: nat, q: Proc): State
    requires CanAct(st, q)
  {
    var (s, count) := q.services[q.phase.i];
    var after := Put(st, p, Some(q.(phase := Onward(q.phase))));
    match q.phase
    case Holding(_, _) => after.(holds := HoldRow(st.holds, s, count, q.why))
    case Noting(_) => after.(holds := NoteRow(st.holds, s, q.node.value))
    case Stopping(_) => if count > 0 then after.(desired := st.desired[s := 0]) else after
    case Waiting(_) => after
    case Releasing(_) => after.(holds := ReleaseRow(st.holds, s))
  }

  /** What `start` finds recorded about `s`; nothing, when the holds could not be read. */
  function Seen(seen: Option<Table>, s: string): Option<Hold> {
    if seen.None? then None else Row(seen.value, s)
  }

  function ScaledUp(st: State, p: nat, q: Proc, ok: bool): State
    requires q.phase.Starting? && 0 < q.phase.i <= |q.services|
  {
    var i := q.phase.i - 1;
    var (s, caller) := q.services[i];
    var n := GiveBack(Seen(q.phase.seen, s), caller);
    Put(st, p, Some(q.(failed := q.failed || (n > 0 && !ok), phase := Starting(i, q.phase.seen))))
      .(desired := if n > 0 && ok then st.desired[s := n] else st.desired,
        excused :=
          if n > 0 then if ok then st.excused - {s} else st.excused + {s}
          else if q.phase.seen.None? then st.excused + {s} else st.excused)
  }

  function Corrected(orig: map<string, nat>, st: State, r: nat, s: string, ok: bool): State
    requires r in st.rounds && s in orig
  {
    var round := st.rounds[r];
    var after := st.(rounds := st.rounds[r := round.(noted := round.noted - {s}, looking := false)]);
    if ok then after.(desired := st.desired[s := orig[s]], excused := st.excused - {s}) else after
  }

  function Apply(orig: map<string, nat>, st: State, a: Action): State
    requires Enabled(orig, st, a)
  {
    match a
    case Check(p, kind, why, services, node) =>
      Put(st, p, Some(Proc(kind, why, services, node, false, false, [], Checked)))
    case Daemon(p, found) =>
      Put(st, p, Some(Proc(Restart, "", [found[0]], None, true, false, found[1..], Reading)))
    case Advance(p) => Put(st, p, Next(st.procs[p]))
    case Act(p) => Acted(st, p, st.procs[p])
    case ReadHolds(p, ok) =>
      var q := st.procs[p];
      Put(st, p, Some(q.(phase := Starting(|q.services|, if ok then Some(st.holds) else None))))
    case ScaleUp(p, ok) => ScaledUp(st, p, st.procs[p], ok)
    case Fail(p) => Put(st, p, AfterFailure(st.procs[p]))
    case Crash(p) => Put(st, p, None)
    case List(r) => st.(rounds := st.rounds[r := Round(st.desired, {}, true)])
    case Look(r, s) => st.(rounds := st.rounds[r := st.rounds[r].(noted := st.rounds[r].noted + {s})])
    case Correct(r, s, ok) => Corrected(orig, st, r, s, ok)
    case Leave(r) => st.(rounds := st.rounds - {r})
    case Tasks(s, n) => st.(running := st.running[s := n])
  }

  /** Every service at its own count, nothing held, nobody at work. */
  ghost predicate Init(orig: map<string, nat>, st: State) {
    && st.desired == orig && st.running.Keys == orig.Keys && st.holds == map[]
    && st.procs == map[] && st.rounds == map[] && st.excused == {}
  }

  // ---- Who may begin when ------------------------------------------------------

  /** The services a live process may still write about. */
  function Owned(q: Proc): set<string> {
    Names(if q.phase.Releasing? && q.phase.i <= |q.services| then q.services[q.phase.i..] else q.services)
    + Names(q.queue)
  }

  /** Copies and daemon starts start services alike. */
  predicate SameFamily(a: Kind, b: Kind) {
    (a == Restore) == (b == Restore)
  }

  /** Nothing begins on a service that a process of its own family has, or that one still
      recording its holds has: at most one copy and one restore at a time on it, and a check
      and the holds it is for taken as one step. */
  predicate Disciplined(st: State, a: Action) {
    match a
    case Check(_, kind, _, services, _) => Apart(st, kind, Names(services))
    case Daemon(_, found) => Apart(st, Restart, Names(found))
    case _ => true
  }

  predicate Apart(st: State, kind: Kind, services: set<string>) {
    forall p | p in st.procs && (SameFamily(st.procs[p].kind, kind) || !st.procs[p].allHeld) ::
      services !! Owned(st.procs[p])
  }

  /** The states a list of actions goes through, when each is enabled in turn. */
  predicate Runs(orig: map<string, nat>, st: State, actions: seq<Action>, disciplined: bool)
    decreases |actions|
  {
    actions == [] || (Enabled(orig, st, actions[0]) && (disciplined ==> Disciplined(st, actions[0]))
                      && Runs(orig, Apply(orig, st, actions[0]), actions[1..], disciplined))
  }

  function After(orig: map<string, nat>, st: State, actions: seq<Action>): State
    requires Runs(orig, st, actions, false)
    decreases |actions|
  {
    if actions == [] then st else After(orig, Apply(orig, st, actions[0]), actions[1..])
  }
}
