/** What every disciplined run of copies, restores, crashes, daemon starts and
    reconciliations keeps. */
module HoldSafety {
  import opened Wrappers
  import opened Holds
  import opened HoldProtocol

  // ---- One service -------------------------------------------------------------

  datatype View = View(desired: nat, running: nat, hold: Option<Hold>, excused: bool)

  predicate Keyed(orig: map<string, nat>, st: State) {
    st.desired.Keys == orig.Keys && st.running.Keys == orig.Keys
  }

  function ViewOf(orig: map<string, nat>, st: State, s: string): View
    requires Keyed(orig, st) && s in orig
  {
    View(st.desired[s], st.running[s], Row(st.holds, s), s in st.excused)
  }

  /** Below its own count, a service is held, and its hold records that count. */
  predicate NotLost(own: nat, v: View) {
    && v.desired in {0, own}
    && (v.hold.Some? ==> v.hold.value.count in {Some(0), Some(own)})
    && (v.desired < own ==> v.excused || (v.hold.Some? && v.hold.value.count == Some(own)))
  }

  predicate HeldBy(kind: Kind, count: nat, v: View) {
    && v.hold.Some? && v.hold.value.count.Some? && v.hold.value.count.value >= count
    && (kind == Restore <==> !IsCopy(v.hold.value.why))
  }

  predicate Back(own: nat, v: View) {
    v.desired == own || v.excused
  }

  /** The row of the `k`th service says where the volume is, when one is written. */
  predicate SaysWhere(v: View, q: Proc, k: nat) {
    q.node.Some? && NotedBy(q.phase, k) ==> v.hold.Some? && v.hold.value.node == q.node
  }

  /** The node of the `k`th service is noted. */
  predicate NotedBy(phase: Phase, k: nat) {
    match phase
    case Checked => false
    case Holding(_, noting) => !noting
    case Noting(i) => k < i
    case _ => true
  }

  /** What a process knows of its `k`th service. */
  predicate Knows(own: nat, v: View, q: Proc, k: nat)
    requires k < |q.services|
  {
    var count := q.services[k].1;
    && (q.allHeld ==> HeldBy(q.kind, count, v))
    && SaysWhere(v, q, k)
    && match q.phase
       case Checked => true
       case Holding(i, _) => k < i ==> HeldBy(q.kind, count, v)
       case Noting(_) => true
       case Stopping(_) => true
       case Waiting(_) => true
       case Working => true
       case Reading => true
       case Starting(i, seen) =>
         && (k < i && seen.Some? ==> Row(seen.value, q.services[k].0) == v.hold)
         && (i <= k ==> Back(own, v))
       case Releasing(_) => Back(own, v)
  }

  // ---- One process -------------------------------------------------------------

  function Released(q: Proc): nat {
    if q.phase.Releasing? then q.phase.i else 0
  }

  predicate Shape(orig: map<string, nat>, q: Proc) {
    && Distinct(q.services) && Readable(orig, q.services)
    && Distinct(q.queue) && Readable(orig, q.queue) && Names(q.services) !! Names(q.queue)
    && (q.kind != Restart ==> SaysItsKind(q.kind, q.why) && q.queue == [])
    && (q.kind == Restart ==>
          q.allHeld && q.node == None && (q.phase.Reading? || q.phase.Starting? || q.phase.Releasing?))
    && match q.phase
       case Checked => true
       case Holding(i, noting) => i <= |q.services| && (noting ==> q.node.Some?)
       case Noting(i) => i <= |q.services| && q.allHeld && q.node.Some?
       case Stopping(i) => i <= |q.services| && q.allHeld
       case Waiting(i) => i <= |q.services| && q.allHeld
       case Working => q.allHeld
       case Reading => true
       case Starting(i, _) => i <= |q.services|
       case Releasing(i) => i <= |q.services|
  }

  predicate Sound(orig: map<string, nat>, st: State, q: Proc)
    requires Keyed(orig, st)
  {
    && Shape(orig, q)
    && (forall k | Released(q) <= k < |q.services| ::
          Knows(orig[q.services[k].0], ViewOf(orig, st, q.services[k].0), q, k))
    && (forall k | 0 <= k < |q.queue| ::
          HeldBy(q.kind, q.queue[k].1, ViewOf(orig, st, q.queue[k].0)))
  }

  ghost predicate Inv(orig: map<string, nat>, st: State) {
    && Keyed(orig, st)
    && (forall s | s in orig :: NotLost(orig[s], ViewOf(orig, st, s)))
    && st.holds.Keys <= orig.Keys
    && (forall p | p in st.procs :: Sound(orig, st, st.procs[p]))
    && (forall p, r | p in st.procs && r in st.procs && p != r :: Owned(st.procs[p]) !! Owned(st.procs[r]))
  }

  // ---- Framing -----------------------------------------------------------------

  lemma OwnedOf(q: Proc)
    requires Released(q) <= |q.services|
    ensures forall k | Released(q) <= k < |q.services| :: q.services[k].0 in Owned(q)
    ensures forall k | 0 <= k < |q.queue| :: q.queue[k].0 in Owned(q)
  {
    var rest := if q.phase.Releasing? then q.services[q.phase.i..] else q.services;
    forall k | Released(q) <= k < |q.services| ensures q.services[k].0 in Owned(q) {
      assert rest[k - Released(q)] == q.services[k];
    }
  }

  /** A process knows what it knew while nothing it owns changed. */
  lemma SoundIsFramed(orig: map<string, nat>, st: State, st': State, q: Proc)
    requires Keyed(orig, st) && Keyed(orig, st') && Sound(orig, st, q)
    requires forall s | s in orig && s in Owned(q) :: ViewOf(orig, st', s) == ViewOf(orig, st, s)
    ensures Sound(orig, st', q)
  {
    OwnedOf(q);
  }

  /** A step of one process, within what it owns, keeps the invariant. */
  lemma StepKeepsInv(orig: map<string, nat>, st: State, st': State, p: nat, next: Option<Proc>)
    requires Inv(orig, st) && p in st.procs && Keyed(orig, st')
    requires st'.procs == Put(st, p, next).procs && st'.holds.Keys <= orig.Keys
    requires forall s | s in orig && s !in Owned(st.procs[p]) :: ViewOf(orig, st', s) == ViewOf(orig, st, s)
    requires forall s | s in orig && s in Owned(st.procs[p]) :: NotLost(orig[s], ViewOf(orig, st', s))
    requires next.Some? ==> Sound(orig, st', next.value) && Owned(next.value) <= Owned(st.procs[p])
    ensures Inv(orig, st')
  {
    forall r | r in st'.procs ensures Sound(orig, st', st'.procs[r]) {
      if r != p { SoundIsFramed(orig, st, st', st.procs[r]); }
    }
  }

  // ---- A process's own steps ---------------------------------------------------

  lemma NamesOf(services: seq<Counted>, k: nat)
    requires k < |services|
    ensures services[k].0 in Names(services)
    ensures Names(services[k..]) <= Names(services) && Names(services[k + 1..]) <= Names(services[k..])
  {
    var here, rest := services[k..], services[k + 1..];
    forall j | 0 <= j < |here| ensures here[j].0 in Names(services) {
      assert here[j] == services[k + j];
    }
    forall j | 0 <= j < |rest| ensures rest[j].0 in Names(here) {
      assert rest[j] == here[j + 1];
    }
  }

  /** Nothing but the process changed, and it owns no more. */
  lemma QuietStep(orig: map<string, nat>, st: State, p: nat, next: Option<Proc>)
    requires Inv(orig, st) && p in st.procs
    requires next.Some? ==> Sound(orig, st, next.value) && Owned(next.value) <= Owned(st.procs[p])
    ensures Inv(orig, Put(st, p, next))
  {
    var st' := Put(st, p, next);
    assert forall s | s in orig :: ViewOf(orig, st', s) == ViewOf(orig, st, s);
    if next.Some? { SoundIsFramed(orig, st, st', next.value); }
    StepKeepsInv(orig, st, st', p, next);
  }

  /** The next phase asks nothing more of a service than the one that is done. */
  lemma NextKnows(own: nat, v: View, q: Proc, k: nat)
    requires k < |q.services| && Knows(own, v, q, k) && PhaseDone(q) && !q.phase.Releasing?
    requires Next(q).Some?
    ensures Knows(own, v, Next(q).value, k)
  {
  }

  lemma NextIsSound(orig: map<string, nat>, st: State, q: Proc)
    requires Keyed(orig, st) && Sound(orig, st, q) && PhaseDone(q) && !q.phase.Releasing?
    requires Next(q).Some?
    ensures Sound(orig, st, Next(q).value) && Owned(Next(q).value) <= Owned(q)
  {
    var next := Next(q).value;
    assert next.services == q.services && next.queue == q.queue && Released(q) == Released(next) == 0;
    assert q.services[0..] == q.services;
    assert Shape(orig, next);
    forall k | 0 <= k < |next.services|
      ensures Knows(orig[next.services[k].0], ViewOf(orig, st, next.services[k].0), next, k)
    {
      NextKnows(orig[q.services[k].0], ViewOf(orig, st, q.services[k].0), q, k);
    }
  }

  /** A daemon start goes from the service it started to the next one it found. */
  lemma NextFoundIsSound(orig: map<string, nat>, st: State, q: Proc)
    requires Keyed(orig, st) && Sound(orig, st, q) && q.phase.Releasing?
    requires Next(q).Some?
    ensures Sound(orig, st, Next(q).value) && Owned(Next(q).value) <= Owned(q)
  {
    var next := Next(q).value;
    NamesOf(q.queue, 0);
    assert next.services[0] == q.queue[0];
    assert forall j | 0 <= j < |next.queue| :: next.queue[j] == q.queue[j + 1];
    assert Shape(orig, next);
  }

  lemma AdvanceKeepsInv(orig: map<string, nat>, st: State, p: nat)
    requires Inv(orig, st) && Enabled(orig, st, Advance(p))
    ensures Inv(orig, Apply(orig, st, Advance(p)))
  {
    var q := st.procs[p];
    if Next(q).Some? {
      if q.phase.Releasing? { NextFoundIsSound(orig, st, q); } else { NextIsSound(orig, st, q); }
    }
    QuietStep(orig, st, p, Next(q));
  }

  lemma FailKeepsInv(orig: map<string, nat>, st: State, p: nat)
    requires Inv(orig, st) && Enabled(orig, st, Fail(p))
    ensures Inv(orig, Apply(orig, st, Fail(p)))
  {
    QuietStep(orig, st, p, AfterFailure(st.procs[p]));
  }

  lemma ReadHoldsKeepsInv(orig: map<string, nat>, st: State, p: nat, ok: bool)
    requires Inv(orig, st) && Enabled(orig, st, ReadHolds(p, ok))
    ensures Inv(orig, Apply(orig, st, ReadHolds(p, ok)))
  {
    var q := st.procs[p];
    QuietStep(orig, st, p, Some(q.(phase := Starting(|q.services|, if ok then Some(st.holds) else None))));
  }

  /** A step of `p` writing about its `i`th service. */
  predicate Writes(orig: map<string, nat>, st: State, st': State, p: nat, q: Proc, i: nat)
    requires Keyed(orig, st)
  {
    && p in st.procs && i < |st.procs[p].services| && st.procs[p].services[i].0 in orig
    && Keyed(orig, st') && st'.procs == st.procs[p := q]
    && st'.holds.Keys <= st.holds.Keys + {st.procs[p].services[i].0}
    && forall r | r in orig && r != st.procs[p].services[i].0 :: ViewOf(orig, st', r) == ViewOf(orig, st, r)
  }

  /** The process and what it works on, whatever it has done. */
  predicate SameWork(q: Proc, q': Proc) {
    q'.kind == q.kind && q'.services == q.services && q'.node == q.node && q'.queue == q.queue
  }

  /** What a process found queued is not what it writes about. */
  lemma WritingIsSound(orig: map<string, nat>, st: State, st': State, p: nat, q: Proc, i: nat)
    requires Keyed(orig, st) && Writes(orig, st, st', p, q, i) && Sound(orig, st, st.procs[p])
    requires SameWork(st.procs[p], q) && Shape(orig, q)
    requires forall k | Released(q) <= k < |q.services| ::
               Knows(orig[q.services[k].0], ViewOf(orig, st', q.services[k].0), q, k)
    ensures Sound(orig, st', q)
  {
    assert q.services[i].0 in Names(q.services);
    forall k | 0 <= k < |q.queue|
      ensures HeldBy(q.kind, q.queue[k].1, ViewOf(orig, st', q.queue[k].0))
    {
      assert q.queue[k].0 in Names(q.queue);
    }
  }

  lemma WritingStep(orig: map<string, nat>, st: State, st': State, p: nat, q: Proc, i: nat)
    requires Inv(orig, st) && Writes(orig, st, st', p, q, i)
    requires SameWork(st.procs[p], q) && Shape(orig, q) && Owned(q) <= Owned(st.procs[p])
    requires Released(st.procs[p]) <= i
    requires NotLost(orig[q.services[i].0], ViewOf(orig, st', q.services[i].0))
    requires forall k | Released(q) <= k < |q.services| ::
               Knows(orig[q.services[k].0], ViewOf(orig, st', q.services[k].0), q, k)
    ensures Inv(orig, st')
  {
    WritingIsSound(orig, st, st', p, q, i);
    OwnedOf(st.procs[p]);
    StepKeepsInv(orig, st, st', p, Some(q));
  }

  predicate Acts(q: Proc) {
    && (q.phase.Holding? || q.phase.Noting? || q.phase.Stopping? || q.phase.Waiting? || q.phase.Releasing?)
    && q.phase.i < |q.services|
    && (q.phase.Noting? ==> q.node.Some?)
  }

  /** The service a step is about, after it. */
  function ActedOn(q: Proc, v: View): View
    requires Acts(q)
  {
    var count := q.services[q.phase.i].1;
    match q.phase
    case Holding(_, _) => v.(hold := Some(Reheld(v.hold, count, q.why)))
    case Noting(_) => if v.hold.Some? then v.(hold := Some(v.hold.value.(node := Some(q.node.value)))) else v
    case Stopping(_) => if count > 0 then v.(desired := 0) else v
    case Waiting(_) => v
    case Releasing(_) => v.(hold := None)
  }

  lemma ActedViews(orig: map<string, nat>, st: State, p: nat)
    requires Keyed(orig, st) && p in st.procs && CanAct(st, st.procs[p]) && Shape(orig, st.procs[p])
    ensures var q, st' := st.procs[p], Acted(st, p, st.procs[p]);
            var s := q.services[q.phase.i].0;
            && Acts(q) && Writes(orig, st, st', p, q.(phase := Onward(q.phase)), q.phase.i)
            && ViewOf(orig, st', s) == ActedOn(q, ViewOf(orig, st, s))
  {
  }

  lemma ActedOnKnows(own: nat, v: View, q: Proc)
    requires Acts(q) && Knows(own, v, q, q.phase.i) && NotLost(own, v)
    requires q.services[q.phase.i].1 in {0, own}
    requires q.phase.Stopping? || q.phase.Noting? ==> q.allHeld
    requires q.phase.Holding? ==> SaysItsKind(q.kind, q.why)
    ensures NotLost(own, ActedOn(q, v))
    ensures !q.phase.Releasing? ==> Knows(own, ActedOn(q, v), q.(phase := Onward(q.phase)), q.phase.i)
  {
  }

  lemma OthersStillKnown(own: nat, v: View, q: Proc, k: nat)
    requires Acts(q) && k < |q.services| && Knows(own, v, q, k) && k != q.phase.i
    ensures Knows(own, v, q.(phase := Onward(q.phase)), k)
  {
  }

  lemma ActedIsKnown(orig: map<string, nat>, st: State, p: nat)
    requires Keyed(orig, st) && p in st.procs && CanAct(st, st.procs[p]) && Sound(orig, st, st.procs[p])
    requires var s := st.procs[p].services[st.procs[p].phase.i].0; NotLost(orig[s], ViewOf(orig, st, s))
    ensures var q, st' := st.procs[p], Acted(st, p, st.procs[p]);
            var q' := q.(phase := Onward(q.phase));
            && Keyed(orig, st')
            && NotLost(orig[q.services[q.phase.i].0], ViewOf(orig, st', q.services[q.phase.i].0))
            && (forall k | Released(q') <= k < |q.services| ::
                  Knows(orig[q.services[k].0], ViewOf(orig, st', q.services[k].0), q', k))
  {
    var q, st' := st.procs[p], Acted(st, p, st.procs[p]);
    var q' := q.(phase := Onward(q.phase));
    var i := q.phase.i;
    ActedViews(orig, st, p);
    ActedOnKnows(orig[q.services[i].0], ViewOf(orig, st, q.services[i].0), q);
    forall k | Released(q') <= k < |q.services|
      ensures Knows(orig[q.services[k].0], ViewOf(orig, st', q.services[k].0), q', k)
    {
      if k != i { OthersStillKnown(orig[q.services[k].0], ViewOf(orig, st, q.services[k].0), q, k); }
    }
  }

  lemma ActedShape(orig: map<string, nat>, q: Proc)
    requires Shape(orig, q) && Acts(q)
    ensures Shape(orig, q.(phase := Onward(q.phase)))
    ensures Owned(q.(phase := Onward(q.phase))) <= Owned(q)
  {
    if q.phase.Releasing? { NamesOf(q.services, q.phase.i); }
  }

  lemma ActKeepsInv(orig: map<string, nat>, st: State, p: nat)
    requires Inv(orig, st) && Enabled(orig, st, Act(p))
    ensures Inv(orig, Apply(orig, st, Act(p)))
  {
    var q := st.procs[p];
    var q' := q.(phase := Onward(q.phase));
    ActedViews(orig, st, p);
    ActedIsKnown(orig, st, p);
    ActedShape(orig, q);
    WritingStep(orig, st, Acted(st, p, q), p, q', q.phase.i);
  }

  // ---- Giving back -------------------------------------------------------------

  /** The service a scale-up is about, after it. */
  function ScaledOn(v: View, seen: Option<Hold>, unread: bool, caller: nat, ok: bool): View {
    var n := GiveBack(seen, caller);
    if n > 0 then if ok then v.(desired := n, excused := false) else v.(excused := true)
    else if unread then v.(excused := true) else v
  }

  /** The larger of the two counts is the service's own, whatever its caller read. */
  lemma ScaledGivesBack(own: nat, v: View, seen: Option<Hold>, unread: bool, caller: nat, ok: bool)
    requires NotLost(own, v) && caller in {0, own}
    requires if unread then seen == None else seen == v.hold
    ensures NotLost(own, ScaledOn(v, seen, unread, caller, ok)) && Back(own, ScaledOn(v, seen, unread, caller, ok))
    ensures ok && !unread && !v.excused ==> ScaledOn(v, seen, unread, caller, ok).desired == own
  {
  }

  lemma ScaledViews(orig: map<string, nat>, st: State, p: nat, ok: bool)
    requires Keyed(orig, st) && p in st.procs && Shape(orig, st.procs[p])
    requires st.procs[p].phase.Starting? && 0 < st.procs[p].phase.i
    ensures var q, st' := st.procs[p], ScaledUp(st, p, st.procs[p], ok);
            var i := q.phase.i - 1;
            var (s, caller) := q.services[i];
            && Writes(orig, st, st', p, st'.procs[p], i)
            && ViewOf(orig, st', s) ==
               ScaledOn(ViewOf(orig, st, s), Seen(q.phase.seen, s), q.phase.seen.None?, caller, ok)
  {
  }

  lemma StartedStillKnown(own: nat, v: View, q: Proc, q': Proc, k: nat)
    requires q.phase.Starting? && k < |q.services| && Knows(own, v, q, k)
    requires SameWork(q, q') && q'.allHeld == q.allHeld && q'.phase.Starting? && q'.phase.seen == q.phase.seen
    requires q'.phase.i + 1 == q.phase.i
    requires k == q'.phase.i ==> Back(own, v)
    ensures Knows(own, v, q', k)
  {
  }

  lemma StartedItselfKnown(own: nat, v: View, v': View, q: Proc, q': Proc)
    requires q.phase.Starting? && 0 < q.phase.i <= |q.services| && Knows(own, v, q, q.phase.i - 1)
    requires SameWork(q, q') && q'.allHeld == q.allHeld && q'.phase == Starting(q.phase.i - 1, q.phase.seen)
    requires v'.hold == v.hold && Back(own, v')
    ensures Knows(own, v', q', q'.phase.i)
  {
  }

  lemma ScaledIsKnown(orig: map<string, nat>, st: State, p: nat, ok: bool)
    requires Keyed(orig, st) && p in st.procs && Sound(orig, st, st.procs[p])
    requires st.procs[p].phase.Starting? && 0 < st.procs[p].phase.i
    requires var s := st.procs[p].services[st.procs[p].phase.i - 1].0; NotLost(orig[s], ViewOf(orig, st, s))
    ensures var q, st' := st.procs[p], ScaledUp(st, p, st.procs[p], ok);
            var i := q.phase.i - 1;
            && Keyed(orig, st')
            && NotLost(orig[q.services[i].0], ViewOf(orig, st', q.services[i].0))
            && (forall k | 0 <= k < |q.services| ::
                  Knows(orig[q.services[k].0], ViewOf(orig, st', q.services[k].0), st'.procs[p], k))
  {
    var q, st' := st.procs[p], ScaledUp(st, p, st.procs[p], ok);
    var q', i := st'.procs[p], q.phase.i - 1;
    var (s, caller) := q.services[i];
    var v, v' := ViewOf(orig, st, s), ViewOf(orig, st', s);
    assert Knows(orig[s], v, q, i);
    ScaledViews(orig, st, p, ok);
    ScaledGivesBack(orig[s], v, Seen(q.phase.seen, s), q.phase.seen.None?, caller, ok);
    forall k | 0 <= k < |q.services|
      ensures Knows(orig[q.services[k].0], ViewOf(orig, st', q.services[k].0), q', k)
    {
      var own := orig[q.services[k].0];
      if k == i {
        StartedItselfKnown(own, v, v', q, q');
      } else {
        StartedStillKnown(own, ViewOf(orig, st, q.services[k].0), q, q', k);
      }
    }
  }

  lemma ScaleUpKeepsInv(orig: map<string, nat>, st: State, p: nat, ok: bool)
    requires Inv(orig, st) && Enabled(orig, st, ScaleUp(p, ok))
    ensures Inv(orig, Apply(orig, st, ScaleUp(p, ok)))
  {
    var q, st' := st.procs[p], ScaledUp(st, p, st.procs[p], ok);
    ScaledViews(orig, st, p, ok);
    ScaledIsKnown(orig, st, p, ok);
    WritingStep(orig, st, st', p, st'.procs[p], q.phase.i - 1);
  }

  // ---- Beginning, reconciliation, Swarm ----------------------------------------

  lemma NewcomerKeepsInv(orig: map<string, nat>, st: State, p: nat, q: Proc)
    requires Inv(orig, st) && p !in st.procs && Sound(orig, st, q)
    requires forall r | r in st.procs :: Owned(st.procs[r]) !! Owned(q)
    ensures Inv(orig, Put(st, p, Some(q)))
  {
    var st' := Put(st, p, Some(q));
    forall r | r in st'.procs ensures Sound(orig, st', st'.procs[r]) {
      SoundIsFramed(orig, st, st', st'.procs[r]);
    }
  }

  /** A live process that recorded its holds is seen by whoever else would begin. */
  lemma HeldAreSeen(orig: map<string, nat>, st: State, q: Proc, s: string)
    requires Keyed(orig, st) && Sound(orig, st, q) && q.allHeld && s in Owned(q)
    ensures s in st.holds && (q.kind == Restore <==> !IsCopy(st.holds[s].why))
  {
    if s in Names(q.queue) {
      var j :| 0 <= j < |q.queue| && q.queue[j].0 == s;
      assert HeldBy(q.kind, q.queue[j].1, ViewOf(orig, st, q.queue[j].0));
    } else {
      var rest := if q.phase.Releasing? then q.services[q.phase.i..] else q.services;
      var j :| 0 <= j < |rest| && rest[j].0 == s;
      var k := j + Released(q);
      assert q.services[k] == rest[j];
      assert Knows(orig[s], ViewOf(orig, st, s), q, k);
    }
  }

  lemma BeginsApart(orig: map<string, nat>, st: State, kind: Kind, services: set<string>)
    requires Inv(orig, st) && Apart(st, kind, services)
    requires forall s | s in services && s in st.holds :: kind == Restore <==> !IsCopy(st.holds[s].why)
    ensures forall r | r in st.procs :: Owned(st.procs[r]) !! services
  {
    forall r | r in st.procs ensures Owned(st.procs[r]) !! services {
      var q := st.procs[r];
      if !SameFamily(q.kind, kind) && q.allHeld {
        forall s | s in Owned(q) ensures s !in services {
          HeldAreSeen(orig, st, q, s);
        }
      }
    }
  }

  lemma CheckKeepsInv(orig: map<string, nat>, st: State, a: Action)
    requires Inv(orig, st) && a.Check? && Enabled(orig, st, a) && Disciplined(st, a)
    ensures Inv(orig, Apply(orig, st, a))
  {
    var q := Proc(a.kind, a.why, a.services, a.node, false, false, [], Checked);
    assert Owned(q) == Names(a.services);
    BeginsApart(orig, st, a.kind, Names(a.services));
    NewcomerKeepsInv(orig, st, a.p, q);
  }

  lemma FoundAreHeld(orig: map<string, nat>, st: State, found: seq<Counted>)
    requires Keyed(orig, st) && st.holds.Keys <= orig.Keys && FoundByDaemon(st.holds, found)
    requires forall s | s in orig :: NotLost(orig[s], ViewOf(orig, st, s))
    ensures Readable(orig, found)
    ensures forall k | 0 <= k < |found| :: HeldBy(Restart, found[k].1, ViewOf(orig, st, found[k].0))
  {
    forall k | 0 <= k < |found|
      ensures found[k].0 in orig && found[k].1 in {0, orig[found[k].0]}
      ensures HeldBy(Restart, found[k].1, ViewOf(orig, st, found[k].0))
    {
      assert found[k].0 in st.holds;
      assert NotLost(orig[found[k].0], ViewOf(orig, st, found[k].0));
    }
  }

  lemma DaemonIsSound(orig: map<string, nat>, st: State, found: seq<Counted>)
    requires Keyed(orig, st) && found != [] && Distinct(found) && Readable(orig, found)
    requires forall k | 0 <= k < |found| :: HeldBy(Restart, found[k].1, ViewOf(orig, st, found[k].0))
    ensures var q := Proc(Restart, "", [found[0]], None, true, false, found[1..], Reading);
            Sound(orig, st, q) && Owned(q) <= Names(found)
  {
    NamesOf(found, 0);
    assert forall k | 0 <= k < |found[1..]| :: found[1..][k] == found[k + 1];
  }

  lemma DaemonKeepsInv(orig: map<string, nat>, st: State, a: Action)
    requires Inv(orig, st) && a.Daemon? && Enabled(orig, st, a) && Disciplined(st, a)
    ensures Inv(orig, Apply(orig, st, a))
  {
    FoundAreHeld(orig, st, a.found);
    DaemonIsSound(orig, st, a.found);
    BeginsApart(orig, st, Restart, Names(a.found));
    NewcomerKeepsInv(orig, st, a.p, Proc(Restart, "", [a.found[0]], None, true, false, a.found[1..], Reading));
  }

  /** A correction, however late, gives a service no more and no less than its own. */
  lemma CorrectedIsSound(orig: map<string, nat>, st: State, a: Action, q: Proc)
    requires Keyed(orig, st) && a.Correct? && Enabled(orig, st, a) && Sound(orig, st, q)
    ensures Sound(orig, Apply(orig, st, a), q)
  {
    var st' := Apply(orig, st, a);
    forall k | Released(q) <= k < |q.services|
      ensures Knows(orig[q.services[k].0], ViewOf(orig, st', q.services[k].0), q, k)
    {
      assert Knows(orig[q.services[k].0], ViewOf(orig, st, q.services[k].0), q, k);
    }
    forall k | 0 <= k < |q.queue|
      ensures HeldBy(q.kind, q.queue[k].1, ViewOf(orig, st', q.queue[k].0))
    {
      assert HeldBy(q.kind, q.queue[k].1, ViewOf(orig, st, q.queue[k].0));
    }
  }

  lemma TasksAreSound(orig: map<string, nat>, st: State, s: string, n: nat, q: Proc)
    requires Keyed(orig, st) && Enabled(orig, st, Tasks(s, n)) && Sound(orig, st, q)
    ensures Sound(orig, Apply(orig, st, Tasks(s, n)), q)
  {
    var st' := Apply(orig, st, Tasks(s, n));
    forall k | Released(q) <= k < |q.services|
      ensures Knows(orig[q.services[k].0], ViewOf(orig, st', q.services[k].0), q, k)
    {
      assert Knows(orig[q.services[k].0], ViewOf(orig, st, q.services[k].0), q, k);
    }
    forall k | 0 <= k < |q.queue|
      ensures HeldBy(q.kind, q.queue[k].1, ViewOf(orig, st', q.queue[k].0))
    {
      assert HeldBy(q.kind, q.queue[k].1, ViewOf(orig, st, q.queue[k].0));
    }
  }

  lemma CorrectKeepsInv(orig: map<string, nat>, st: State, a: Action)
    requires Inv(orig, st) && a.Correct? && Enabled(orig, st, a)
    ensures Inv(orig, Apply(orig, st, a))
  {
    var st' := Apply(orig, st, a);
    forall s | s in orig ensures NotLost(orig[s], ViewOf(orig, st', s)) {
      assert NotLost(orig[s], ViewOf(orig, st, s));
    }
    forall p | p in st'.procs ensures Sound(orig, st', st'.procs[p]) {
      CorrectedIsSound(orig, st, a, st.procs[p]);
    }
  }

  lemma TasksKeepInv(orig: map<string, nat>, st: State, a: Action)
    requires Inv(orig, st) && a.Tasks? && Enabled(orig, st, a)
    ensures Inv(orig, Apply(orig, st, a))
  {
    var st' := Apply(orig, st, a);
    forall s | s in orig ensures NotLost(orig[s], ViewOf(orig, st', s)) {
      assert NotLost(orig[s], ViewOf(orig, st, s));
    }
    forall p | p in st'.procs ensures Sound(orig, st', st'.procs[p]) {
      TasksAreSound(orig, st, a.s, a.n, st.procs[p]);
    }
  }

  /** Reconciliation listing and looking, or over: nothing else moves. */
  lemma RoundKeepsInv(orig: map<string, nat>, st: State, rounds: map<nat, Round>)
    requires Inv(orig, st)
    ensures Inv(orig, st.(rounds := rounds))
  {
    var st' := st.(rounds := rounds);
    assert forall s | s in orig :: ViewOf(orig, st', s) == ViewOf(orig, st, s);
    forall p | p in st'.procs ensures Sound(orig, st', st'.procs[p]) {
      SoundIsFramed(orig, st, st', st.procs[p]);
    }
  }

  // ---- Every run ---------------------------------------------------------------

  lemma StepKeepsInvariant(orig: map<string, nat>, st: State, a: Action)
    requires Inv(orig, st) && Enabled(orig, st, a) && Disciplined(st, a)
    ensures Inv(orig, Apply(orig, st, a))
  {
    match a
    case Check(_, _, _, _, _) => CheckKeepsInv(orig, st, a);
    case Daemon(_, _) => DaemonKeepsInv(orig, st, a);
    case Advance(p) => AdvanceKeepsInv(orig, st, p);
    case Act(p) => ActKeepsInv(orig, st, p);
    case ReadHolds(p, ok) => ReadHoldsKeepsInv(orig, st, p, ok);
    case ScaleUp(p, ok) => ScaleUpKeepsInv(orig, st, p, ok);
    case Fail(p) => FailKeepsInv(orig, st, p);
    case Crash(p) => QuietStep(orig, st, p, None);
    case List(_) => RoundKeepsInv(orig, st, Apply(orig, st, a).rounds);
    case Look(_, _) => RoundKeepsInv(orig, st, Apply(orig, st, a).rounds);
    case Correct(_, _, _) => CorrectKeepsInv(orig, st, a);
    case Leave(_) => RoundKeepsInv(orig, st, Apply(orig, st, a).rounds);
    case Tasks(_, _) => TasksKeepInv(orig, st, a);
  }

  lemma {:induction false} RunsKeepInv(orig: map<string, nat>, st: State, actions: seq<Action>)
    requires Inv(orig, st) && Runs(orig, st, actions, true)
    ensures Runs(orig, st, actions, false) && Inv(orig, After(orig, st, actions))
    decreases |actions|
  {
    if actions != [] {
      StepKeepsInvariant(orig, st, actions[0]);
      RunsKeepInv(orig, Apply(orig, st, actions[0]), actions[1..]);
    }
  }
}
