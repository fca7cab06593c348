/** One backup pass, phase after phase, with whatever restic, Swarm and the dumpers answer. */
module Pass {
  import opened Wrappers
  import opened Repository
  import opened PassWorld

  /** From `w0` to `w`, what was recorded and said is of `kind` of `app`. */
  predicate Within(w0: World, w: World, app: string, kind: Kind) {
    && Grew(w0, w) && w.copies == w0.copies
    && (forall i | |w0.rows| <= i < |w.rows| :: w.rows[i].app == app && w.rows[i].kind == kind)
    && (forall i | |w0.events| <= i < |w.events| :: w.events[i].app == app && w.events[i].kind == kind)
  }

  lemma WithinOn(w0: World, w1: World, w2: World, app: string, kind: Kind)
    requires Within(w0, w1, app, kind) && Within(w1, w2, app, kind)
    ensures Within(w0, w2, app, kind)
  {
    GrewOn(w0, w1, w2);
  }

  /** Every destination of `dests` it was due on was tried; that there is none was said. */
  predicate Tried(plan: Plan, w0: World, w: World, app: string, kind: Kind, dests: seq<string>) {
    && (dests == [] ==> NotCovered(app, kind, []) in w.events)
    && forall d | d in dests && Due(plan, w0, app, kind, d) :: Attempted(w.events, app, kind, [], d)
  }

  /** Where an app's buckets go: nowhere when they cannot be read. */
  function BucketDests(plan: Plan, app: string): seq<string> {
    if plan.s3 then plan.bulky(app) else []
  }

  /** Only `kind`, of whatever app. */
  predicate WithinKind(w0: World, w: World, kind: Kind) {
    && Grew(w0, w) && w.copies == w0.copies
    && (forall i | |w0.rows| <= i < |w.rows| :: w.rows[i].kind == kind)
    && (forall i | |w0.events| <= i < |w.events| :: w.events[i].kind == kind)
  }

  lemma WithinKindOn(w0: World, w1: World, w2: World, kind: Kind)
    requires WithinKind(w0, w1, kind) && WithinKind(w1, w2, kind)
    ensures WithinKind(w0, w2, kind)
  {
    GrewOn(w0, w1, w2);
  }

  /** Tried since `w0`, as it was due then. */
  lemma TriedSince(plan: Plan, w0: World, w1: World, w: World, w': World, app: string, kind: Kind, dests: seq<string>)
    requires Grew(w0, w1) && Quiet(w0, w1, app, kind) && Tried(plan, w1, w, app, kind, dests) && Grew(w, w')
    ensures Tried(plan, w0, w', app, kind, dests)
  {
    forall d | d in dests && Due(plan, w0, app, kind, d) ensures Attempted(w'.events, app, kind, [], d) {
      StaysDue(plan, w0, w1, app, kind, d);
      StillAttempted(w, w', app, kind, [], d);
    }
  }

  /** The volumes of the first `k` apps, those that are served and have some. */
  predicate VolumesTried(plan: Plan, w0: World, w: World, k: nat)
    requires k <= |plan.apps|
  {
    forall j | 0 <= j < k && Served(plan, plan.apps[j]) && plan.volumes(plan.apps[j].0) != [] ::
      Tried(plan, w0, w, plan.apps[j].0, Volumes, plan.bulky(plan.apps[j].0))
  }

  lemma VolumesTriedMore(plan: Plan, w0: World, w1: World, w: World, k: nat)
    requires k < |plan.apps| && VolumesTried(plan, w0, w1, k) && Grew(w0, w1) && Grew(w1, w)
    requires var app := plan.apps[k].0;
             Quiet(w0, w1, app, Volumes)
             && (plan.volumes(app) != [] ==> Tried(plan, w1, w, app, Volumes, plan.bulky(app)))
    ensures VolumesTried(plan, w0, w, k + 1)
  {
    forall j | 0 <= j <= k && Served(plan, plan.apps[j]) && plan.volumes(plan.apps[j].0) != []
      ensures Tried(plan, w0, w, plan.apps[j].0, Volumes, plan.bulky(plan.apps[j].0))
    {
      var app := plan.apps[j].0;
      if j < k { TriedSince(plan, w0, w0, w1, w, app, Volumes, plan.bulky(app)); }
      else { TriedSince(plan, w0, w1, w, w, app, Volumes, plan.bulky(app)); }
    }
  }

  predicate AllAllowed(plan: Plan, start: World, w: World, app: string, kind: Kind, dests: seq<string>) {
    forall d | d in dests :: Allowed(plan, start, w, app, kind, d)
  }

  lemma StillAllAllowed(plan: Plan, start: World, w0: World, w: World, app: string, kind: Kind, dests: seq<string>)
    requires Grew(w0, w) && AllAllowed(plan, start, w0, app, kind, dests)
    ensures AllAllowed(plan, start, w, app, kind, dests)
  {
    forall d | d in dests ensures Allowed(plan, start, w, app, kind, d) {
      StillAllowed(plan, start, w0, w, app, kind, d);
    }
  }

  lemma StillAttempted(w: World, w': World, app: string, kind: Kind, item: seq<string>, dest: string)
    requires Grew(w, w') && Attempted(w.events, app, kind, item, dest)
    ensures Attempted(w'.events, app, kind, item, dest)
  {
    var e :| e in w.events && Attempt(e, app, kind, item, dest);
    assert e in w'.events;
  }

  function Outcome(app: string, kind: Kind, item: seq<string>, dest: string, outcome: Option<string>): (e: Event)
    ensures Attempt(e, app, kind, item, dest)
  {
    match outcome
    case Some(id) => Done(app, kind, item, dest, id)
    case None => Failed(app, kind, item, Some(dest))
  }

  /** Nothing recorded and nothing said. */
  predicate Silent(w0: World, w: World) {
    w.rows == w0.rows && w.events == w0.events && w.copies == w0.copies
  }

  predicate HasWrite(log: seq<Entry>, write: Write, id: string) {
    exists e :: e in log && e.write == write && e.id == id && e.recorded && e.epoch.Some?
  }

  function OneIf(b: bool): nat {
    if b then 1 else 0
  }

  function Nones(outcomes: seq<Option<string>>): nat {
    if outcomes == [] then 0 else Nones(outcomes[..|outcomes| - 1]) + OneIf(outcomes[|outcomes| - 1].None?)
  }

  /** The first `i` volumes of the app were archived there; `last`: the last one's id. */
  predicate VolumesThere(plan: Plan, w: World, app: string, dest: string, i: nat, last: Option<string>)
    requires i <= |plan.volumes(app)|
  {
    var volumes := plan.volumes(app);
    && (forall j | 0 <= j < i :: HasCopy(LogOf(w, dest), app, volumes[j], plan.token))
    && (i > 0 ==> last.Some? && (app, last.value) in w.taken
                  && HasWrite(LogOf(w, dest), VolumeCopy(app, volumes[i - 1], Some(plan.token), false), last.value))
  }

  lemma OneMoreVolume(plan: Plan, w0: World, w: World, app: string, dest: string, i: nat, last: Option<string>,
                      id: string)
    requires i < |plan.volumes(app)| && Grew(w0, w) && VolumesThere(plan, w0, app, dest, i, last)
    requires (app, id) in w.taken
    requires HasWrite(LogOf(w, dest), VolumeCopy(app, plan.volumes(app)[i], Some(plan.token), false), id)
    ensures VolumesThere(plan, w, app, dest, i + 1, Some(id))
  {
    LogGrew(w0, w, dest);
    assert forall e | e in LogOf(w0, dest) :: e in LogOf(w, dest);
  }

  lemma AllVolumesThere(plan: Plan, w: World, app: string, dest: string, last: Option<string>)
    requires plan.volumes(app) != [] && VolumesThere(plan, w, app, dest, |plan.volumes(app)|, last)
    ensures last.Some? && True(plan, w, Done(app, Volumes, [], dest, last.value))
  {
  }

  /** Its buckets likewise. */
  predicate BucketsThere(plan: Plan, w: World, app: string, dest: string, i: nat, last: Option<string>)
    requires i <= |plan.buckets(app)|
  {
    var buckets := plan.buckets(app);
    && (forall j | 0 <= j < i :: HasBucket(LogOf(w, dest), app, buckets[j], plan.token))
    && (i > 0 ==> last.Some? && (app, last.value) in w.taken
                  && HasWrite(LogOf(w, dest), BucketCopy(app, buckets[i - 1], plan.token), last.value))
  }

  lemma OneMoreBucket(plan: Plan, w0: World, w: World, app: string, dest: string, i: nat, last: Option<string>,
                      id: string)
    requires i < |plan.buckets(app)| && Grew(w0, w) && BucketsThere(plan, w0, app, dest, i, last)
    requires (app, id) in w.taken
    requires HasWrite(LogOf(w, dest), BucketCopy(app, plan.buckets(app)[i], plan.token), id)
    ensures BucketsThere(plan, w, app, dest, i + 1, Some(id))
  {
    LogGrew(w0, w, dest);
    assert forall e | e in LogOf(w0, dest) :: e in LogOf(w, dest);
  }

  lemma AllBucketsThere(plan: Plan, w: World, app: string, dest: string, last: Option<string>)
    requires plan.buckets(app) != [] && BucketsThere(plan, w, app, dest, |plan.buckets(app)|, last)
    ensures last.Some? && True(plan, w, Done(app, Buckets, [], dest, last.value))
  {
  }

  class Pass {
    const plan: Plan
    /** The world the pass began in. */
    ghost const start: World
    var world: World
    var done: nat
    var failed: nat
    /** restic, Swarm or a dumper answered an error. */
    ghost var refused: bool
    /** How many of them. */
    ghost var errors: nat

    constructor (plan: Plan, world: World)
      requires world.events == []
      ensures this.plan == plan && this.world == world && this.start == world && !refused && Valid() && Owed() == 0
    {
      this.plan, this.start, this.world, done, failed, refused, errors := plan, world, world, 0, 0, false, 0;
    }

    /** The tally is of what was said, nothing failed unasked, what was said is so, and what
        was written is the pass's: `PassWorld.Tallied`. */
    ghost predicate Valid()
      reads this
    {
      Kept(plan, start, world, done, failed, refused)
    }

    /** The errors answered that no failure was said for. */
    ghost function Owed(): int
      reads this`errors, this`failed
    {
      errors - failed
    }

    method Say(e: Event)
      requires Valid() && True(plan, world, e) && Recorded(world.rows, e)
      requires e.Failed? ==> refused || Unstaged(plan, e)
      requires Timely(plan, start, world, e)
      modifies this
      ensures Valid() && (old(refused) ==> refused) && world == old(world).(events := old(world).events + [e])
      ensures Owed() == old(Owed()) - OneIf(e.Failed?)
    {
      KeptSaying(plan, start, world, done, failed, refused, e);
      world := world.(events := world.events + [e]);
      match e {
        case Done(_, _, _, _, _) => done := done + 1;
        case Failed(_, _, _, _) => failed := failed + 1;
        case NotCovered(_, _, _) =>
      }
    }

    /** An error answered, when it is not `fine`. */
    ghost method Answer(fine: bool)
      requires Valid()
      modifies this`refused, this`errors
      ensures Valid() && refused == (old(refused) || !fine) && Owed() == old(Owed()) + OneIf(!fine)
    {
      KeptRefused(plan, start, world, done, failed, refused, !fine);
      refused, errors := refused || !fine, errors + OneIf(!fine);
    }

    /** What fails before any destination, or has none. */
    method Complain(e: Event)
      requires Valid() && !e.Done? && (e.Failed? ==> e.to == None && (refused || Unstaged(plan, e)))
      requires (e.NotCovered? ==> Uncovered(plan, e.app, e.kind, e.item)) && Recorded(world.rows, e)
      modifies this
      ensures Valid() && (old(refused) ==> refused) && Within(old(world), world, e.app, e.kind)
      ensures Owed() == old(Owed()) - OneIf(e.Failed?)
      ensures world == old(world).(events := old(world).events + [e])
    {
      Say(e);
    }

    method ComplainUnless(fine: bool, e: Event)
      requires Valid() && !e.Done? && (e.Failed? ==> e.to == None && (fine || refused || Unstaged(plan, e)))
      requires (e.NotCovered? ==> Uncovered(plan, e.app, e.kind, e.item)) && Recorded(world.rows, e)
      modifies this
      ensures Valid() && (old(refused) ==> refused) && Within(old(world), world, e.app, e.kind)
      ensures Owed() == old(Owed()) - OneIf(!fine && e.Failed?)
      ensures world == old(world).(events := old(world).events + if fine then [] else [e])
    {
      if !fine { Complain(e); } else { assert world.events + [] == world.events; }
    }

    /** Time goes by, and anyone may write into a repository. */
    method Meanwhile(dest: string)
      requires Valid()
      modifies this`world, this`refused, this`errors
      ensures Valid() && (old(refused) ==> refused) && Grew(old(world), world) && Silent(old(world), world)
      ensures Owed() == old(Owed())
    {
      var ticks: int := *;
      var strangers, id: string, paths: seq<string>, tags: seq<string> := *, *, *, *;
      ghost var w0 := world;
      if ticks > 0 { world := world.(clock := world.clock + ticks); }
      KeptRecording(plan, start, w0, world, done, failed, refused);
      if strangers {
        ghost var w1 := world;
        var entry := Entry(Other(paths, tags), id, Some(world.clock), false);
        KeptWriting(plan, start, world, done, failed, refused, dest, entry);
        world := Written(world, dest, entry);
        GrewOn(w0, w1, world);
      }
    }

    /** A snapshot, recorded as taken when it is told; one left unrecorded when restic wrote it
        and then failed. */
    method Archive(app: string, dest: string, write: Write) returns (id: Option<string>)
      requires Valid() && !write.Other? && write.app == app && OwnWrite(plan, Entry(write, "", None, true))
      modifies this`world, this`refused, this`errors
      ensures Valid() && (old(refused) ==> refused) && Grew(old(world), world) && Silent(old(world), world)
      ensures Owed() == old(Owed()) + OneIf(id.None?)
      ensures id.None? ==> refused
      ensures id.Some? ==> (app, id.value) in world.taken && HasWrite(LogOf(world, dest), write, id.value)
    {
      Meanwhile(dest);
      ghost var w0 := world;
      var written, ok, snapshot: string := *, *, *;
      id := None;
      if written {
        var entry := Entry(write, snapshot, Some(world.clock), ok);
        KeptWriting(plan, start, world, done, failed, refused, dest, entry);
        world := Written(world, dest, entry);
        GrewOn(old(world), w0, world);
        assert entry in LogOf(world, dest);
        if ok { id := Some(snapshot); }
      }
      Answer(id.Some?);
    }

    /** Recorded, whichever way it went, and said. */
    method Record(app: string, kind: Kind, item: seq<string>, dest: string, outcome: Option<string>)
      requires Valid()
      requires outcome.Some? ==> True(plan, world, Done(app, kind, item, dest, outcome.value))
      requires (outcome.None? ==> refused) && Allowed(plan, start, world, app, kind, dest)
      modifies this
      ensures Valid() && (old(refused) ==> refused) && Within(old(world), world, app, kind)
      ensures Owed() == old(Owed()) - OneIf(outcome.None?)
      ensures var row := Row(app, kind, Some(dest), outcome.Some?, old(world).clock);
              world == old(world).(rows := old(world).rows + [row],
                                   events := old(world).events + [Outcome(app, kind, item, dest, outcome)])
    {
      var row := Row(app, kind, Some(dest), outcome.Some?, world.clock);
      ghost var w0 := world;
      world := world.(rows := world.rows + [row]);
      KeptRecording(plan, start, w0, world, done, failed, refused);
      assert row in world.rows;
      Say(Outcome(app, kind, item, dest, outcome));
    }

    method IsDue(app: string, kind: Kind, dest: string) returns (due: bool)
      ensures due <==> Due(plan, world, app, kind, dest)
    {
      if plan.force { return true; }
      for i := 0 to |world.rows|
        invariant forall j | 0 <= j < i && IsOf(world.rows[j], app, kind, dest) ::
                    (if world.clock >= world.rows[j].at then world.clock - world.rows[j].at else 0) >= plan.every
      {
        var r := world.rows[i];
        assert r in world.rows;
        if IsOf(r, app, kind, dest) && (if world.clock >= r.at then world.clock - r.at else 0) < plan.every {
          return false;
        }
      }
      due := true;
    }

    method DueAmong(app: string, kind: Kind, dests: seq<string>) returns (due: seq<string>)
      ensures forall d :: d in due <==> d in dests && Due(plan, world, app, kind, d)
    {
      due := [];
      for i := 0 to |dests|
        invariant forall d :: d in due <==> d in dests[..i] && Due(plan, world, app, kind, d)
      {
        assert dests[..i + 1] == dests[..i] + [dests[i]];
        var d := IsDue(app, kind, dests[i]);
        if d { due := due + [dests[i]]; }
      }
      assert dests[..|dests|] == dests;
    }

    // ---- Volumes -----------------------------------------------------------------

    /** Each volume its own snapshot, recorded as it is taken: the last one's id. */
    method VolumesTo(app: string, volumes: seq<string>, dest: string) returns (outcome: Option<string>)
      requires Valid() && volumes == plan.volumes(app) && volumes != []
      modifies this`world, this`refused, this`errors
      ensures Valid() && (old(refused) ==> refused) && Grew(old(world), world) && Silent(old(world), world)
      ensures Owed() == old(Owed()) + OneIf(outcome.None?)
      ensures outcome.Some? ==> True(plan, world, Done(app, Volumes, [], dest, outcome.value))
      ensures outcome.None? ==> refused
    {
      outcome := None;
      for i := 0 to |volumes|
        invariant Valid() && (old(refused) ==> refused) && Grew(old(world), world) && Silent(old(world), world)
        invariant Owed() == old(Owed())
        invariant VolumesThere(plan, world, app, dest, i, outcome)
      {
        ghost var before, last := world, outcome;
        outcome := Archive(app, dest, VolumeCopy(app, volumes[i], Some(plan.token), false));
        if outcome.None? { return; }
        GrewOn(old(world), before, world);
        OneMoreVolume(plan, before, world, app, dest, i, last, outcome.value);
      }
      AllVolumesThere(plan, world, app, dest, outcome);
    }

    method CopyTo(app: string, dest: string, copied: bool) returns (outcome: Option<string>)
      requires Valid() && plan.volumes(app) != [] && (copied || refused)
      modifies this`world, this`refused, this`errors
      ensures Valid() && (old(refused) ==> refused) && Grew(old(world), world) && Silent(old(world), world)
      ensures Owed() == old(Owed()) + OneIf(copied && outcome.None?)
      ensures outcome.Some? ==> copied && True(plan, world, Done(app, Volumes, [], dest, outcome.value))
      ensures outcome.None? ==> refused
    {
      outcome := None;
      if copied { outcome := VolumesTo(app, plan.volumes(app), dest); }
    }

    /** The volumes copied to each destination of `due`, when they could be `copied` at all. */
    method CopyVolumes(app: string, due: seq<string>, copied: bool) returns (outcomes: seq<Option<string>>)
      requires Valid() && plan.volumes(app) != [] && (copied || refused)
      modifies this`world, this`refused, this`errors
      ensures Valid() && (old(refused) ==> refused) && Grew(old(world), world) && Silent(old(world), world)
      ensures Owed() == old(Owed()) + if copied then Nones(outcomes) else 0
      ensures !copied ==> Nones(outcomes) == |due|
      ensures |outcomes| == |due| && SoFar(plan, world, app, due, outcomes)
      ensures None in outcomes ==> refused
    {
      outcomes := [];
      for i := 0 to |due|
        invariant |outcomes| == i && Valid() && Grew(old(world), world) && Silent(old(world), world)
        invariant (old(refused) ==> refused) && (copied || refused)
        invariant Owed() == old(Owed()) + if copied then Nones(outcomes) else 0
        invariant !copied ==> Nones(outcomes) == i
        invariant SoFar(plan, world, app, due, outcomes)
        invariant None in outcomes ==> refused
      {
        ghost var before := world;
        var outcome := CopyTo(app, due[i], copied);
        GrewOn(old(world), before, world);
        SoFarMore(plan, before, world, app, due, outcomes, outcome);
        NonesMore(outcomes, outcome);
        outcomes := outcomes + [outcome];
      }
    }

    method RecordOne(app: string, kind: Kind, dest: string, outcome: Option<string>)
      requires Valid() && (outcome.None? ==> refused) && Allowed(plan, start, world, app, kind, dest)
      requires outcome.Some? ==> True(plan, world, Done(app, kind, [], dest, outcome.value))
      modifies this
      ensures Valid() && (old(refused) ==> refused) && Within(old(world), world, app, kind)
      ensures Owed() == old(Owed()) - OneIf(outcome.None?)
      ensures |world.events| == |old(world).events| + 1
      ensures var e := world.events[|old(world).events|]; Attempt(e, app, kind, [], dest) && e.Done? == outcome.Some?
    {
      Record(app, kind, [], dest, outcome);
    }

    method RecordNext(app: string, due: seq<string>, outcomes: seq<Option<string>>, i: nat, ghost base: World)
      requires Valid() && i < |outcomes| == |due| && Grew(base, world) && SoFar(plan, base, app, due, outcomes)
      requires (None in outcomes ==> refused) && AllAllowed(plan, start, base, app, Volumes, due)
      modifies this
      ensures Valid() && (old(refused) ==> refused) && Within(old(world), world, app, Volumes)
      ensures Owed() == old(Owed()) - (Nones(outcomes[..i + 1]) - Nones(outcomes[..i]))
      ensures |world.events| == |old(world).events| + 1
      ensures var e := world.events[|old(world).events|];
              Attempt(e, app, Volumes, [], due[i]) && e.Done? == outcomes[i].Some?
    {
      assert due[i] in due && outcomes[..i + 1][..i] == outcomes[..i];
      StillAllAllowed(plan, start, base, world, app, Volumes, due);
      StillSo(plan, base, world, app, due, outcomes);
      RecordOne(app, Volumes, due[i], outcomes[i]);
    }

    method RecordVolumes(app: string, due: seq<string>, outcomes: seq<Option<string>>) returns (to: seq<string>)
      requires Valid() && |outcomes| == |due| && SoFar(plan, world, app, due, outcomes)
      requires (None in outcomes ==> refused) && AllAllowed(plan, start, world, app, Volumes, due)
      modifies this
      ensures Valid() && (old(refused) ==> refused) && Within(old(world), world, app, Volumes)
      ensures Owed() == old(Owed()) - Nones(outcomes)
      ensures forall d | d in due :: Attempted(world.events, app, Volumes, [], d)
      ensures forall i | |old(world).events| <= i < |world.events| && world.events[i].Done? ::
                world.events[i].dest in to
      ensures forall d | d in to :: Reached(world.events, app, d)
    {
      to := [];
      for i := 0 to |due|
        invariant Valid() && (old(refused) ==> refused) && (None in outcomes ==> refused)
        invariant Owed() == old(Owed()) - Nones(outcomes[..i])
        invariant Within(old(world), world, app, Volumes) && Told(old(world), world, app, due, to, i)
      {
        ghost var before := world;
        RecordNext(app, due, outcomes, i, old(world));
        ToldMore(old(world), before, world, app, due, to, i);
        if outcomes[i].Some? { to := to + [due[i]]; }
        WithinOn(old(world), before, world, app, Volumes);
      }
      assert outcomes[..|due|] == outcomes;
      ToldAll(old(world), world, app, due, to);
    }

    /** The engine's copy is emptied, and the services are started: what fails is said. */
    method AfterCopying(app: string)
      requires Valid()
      modifies this
      ensures Valid() && (old(refused) ==> refused) && Within(old(world), world, app, Volumes)
      ensures Owed() <= old(Owed())
      ensures forall i | |old(world).events| <= i < |world.events| :: !world.events[i].Done?
    {
      var cleared, started := *, *;
      Answer(cleared);
      Answer(started);
      ComplainUnless(cleared, Failed(app, Volumes, [], None));
      ghost var before := world;
      ComplainUnless(started, Failed(app, Volumes, [], None));
      WithinOn(old(world), before, world, app, Volumes);
    }

    /** Stopped and copied once for every destination the volumes are due on; `to`: those they
        reached. */
    method ServeVolumes(app: string, due: seq<string>) returns (to: seq<string>)
      requires Valid() && plan.volumes(app) != [] && due != [] && AllAllowed(plan, start, world, app, Volumes, due)
      modifies this
      ensures Valid() && (old(refused) ==> refused) && Within(old(world), world, app, Volumes)
      ensures Owed() <= old(Owed())
      ensures forall d | d in due :: Attempted(world.events, app, Volumes, [], d)
      ensures forall i | |old(world).events| <= i < |world.events| && world.events[i].Done? ::
                world.events[i].dest in to
      ensures forall d | d in to :: Reached(world.events, app, d)
    {
      var copied := *;
      Answer(copied);
      var outcomes := CopyVolumes(app, due, copied);
      ghost var copying := world;
      AfterCopying(app);
      ghost var told := world;
      StillSo(plan, copying, told, app, due, outcomes);
      GrewOn(old(world), copying, told);
      StillAllAllowed(plan, start, old(world), told, app, Volumes, due);
      to := RecordVolumes(app, due, outcomes);
      WithinOn(old(world), copying, told, app, Volumes);
      WithinOn(old(world), told, world, app, Volumes);
    }

    method VolumesOf(app: string) returns (to: seq<string>)
      requires Valid() && Serves(plan, app)
      modifies this
      ensures Valid() && (old(refused) ==> refused) && Within(old(world), world, app, Volumes)
      ensures Owed() <= old(Owed())
      ensures plan.volumes(app) != [] ==> Tried(plan, old(world), world, app, Volumes, plan.bulky(app))
      ensures forall i | |old(world).events| <= i < |world.events| && world.events[i].Done? ::
                world.events[i].dest in to
      ensures forall d | d in to :: Reached(world.events, app, d)
    {
      to := [];
      if plan.volumes(app) == [] { return; }
      var dests := plan.bulky(app);
      if dests == [] {
        Complain(NotCovered(app, Volumes, []));
        assert world.events[|old(world).events|] == NotCovered(app, Volumes, []);
        return;
      }
      var due := DueAmong(app, Volumes, dests);
      forall d | d in due ensures Allowed(plan, start, world, app, Volumes, d) {
        DueIsAllowed(plan, start, world, done, failed, refused, app, Volumes, d);
      }
      if due != [] { to := ServeVolumes(app, due); }
    }
  
    /** Each app's volumes; what they reached is where its databases will follow. */
    method AllVolumes() returns (reached: map<string, seq<string>>)
      requires Valid() && DistinctApps(plan)
      modifies this
      ensures Valid() && (old(refused) ==> refused) && WithinKind(old(world), world, Volumes)
      ensures Owed() <= old(Owed())
      ensures forall k | 0 <= k < |plan.apps| && Served(plan, plan.apps[k]) && plan.volumes(plan.apps[k].0) != [] ::
                Tried(plan, old(world), world, plan.apps[k].0, Volumes, plan.bulky(plan.apps[k].0))
      ensures AllReached(reached, old(world), world)
      ensures ReachedIsSo(reached, world)
    {
      reached := map[];
      for k := 0 to |plan.apps|
        invariant Valid() && (old(refused) ==> refused) && WithinKind(old(world), world, Volumes)
        invariant Owed() <= old(Owed())
        invariant forall j | k <= j < |plan.apps| :: Quiet(old(world), world, plan.apps[j].0, Volumes)
        invariant VolumesTried(plan, old(world), world, k)
        invariant AllReached(reached, old(world), world)
        invariant ReachedIsSo(reached, world)
      {
        var app := plan.apps[k].0;
        if !Served(plan, plan.apps[k]) { continue; }
        ghost var before := world;
        var to := VolumesOf(app);
        ReachedMore(reached, old(world), before, world, app, to);
        if to != [] { reached := reached[app := Also(reached, app) + to]; }
        WithinKindOn(old(world), before, world, Volumes);
        VolumesTriedMore(plan, old(world), before, world, k);
      }
    }

    // ---- Buckets -----------------------------------------------------------------

    /** Each bucket its own snapshot, recorded as it is taken: the last one's id. */
    method BucketsTo(app: string, dest: string) returns (outcome: Option<string>)
      requires Valid() && plan.buckets(app) != []
      modifies this`world, this`refused, this`errors
      ensures Valid() && (old(refused) ==> refused) && Grew(old(world), world) && Silent(old(world), world)
      ensures Owed() == old(Owed()) + OneIf(outcome.None?)
      ensures outcome.Some? ==> True(plan, world, Done(app, Buckets, [], dest, outcome.value))
      ensures outcome.None? ==> refused
    {
      outcome := None;
      var buckets := plan.buckets(app);
      for i := 0 to |buckets|
        invariant Valid() && (old(refused) ==> refused) && Grew(old(world), world) && Silent(old(world), world)
        invariant Owed() == old(Owed())
        invariant BucketsThere(plan, world, app, dest, i, outcome)
      {
        ghost var before, last := world, outcome;
        outcome := Archive(app, dest, BucketCopy(app, buckets[i], plan.token));
        if outcome.None? { return; }
        GrewOn(old(world), before, world);
        OneMoreBucket(plan, before, world, app, dest, i, last, outcome.value);
      }
      AllBucketsThere(plan, world, app, dest, outcome);
    }

    /** Judged due one destination after another: what was recorded on one says nothing of the
        next. */
    method BucketsOf(app: string)
      requires Valid() && DistinctNames(plan.bulky(app)) && Serves(plan, app)
      modifies this
      ensures Valid() && (old(refused) ==> refused) && Within(old(world), world, app, Buckets)
      ensures Owed() <= old(Owed())
      ensures plan.buckets(app) != [] ==> Tried(plan, old(world), world, app, Buckets, BucketDests(plan, app))
    {
      if plan.buckets(app) == [] { return; }
      var dests := plan.bulky(app);
      if !plan.s3 || dests == [] {
        Complain(NotCovered(app, Buckets, []));
        assert world.events[|old(world).events|] == NotCovered(app, Buckets, []);
        return;
      }
      for i := 0 to |dests|
        invariant Valid() && (old(refused) ==> refused) && Within(old(world), world, app, Buckets)
        invariant Owed() <= old(Owed())
        invariant forall j | i <= j < |dests| && Due(plan, old(world), app, Buckets, dests[j]) ::
                    Due(plan, world, app, Buckets, dests[j])
        invariant forall j | 0 <= j < i && Due(plan, old(world), app, Buckets, dests[j]) ::
                    Attempted(world.events, app, Buckets, [], dests[j])
      {
        ghost var before := world;
        var due := IsDue(app, Buckets, dests[i]);
        if due {
          DueIsAllowed(plan, start, world, done, failed, refused, app, Buckets, dests[i]);
          BucketsOn(app, dests[i]);
        }
        WithinOn(old(world), before, world, app, Buckets);
        forall j | 0 <= j < i && Due(plan, old(world), app, Buckets, dests[j])
          ensures Attempted(world.events, app, Buckets, [], dests[j])
        {
          StillAttempted(before, world, app, Buckets, [], dests[j]);
        }
      }
    }

    method BucketsOn(app: string, dest: string)
      requires Valid() && plan.buckets(app) != [] && Allowed(plan, start, world, app, Buckets, dest)
      modifies this
      ensures Valid() && (old(refused) ==> refused) && Within(old(world), world, app, Buckets)
      ensures Owed() <= old(Owed())
      ensures Attempted(world.events, app, Buckets, [], dest)
      ensures forall d | d != dest && Due(plan, old(world), app, Buckets, d) :: Due(plan, world, app, Buckets, d)
    {
      var outcome := BucketsTo(app, dest);
      ghost var archived := world;
      StillAllowed(plan, start, old(world), archived, app, Buckets, dest);
      Record(app, Buckets, [], dest, outcome);
      assert Outcome(app, Buckets, [], dest, outcome) in world.events;
      GrewOn(old(world), archived, world);
      forall d | d != dest && Due(plan, old(world), app, Buckets, d) ensures Due(plan, world, app, Buckets, d) {
        StaysDue(plan, old(world), archived, app, Buckets, d);
        RecordingTouchesItsOwn(plan, archived, world.rows[|archived.rows|], app, Buckets, d);
      }
    }

    method AllBuckets()
      requires Valid() && DistinctApps(plan) && forall app :: DistinctNames(plan.bulky(app))
      modifies this
      ensures Valid() && (old(refused) ==> refused) && WithinKind(old(world), world, Buckets)
      ensures Owed() <= old(Owed())
      ensures forall k | 0 <= k < |plan.apps| && Served(plan, plan.apps[k])
                           && plan.buckets(plan.apps[k].0) != [] ::
                Tried(plan, old(world), world, plan.apps[k].0, Buckets, BucketDests(plan, plan.apps[k].0))
    {
      for k := 0 to |plan.apps|
        invariant Valid() && (old(refused) ==> refused) && WithinKind(old(world), world, Buckets)
        invariant Owed() <= old(Owed())
        invariant forall j | k <= j < |plan.apps| :: Quiet(old(world), world, plan.apps[j].0, Buckets)
        invariant forall j | 0 <= j < k && Served(plan, plan.apps[j])
                               && plan.buckets(plan.apps[j].0) != [] ::
                    Tried(plan, old(world), world, plan.apps[j].0, Buckets, BucketDests(plan, plan.apps[j].0))
      {
        var app := plan.apps[k].0;
        if !Served(plan, plan.apps[k]) { continue; }
        ghost var before := world;
        BucketsOf(app);
        WithinKindOn(old(world), before, world, Buckets);
        forall j | 0 <= j < k && Served(plan, plan.apps[j]) && plan.buckets(plan.apps[j].0) != []
          ensures Tried(plan, old(world), world, plan.apps[j].0, Buckets, BucketDests(plan, plan.apps[j].0))
        {
          var served := plan.apps[j].0;
          TriedSince(plan, old(world), old(world), before, world, served, Buckets, BucketDests(plan, served));
        }
        if plan.buckets(app) != [] {
          TriedSince(plan, old(world), before, world, world, app, Buckets, BucketDests(plan, app));
        }
      }
    }
  
    // ---- SQLite ------------------------------------------------------------------

    /** The critical destinations due, after those of `also`; `None` when there is none at all. */
    method DueWith(app: string, kind: Kind, also: seq<string>) returns (due: Option<seq<string>>)
      ensures due.None? <==> plan.critical(app) == [] && also == []
      ensures due.Some? ==>
                forall d :: d in due.value <==> d in also || (d in plan.critical(app) && Due(plan, world, app, kind, d))
    {
      var dests := plan.critical(app);
      if dests == [] && also == [] { return None; }
      var out := also;
      for i := 0 to |dests|
        invariant forall d :: d in out <==> d in also || (d in dests[..i] && Due(plan, world, app, kind, d))
      {
        assert dests[..i + 1] == dests[..i] + [dests[i]];
        if dests[i] !in out {
          var d := IsDue(app, kind, dests[i]);
          if d { out := out + [dests[i]]; }
        }
      }
      assert dests[..|dests|] == dests;
      due := Some(out);
    }

    /** Asked of all the apps first: once one database of an app is recorded, nothing of that kind
        is due for the app any more. */
    method DueOfEach(apps: seq<string>, kind: Kind, reached: map<string, seq<string>>)
      returns (due: map<string, Option<seq<string>>>)
      ensures forall i | 0 <= i < |apps| ::
                apps[i] in due && IsDueWith(plan, world, apps[i], kind, Also(reached, apps[i]), due[apps[i]])
    {
      due := map[];
      for i := 0 to |apps|
        invariant forall j | 0 <= j < i :: apps[j] in due
        invariant forall app | app in due :: IsDueWith(plan, world, app, kind, Also(reached, app), due[app])
      {
        if apps[i] !in due {
          var d := DueWith(apps[i], kind, Also(reached, apps[i]));
          due := due[apps[i] := d];
        }
      }
    }

    method FoundSqlite() returns (found: seq<BackedUp>)
      requires Valid()
      modifies this
      ensures Valid() && (old(refused) ==> refused) && WithinKind(old(world), world, Sqlite)
      ensures Owed() <= old(Owed())
      ensures world.rows == old(world).rows
      ensures forall b :: b in found <==> b in plan.backedUp && HoldsSqlite(plan, b)
      ensures forall b | b in plan.backedUp :: LookSaid(plan, world, b)
    {
      found := [];
      var all := plan.backedUp;
      for i := 0 to |all|
        invariant Valid() && (old(refused) ==> refused) && WithinKind(old(world), world, Sqlite)
        invariant Owed() <= old(Owed())
        invariant world.rows == old(world).rows
        invariant forall b :: b in found <==> b in all[..i] && HoldsSqlite(plan, b)
        invariant forall b | b in all[..i] :: LookSaid(plan, world, b)
      {
        var b := all[i];
        assert all[..i + 1] == all[..i] + [b];
        if !Includes(plan, b.app) { continue; }
        if !b.flagged {
          ghost var before := world;
          var looked := plan.looked(b.app, b.volume);
          ComplainUnless(looked.Some?, Failed(b.app, Sqlite, [b.volume], None));
          WithinKindOn(old(world), before, world, Sqlite);
          if looked != Some(true) { continue; }
        }
        found := found + [b];
      }
      assert all[..|all|] == all;
    }

    method SqliteOn(b: BackedUp, rel: string, dest: string)
      requires Valid() && Allowed(plan, start, world, b.app, Sqlite, dest)
      modifies this
      ensures Valid() && (old(refused) ==> refused) && WithinKind(old(world), world, Sqlite)
      ensures Owed() <= old(Owed())
      ensures Attempted(world.events, b.app, Sqlite, [b.volume, rel], dest)
    {
      var id := Archive(b.app, dest, DatabaseCopy(b.app, b.volume, rel, plan.token));
      ghost var archived := world;
      StillAllowed(plan, start, old(world), archived, b.app, Sqlite, dest);
      Record(b.app, Sqlite, [b.volume, rel], dest, id);
      assert Outcome(b.app, Sqlite, [b.volume, rel], dest, id) in world.events;
      WithinKindOn(old(world), archived, world, Sqlite);
    }

    /** Every database staged from the volume, to every destination. */
    method SqliteOf(b: BackedUp, dests: seq<string>)
      requires Valid() && AllAllowed(plan, start, world, b.app, Sqlite, dests)
      modifies this
      ensures Valid() && (old(refused) ==> refused) && WithinKind(old(world), world, Sqlite)
      ensures Owed() <= old(Owed())
      ensures SqliteTried(plan, world, b, dests)
    {
      var staged := plan.staged(b.app, b.volume);
      if staged.None? {
        Complain(Failed(b.app, Sqlite, [b.volume], None));
        assert Failed(b.app, Sqlite, [b.volume], None) in world.events;
        return;
      }
      var bases := staged.value;
      for i := 0 to |bases|
        invariant Valid() && (old(refused) ==> refused) && WithinKind(old(world), world, Sqlite)
        invariant Owed() <= old(Owed())
        invariant forall k | 0 <= k < i :: TriedOnEach(world, b.app, Sqlite, [b.volume, bases[k]], dests)
        invariant AllAllowed(plan, start, world, b.app, Sqlite, dests)
      {
        ghost var before := world;
        for j := 0 to |dests|
          invariant Valid() && (old(refused) ==> refused) && WithinKind(before, world, Sqlite)
          invariant Owed() <= old(Owed())
          invariant TriedOnEach(world, b.app, Sqlite, [b.volume, bases[i]], dests[..j])
          invariant AllAllowed(plan, start, world, b.app, Sqlite, dests)
        {
          ghost var earlier := world;
          assert dests[j] in dests;
          SqliteOn(b, bases[i], dests[j]);
          StillAllAllowed(plan, start, earlier, world, b.app, Sqlite, dests);
          WithinKindOn(before, earlier, world, Sqlite);
          TriedOnMore(earlier, world, b.app, Sqlite, [b.volume, bases[i]], dests, j);
        }
        assert dests[..|dests|] == dests;
        WithinKindOn(old(world), before, world, Sqlite);
        forall k | 0 <= k < i ensures TriedOnEach(world, b.app, Sqlite, [b.volume, bases[k]], dests) {
          StillTriedOnEach(before, world, b.app, Sqlite, [b.volume, bases[k]], dests);
        }
      }
    }

    method SqliteAsDue(b: BackedUp, due: map<string, Option<seq<string>>>)
      requires Valid() && b.app in due && DueAllowed(plan, start, world, b.app, Sqlite, due[b.app])
      requires b in plan.backedUp && HoldsSqlite(plan, b) && (due[b.app].None? ==> plan.critical(b.app) == [])
      modifies this
      ensures Valid() && (old(refused) ==> refused) && WithinKind(old(world), world, Sqlite)
      ensures Owed() <= old(Owed())
      ensures DestsServed(plan, world, b, due)
    {
      match due[b.app] {
        case None =>
          Complain(NotCovered(b.app, Sqlite, [b.volume]));
          assert world.events[|old(world).events|] == NotCovered(b.app, Sqlite, [b.volume]);
        case Some(dests) => if dests != [] { SqliteOf(b, dests); }
      }
    }

    method SqliteOfEach(found: seq<BackedUp>, due: map<string, Option<seq<string>>>)
      requires Valid()
      requires forall i | 0 <= i < |found| ::
                && found[i].app in due && DueAllowed(plan, start, world, found[i].app, Sqlite, due[found[i].app])
                && found[i] in plan.backedUp && HoldsSqlite(plan, found[i])
                && (due[found[i].app].None? ==> plan.critical(found[i].app) == [])
      modifies this
      ensures Valid() && (old(refused) ==> refused) && WithinKind(old(world), world, Sqlite)
      ensures Owed() <= old(Owed())
      ensures forall i | 0 <= i < |found| :: DestsServed(plan, world, found[i], due)
    {
      for i := 0 to |found|
        invariant Valid() && (old(refused) ==> refused) && WithinKind(old(world), world, Sqlite)
        invariant Owed() <= old(Owed())
        invariant forall j | 0 <= j < i :: DestsServed(plan, world, found[j], due)
      {
        ghost var before := world;
        StillDueAllowed(plan, start, old(world), world, found[i].app, Sqlite, due[found[i].app]);
        SqliteAsDue(found[i], due);
        WithinKindOn(old(world), before, world, Sqlite);
        forall j | 0 <= j < i ensures DestsServed(plan, world, found[j], due) {
          StillServed(plan, before, world, found[j], due);
        }
      }
    }

    /** What a pass reached with an app's volumes, and what its databases are due on, gets them
        all. */
    method AllSqlite(reached: map<string, seq<string>>)
      requires Valid() && ReachedIsSo(reached, world)
      modifies this
      ensures Valid() && (old(refused) ==> refused) && WithinKind(old(world), world, Sqlite)
      ensures Owed() <= old(Owed())
      ensures forall b | b in plan.backedUp && HoldsSqlite(plan, b) :: SqliteServed(plan, old(world), world, b, reached)
      ensures forall b | b in plan.backedUp :: LookSaid(plan, world, b)
    {
      var found := FoundSqlite();
      ghost var w1 := world;
      var apps := seq(|found|, i requires 0 <= i < |found| => found[i].app);
      var due := DueOfEach(apps, Sqlite, reached);
      StillReached(reached, old(world), world);
      forall i | 0 <= i < |found|
        ensures found[i].app in due && DueAllowed(plan, start, world, found[i].app, Sqlite, due[found[i].app])
        ensures found[i] in plan.backedUp && HoldsSqlite(plan, found[i])
        ensures due[found[i].app].None? ==> plan.critical(found[i].app) == []
      {
        assert apps[i] in due && found[i] in found;
        var also := Also(reached, apps[i]);
        DuesAreAllowed(plan, start, world, done, failed, refused, apps[i], Sqlite, also, due[apps[i]]);
      }
      SqliteOfEach(found, due);
      WithinKindOn(old(world), w1, world, Sqlite);
      StillLookSaid(plan, w1, world);
      forall b | b in plan.backedUp && HoldsSqlite(plan, b) ensures SqliteServed(plan, old(world), world, b, reached) {
        var j :| 0 <= j < |found| && found[j] == b;
        assert apps[j] in due;
        ServedAsDue(plan, old(world), w1, world, found[j], due, reached);
      }
    }
  
    // ---- Dumps -------------------------------------------------------------------

    method ArchiveOn(app: string, kind: Kind, item: seq<string>, dest: string, write: Write)
      returns (id: Option<string>)
      requires Valid() && write.Dump? && write.app == app
      requires Allowed(plan, start, world, app, kind, dest)
      requires (kind == SqlDump && item == [write.database]) || (kind == StateCopy && write.database == STATE_DATABASE)
      modifies this
      ensures Valid() && (old(refused) ==> refused) && WithinKind(old(world), world, kind)
      ensures Owed() <= old(Owed())
      ensures world.events == old(world).events + [Outcome(app, kind, item, dest, id)]
    {
      id := Archive(app, dest, write);
      ghost var archived := world;
      StillAllowed(plan, start, old(world), archived, app, kind, dest);
      Record(app, kind, item, dest, id);
      WithinKindOn(old(world), archived, world, kind);
    }

    method DumpTo(b: Base, dests: seq<string>, file: string)
      requires Valid() && AllAllowed(plan, start, world, b.app, SqlDump, dests)
      modifies this
      ensures Valid() && (old(refused) ==> refused) && WithinKind(old(world), world, SqlDump)
      ensures Owed() <= old(Owed())
      ensures TriedOnEach(world, b.app, SqlDump, [b.name], dests)
    {
      for j := 0 to |dests|
        invariant Valid() && (old(refused) ==> refused) && WithinKind(old(world), world, SqlDump)
        invariant Owed() <= old(Owed())
        invariant TriedOnEach(world, b.app, SqlDump, [b.name], dests[..j])
        invariant AllAllowed(plan, start, world, b.app, SqlDump, dests)
      {
        ghost var before := world;
        assert dests[j] in dests;
        var id := ArchiveOn(b.app, SqlDump, [b.name], dests[j], Dump(b.app, b.name, file));
        assert Outcome(b.app, SqlDump, [b.name], dests[j], id) in world.events;
        WithinKindOn(old(world), before, world, SqlDump);
        TriedOnMore(before, world, b.app, SqlDump, [b.name], dests, j);
        StillAllAllowed(plan, start, before, world, b.app, SqlDump, dests);
      }
      assert dests[..|dests|] == dests;
    }

    /** A dump that failed is recorded as going nowhere. */
    method RecordNowhere(app: string, kind: Kind)
      requires Valid()
      modifies this`world
      ensures Valid() && WithinKind(old(world), world, kind)
      ensures world == old(world).(rows := old(world).rows + [Row(app, kind, None, false, old(world).clock)])
    {
      ghost var w0 := world;
      world := world.(rows := world.rows + [Row(app, kind, None, false, world.clock)]);
      KeptRecording(plan, start, w0, world, done, failed, refused);
    }

    method DumpFailed(b: Base)
      requires Valid() && refused
      modifies this
      ensures Valid() && (old(refused) ==> refused) && WithinKind(old(world), world, SqlDump)
      ensures Owed() == old(Owed()) - 1
      ensures Failed(b.app, SqlDump, [b.name], None) in world.events
    {
      RecordNowhere(b.app, SqlDump);
      ghost var recorded := world;
      assert Row(b.app, SqlDump, None, false, world.clock) in world.rows;
      Complain(Failed(b.app, SqlDump, [b.name], None));
      WithinKindOn(old(world), recorded, world, SqlDump);
    }

    method DumpOf(b: Base, due: Option<seq<string>>)
      requires b in plan.databases && Includes(plan, b.app) && (due.None? ==> plan.critical(b.app) == [])
      requires Valid() && DueAllowed(plan, start, world, b.app, SqlDump, due)
      modifies this
      ensures Valid() && (old(refused) ==> refused) && WithinKind(old(world), world, SqlDump)
      ensures Owed() <= old(Owed())
      ensures if Dumpable(plan, b) && due.Some? then DumpTried(world, b, due.value)
              else NotCovered(b.app, SqlDump, [b.name]) in world.events
    {
      if b.engine !in {"postgres", "mariadb"} || b.engine !in plan.admins || due == None {
        Complain(NotCovered(b.app, SqlDump, [b.name]));
        assert world.events[|old(world).events|] == NotCovered(b.app, SqlDump, [b.name]);
        return;
      }
      if due.value == [] { return; }
      var dumped, file: string := *, *;
      Answer(dumped);
      if dumped { DumpTo(b, due.value, file); } else { DumpFailed(b); }
    }

    method AllDumps()
      requires Valid()
      modifies this
      ensures Valid() && (old(refused) ==> refused) && WithinKind(old(world), world, SqlDump)
      ensures Owed() <= old(Owed())
      ensures forall b | b in plan.databases && Includes(plan, b.app) :: DumpServed(plan, old(world), world, b)
    {
      var all := plan.databases;
      var apps := seq(|all|, i requires 0 <= i < |all| => all[i].app);
      var due := DueOfEach(apps, SqlDump, map[]);
      assert forall i | 0 <= i < |all| :: apps[i] == all[i].app;
      forall i | 0 <= i < |all| && Includes(plan, all[i].app)
        ensures all[i].app in due && DueAllowed(plan, start, world, all[i].app, SqlDump, due[all[i].app])
      {
        DuesAreAllowed(plan, start, world, done, failed, refused, all[i].app, SqlDump, [], due[all[i].app]);
      }
      for i := 0 to |all|
        invariant Valid() && (old(refused) ==> refused) && WithinKind(old(world), world, SqlDump)
        invariant Owed() <= old(Owed())
        invariant forall j | 0 <= j < |all| ::
                  all[j].app in due && IsDueWith(plan, old(world), all[j].app, SqlDump, [], due[all[j].app])
        invariant forall j | 0 <= j < i && Includes(plan, all[j].app) :: DumpServed(plan, old(world), world, all[j])
      {
        if !Includes(plan, all[i].app) { continue; }
        ghost var before := world;
        StillDueAllowed(plan, start, old(world), world, all[i].app, SqlDump, due[all[i].app]);
        DumpOf(all[i], due[all[i].app]);
        WithinKindOn(old(world), before, world, SqlDump);
        forall j | 0 <= j < i && Includes(plan, all[j].app) ensures DumpServed(plan, old(world), world, all[j]) {
          StillDumpServed(plan, old(world), before, world, all[j]);
        }
      }
    }

    // ---- Homelabus's own state ---------------------------------------------------

    method StateOn(dest: string, contents: set<(string, string)>)
      requires Valid() && Includes(plan, STATE_APP) && dest in plan.critical(STATE_APP)
      modifies this
      ensures Valid() && (old(refused) ==> refused) && StateOnly(old(world), world)
      ensures Owed() <= old(Owed())
      ensures AttemptedSince(old(world), world, dest)
      ensures CopiesSince(old(world), world, contents)
      ensures CopiesKept(old(world), world, contents)
    {
      ghost var w0 := world;
      var id := ArchiveOn(STATE_APP, StateCopy, [], dest, Dump(STATE_APP, STATE_DATABASE, "hlb-state.snapshot"));
      ghost var archived := world;
      assert Attempt(world.events[|w0.events|], STATE_APP, StateCopy, [], dest);
      if id.Some? { world := world.(copies := world.copies[id.value := contents]); }
      KeptRecording(plan, start, archived, world, done, failed, refused);
    }

    method StateTo(dests: seq<string>, contents: set<(string, string)>)
      requires Valid() && Includes(plan, STATE_APP) && forall d | d in dests :: d in plan.critical(STATE_APP)
      modifies this
      ensures Valid() && (old(refused) ==> refused) && StateOnly(old(world), world)
      ensures Owed() <= old(Owed())
      ensures CopiesSince(old(world), world, contents) && CopiesKept(old(world), world, contents)
      ensures forall d | d in dests :: AttemptedSince(old(world), world, d)
    {
      for j := 0 to |dests|
        invariant Valid() && (old(refused) ==> refused) && StateOnly(old(world), world)
        invariant Owed() <= old(Owed())
        invariant CopiesSince(old(world), world, contents) && CopiesKept(old(world), world, contents)
        invariant forall k | 0 <= k < j :: AttemptedSince(old(world), world, dests[k])
      {
        ghost var before := world;
        StateOn(dests[j], contents);
        StateGoesOn(old(world), before, world, dests, j, contents);
      }
    }

    /** `again`: that nothing accepts it was already said. */
    method StateSnapshot(again: bool)
      requires Valid() && Includes(plan, STATE_APP)
      modifies this
      ensures Valid() && (old(refused) ==> refused) && StateOnly(old(world), world)
      ensures Owed() <= old(Owed())
      ensures StateTried(plan, old(world), world, again)
      ensures CopiesSince(old(world), world, old(world).taken) && CopiesKept(old(world), world, old(world).taken)
    {
      var staged := *;
      Answer(staged);
      if !staged {
        Complain(Failed(STATE_APP, StateCopy, [], None));
        assert world.events[|old(world).events|] == Failed(STATE_APP, StateCopy, [], None);
        return;
      }
      var dests := plan.critical(STATE_APP);
      if dests == [] {
        ComplainUnless(again, NotCovered(STATE_APP, StateCopy, []));
        assert !again ==> world.events[|old(world).events|] == NotCovered(STATE_APP, StateCopy, []);
        return;
      }
      StateTo(dests, world.taken);
    }

    // ---- The whole pass ----------------------------------------------------------

    /** `anything`: something was done for the apps. */
    method Apps() returns (anything: bool)
      requires Valid() && DistinctApps(plan) && (forall app :: DistinctNames(plan.bulky(app)))
      requires forall e | e in world.events :: e.kind == StateCopy
      modifies this
      ensures Valid() && (old(refused) ==> refused) && AppsOnly(old(world), world)
      ensures Owed() <= old(Owed())
      ensures Complete(plan, old(world), world)
      ensures (exists e :: e in world.events && e.Done? && e.kind != StateCopy) ==> anything
    {
      ghost var w0 := world;
      var before := done;
      Open(plan, start, world, done, failed, refused);
      var reached := AllVolumes();
      ghost var w1 := world;
      AllBuckets();
      ghost var w2 := world;
      StillReached(reached, w1, w2);
      AllSqlite(reached);
      ghost var w3 := world;
      AllDumps();
      Completed(plan, w0, w1, w2, w3, world, reached);
      Open(plan, start, world, done, failed, refused);
      MoreDone(w0, world);
      anything := done > before;
    }

    /** Homelabus's state first, and last again once anything was done for the apps. */
    method Run()
      requires Valid() && world.events == [] && DistinctApps(plan) && (forall app :: DistinctNames(plan.bulky(app)))
      modifies this
      ensures Valid() && (old(refused) ==> refused) && Grew(old(world), world)
      // Every error answered since the pass began has a failure said for it.
      ensures Owed() <= old(Owed()) && (old(Owed()) == 0 ==> errors <= failed)
      ensures Tallied(plan, start, world, done, failed, refused)
      ensures Complete(plan, old(world), world)
      ensures StateFirst(plan, old(world).taken, world) && StateLast(plan, world)
    {
      if Includes(plan, STATE_APP) {
        StateSnapshot(false);
        BeginsWithState(plan, old(world), world);
      }
      ghost var w0 := world;
      var anything := Apps();
      ghost var w1 := world;
      Open(plan, start, world, done, failed, refused);
      if Includes(plan, STATE_APP) && anything {
        StateSnapshot(true);
        StateIsLast(plan, w0, w1, world);
      }
      if Includes(plan, STATE_APP) { StillBeginsWithState(plan, old(world).taken, w0, w1, world); }
      CompleteThroughout(plan, old(world), w0, w1, world);
      Open(plan, start, world, done, failed, refused);
    }
  }

  /** The tally moved exactly when something was done. */
  lemma MoreDone(w0: World, w: World)
    requires AppsOnly(w0, w) && forall e | e in w0.events :: e.kind == StateCopy
    ensures DoneIn(w.events) > DoneIn(w0.events) <==> exists e :: e in w.events && e.Done? && e.kind != StateCopy
  {
    var more := w.events[|w0.events|..];
    assert w.events == w0.events + more;
    DoneAfter(w0.events, more);
    SomeDone(more);
    OfTheApps(w0, w, more);
  }

  lemma OfTheApps(w0: World, w: World, more: seq<Event>)
    requires AppsOnly(w0, w) && w.events == w0.events + more && forall e | e in w0.events :: e.kind == StateCopy
    ensures forall e :: e in more <==> e in w.events && e.kind != StateCopy
  {
    assert forall i | 0 <= i < |more| :: more[i] == w.events[|w0.events| + i];
    assert forall e :: e in w.events <==> e in w0.events || e in more;
  }

  predicate AppsOnly(w0: World, w: World) {
    && Grew(w0, w) && w.copies == w0.copies
    && forall i | |w0.events| <= i < |w.events| :: w.events[i].kind != StateCopy
  }

  /** Whatever was due as the pass began was tried and said, item by item, whichever other
      failed; what nothing takes was said; and what the volumes of an app reached got its
      databases. */
  ghost predicate Complete(plan: Plan, w0: World, w: World) {
    && (forall k | 0 <= k < |plan.apps| && Served(plan, plan.apps[k]) ::
          var app := plan.apps[k].0;
          && (plan.volumes(app) != [] ==> Tried(plan, w0, w, app, Volumes, plan.bulky(app)))
          && (plan.buckets(app) != [] ==> Tried(plan, w0, w, app, Buckets, BucketDests(plan, app))))
    && (forall b | b in plan.backedUp && HoldsSqlite(plan, b) :: DatabasesServed(plan, w0, w, b))
    && (forall b | b in plan.backedUp :: LookSaid(plan, w, b))
    && (forall b | b in plan.databases && Includes(plan, b.app) :: DumpServed(plan, w0, w, b))
  }

  ghost predicate DatabasesServed(plan: Plan, w0: World, w: World, b: BackedUp) {
    && (plan.critical(b.app) == [] && (forall d :: !Reached(w.events, b.app, d)) ==>
          NotCovered(b.app, Sqlite, [b.volume]) in w.events)
    && forall d | Reached(w.events, b.app, d) || (d in plan.critical(b.app) && Due(plan, w0, b.app, Sqlite, d)) ::
         SqliteTried(plan, w, b, [d])
  }

  /** That nobody could look for databases in the volume is said. */
  predicate Unlooked(plan: Plan, b: BackedUp) {
    Includes(plan, b.app) && !b.flagged && plan.looked(b.app, b.volume) == None
  }

  predicate LookSaid(plan: Plan, w: World, b: BackedUp) {
    Unlooked(plan, b) ==> Failed(b.app, Sqlite, [b.volume], None) in w.events
  }

  lemma StillLookSaid(plan: Plan, w: World, w': World)
    requires Grew(w, w') && forall b | b in plan.backedUp :: LookSaid(plan, w, b)
    ensures forall b | b in plan.backedUp :: LookSaid(plan, w', b)
  {
  }

  lemma Completed(plan: Plan, w0: World, w1: World, w2: World, w3: World, w: World, reached: map<string, seq<string>>)
    requires WithinKind(w0, w1, Volumes) && WithinKind(w1, w2, Buckets) && WithinKind(w2, w3, Sqlite)
    requires WithinKind(w3, w, SqlDump)
    requires forall e | e in w0.events :: e.kind == StateCopy
    requires forall k | 0 <= k < |plan.apps| && Served(plan, plan.apps[k]) && plan.volumes(plan.apps[k].0) != [] ::
               Tried(plan, w0, w1, plan.apps[k].0, Volumes, plan.bulky(plan.apps[k].0))
    requires AllReached(reached, w0, w1)
    requires forall k | 0 <= k < |plan.apps| && Served(plan, plan.apps[k])
                          && plan.buckets(plan.apps[k].0) != [] ::
               Tried(plan, w1, w2, plan.apps[k].0, Buckets, BucketDests(plan, plan.apps[k].0))
    requires forall b | b in plan.backedUp && HoldsSqlite(plan, b) :: SqliteServed(plan, w2, w3, b, reached)
    requires (forall b | b in plan.backedUp :: LookSaid(plan, w3, b)) && ReachedIsSo(reached, w2)
    requires forall b | b in plan.databases && Includes(plan, b.app) :: DumpServed(plan, w3, w, b)
    ensures AppsOnly(w0, w) && Complete(plan, w0, w)
  {
    GrewOn(w0, w1, w2);
    GrewOn(w0, w2, w3);
    GrewOn(w0, w3, w);
    GrewOn(w1, w2, w3);
    GrewOn(w1, w3, w);
    GrewOn(w2, w3, w);
    forall k | 0 <= k < |plan.apps| && Served(plan, plan.apps[k])
      ensures plan.volumes(plan.apps[k].0) != [] ==>
                Tried(plan, w0, w, plan.apps[k].0, Volumes, plan.bulky(plan.apps[k].0))
      ensures plan.buckets(plan.apps[k].0) != [] ==>
                Tried(plan, w0, w, plan.apps[k].0, Buckets, BucketDests(plan, plan.apps[k].0))
    {
      var app := plan.apps[k].0;
      if plan.volumes(app) != [] { TriedSince(plan, w0, w0, w1, w, app, Volumes, plan.bulky(app)); }
      if plan.buckets(app) != [] { TriedSince(plan, w0, w1, w2, w, app, Buckets, BucketDests(plan, app)); }
    }
    forall b | b in plan.backedUp && HoldsSqlite(plan, b) ensures DatabasesServed(plan, w0, w, b) {
      DatabasesFollow(plan, w0, w1, w2, w3, w, b, reached);
    }
    forall b | b in plan.databases && Includes(plan, b.app) ensures DumpServed(plan, w0, w, b) {
      DumpServedSince(plan, w0, w3, w, b);
    }
    StillLookSaid(plan, w3, w);
  }

  /** What was said of volumes was said in their phase. */
  lemma ReachedIsKnown(w0: World, w1: World, w2: World, w3: World, w: World, app: string, d: string,
                       reached: map<string, seq<string>>)
    requires WithinKind(w0, w1, Volumes) && WithinKind(w1, w2, Buckets) && WithinKind(w2, w3, Sqlite)
    requires WithinKind(w3, w, SqlDump)
    requires forall e | e in w0.events :: e.kind == StateCopy
    requires AllReached(reached, w0, w1)
    requires Reached(w.events, app, d)
    ensures d in Also(reached, app)
  {
    var e :| e in w.events && e.Done? && e.app == app && e.kind == Volumes && e.dest == d;
    var i :| 0 <= i < |w.events| && w.events[i] == e;
    assert forall j | 0 <= j < |w0.events| :: w0.events[j] in w0.events && w.events[j] == w0.events[j];
    assert w1.events[i] == e;
  }

  lemma NoneReached(reached: map<string, seq<string>>, w: World, w': World, app: string)
    requires ReachedIsSo(reached, w) && Grew(w, w') && forall d :: !Reached(w'.events, app, d)
    ensures Also(reached, app) == []
  {
    if app in reached && reached[app] != [] {
      assert reached[app][0] in reached[app];
      StayReached(w, w', app, reached[app][0]);
    }
  }

  lemma DatabasesFollow(plan: Plan, w0: World, w1: World, w2: World, w3: World, w: World, b: BackedUp,
                        reached: map<string, seq<string>>)
    requires WithinKind(w0, w1, Volumes) && WithinKind(w1, w2, Buckets) && WithinKind(w2, w3, Sqlite)
    requires WithinKind(w3, w, SqlDump)
    requires forall e | e in w0.events :: e.kind == StateCopy
    requires AllReached(reached, w0, w1)
    requires Grew(w0, w2) && SqliteServed(plan, w2, w3, b, reached) && ReachedIsSo(reached, w2)
    ensures DatabasesServed(plan, w0, w, b)
  {
    GrewOn(w2, w3, w);
    if forall d :: !Reached(w.events, b.app, d) { NoneReached(reached, w2, w, b.app); }
    forall d | Reached(w.events, b.app, d) || (d in plan.critical(b.app) && Due(plan, w0, b.app, Sqlite, d))
      ensures SqliteTried(plan, w, b, [d])
    {
      if Reached(w.events, b.app, d) {
        ReachedIsKnown(w0, w1, w2, w3, w, b.app, d, reached);
      } else {
        StaysDue(plan, w0, w2, b.app, Sqlite, d);
      }
      StillSqliteTried(plan, w3, w, b, [d]);
    }
  }

  /** Whatever the apps do, Homelabus's own state was tried before them on every destination
      that takes it, or it was said that it could not be staged, or that nothing takes it; and
      each copy made knows every snapshot recorded as the pass began. */
  ghost predicate StateFirst(plan: Plan, taken: set<(string, string)>, w: World) {
    Includes(plan, STATE_APP) ==> exists n: nat :: n <= |w.events| && StateBegins(plan, taken, w, n)
  }

  /** The first `n` things said are of the state. */
  predicate StateBegins(plan: Plan, taken: set<(string, string)>, w: World, n: nat)
    requires n <= |w.events|
  {
    var first := w.events[..n];
    && (forall e | e in first :: e.kind == StateCopy)
    && (|| Failed(STATE_APP, StateCopy, [], None) in first
        || if plan.critical(STATE_APP) == [] then NotCovered(STATE_APP, StateCopy, []) in first
           else forall d | d in plan.critical(STATE_APP) :: Attempted(first, STATE_APP, StateCopy, [], d))
    && (forall e | e in first && e.Done? :: e.id in w.copies && taken <= w.copies[e.id])
  }

  lemma BeginsWithState(plan: Plan, w0: World, w: World)
    requires w0.events == [] && StateOnly(w0, w) && StateTried(plan, w0, w, false) && CopiesSince(w0, w, w0.taken)
    ensures StateBegins(plan, w0.taken, w, |w.events|)
  {
    assert w.events[..|w.events|] == w.events;
    forall d | AttemptedSince(w0, w, d) ensures Attempted(w.events, STATE_APP, StateCopy, [], d) {
      var i :| 0 <= i < |w.events| && Attempt(w.events[i], STATE_APP, StateCopy, [], d);
      assert w.events[i] in w.events;
    }
  }

  lemma StillBeginsWithState(plan: Plan, taken: set<(string, string)>, w0: World, w1: World, w: World)
    requires StateBegins(plan, taken, w0, |w0.events|) && AppsOnly(w0, w1) && Grew(w1, w) && taken <= w1.taken
    requires CopiesKept(w1, w, w1.taken)
    ensures StateBegins(plan, taken, w, |w0.events|)
  {
    assert w.events[..|w0.events|] == w0.events == w0.events[..|w0.events|];
  }

  /** Once anything was done for the apps, copies of the state were tried after all of it:
      each that was made knows every snapshot that was said to be taken. */
  ghost predicate StateLast(plan: Plan, w: World) {
    Includes(plan, STATE_APP) && (exists e :: e in w.events && e.Done? && e.kind != StateCopy) ==>
      exists before: World :: before.events <= w.events && StateTried(plan, before, w, true)
        && (forall e | e in w.events && e.kind != StateCopy :: e in before.events)
        && (forall i | |before.events| <= i < |w.events| && w.events[i].Done? :: KnowsAllDone(w, w.events[i].id))
  }

  predicate KnowsAllDone(w: World, id: string) {
    id in w.copies && forall e | e in w.events && e.Done? && e.kind != StateCopy :: (e.app, e.id) in w.copies[id]
  }

  // ---- From one pass to the next -------------------------------------------------

  /** What never succeeded there, or last did `every` or more before the pass began, is tried
      there by the pass, or what kept it from any destination is said. */
  lemma TriedAgain(plan: Plan, start: World, w: World, app: string, kind: Kind, dest: string)
    requires Complete(plan, start, w)
    requires forall t: int | LastSuccess(start.rows, app, kind, dest, t) ::
               t <= start.clock && start.clock - t >= plan.every
    ensures kind == Volumes && Served(plan, (app, true)) && (app, true) in plan.apps && dest in plan.bulky(app) ==>
              plan.volumes(app) != [] ==> Attempted(w.events, app, Volumes, [], dest)
    ensures kind == Buckets && Served(plan, (app, true)) && (app, true) in plan.apps && dest in plan.bulky(app) ==>
              plan.buckets(app) != [] && plan.s3 ==> Attempted(w.events, app, Buckets, [], dest)
    ensures kind == Sqlite && dest in plan.critical(app) ==>
              forall b | b in plan.backedUp && b.app == app && HoldsSqlite(plan, b) :: SqliteTried(plan, w, b, [dest])
    ensures kind == SqlDump && dest in plan.critical(app) ==>
              forall b | b in plan.databases && b.app == app && Dumpable(plan, b) ::
                || Failed(app, SqlDump, [b.name], None) in w.events
                || Attempted(w.events, app, SqlDump, [b.name], dest)
  {
    SomeLastSuccess(start.rows, app, kind, dest);
    DueMeans(plan, start, app, kind, dest);
    assert Due(plan, start, app, kind, dest);
  }

  /** A pass over before then does not try it there, unless forced; nor more than the app's
      volumes went there, for its databases. */
  lemma NotTriedSooner(plan: Plan, start: World, w: World, done: nat, failed: nat, refused: bool, app: string,
                       kind: Kind, dest: string, t: int)
    requires Tallied(plan, start, w, done, failed, refused) && !plan.force
    requires LastSuccess(start.rows, app, kind, dest, t) && t <= w.clock && w.clock - t < plan.every
    requires kind != StateCopy && (kind == Sqlite ==> !Reached(w.events, app, dest))
    ensures forall item :: !Attempted(w.events, app, kind, item, dest)
  {
    DueMeans(plan, start.(clock := w.clock), app, kind, dest);
  }

  lemma StateIsLast(plan: Plan, w0: World, w1: World, w: World)
    requires StateOnly(w1, w) && StateTried(plan, w1, w, true) && Honest(plan, w1)
    requires CopiesSince(w1, w, w1.taken)
    ensures StateLast(plan, w)
  {
    forall e | e in w.events && e.kind != StateCopy ensures e in w1.events {
      var i :| 0 <= i < |w.events| && w.events[i] == e;
      assert i < |w1.events|;
    }
    assert forall e | e in w1.events :: True(plan, w1, e);
  }

  lemma CompleteThroughout(plan: Plan, w0: World, w1: World, w2: World, w: World)
    requires StateOnly(w0, w1) && AppsOnly(w1, w2) && Complete(plan, w1, w2) && StateOnly(w2, w)
    ensures Grew(w0, w) && Complete(plan, w0, w)
  {
    GrewOn(w0, w1, w2);
    GrewOn(w0, w2, w);
    forall k | 0 <= k < |plan.apps| && Served(plan, plan.apps[k])
      ensures plan.volumes(plan.apps[k].0) != [] ==>
                Tried(plan, w0, w, plan.apps[k].0, Volumes, plan.bulky(plan.apps[k].0))
      ensures plan.buckets(plan.apps[k].0) != [] ==>
                Tried(plan, w0, w, plan.apps[k].0, Buckets, BucketDests(plan, plan.apps[k].0))
    {
      var app := plan.apps[k].0;
      if plan.volumes(app) != [] { TriedSince(plan, w0, w1, w2, w, app, Volumes, plan.bulky(app)); }
      if plan.buckets(app) != [] { TriedSince(plan, w0, w1, w2, w, app, Buckets, BucketDests(plan, app)); }
    }
    forall b | b in plan.backedUp && HoldsSqlite(plan, b) ensures DatabasesServed(plan, w0, w, b) {
      ServedThroughout(plan, w0, w1, w2, w, b);
    }
    forall b | b in plan.databases && Includes(plan, b.app) ensures DumpServed(plan, w0, w, b) {
      DumpServedSince(plan, w0, w1, w2, b);
      StillDumpServed(plan, w0, w2, w, b);
    }
    StillLookSaid(plan, w2, w);
  }

  lemma ServedThroughout(plan: Plan, w0: World, w1: World, w2: World, w: World, b: BackedUp)
    requires StateOnly(w0, w1) && StateOnly(w2, w) && DatabasesServed(plan, w1, w2, b)
    ensures DatabasesServed(plan, w0, w, b)
  {
    forall d | Reached(w.events, b.app, d) || (d in plan.critical(b.app) && Due(plan, w0, b.app, Sqlite, d))
      ensures SqliteTried(plan, w, b, [d])
    {
      if Reached(w.events, b.app, d) {
        assert Reached(w2.events, b.app, d);
      } else {
        StaysDue(plan, w0, w1, b.app, Sqlite, d);
      }
      StillSqliteTried(plan, w2, w, b, [d]);
    }
  }

  predicate DumpTried(w: World, b: Base, dests: seq<string>) {
    dests == [] || Failed(b.app, SqlDump, [b.name], None) in w.events || TriedOnEach(w, b.app, SqlDump, [b.name], dests)
  }

  predicate DumpServed(plan: Plan, w0: World, w: World, b: Base) {
    if !Dumpable(plan, b) || plan.critical(b.app) == [] then NotCovered(b.app, SqlDump, [b.name]) in w.events
    else
      || Failed(b.app, SqlDump, [b.name], None) in w.events
      || forall d | d in plan.critical(b.app) && Due(plan, w0, b.app, SqlDump, d) ::
           Attempted(w.events, b.app, SqlDump, [b.name], d)
  }

  /** As it was due earlier. */
  lemma DumpServedSince(plan: Plan, w0: World, w1: World, w: World, b: Base)
    requires Grew(w0, w1) && Quiet(w0, w1, b.app, SqlDump) && DumpServed(plan, w1, w, b)
    ensures DumpServed(plan, w0, w, b)
  {
    forall d | Due(plan, w0, b.app, SqlDump, d) ensures Due(plan, w1, b.app, SqlDump, d) {
      StaysDue(plan, w0, w1, b.app, SqlDump, d);
    }
  }

  lemma StillDumpServed(plan: Plan, w0: World, w: World, w': World, b: Base)
    requires Grew(w, w') && DumpServed(plan, w0, w, b)
    ensures DumpServed(plan, w0, w', b)
  {
    if Dumpable(plan, b) && plan.critical(b.app) != [] && Failed(b.app, SqlDump, [b.name], None) !in w.events {
      forall d | d in plan.critical(b.app) && Due(plan, w0, b.app, SqlDump, d)
        ensures Attempted(w'.events, b.app, SqlDump, [b.name], d)
      {
        StillAttempted(w, w', b.app, SqlDump, [b.name], d);
      }
    }
  }

  predicate StateOnly(w0: World, w: World) {
    && Grew(w0, w)
    && (forall i | |w0.rows| <= i < |w.rows| :: w.rows[i].kind == StateCopy)
    && (forall i | |w0.events| <= i < |w.events| :: w.events[i].kind == StateCopy)
  }

  predicate AttemptedSince(w0: World, w: World, dest: string) {
    exists i :: |w0.events| <= i < |w.events| && Attempt(w.events[i], STATE_APP, StateCopy, [], dest)
  }

  /** What was archived since holds `contents`. */
  predicate CopiesSince(w0: World, w: World, contents: set<(string, string)>) {
    forall i | |w0.events| <= i < |w.events| && w.events[i].Done? ::
      w.events[i].id in w.copies && w.copies[w.events[i].id] == contents
  }

  /** A copy made before is as it was, or was made again of `contents` under its id. */
  predicate CopiesKept(w0: World, w: World, contents: set<(string, string)>) {
    forall id | id in w0.copies :: id in w.copies && (w.copies[id] == w0.copies[id] || w.copies[id] == contents)
  }

  lemma StateGoesOn(w0: World, w1: World, w: World, dests: seq<string>, j: nat, contents: set<(string, string)>)
    requires StateOnly(w0, w1) && StateOnly(w1, w) && j < |dests|
    requires CopiesSince(w0, w1, contents) && CopiesSince(w1, w, contents)
    requires CopiesKept(w0, w1, contents) && CopiesKept(w1, w, contents)
    requires forall k | 0 <= k < j :: AttemptedSince(w0, w1, dests[k])
    requires AttemptedSince(w1, w, dests[j])
    ensures StateOnly(w0, w) && CopiesSince(w0, w, contents) && CopiesKept(w0, w, contents)
    ensures forall k | 0 <= k <= j :: AttemptedSince(w0, w, dests[k])
  {
    GrewOn(w0, w1, w);
    forall k | 0 <= k <= j ensures AttemptedSince(w0, w, dests[k]) {
      if k < j {
        var i :| |w0.events| <= i < |w1.events| && Attempt(w1.events[i], STATE_APP, StateCopy, [], dests[k]);
        assert Attempt(w.events[i], STATE_APP, StateCopy, [], dests[k]);
      }
    }
  }

  /** The state was tried on every destination since `w0`, or could not be staged, or nothing
      accepts it: said then, but `again`. */
  predicate StateTried(plan: Plan, w0: World, w: World, again: bool) {
    || (exists i :: |w0.events| <= i < |w.events| && w.events[i] == Failed(STATE_APP, StateCopy, [], None))
    || if plan.critical(STATE_APP) == [] then
         again || exists i :: |w0.events| <= i < |w.events| && w.events[i] == NotCovered(STATE_APP, StateCopy, [])
       else forall d | d in plan.critical(STATE_APP) :: AttemptedSince(w0, w, d)
  }

  function Also(reached: map<string, seq<string>>, app: string): seq<string> {
    if app in reached then reached[app] else []
  }

  ghost predicate IsDueWith(plan: Plan, w: World, app: string, kind: Kind, also: seq<string>,
                            due: Option<seq<string>>) {
    && (due.None? <==> plan.critical(app) == [] && also == [])
    && (due.Some? ==>
          forall d :: d in due.value <==> d in also || (d in plan.critical(app) && Due(plan, w, app, kind, d)))
  }

  /** Each destination decided on may be tried. */
  predicate DueAllowed(plan: Plan, start: World, w: World, app: string, kind: Kind, due: Option<seq<string>>) {
    due.Some? ==> AllAllowed(plan, start, w, app, kind, due.value)
  }

  lemma StillDueAllowed(plan: Plan, start: World, w0: World, w: World, app: string, kind: Kind,
                        due: Option<seq<string>>)
    requires Grew(w0, w) && DueAllowed(plan, start, w0, app, kind, due)
    ensures DueAllowed(plan, start, w, app, kind, due)
  {
    if due.Some? { StillAllAllowed(plan, start, w0, w, app, kind, due.value); }
  }

  lemma DuesAreAllowed(plan: Plan, start: World, w: World, done: nat, failed: nat, refused: bool, app: string,
                       kind: Kind,
                       also: seq<string>, due: Option<seq<string>>)
    requires Kept(plan, start, w, done, failed, refused) && IsDueWith(plan, w, app, kind, also, due)
    requires (kind == Sqlite || kind == SqlDump) && Includes(plan, app)
    requires forall d | d in also :: kind == Sqlite && Reached(w.events, app, d)
    ensures DueAllowed(plan, start, w, app, kind, due)
  {
    if due.Some? {
      forall d | d in due.value ensures Allowed(plan, start, w, app, kind, d) {
        if Due(plan, w, app, kind, d) { DueIsAllowed(plan, start, w, done, failed, refused, app, kind, d); }
      }
    }
  }

  predicate TriedOnEach(w: World, app: string, kind: Kind, item: seq<string>, dests: seq<string>) {
    forall d | d in dests :: Attempted(w.events, app, kind, item, d)
  }

  lemma StillTriedOnEach(w: World, w': World, app: string, kind: Kind, item: seq<string>, dests: seq<string>)
    requires Grew(w, w') && TriedOnEach(w, app, kind, item, dests)
    ensures TriedOnEach(w', app, kind, item, dests)
  {
    forall d | d in dests ensures Attempted(w'.events, app, kind, item, d) {
      StillAttempted(w, w', app, kind, item, d);
    }
  }

  lemma TriedOnMore(w: World, w': World, app: string, kind: Kind, item: seq<string>, dests: seq<string>, j: nat)
    requires Grew(w, w') && j < |dests| && TriedOnEach(w, app, kind, item, dests[..j])
    requires Attempted(w'.events, app, kind, item, dests[j])
    ensures TriedOnEach(w', app, kind, item, dests[..j + 1])
  {
    StillTriedOnEach(w, w', app, kind, item, dests[..j]);
    assert dests[..j + 1] == dests[..j] + [dests[j]];
  }

  /** Each database staged from the volume was tried on each destination; that none could be
      staged was said. */
  predicate SqliteTried(plan: Plan, w: World, b: BackedUp, dests: seq<string>) {
    match plan.staged(b.app, b.volume)
    case None => Failed(b.app, Sqlite, [b.volume], None) in w.events
    case Some(bases) => forall k | 0 <= k < |bases| :: TriedOnEach(w, b.app, Sqlite, [b.volume, bases[k]], dests)
  }

  lemma StillSqliteTried(plan: Plan, w: World, w': World, b: BackedUp, dests: seq<string>)
    requires Grew(w, w') && SqliteTried(plan, w, b, dests)
    ensures SqliteTried(plan, w', b, dests)
  {
    match plan.staged(b.app, b.volume)
    case None =>
    case Some(bases) =>
      forall k | 0 <= k < |bases| ensures TriedOnEach(w', b.app, Sqlite, [b.volume, bases[k]], dests) {
        StillTriedOnEach(w, w', b.app, Sqlite, [b.volume, bases[k]], dests);
      }
  }

  predicate DestsServed(plan: Plan, w: World, b: BackedUp, due: map<string, Option<seq<string>>>) {
    && b.app in due && (due[b.app].Some? && due[b.app].value != [] ==> SqliteTried(plan, w, b, due[b.app].value))
    && (due[b.app].None? ==> NotCovered(b.app, Sqlite, [b.volume]) in w.events)
  }

  lemma StillServed(plan: Plan, w: World, w': World, b: BackedUp, due: map<string, Option<seq<string>>>)
    requires Grew(w, w') && DestsServed(plan, w, b, due)
    ensures DestsServed(plan, w', b, due)
  {
    if due[b.app].Some? && due[b.app].value != [] { StillSqliteTried(plan, w, w', b, due[b.app].value); }
  }

  /** Where an app's databases go: where its volumes went, and where they are due. */
  ghost predicate SqliteServed(plan: Plan, w0: World, w: World, b: BackedUp, reached: map<string, seq<string>>) {
    && (plan.critical(b.app) == [] && Also(reached, b.app) == [] ==> NotCovered(b.app, Sqlite, [b.volume]) in w.events)
    && forall d | d in Also(reached, b.app) || (d in plan.critical(b.app) && Due(plan, w0, b.app, Sqlite, d)) ::
         SqliteTried(plan, w, b, [d])
  }

  lemma ServedAsDue(plan: Plan, w0: World, w1: World, w: World, b: BackedUp, due: map<string, Option<seq<string>>>,
                    reached: map<string, seq<string>>)
    requires Grew(w0, w1) && w1.rows == w0.rows
    requires DestsServed(plan, w, b, due) && IsDueWith(plan, w1, b.app, Sqlite, Also(reached, b.app), due[b.app])
    ensures SqliteServed(plan, w0, w, b, reached)
  {
    forall d | d in Also(reached, b.app) || (d in plan.critical(b.app) && Due(plan, w0, b.app, Sqlite, d))
      ensures SqliteTried(plan, w, b, [d])
    {
      if Due(plan, w0, b.app, Sqlite, d) { StaysDue(plan, w0, w1, b.app, Sqlite, d); }
      assert d in due[b.app].value;
    }
  }

  predicate DistinctApps(plan: Plan) {
    forall j, k | 0 <= j < k < |plan.apps| :: plan.apps[j].0 != plan.apps[k].0
  }

  predicate DistinctNames(names: seq<string>) {
    forall j, k | 0 <= j < k < |names| :: names[j] != names[k]
  }

  /** What the volumes are said to have reached, they did. */
  ghost predicate ReachedIsSo(reached: map<string, seq<string>>, w: World) {
    forall app, d | app in reached && d in reached[app] :: Reached(w.events, app, d)
  }

  lemma StayReached(w0: World, w: World, app: string, d: string)
    requires Grew(w0, w) && Reached(w0.events, app, d)
    ensures Reached(w.events, app, d)
  {
    var e :| e in w0.events && e.Done? && e.app == app && e.kind == Volumes && e.dest == d;
    assert e in w.events;
  }

  lemma StillReached(reached: map<string, seq<string>>, w0: World, w: World)
    requires Grew(w0, w) && ReachedIsSo(reached, w0)
    ensures ReachedIsSo(reached, w)
  {
    forall app, d | app in reached && d in reached[app] ensures Reached(w.events, app, d) {
      StayReached(w0, w, app, d);
    }
  }

  /** The first `i` of `due` were said, and `to` is those reached. */
  ghost predicate Told(w0: World, w: World, app: string, due: seq<string>, to: seq<string>, i: nat)
    requires i <= |due|
  {
    && |w.events| == |w0.events| + i
    && (forall j | |w0.events| <= j < |w.events| ::
          && Attempt(w.events[j], app, Volumes, [], due[j - |w0.events|])
          && (w.events[j].Done? ==> w.events[j].dest in to))
    && (forall d | d in to :: Reached(w.events, app, d))
  }

  lemma ToldMore(w0: World, w1: World, w: World, app: string, due: seq<string>, to: seq<string>, i: nat)
    requires i < |due| && Told(w0, w1, app, due, to, i) && Grew(w1, w) && |w.events| == |w1.events| + 1
    requires Attempt(w.events[|w1.events|], app, Volumes, [], due[i])
    ensures Told(w0, w, app, due, if w.events[|w1.events|].Done? then to + [due[i]] else to, i + 1)
  {
    var to' := if w.events[|w1.events|].Done? then to + [due[i]] else to;
    forall d | d in to' ensures Reached(w.events, app, d) {
      if d in to { StayReached(w1, w, app, d); } else { assert w.events[|w1.events|] in w.events; }
    }
    assert forall j | 0 <= j < |w1.events| :: w.events[j] == w1.events[j];
  }

  lemma ToldAll(w0: World, w: World, app: string, due: seq<string>, to: seq<string>)
    requires Told(w0, w, app, due, to, |due|)
    ensures forall d | d in due :: Attempted(w.events, app, Volumes, [], d)
  {
    forall d | d in due ensures Attempted(w.events, app, Volumes, [], d) {
      var k :| 0 <= k < |due| && due[k] == d;
      assert Attempt(w.events[|w0.events| + k], app, Volumes, [], d);
    }
  }

  predicate IsReached(reached: map<string, seq<string>>, e: Event) {
    e.Done? ==> e.app in reached && e.dest in reached[e.app]
  }

  /** What was said to be done since `w0` is known. */
  predicate AllReached(reached: map<string, seq<string>>, w0: World, w: World) {
    forall i | |w0.events| <= i < |w.events| && w.events[i].Done? :: IsReached(reached, w.events[i])
  }

  lemma ReachedMore(reached: map<string, seq<string>>, w0: World, w1: World, w: World, app: string, to: seq<string>)
    requires AllReached(reached, w0, w1) && ReachedIsSo(reached, w1) && Within(w1, w, app, Volumes)
    requires forall i | |w1.events| <= i < |w.events| && w.events[i].Done? :: w.events[i].dest in to
    requires forall d | d in to :: Reached(w.events, app, d)
    ensures var more := if to == [] then reached else reached[app := Also(reached, app) + to];
            AllReached(more, w0, w) && ReachedIsSo(more, w)
  {
    var more := if to == [] then reached else reached[app := Also(reached, app) + to];
    StillReached(reached, w1, w);
    forall i | |w0.events| <= i < |w.events| && w.events[i].Done? ensures IsReached(more, w.events[i]) {
      if i < |w1.events| { assert w.events[i] == w1.events[i] && IsReached(reached, w1.events[i]); }
    }
  }

  /** What was copied so far is recorded, and in the repository. */
  predicate SoFar(plan: Plan, w: World, app: string, due: seq<string>, outcomes: seq<Option<string>>)
    requires |outcomes| <= |due|
  {
    forall j | 0 <= j < |outcomes| && outcomes[j].Some? ::
      True(plan, w, Done(app, Volumes, [], due[j], outcomes[j].value))
  }

  lemma SoFarMore(plan: Plan, w0: World, w: World, app: string, due: seq<string>, outcomes: seq<Option<string>>,
                  outcome: Option<string>)
    requires |outcomes| < |due| && Grew(w0, w) && w.rows == w0.rows && SoFar(plan, w0, app, due, outcomes)
    requires outcome.Some? ==> True(plan, w, Done(app, Volumes, [], due[|outcomes|], outcome.value))
    ensures SoFar(plan, w, app, due, outcomes + [outcome])
  {
    StillSo(plan, w0, w, app, due, outcomes);
    var more := outcomes + [outcome];
    forall j | 0 <= j < |more| && more[j].Some?
      ensures True(plan, w, Done(app, Volumes, [], due[j], more[j].value))
    {
      if j < |outcomes| { assert more[j] == outcomes[j]; } else { assert more[j] == outcome; }
    }
  }

  lemma NonesMore(outcomes: seq<Option<string>>, outcome: Option<string>)
    ensures Nones(outcomes + [outcome]) == Nones(outcomes) + OneIf(outcome.None?)
    ensures None in outcomes + [outcome] <==> None in outcomes || outcome.None?
  {
    assert (outcomes + [outcome])[..|outcomes|] == outcomes;
  }

  lemma StillSo(plan: Plan, w0: World, w: World, app: string, due: seq<string>, outcomes: seq<Option<string>>)
    requires Grew(w0, w) && |outcomes| <= |due| && SoFar(plan, w0, app, due, outcomes)
    ensures SoFar(plan, w, app, due, outcomes)
  {
    forall j | 0 <= j < |outcomes| && outcomes[j].Some?
      ensures True(plan, w, Done(app, Volumes, [], due[j], outcomes[j].value))
    {
      LogGrew(w0, w, due[j]);
      assert forall x | x in LogOf(w0, due[j]) :: x in LogOf(w, due[j]);
    }
  }
}
