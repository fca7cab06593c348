/** What a backup pass reads and leaves: the state's rows, the repositories, what it says. */
module PassWorld {
  import opened Wrappers
  import opened Repository

  const STATE_APP := "hlb"
  const STATE_DATABASE := "state"

  datatype Kind = Volumes | Buckets | Sqlite | SqlDump | StateCopy

  /** A row of the runs; `dest` is `None` when a dump failed before any destination. */
  datatype Row = Row(app: string, kind: Kind, dest: Option<string>, ok: bool, at: int)

  /** `item`: nothing for all of an app's, a database, a volume, or a volume and the database
      in it. */
  datatype Event =
    | Done(app: string, kind: Kind, item: seq<string>, dest: string, id: string)
    | Failed(app: string, kind: Kind, item: seq<string>, to: Option<string>)
    | NotCovered(app: string, kind: Kind, item: seq<string>)

  datatype World = World(
    clock: int,
    rows: seq<Row>,
    /** What each destination's repository holds. */
    logs: map<string, seq<Entry>>,
    /** The ids the state recorded as taken, by app. */
    taken: set<(string, string)>,
    /** What the copies of the state that were archived hold of `taken`, by id. */
    copies: map<string, set<(string, string)>>,
    /** What the pass said. */
    events: seq<Event>)

  datatype BackedUp = BackedUp(app: string, volume: string, flagged: bool)

  datatype Base = Base(app: string, engine: string, name: string)

  /** What the pass is told, and what it finds: the installation does not change under it. */
  datatype Plan = Plan(
    /** The app names, most critical first; `false`: its installation failed. */
    apps: seq<(string, bool)>,
    only: Option<string>,
    force: bool,
    every: nat,
    volumes: string -> seq<string>,
    buckets: string -> seq<string>,
    /** The destinations, by name, that receive an app's bulky data, and its critical data. */
    bulky: string -> seq<string>,
    critical: string -> seq<string>,
    /** Whether Garage answers. */
    s3: bool,
    backedUp: seq<BackedUp>,
    /** Whether SQLite databases are found in an unflagged volume; `None`: nobody could look. */
    looked: (string, string) -> Option<bool>,
    /** The databases staged from a volume; `None`: they could not be. */
    staged: (string, string) -> Option<seq<string>>,
    databases: seq<Base>,
    /** The engines whose administrator is configured. */
    admins: set<string>,
    token: string)

  predicate Includes(plan: Plan, app: string) {
    plan.only.None? || plan.only.value == app
  }

  predicate Served(plan: Plan, app: (string, bool)) {
    app.1 && Includes(plan, app.0)
  }

  predicate HoldsSqlite(plan: Plan, b: BackedUp) {
    Includes(plan, b.app) && (b.flagged || plan.looked(b.app, b.volume) == Some(true))
  }

  predicate Dumpable(plan: Plan, b: Base) {
    Includes(plan, b.app) && b.engine in {"postgres", "mariadb"} && b.engine in plan.admins
  }

  function LogOf(w: World, dest: string): seq<Entry> {
    if dest in w.logs then w.logs[dest] else []
  }

  // ---- Due -----------------------------------------------------------------------

  predicate IsOf(r: Row, app: string, kind: Kind, dest: string) {
    r.ok && r.app == app && r.kind == kind && r.dest == Some(dest)
  }

  /** By its own last success there, never another's. */
  predicate Due(plan: Plan, w: World, app: string, kind: Kind, dest: string) {
    plan.force
    || forall r | r in w.rows && IsOf(r, app, kind, dest) ::
         (if w.clock >= r.at then w.clock - r.at else 0) >= plan.every
  }

  /** `t`: when that kind of `app` last succeeded there. */
  predicate LastSuccess(rows: seq<Row>, app: string, kind: Kind, dest: string, t: int) {
    && (exists r :: r in rows && IsOf(r, app, kind, dest) && r.at == t)
    && (forall r | r in rows && IsOf(r, app, kind, dest) :: r.at <= t)
  }

  /** What never succeeded there is due; what did, by its last success alone. */
  lemma DueMeans(plan: Plan, w: World, app: string, kind: Kind, dest: string)
    ensures plan.force ==> Due(plan, w, app, kind, dest)
    ensures (forall r | r in w.rows :: !IsOf(r, app, kind, dest)) ==> Due(plan, w, app, kind, dest)
    ensures forall t: int | !plan.force && LastSuccess(w.rows, app, kind, dest, t) && t <= w.clock ::
              Due(plan, w, app, kind, dest) <==> w.clock - t >= plan.every
    // A success dated ahead of the clock is no age at all.
    ensures forall t: int | !plan.force && LastSuccess(w.rows, app, kind, dest, t) && t > w.clock ::
              Due(plan, w, app, kind, dest) <==> plan.every == 0
  {
  }

  /** What succeeded there at some time has a last success. */
  lemma {:induction false} SomeLastSuccess(rows: seq<Row>, app: string, kind: Kind, dest: string)
    ensures (exists r :: r in rows && IsOf(r, app, kind, dest)) <==>
            (exists t: int :: LastSuccess(rows, app, kind, dest, t))
  {
    if rows != [] {
      var init, last := rows[..|rows| - 1], rows[|rows| - 1];
      assert forall r :: r in rows <==> r in init || r == last;
      SomeLastSuccess(init, app, kind, dest);
      if t: int :| LastSuccess(init, app, kind, dest, t) {
        assert LastSuccess(rows, app, kind, dest, if IsOf(last, app, kind, dest) && last.at > t then last.at else t);
      } else if IsOf(last, app, kind, dest) {
        assert LastSuccess(rows, app, kind, dest, last.at);
      }
    }
  }

  /** A success recorded now, and none since: due again exactly when `every` has gone by. */
  lemma DueAgainIff(plan: Plan, w: World, row: Row, later: World, app: string, kind: Kind, dest: string)
    requires IsOf(row, app, kind, dest) && row.at == w.clock && forall r | r in w.rows :: r.at <= w.clock
    requires w.rows + [row] <= later.rows && w.clock <= later.clock && !plan.force
    requires forall i | |w.rows| < i < |later.rows| :: !IsOf(later.rows[i], app, kind, dest)
    ensures LastSuccess(later.rows, app, kind, dest, row.at)
    ensures Due(plan, later, app, kind, dest) <==> later.clock - row.at >= plan.every
  {
    assert (w.rows + [row])[|w.rows|] == row == later.rows[|w.rows|];
    forall r | r in later.rows && IsOf(r, app, kind, dest) ensures r.at <= row.at {
      var i :| 0 <= i < |later.rows| && later.rows[i] == r;
      if i < |w.rows| { assert (w.rows + [row])[i] == w.rows[i]; }
    }
    assert LastSuccess(later.rows, app, kind, dest, row.at);
    DueMeans(plan, later, app, kind, dest);
  }

  /** No outcome of `kind` of `app` was recorded in between. */
  predicate Quiet(w0: World, w: World, app: string, kind: Kind) {
    |w0.rows| <= |w.rows|
    && forall i | |w0.rows| <= i < |w.rows| :: !(w.rows[i].app == app && w.rows[i].kind == kind)
  }

  predicate Grew(w0: World, w: World) {
    && w0.clock <= w.clock && w0.rows <= w.rows && w0.events <= w.events && w0.taken <= w.taken
    && forall d | d in w0.logs :: d in w.logs && w0.logs[d] <= w.logs[d]
  }

  lemma GrewOn(w0: World, w1: World, w2: World)
    requires Grew(w0, w1) && Grew(w1, w2)
    ensures Grew(w0, w2)
  {
    forall d | d in w0.logs ensures d in w2.logs && w0.logs[d] <= w2.logs[d] {
      assert d in w1.logs;
    }
  }

  /** What is due stays due while nothing of it is recorded, whatever else is. */
  lemma StaysDue(plan: Plan, w0: World, w: World, app: string, kind: Kind, dest: string)
    requires Grew(w0, w) && Quiet(w0, w, app, kind) && Due(plan, w0, app, kind, dest)
    ensures Due(plan, w, app, kind, dest)
  {
    if !plan.force {
      forall r | r in w.rows && IsOf(r, app, kind, dest)
        ensures (if w.clock >= r.at then w.clock - r.at else 0) >= plan.every
      {
        var i :| 0 <= i < |w.rows| && w.rows[i] == r;
        assert w0.rows[i] in w0.rows;
      }
    }
  }

  /** An outcome recorded changes whether nothing else is due; a failure, nothing at all. */
  lemma RecordingTouchesItsOwn(plan: Plan, w: World, row: Row, app: string, kind: Kind, dest: string)
    requires !row.ok || row.app != app || row.kind != kind || row.dest != Some(dest)
    ensures Due(plan, w.(rows := w.rows + [row]), app, kind, dest) <==> Due(plan, w, app, kind, dest)
  {
    var w' := w.(rows := w.rows + [row]);
    assert forall r :: r in w'.rows <==> r in w.rows || r == row;
  }

  // ---- What was said, and what is there ------------------------------------------

  predicate Attempt(e: Event, app: string, kind: Kind, item: seq<string>, dest: string) {
    e.app == app && e.kind == kind && e.item == item
    && ((e.Done? && e.dest == dest) || (e.Failed? && e.to == Some(dest)))
  }

  /** The item was tried on the destination, and how it went was said. */
  predicate Attempted(events: seq<Event>, app: string, kind: Kind, item: seq<string>, dest: string) {
    exists e :: e in events && Attempt(e, app, kind, item, dest)
  }

  predicate Reached(events: seq<Event>, app: string, dest: string) {
    exists e :: e in events && e.Done? && e.app == app && e.kind == Volumes && e.dest == dest
  }

  predicate IsCopy(e: Entry, app: string, volume: string, pass: string) {
    e.recorded && e.write.VolumeCopy? && e.write.app == app && e.write.volume == volume && e.write.ofPass == Some(pass)
  }

  predicate IsDatabase(e: Entry, app: string, volume: string, rel: string, pass: string) {
    e.recorded && e.epoch.Some? && e.write == DatabaseCopy(app, volume, rel, pass)
  }

  predicate HasCopy(log: seq<Entry>, app: string, volume: string, pass: string) {
    exists e :: e in log && IsCopy(e, app, volume, pass)
  }

  predicate HasBucket(log: seq<Entry>, app: string, bucket: string, pass: string) {
    exists e :: e in log && e.recorded && e.write == BucketCopy(app, bucket, pass)
  }

  /** The entry an event is of: of the last volume or bucket, when it is of all an app's. */
  predicate IsSaid(plan: Plan, x: Entry, e: Event)
    requires e.Done?
  {
    x.recorded && x.id == e.id
    && match e.kind
       case Volumes =>
         plan.volumes(e.app) != []
         && x.write == VolumeCopy(e.app, plan.volumes(e.app)[|plan.volumes(e.app)| - 1], Some(plan.token), false)
       case Buckets =>
         plan.buckets(e.app) != []
         && x.write == BucketCopy(e.app, plan.buckets(e.app)[|plan.buckets(e.app)| - 1], plan.token)
       case Sqlite => |e.item| == 2 && IsDatabase(x, e.app, e.item[0], e.item[1], plan.token)
       case SqlDump => |e.item| == 1 && x.write.Dump? && x.write.app == e.app && x.write.database == e.item[0]
       case StateCopy => x.write.Dump? && x.write.app == e.app && x.write.database == STATE_DATABASE
  }

  predicate HasSaid(plan: Plan, log: seq<Entry>, e: Event)
    requires e.Done?
  {
    exists x :: x in log && IsSaid(plan, x, e)
  }

  /** What was said to be done is recorded under its id, and in the repository it was said to
      be in. */
  predicate True(plan: Plan, w: World, e: Event) {
    e.Done? ==>
      && (e.app, e.id) in w.taken && HasSaid(plan, LogOf(w, e.dest), e)
      && (e.kind == Volumes ==> forall v | v in plan.volumes(e.app) :: HasCopy(LogOf(w, e.dest), e.app, v, plan.token))
      && (e.kind == Buckets ==>
            forall b | b in plan.buckets(e.app) :: HasBucket(LogOf(w, e.dest), e.app, b, plan.token))
  }

  predicate Recorded(rows: seq<Row>, e: Event) {
    match e
    case Done(app, kind, _, dest, _) =>
      exists r :: r in rows && r.app == app && r.kind == kind && r.dest == Some(dest) && r.ok
    case Failed(app, kind, _, Some(dest)) =>
      exists r :: r in rows && r.app == app && r.kind == kind && r.dest == Some(dest) && !r.ok
    case Failed(app, SqlDump, _, None) =>
      exists r :: r in rows && r.app == app && r.kind == SqlDump && r.dest == None && !r.ok
    case _ => true
  }

  predicate Honest(plan: Plan, w: World) {
    forall e | e in w.events :: True(plan, w, e) && Recorded(w.rows, e)
  }

  lemma LogGrew(w0: World, w: World, dest: string)
    requires Grew(w0, w)
    ensures LogOf(w0, dest) <= LogOf(w, dest)
  {
  }

  lemma StaysTrue(plan: Plan, w0: World, w: World, e: Event)
    requires Grew(w0, w) && True(plan, w0, e) && Recorded(w0.rows, e)
    ensures True(plan, w, e) && Recorded(w.rows, e)
  {
    if e.Done? {
      LogGrew(w0, w, e.dest);
      var log, log' := LogOf(w0, e.dest), LogOf(w, e.dest);
      assert forall x | x in log :: x in log';
    }
    assert forall r | r in w0.rows :: r in w.rows;
  }

  /** Nothing said: what was true stays so. */
  lemma StaysHonest(plan: Plan, w0: World, w: World)
    requires Grew(w0, w) && Honest(plan, w0) && w.events == w0.events
    ensures Honest(plan, w)
  {
    forall e | e in w.events ensures True(plan, w, e) && Recorded(w.rows, e) {
      StaysTrue(plan, w0, w, e);
    }
  }

  /** What `start` does not have and `w` does, whoever wrote it: the pass's own, or a
      stranger's. */
  predicate OwnWrite(plan: Plan, e: Entry) {
    match e.write
    case VolumeCopy(_, _, pass, _) => pass == Some(plan.token)
    case DatabaseCopy(_, _, _, pass) => pass == plan.token
    case Other(_, _) => !e.recorded
    case _ => true
  }

  /** What the state is told of a snapshot: its app and its id. */
  function Ledger(e: Entry): set<(string, string)> {
    if e.recorded && !e.write.Other? then {(e.write.app, e.id)} else {}
  }

  /** Recorded since `start`, and in a repository. */
  ghost predicate TakenSince(start: World, w: World, t: (string, string)) {
    exists d, i :: |LogOf(start, d)| <= i < |LogOf(w, d)| && t in Ledger(LogOf(w, d)[i])
  }

  /** Since `start`: what was written is the pass's or a stranger's, what of it is recorded is
      known to the state by its id, and the state learnt nothing else. */
  ghost predicate OwnWrites(plan: Plan, start: World, w: World) {
    && (forall d, i | |LogOf(start, d)| <= i < |LogOf(w, d)| ::
          OwnWrite(plan, LogOf(w, d)[i]) && Ledger(LogOf(w, d)[i]) <= w.taken)
    && (forall t | t in w.taken :: t in start.taken || TakenSince(start, w, t))
  }

  /** What was said is so, and what was written since `start` is the pass's or a stranger's. */
  ghost predicate Sound(plan: Plan, start: World, w: World) {
    Honest(plan, w) && Grew(start, w) && OwnWrites(plan, start, w)
  }

  lemma SoundRecording(plan: Plan, start: World, w0: World, w: World)
    requires Sound(plan, start, w0) && Grew(w0, w) && w.events == w0.events && w.logs == w0.logs && w.taken == w0.taken
    ensures Sound(plan, start, w)
  {
    StaysHonest(plan, w0, w);
    GrewOn(start, w0, w);
    SameWrites(plan, start, w0, w);
  }

  lemma SameWrites(plan: Plan, start: World, w0: World, w: World)
    requires OwnWrites(plan, start, w0) && w.logs == w0.logs && w.taken == w0.taken
    ensures OwnWrites(plan, start, w)
  {
    forall d, i | |LogOf(start, d)| <= i < |LogOf(w, d)|
      ensures OwnWrite(plan, LogOf(w, d)[i]) && Ledger(LogOf(w, d)[i]) <= w.taken
    {
      assert LogOf(w, d) == LogOf(w0, d);
    }
    forall t | t in w.taken && t !in start.taken ensures TakenSince(start, w, t) {
      var d, i :| |LogOf(start, d)| <= i < |LogOf(w0, d)| && t in Ledger(LogOf(w0, d)[i]);
      assert LogOf(w, d)[i] == LogOf(w0, d)[i];
    }
  }

  lemma SoundSaying(plan: Plan, start: World, w: World, e: Event)
    requires Sound(plan, start, w) && True(plan, w, e) && Recorded(w.rows, e)
    ensures Sound(plan, start, w.(events := w.events + [e]))
  {
    var w' := w.(events := w.events + [e]);
    forall x | x in w'.events ensures True(plan, w', x) && Recorded(w'.rows, x) {
      if x in w.events { StaysTrue(plan, w, w', x); }
    }
    GrewOn(start, w, w');
    SameWrites(plan, start, w, w');
  }

  /** Written into a repository, and told to the state when it is recorded. */
  function Written(w: World, dest: string, e: Entry): World {
    w.(logs := w.logs[dest := LogOf(w, dest) + [e]], taken := w.taken + Ledger(e))
  }

  lemma WrittenOwn(plan: Plan, start: World, w: World, dest: string, e: Entry)
    requires OwnWrites(plan, start, w) && Grew(start, w) && OwnWrite(plan, e)
    ensures OwnWrites(plan, start, Written(w, dest, e))
  {
    var w' := Written(w, dest, e);
    forall d, i | |LogOf(start, d)| <= i < |LogOf(w', d)|
      ensures OwnWrite(plan, LogOf(w', d)[i]) && Ledger(LogOf(w', d)[i]) <= w'.taken
    {
      if i < |LogOf(w, d)| { assert LogOf(w', d)[i] == LogOf(w, d)[i]; }
    }
    forall t | t in w'.taken && t !in start.taken ensures TakenSince(start, w', t) {
      if t in Ledger(e) {
        LogGrew(start, w, dest);
        assert LogOf(w', dest)[|LogOf(w, dest)|] == e;
      } else {
        var d, i :| |LogOf(start, d)| <= i < |LogOf(w, d)| && t in Ledger(LogOf(w, d)[i]);
        assert LogOf(w', d)[i] == LogOf(w, d)[i];
      }
    }
  }

  lemma SoundWriting(plan: Plan, start: World, w: World, dest: string, e: Entry)
    requires Sound(plan, start, w) && OwnWrite(plan, e)
    ensures Grew(w, Written(w, dest, e)) && Sound(plan, start, Written(w, dest, e))
  {
    StaysHonest(plan, w, Written(w, dest, e));
    GrewOn(start, w, Written(w, dest, e));
    WrittenOwn(plan, start, w, dest, e);
  }

  function DoneIn(events: seq<Event>): nat {
    if events == [] then 0 else DoneIn(events[..|events| - 1]) + if events[|events| - 1].Done? then 1 else 0
  }

  function FailedIn(events: seq<Event>): nat {
    if events == [] then 0 else FailedIn(events[..|events| - 1]) + if events[|events| - 1].Failed? then 1 else 0
  }

  lemma {:induction false} DoneAfter(events: seq<Event>, more: seq<Event>)
    ensures DoneIn(events + more) == DoneIn(events) + DoneIn(more)
  {
    if more == [] {
      assert events + more == events;
    } else {
      var all := events + more;
      assert all[..|all| - 1] == events + more[..|more| - 1];
      DoneAfter(events, more[..|more| - 1]);
    }
  }

  lemma {:induction false} SomeDone(events: seq<Event>)
    ensures DoneIn(events) > 0 <==> exists e :: e in events && e.Done?
  {
    if events != [] {
      var init, last := events[..|events| - 1], events[|events| - 1];
      SomeDone(init);
      assert forall e :: e in events <==> e in init || e == last;
    }
  }

  // ---- What a pass keeps ---------------------------------------------------------

  /** It failed before any destination: the volume's databases could not be told or staged. */
  predicate Unstaged(plan: Plan, e: Event) {
    && e.Failed? && e.kind == Sqlite && e.to == None && |e.item| == 1
    && (plan.looked(e.app, e.item[0]) == None || plan.staged(e.app, e.item[0]) == None)
  }

  predicate Serves(plan: Plan, app: string) {
    (app, true) in plan.apps && Includes(plan, app)
  }

  /** The pass is for it, and the destination takes it. */
  predicate Takes(plan: Plan, w: World, app: string, kind: Kind, dest: string) {
    match kind
    case Volumes => Serves(plan, app) && plan.volumes(app) != [] && dest in plan.bulky(app)
    case Buckets => Serves(plan, app) && plan.buckets(app) != [] && plan.s3 && dest in plan.bulky(app)
    case Sqlite => Includes(plan, app) && (dest in plan.critical(app) || Reached(w.events, app, dest))
    case SqlDump => Includes(plan, app) && dest in plan.critical(app)
    case StateCopy => app == STATE_APP && Includes(plan, app) && dest in plan.critical(app)
  }

  /** May it be tried there? Homelabus's own state always is; an app's databases also where
      its volumes went; the rest only when due, by what was recorded as the pass began. */
  predicate Allowed(plan: Plan, start: World, w: World, app: string, kind: Kind, dest: string) {
    && Takes(plan, w, app, kind, dest)
    && (|| kind == StateCopy
        || (kind == Sqlite && Reached(w.events, app, dest))
        || Due(plan, start.(clock := w.clock), app, kind, dest))
  }

  /** Nothing can take it, or nothing can dump it. */
  predicate Uncovered(plan: Plan, app: string, kind: Kind, item: seq<string>) {
    match kind
    case Volumes => item == [] && plan.volumes(app) != [] && plan.bulky(app) == []
    case Buckets => item == [] && plan.buckets(app) != [] && (!plan.s3 || plan.bulky(app) == [])
    case Sqlite =>
      plan.critical(app) == []
      && exists b :: b in plan.backedUp && HoldsSqlite(plan, b) && b.app == app && item == [b.volume]
    case SqlDump =>
      exists b :: b in plan.databases && Includes(plan, app) && b.app == app && item == [b.name]
        && (!Dumpable(plan, b) || plan.critical(app) == [])
    case StateCopy => item == [] && plan.critical(app) == []
  }

  predicate Timely(plan: Plan, start: World, w: World, e: Event) {
    && (e.NotCovered? ==> Uncovered(plan, e.app, e.kind, e.item))
    && (e.Done? ==> Allowed(plan, start, w, e.app, e.kind, e.dest))
    && (e.Failed? && e.to.Some? ==> Allowed(plan, start, w, e.app, e.kind, e.to.value))
  }

  lemma StillAllowed(plan: Plan, start: World, w0: World, w: World, app: string, kind: Kind, dest: string)
    requires Grew(w0, w) && Allowed(plan, start, w0, app, kind, dest)
    ensures Allowed(plan, start, w, app, kind, dest)
  {
    if kind == Sqlite && Reached(w0.events, app, dest) {
      var e :| e in w0.events && e.Done? && e.app == app && e.kind == Volumes && e.dest == dest;
      assert e in w.events;
    }
  }

  lemma StillTimely(plan: Plan, start: World, w0: World, w: World)
    requires Grew(w0, w) && forall e | e in w0.events :: Timely(plan, start, w0, e)
    ensures forall e | e in w0.events :: Timely(plan, start, w, e)
  {
    forall e | e in w0.events ensures Timely(plan, start, w, e) {
      if e.Done? { StillAllowed(plan, start, w0, w, e.app, e.kind, e.dest); }
      if e.Failed? && e.to.Some? { StillAllowed(plan, start, w0, w, e.app, e.kind, e.to.value); }
    }
  }

  /** The tally is of what was said; nothing failed unless something was refused; nothing was
      tried where it was not due. */
  ghost predicate Tallied(plan: Plan, start: World, w: World, done: nat, failed: nat, refused: bool) {
    && done == DoneIn(w.events) && failed == FailedIn(w.events) && Sound(plan, start, w)
    && (forall e | e in w.events && e.Failed? :: refused || Unstaged(plan, e))
    && (forall e | e in w.events :: Timely(plan, start, w, e))
  }

  /** Mentioned by a proof that opens what is kept; the others need not look inside. */
  predicate Look(w: World) {
    true
  }

  ghost predicate Kept(plan: Plan, start: World, w: World, done: nat, failed: nat, refused: bool) {
    forall v: World {:trigger Look(v)} :: Look(v) && v == w ==> Tallied(plan, start, v, done, failed, refused)
  }

  lemma Open(plan: Plan, start: World, w: World, done: nat, failed: nat, refused: bool)
    requires Kept(plan, start, w, done, failed, refused)
    ensures Tallied(plan, start, w, done, failed, refused)
  {
    assert Look(w);
  }

  lemma KeptSaying(plan: Plan, start: World, w: World, done: nat, failed: nat, refused: bool, e: Event)
    requires Kept(plan, start, w, done, failed, refused) && True(plan, w, e) && Recorded(w.rows, e)
    requires (e.Failed? ==> refused || Unstaged(plan, e)) && Timely(plan, start, w, e)
    ensures Kept(plan, start, w.(events := w.events + [e]),
                 done + if e.Done? then 1 else 0, failed + if e.Failed? then 1 else 0, refused)
  {
    Open(plan, start, w, done, failed, refused);
    SoundSaying(plan, start, w, e);
    assert (w.events + [e])[..|w.events|] == w.events;
    var w' := w.(events := w.events + [e]);
    StillTimely(plan, start, w, w');
    if e.Done? { StillAllowed(plan, start, w, w', e.app, e.kind, e.dest); }
    if e.Failed? && e.to.Some? { StillAllowed(plan, start, w, w', e.app, e.kind, e.to.value); }
    SaidTimely(plan, start, w, e);
  }

  lemma SaidTimely(plan: Plan, start: World, w: World, e: Event)
    requires var w' := w.(events := w.events + [e]);
             (forall x | x in w.events :: Timely(plan, start, w', x)) && Timely(plan, start, w', e)
    ensures var w' := w.(events := w.events + [e]); forall x | x in w'.events :: Timely(plan, start, w', x)
  {
  }

  /** What is due now is allowed: rows since the pass began only make less due. */
  lemma DueIsAllowed(plan: Plan, start: World, w: World, done: nat, failed: nat, refused: bool, app: string, kind: Kind,
                     dest: string)
    requires Kept(plan, start, w, done, failed, refused) && Due(plan, w, app, kind, dest)
    requires Takes(plan, w, app, kind, dest)
    ensures Allowed(plan, start, w, app, kind, dest)
  {
    Open(plan, start, w, done, failed, refused);
    assert forall r | r in start.rows :: r in w.rows;
  }

  lemma KeptRecording(plan: Plan, start: World, w0: World, w: World, done: nat, failed: nat, refused: bool)
    requires Kept(plan, start, w0, done, failed, refused) && Grew(w0, w) && w.events == w0.events
    requires w.logs == w0.logs && w.taken == w0.taken
    ensures Kept(plan, start, w, done, failed, refused)
  {
    Open(plan, start, w0, done, failed, refused);
    SoundRecording(plan, start, w0, w);
    StillTimely(plan, start, w0, w);
  }

  lemma KeptWriting(plan: Plan, start: World, w: World, done: nat, failed: nat, refused: bool, dest: string, e: Entry)
    requires Kept(plan, start, w, done, failed, refused) && OwnWrite(plan, e)
    ensures Grew(w, Written(w, dest, e)) && Kept(plan, start, Written(w, dest, e), done, failed, refused)
  {
    Open(plan, start, w, done, failed, refused);
    SoundWriting(plan, start, w, dest, e);
    StillTimely(plan, start, w, Written(w, dest, e));
  }

  lemma KeptRefused(plan: Plan, start: World, w: World, done: nat, failed: nat, refused: bool, more: bool)
    requires Kept(plan, start, w, done, failed, refused)
    ensures Kept(plan, start, w, done, failed, refused || more)
  {
    Open(plan, start, w, done, failed, refused);
  }
}
