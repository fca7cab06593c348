/** Secrets made on first use, by any number of callers at once: the repository's password, a
    disk's recovery key, a dataset's key. Nothing deletes one. */
module Secrets {
  import opened Wrappers

  /** A key's maker says it made it; the password's caller reads again. */
  datatype Kind = Password | Key

  datatype Phase =
    /** About to read. */
    | Reading
    /** Read nothing, and made one. */
    | Storing(own: string)
    | ReadingAgain(own: string)
    | Answered(value: string, made: bool)

  datatype Caller = Caller(kind: Kind, phase: Phase)

  datatype State = State(stored: Option<string>, callers: map<nat, Caller>)

  datatype Action =
    | Call(p: nat, kind: Kind)
    /** A call's next read or write; `minted`: what it makes when it reads nothing. */
    | Step(p: nat, minted: string)
    | Die(p: nat)

  predicate Enabled(st: State, a: Action) {
    match a
    case Call(p, _) => p !in st.callers
    case Step(p, _) => p in st.callers && !st.callers[p].phase.Answered?
    case Die(p) => p in st.callers
  }

  function Apply(st: State, a: Action): State
    requires Enabled(st, a)
  {
    match a
    case Call(p, kind) => st.(callers := st.callers[p := Caller(kind, Reading)])
    case Step(p, minted) => Stepped(st, p, st.callers[p].kind, st.callers[p].phase, minted)
    case Die(p) => st.(callers := st.callers - {p})
  }

  function Stepped(st: State, p: nat, kind: Kind, phase: Phase, minted: string): State
    requires !phase.Answered?
  {
    match phase
    case Reading =>
      var next := if st.stored.Some? then Answered(st.stored.value, false) else Storing(minted);
      st.(callers := st.callers[p := Caller(kind, next)])
    case Storing(own) =>
      // Stored if absent.
      if kind == Password then
        st.(stored := Some(if st.stored.Some? then st.stored.value else own),
            callers := st.callers[p := Caller(kind, ReadingAgain(own))])
      else if st.stored.Some? then
        st.(callers := st.callers[p := Caller(kind, Reading)])
      else
        State(Some(own), st.callers[p := Caller(kind, Answered(own, true))])
    case ReadingAgain(own) =>
      var value := if st.stored.Some? then st.stored.value else own;
      st.(callers := st.callers[p := Caller(kind, Answered(value, false))])
  }

  predicate Runs(st: State, actions: seq<Action>)
    decreases |actions|
  {
    actions == [] || (Enabled(st, actions[0]) && Runs(Apply(st, actions[0]), actions[1..]))
  }

  function After(st: State, actions: seq<Action>): State
    requires Runs(st, actions)
    decreases |actions|
  {
    if actions == [] then st else After(Apply(st, actions[0]), actions[1..])
  }

  predicate Init(st: State) {
    st.callers == map[]
  }

  // ---- What every run keeps ------------------------------------------------------

  /** The caller answers, by this step, that it made the key. */
  predicate Makes(st: State, a: Action) {
    Enabled(st, a) && a.Step? && Apply(st, a).callers[a.p].phase.Answered? && Apply(st, a).callers[a.p].phase.made
  }

  /** How many times that was answered. */
  function MadeIn(st: State, actions: seq<Action>): nat
    requires Runs(st, actions)
    decreases |actions|
  {
    if actions == [] then 0
    else (if Makes(st, actions[0]) then 1 else 0) + MadeIn(Apply(st, actions[0]), actions[1..])
  }

  /** What callers that read nothing made. */
  function MintedIn(st: State, actions: seq<Action>): set<string>
    requires Runs(st, actions)
    decreases |actions|
  {
    if actions == [] then {} else Mints(st, actions[0]) + MintedIn(Apply(st, actions[0]), actions[1..])
  }

  function Mints(st: State, a: Action): set<string>
    requires Enabled(st, a)
  {
    if a.Step? && st.callers[a.p].phase.Reading? && st.stored.None? then {a.minted} else {}
  }

  /** `made`: how many answered that they made it; `minted`: what was made; `keys`: only keys'
      makers call. */
  predicate Sound(st: State, found: Option<string>, made: nat, minted: set<string>, keys: bool) {
    && (found.Some? ==> st.stored == found && made == 0)
    && (st.stored.Some? ==> st.stored == found || st.stored.value in minted)
    && made <= (if st.stored.Some? then 1 else 0)
    && (keys && found.None? && st.stored.Some? ==> made == 1)
    && (forall p | p in st.callers ::
          && (st.callers[p].phase.Answered? ==> st.stored == Some(st.callers[p].phase.value))
          && (st.callers[p].phase.Storing? || st.callers[p].phase.ReadingAgain? ==> st.callers[p].phase.own in minted)
          && (st.callers[p].phase.ReadingAgain? ==> st.stored.Some? && st.callers[p].kind == Password)
          && (keys ==> st.callers[p].kind == Key))
  }

  predicate OnlyKeys(actions: seq<Action>) {
    forall a | a in actions && a.Call? :: a.kind == Key
  }

  lemma StepIsSound(st: State, a: Action, found: Option<string>, made: nat, minted: set<string>, keys: bool)
    requires Sound(st, found, made, minted, keys) && Enabled(st, a) && (keys && a.Call? ==> a.kind == Key)
    ensures Sound(Apply(st, a), found, made + if Makes(st, a) then 1 else 0, minted + Mints(st, a), keys)
    ensures st.stored.Some? ==> Apply(st, a).stored == st.stored
  {
  }

  lemma {:induction false} RunsAreSound(st: State, actions: seq<Action>, found: Option<string>, made: nat,
                                        minted: set<string>, keys: bool)
    requires Sound(st, found, made, minted, keys) && Runs(st, actions) && (keys ==> OnlyKeys(actions))
    ensures Sound(After(st, actions), found, made + MadeIn(st, actions), minted + MintedIn(st, actions), keys)
    ensures st.stored.Some? ==> After(st, actions).stored == st.stored
    decreases |actions|
  {
    if actions != [] {
      assert actions[0] in actions && forall a | a in actions[1..] :: a in actions;
      var once, more := if Makes(st, actions[0]) then 1 else 0, Mints(st, actions[0]);
      StepIsSound(st, actions[0], found, made, minted, keys);
      RunsAreSound(Apply(st, actions[0]), actions[1..], found, made + once, minted + more, keys);
      assert minted + MintedIn(st, actions) == minted + more + MintedIn(Apply(st, actions[0]), actions[1..]);
    } else {
      assert minted + MintedIn(st, actions) == minted;
    }
  }

  /** Every caller that answered, in any run, answered the one value stored; and it is the one
      that was there before them all, or, when there was none, one that some caller made. */
  lemma AllAnswerTheSame(st: State, actions: seq<Action>, p: nat)
    requires Init(st) && Runs(st, actions)
    requires p in After(st, actions).callers && After(st, actions).callers[p].phase.Answered?
    ensures After(st, actions).stored == Some(After(st, actions).callers[p].phase.value)
    ensures st.stored.Some? ==> After(st, actions).stored == st.stored
    ensures st.stored.None? ==> After(st, actions).callers[p].phase.value in MintedIn(st, actions)
  {
    RunsAreSound(st, actions, st.stored, 0, {}, false);
  }

  /** Stored is stored: no later step of anyone changes it. */
  lemma NeverChanged(st: State, before: seq<Action>, actions: seq<Action>)
    requires Init(st) && Runs(st, before) && Runs(After(st, before), actions) && After(st, before).stored.Some?
    ensures After(After(st, before), actions).stored == After(st, before).stored
  {
    RunsAreSound(st, before, st.stored, 0, {}, false);
    RunsAreSound(After(st, before), actions, st.stored, MadeIn(st, before), MintedIn(st, before), false);
  }

  /** Of any number of makers of a key that was not there, exactly one answered that it made
      it, once it is stored; of one that was there, none. The password's callers never do, and
      leave no more than one to. */
  lemma OneMaker(st: State, actions: seq<Action>)
    requires Init(st) && Runs(st, actions)
    ensures MadeIn(st, actions) <= if st.stored.None? && After(st, actions).stored.Some? then 1 else 0
    ensures OnlyKeys(actions) ==>
              MadeIn(st, actions) == if st.stored.None? && After(st, actions).stored.Some? then 1 else 0
  {
    RunsAreSound(st, actions, st.stored, 0, {}, OnlyKeys(actions));
  }

  // ---- Every call ends -----------------------------------------------------------

  /** The steps a call may still take. */
  function Left(st: State, c: Caller): nat {
    match c.phase
    case Reading => if st.stored.Some? then 1 else 3
    case Storing(_) => 2
    case ReadingAgain(_) => 1
    case Answered(_, _) => 0
  }

  /** Each step of a call leaves it fewer, and nobody else's leaves it more: a maker that lost
      tries again once, and at most three reads and writes answer any call. */
  lemma EveryCallEnds(st: State, actions: seq<Action>, a: Action, p: nat)
    requires Init(st) && Runs(st, actions)
    requires var now := After(st, actions); p in now.callers && Enabled(now, a) && a != Die(p)
    ensures var now := After(st, actions);
            var then' := Apply(now, a);
            && p in then'.callers && Left(now, now.callers[p]) <= 3
            && Left(then', then'.callers[p]) <= Left(now, now.callers[p]) - if a.Step? && a.p == p then 1 else 0
  {
    RunsAreSound(st, actions, st.stored, 0, {}, false);
  }
}
