/** What losing a failure domain, or a node of none, would cost. */
module Outage {
  import opened Wrappers
  import opened Sequences
  import opened Ordering
  import opened Attentions

  datatype Node = Node(id: string, services: seq<string>)

  /** `name`: `None` for the nodes whose domain is undeclared. */
  datatype Domain = Domain(name: Option<string>, nodes: seq<Node>)

  datatype Target = OfDomain(name: string) | OfNode(name: string)

  datatype Quorum = Holds | Lost | Unknown

  datatype Reduced = Reduced(service: string, before: nat, after: nat)

  datatype Simulation = Simulation(
    target: Target,
    lostNodes: seq<string>,
    remaining: nat,
    servicesLost: seq<string>,
    servicesReduced: seq<Reduced>,
    quorum: Quorum,
    unknownDomain: bool)

  function AttentionOf(s: Simulation): Attention {
    if s.servicesLost != [] || s.quorum == Lost then Critical
    else if s.servicesReduced != [] || s.unknownDomain then Notice
    else Fine
  }

  // ---- What a failure is ---------------------------------------------------------

  datatype Placed = Placed(domain: Option<string>, node: Node)

  function PlacedIn(d: Domain): seq<Placed> {
    seq(|d.nodes|, k requires 0 <= k < |d.nodes| => Placed(d.name, d.nodes[k]))
  }

  function Places(domains: seq<Domain>): seq<Placed> {
    FlatMap(PlacedIn, domains)
  }

  predicate Hit(target: Target, p: Placed) {
    match target
    case OfDomain(name) => p.domain == Some(name)
    case OfNode(id) => p.node.id == id
  }

  function Count(services: seq<string>, s: string): nat {
    if services == [] then 0 else Count(services[..|services| - 1], s) + if services[|services| - 1] == s then 1 else 0
  }

  /** The replicas of a service; those a failure leaves. */
  function Replicas(places: seq<Placed>, s: string): nat {
    if places == [] then 0 else Replicas(places[..|places| - 1], s) + Count(places[|places| - 1].node.services, s)
  }

  function Left(places: seq<Placed>, target: Target, s: string): nat {
    if places == [] then 0
    else Left(places[..|places| - 1], target, s)
         + if Hit(target, places[|places| - 1]) then 0 else Count(places[|places| - 1].node.services, s)
  }

  function LostIds(places: seq<Placed>, target: Target): seq<string> {
    if places == [] then []
    else LostIds(places[..|places| - 1], target)
         + if Hit(target, places[|places| - 1]) then [places[|places| - 1].node.id] else []
  }

  function Survivors(managers: seq<string>, lost: seq<string>): nat {
    if managers == [] then 0
    else Survivors(managers[..|managers| - 1], lost) + if managers[|managers| - 1] in lost then 0 else 1
  }

  function QuorumOf(managers: seq<string>, lost: seq<string>): Quorum {
    if managers == [] then Unknown
    else if Survivors(managers, lost) * 2 > |managers| then Holds else Quorum.Lost
  }

  predicate Down(places: seq<Placed>, target: Target, s: string) {
    Replicas(places, s) > 0 && Left(places, target, s) == 0
  }

  predicate Diminished(places: seq<Placed>, target: Target, s: string) {
    0 < Left(places, target, s) < Replicas(places, s)
  }

  /** What is said of a service that would run with fewer. */
  predicate IsReduced(places: seq<Placed>, target: Target, x: Reduced) {
    && Diminished(places, target, x.service)
    && x.before == Replicas(places, x.service) && x.after == Left(places, target, x.service)
  }

  function ByService(): (Reduced, Reduced) -> bool {
    (a: Reduced, b: Reduced) => Before(a.service, b.service)
  }

  ghost predicate IsSimulation(places: seq<Placed>, target: Target, managers: seq<string>, s: Simulation) {
    && s.target == target
    && s.lostNodes == LostIds(places, target) && s.remaining == |places| - |s.lostNodes|
    && Increasing(s.servicesLost, Lexical())
    && (forall x :: x in s.servicesLost <==> Down(places, target, x))
    && Increasing(s.servicesReduced, ByService())
    && (forall x :: x in s.servicesReduced <==>
          IsReduced(places, target, x))
    && s.quorum == QuorumOf(managers, s.lostNodes)
    && (s.unknownDomain <==> exists p :: p in places && Hit(target, p) && p.domain == None)
  }

  // ---- The simulation ------------------------------------------------------------

  function Get(m: map<string, nat>, s: string): nat {
    if s in m then m[s] else 0
  }

  method CountAll(m: map<string, nat>, services: seq<string>) returns (out: map<string, nat>)
    requires forall s | s in m :: m[s] > 0
    ensures forall s | s in out :: out[s] > 0
    ensures forall s :: Get(out, s) == Get(m, s) + Count(services, s)
  {
    out := m;
    for k := 0 to |services|
      invariant forall s | s in out :: out[s] > 0
      invariant forall s :: Get(out, s) == Get(m, s) + Count(services[..k], s)
    {
      assert services[..k + 1][..k] == services[..k];
      out := out[services[k] := Get(out, services[k]) + 1];
    }
    assert services[..|services|] == services;
  }

  /** What the nodes so far count up to. */
  datatype Tally = Tally(lost: seq<string>, remaining: nat, before: map<string, nat>, after: map<string, nat>,
                         unknown: bool)

  ghost predicate Tallied(t: Tally, places: seq<Placed>, target: Target) {
    && t.lost == LostIds(places, target) && t.remaining + |t.lost| == |places|
    && (forall s | s in t.before :: t.before[s] > 0) && (forall s | s in t.after :: t.after[s] > 0)
    && (forall s :: Get(t.before, s) == Replicas(places, s))
    && (forall s :: Get(t.after, s) == Left(places, target, s))
    && (t.unknown <==> exists p :: p in places && Hit(target, p) && p.domain == None)
  }

  method TallyOne(t: Tally, ghost places: seq<Placed>, target: Target, p: Placed) returns (out: Tally)
    requires Tallied(t, places, target)
    ensures Tallied(out, places + [p], target)
  {
    assert (places + [p])[..|places|] == places;
    assert forall q :: q in places + [p] <==> q in places || q == p;
    var before := CountAll(t.before, p.node.services);
    if Hit(target, p) {
      out := Tally(t.lost + [p.node.id], t.remaining, before, t.after, t.unknown || p.domain == None);
    } else {
      var after := CountAll(t.after, p.node.services);
      out := Tally(t.lost, t.remaining + 1, before, after, t.unknown);
    }
  }

  method TallyAll(domains: seq<Domain>, target: Target) returns (t: Tally)
    ensures Tallied(t, Places(domains), target)
  {
    t := Tally([], 0, map[], map[], false);
    for i := 0 to |domains|
      invariant Tallied(t, Places(domains[..i]), target)
    {
      var d := domains[i];
      ghost var before := Places(domains[..i]);
      assert before + PlacedIn(d)[..0] == before;
      for j := 0 to |d.nodes|
        invariant Tallied(t, before + PlacedIn(d)[..j], target)
      {
        t := TallyOne(t, before + PlacedIn(d)[..j], target, Placed(d.name, d.nodes[j]));
        assert PlacedIn(d)[..j + 1] == PlacedIn(d)[..j] + [PlacedIn(d)[j]];
        Regrouped(before, PlacedIn(d)[..j], [PlacedIn(d)[j]]);
      }
      assert PlacedIn(d)[..|d.nodes|] == PlacedIn(d);
      FlatMapStep(PlacedIn, domains, i);
    }
    assert domains[..|domains|] == domains;
  }

  /** A map's keys, in their order. */
  method SortedKeys(m: map<string, nat>) returns (keys: seq<string>)
    ensures Increasing(keys, Lexical())
    ensures forall s :: s in keys <==> s in m
  {
    var left, out: seq<string> := m.Keys, [];
    while left != {}
      invariant forall s :: s in m <==> s in left || s in out
      invariant forall s | s in out :: s !in left
      invariant forall i, j | 0 <= i < j < |out| :: out[i] != out[j]
      decreases |left|
    {
      var s :| s in left;
      left, out := left - {s}, out + [s];
    }
    keys := SortBy(out, NotAfter());
    SortedOnce(out);
  }

  lemma {:induction false} LeftIsLess(places: seq<Placed>, target: Target, s: string)
    ensures Left(places, target, s) <= Replicas(places, s)
  {
    if places != [] { LeftIsLess(places[..|places| - 1], target, s); }
  }

  ghost predicate LostOf(t: Tally, keys: seq<string>, lost: seq<string>) {
    Increasing(lost, Lexical()) && forall x :: x in lost <==> x in keys && Get(t.before, x) > 0 && Get(t.after, x) == 0
  }

  ghost predicate ReducedOf(t: Tally, keys: seq<string>, reduced: seq<Reduced>) {
    && Increasing(reduced, ByService())
    && forall x :: x in reduced <==>
         x.service in keys && 0 < Get(t.after, x.service) < Get(t.before, x.service)
         && x.before == Get(t.before, x.service) && x.after == Get(t.after, x.service)
  }

  lemma IncreasingMore<T(!new)>(s: seq<T>, x: T, lt: (T, T) -> bool)
    requires Increasing(s, lt) && forall y | y in s :: lt(y, x)
    ensures Increasing(s + [x], lt)
  {
    forall i, j | 0 <= i < j < |s + [x]| ensures lt((s + [x])[i], (s + [x])[j]) {
      assert s[i] in s;
    }
  }

  method Judge(t: Tally, keys: seq<string>) returns (lost: seq<string>, reduced: seq<Reduced>)
    requires Increasing(keys, Lexical())
    ensures LostOf(t, keys, lost) && ReducedOf(t, keys, reduced)
  {
    lost, reduced := [], [];
    for k := 0 to |keys|
      invariant LostOf(t, keys[..k], lost) && ReducedOf(t, keys[..k], reduced)
    {
      var s := keys[k];
      var before, after := Get(t.before, s), Get(t.after, s);
      assert keys[..k + 1] == keys[..k] + [s];
      forall y | y in keys[..k] ensures Before(y, s) {
        var i :| 0 <= i < k && keys[i] == y;
        assert Lexical()(keys[i], keys[k]);
      }
      if before > 0 && after == 0 {
        IncreasingMore(lost, s, Lexical());
        lost := lost + [s];
      } else if after > 0 && after < before {
        IncreasingMore(reduced, Reduced(s, before, after), ByService());
        reduced := reduced + [Reduced(s, before, after)];
      }
    }
    assert keys[..|keys|] == keys;
  }

  method CountSurvivors(managers: seq<string>, lost: seq<string>) returns (n: nat)
    ensures n == Survivors(managers, lost)
  {
    n := 0;
    for k := 0 to |managers|
      invariant n == Survivors(managers[..k], lost)
    {
      assert managers[..k + 1][..k] == managers[..k];
      if managers[k] !in lost { n := n + 1; }
    }
    assert managers[..|managers|] == managers;
  }

  method Simulate(domains: seq<Domain>, target: Target, managers: seq<string>) returns (s: Simulation)
    ensures IsSimulation(Places(domains), target, managers, s)
  {
    var t := TallyAll(domains, target);
    var keys := SortedKeys(t.before);
    var lost, reduced := Judge(t, keys);
    var quorum := Unknown;
    if managers != [] {
      var survivors := CountSurvivors(managers, t.lost);
      // More than half of the managers must be left.
      quorum := if survivors * 2 > |managers| then Holds else Quorum.Lost;
    }
    s := Simulation(target, t.lost, t.remaining, lost, reduced, quorum, t.unknown);
    ghost var places := Places(domains);
    forall x ensures x in lost <==> Down(places, target, x) {
      LeftIsLess(places, target, x);
      assert Get(t.before, x) == Replicas(places, x);
    }
    forall x ensures x in reduced <==> IsReduced(places, target, x) {
      assert Get(t.before, x.service) == Replicas(places, x.service);
    }
  }

  // ---- What it says --------------------------------------------------------------

  lemma {:induction false} CountMeans(services: seq<string>, s: string)
    ensures Count(services, s) > 0 <==> s in services
  {
    if services != [] {
      CountMeans(services[..|services| - 1], s);
      assert services == services[..|services| - 1] + [services[|services| - 1]];
    }
  }

  /** No replica left: every node that runs it is hit. */
  lemma {:induction false} LeftMeans(places: seq<Placed>, target: Target, s: string)
    ensures Left(places, target, s) == 0 <==> forall p | p in places && s in p.node.services :: Hit(target, p)
    ensures Replicas(places, s) > 0 <==> exists p :: p in places && s in p.node.services
  {
    if places != [] {
      var init, last := places[..|places| - 1], places[|places| - 1];
      LeftMeans(init, target, s);
      CountMeans(last.node.services, s);
      assert forall p :: p in places <==> p in init || p == last;
    }
  }

  lemma {:induction false} LostIdsMean(places: seq<Placed>, target: Target)
    ensures forall id :: id in LostIds(places, target) <==> exists p :: p in places && Hit(target, p) && p.node.id == id
    ensures |LostIds(places, target)| <= |places|
  {
    if places != [] {
      var init, last := places[..|places| - 1], places[|places| - 1];
      LostIdsMean(init, target);
      assert forall p :: p in places <==> p in init || p == last;
    }
  }

  lemma {:induction false} SurvivorsCount(managers: seq<string>, lost: seq<string>)
    ensures Survivors(managers, lost) == |set k | 0 <= k < |managers| && managers[k] !in lost|
  {
    var now := set k | 0 <= k < |managers| && managers[k] !in lost;
    if managers != [] {
      var n := |managers| - 1;
      var before := set k | 0 <= k < n && managers[..n][k] !in lost;
      SurvivorsCount(managers[..n], lost);
      assert now == before + if managers[n] in lost then {} else {n};
    } else {
      assert now == {};
    }
  }

  /** Managers hold the cluster by a strict majority: half of them is not enough. */
  lemma QuorumIsAMajority(places: seq<Placed>, target: Target, managers: seq<string>, s: Simulation)
    requires IsSimulation(places, target, managers, s)
    ensures s.quorum == Unknown <==> managers == []
    ensures s.quorum == Holds <==> 2 * |set k | 0 <= k < |managers| && managers[k] !in s.lostNodes| > |managers|
  {
    SurvivorsCount(managers, s.lostNodes);
  }

  /** Critical: a service stops or the managers lose their majority. Short of that, a notice:
      a service runs with fewer, or a node hit has no domain declared. */
  lemma AttentionMeans(places: seq<Placed>, target: Target, managers: seq<string>, s: Simulation)
    requires IsSimulation(places, target, managers, s)
    ensures AttentionOf(s) == Critical <==> (exists x :: Down(places, target, x)) || s.quorum == Quorum.Lost
    ensures AttentionOf(s) == Fine <==>
              && (forall p, x | p in places && x in p.node.services :: !Hit(target, p))
              && s.quorum != Quorum.Lost && !exists p :: p in places && Hit(target, p) && p.domain == None
  {
    EmptyOrNot(s.servicesLost);
    NothingRunsThere(places, target, managers, s);
  }

  lemma NothingRunsThere(places: seq<Placed>, target: Target, managers: seq<string>, s: Simulation)
    requires IsSimulation(places, target, managers, s)
    ensures s.servicesLost == [] && s.servicesReduced == []
            <==> forall p, x | p in places && x in p.node.services :: !Hit(target, p)
  {
    if p, x :| p in places && x in p.node.services && Hit(target, p) {
      HitLeavesLess(places, target, p, x);
      assert x in s.servicesLost || Reduced(x, Replicas(places, x), Left(places, target, x)) in s.servicesReduced;
    }
    if s.servicesLost != [] {
      assert s.servicesLost[0] in s.servicesLost;
      NoHitLeavesAll(places, target, s.servicesLost[0]);
    }
    if s.servicesReduced != [] {
      assert s.servicesReduced[0] in s.servicesReduced;
      NoHitLeavesAll(places, target, s.servicesReduced[0].service);
    }
  }

  lemma {:induction false} HitLeavesLess(places: seq<Placed>, target: Target, p: Placed, x: string)
    requires p in places && x in p.node.services && Hit(target, p)
    ensures Left(places, target, x) < Replicas(places, x)
  {
    var init, last := places[..|places| - 1], places[|places| - 1];
    LeftIsLess(init, target, x);
    CountMeans(last.node.services, x);
    if !(x in last.node.services && Hit(target, last)) {
      assert p in init;
      HitLeavesLess(init, target, p, x);
    }
  }

  lemma {:induction false} NoHitLeavesAll(places: seq<Placed>, target: Target, x: string)
    ensures Left(places, target, x) < Replicas(places, x) ==>
              exists p :: p in places && x in p.node.services && Hit(target, p)
  {
    if places != [] {
      var init, last := places[..|places| - 1], places[|places| - 1];
      NoHitLeavesAll(init, target, x);
      CountMeans(last.node.services, x);
      assert forall p :: p in places <==> p in init || p == last;
    }
  }

  /** A service stops exactly when it ran, and every node running it goes; nodes are lost or
      remain, and none both or neither. */
  lemma LostIffAllReplicasAreHit(places: seq<Placed>, target: Target, managers: seq<string>, s: Simulation,
                                 service: string)
    requires IsSimulation(places, target, managers, s)
    ensures service in s.servicesLost <==>
              (exists p :: p in places && service in p.node.services)
              && forall p | p in places && service in p.node.services :: Hit(target, p)
    ensures forall id :: id in s.lostNodes <==> exists p :: p in places && Hit(target, p) && p.node.id == id
    ensures |s.lostNodes| + s.remaining == |places|
  {
    LeftMeans(places, target, service);
    LostIdsMean(places, target);
  }

  // ---- A domain is worse than its nodes ------------------------------------------

  predicate Wider(places: seq<Placed>, narrow: Target, wide: Target) {
    forall p | p in places && Hit(narrow, p) :: Hit(wide, p)
  }

  lemma {:induction false} WiderLeavesLess(places: seq<Placed>, narrow: Target, wide: Target, s: string)
    requires Wider(places, narrow, wide)
    ensures Left(places, wide, s) <= Left(places, narrow, s) <= Replicas(places, s)
  {
    if places != [] {
      var init := places[..|places| - 1];
      assert forall p | p in init :: p in places;
      assert places[|places| - 1] in places;
      WiderLeavesLess(init, narrow, wide, s);
    }
  }

  lemma {:induction false} FewerSurvive(managers: seq<string>, few: seq<string>, many: seq<string>)
    requires forall id | id in few :: id in many
    ensures Survivors(managers, many) <= Survivors(managers, few)
  {
    if managers != [] { FewerSurvive(managers[..|managers| - 1], few, many); }
  }

  /** Losing more loses at least the services, the quorum and the calm. */
  lemma WiderIsWorse(places: seq<Placed>, narrow: Target, wide: Target, managers: seq<string>, a: Simulation,
                     b: Simulation)
    requires IsSimulation(places, narrow, managers, a) && IsSimulation(places, wide, managers, b)
    requires Wider(places, narrow, wide) && !a.unknownDomain
    ensures forall id | id in a.lostNodes :: id in b.lostNodes
    ensures forall x | x in a.servicesLost :: x in b.servicesLost
    ensures a.quorum == Quorum.Lost ==> b.quorum == Quorum.Lost
    ensures Rank(AttentionOf(a)) <= Rank(AttentionOf(b))
  {
    LostIdsMean(places, narrow);
    LostIdsMean(places, wide);
    FewerSurvive(managers, a.lostNodes, b.lostNodes);
    forall x | x in a.servicesLost ensures x in b.servicesLost {
      WiderLeavesLess(places, narrow, wide, x);
    }
    if a.servicesLost != [] { assert a.servicesLost[0] in b.servicesLost; }
    if a.servicesReduced != [] {
      var r := a.servicesReduced[0];
      assert r in a.servicesReduced;
      WiderLeavesLess(places, narrow, wide, r.service);
      var now := Reduced(r.service, Replicas(places, r.service), Left(places, wide, r.service));
      assert r.service in b.servicesLost || now in b.servicesReduced;
    }
  }

  /** Losing a declared domain costs at least what losing any one of its nodes would. */
  lemma DomainIsWorseThanItsNodes(places: seq<Placed>, p: Placed, managers: seq<string>, a: Simulation, b: Simulation)
    requires forall q, r | q in places && r in places && q.node.id == r.node.id :: q == r
    requires p in places && p.domain.Some?
    requires IsSimulation(places, OfNode(p.node.id), managers, a)
    requires IsSimulation(places, OfDomain(p.domain.value), managers, b)
    ensures a.lostNodes != [] && forall id | id in a.lostNodes :: id == p.node.id && id in b.lostNodes
    ensures forall x | x in a.servicesLost :: x in b.servicesLost
    ensures a.quorum == Quorum.Lost ==> b.quorum == Quorum.Lost
    ensures Rank(AttentionOf(a)) <= Rank(AttentionOf(b))
  {
    LostIdsMean(places, OfNode(p.node.id));
    assert p.node.id in a.lostNodes;
    WiderIsWorse(places, OfNode(p.node.id), OfDomain(p.domain.value), managers, a, b);
  }

  // ---- Every failure -------------------------------------------------------------

  /** One per declared domain, and one per node of none: those do not fall together. */
  function TargetsOf(d: Domain): seq<Target> {
    match d.name
    case Some(name) => [OfDomain(name)]
    case None => seq(|d.nodes|, k requires 0 <= k < |d.nodes| => OfNode(d.nodes[k].id))
  }

  function Targets(domains: seq<Domain>): seq<Target> {
    FlatMap(TargetsOf, domains)
  }

  function WorstFirst(): (Simulation, Simulation) -> bool {
    (a: Simulation, b: Simulation) =>
      |a.servicesLost| > |b.servicesLost|
      || (|a.servicesLost| == |b.servicesLost| && NotAfter()(a.target.name, b.target.name))
  }

  ghost predicate Run(places: seq<Placed>, targets: seq<Target>, managers: seq<string>, runs: seq<Simulation>) {
    |runs| == |targets| && forall k | 0 <= k < |runs| :: IsSimulation(places, targets[k], managers, runs[k])
  }

  method SimulateEach(domains: seq<Domain>, targets: seq<Target>, managers: seq<string>) returns (runs: seq<Simulation>)
    ensures Run(Places(domains), targets, managers, runs)
  {
    runs := [];
    for j := 0 to |targets|
      invariant Run(Places(domains), targets[..j], managers, runs)
    {
      var s := Simulate(domains, targets[j], managers);
      runs := runs + [s];
    }
    assert targets[..|targets|] == targets;
  }

  lemma RunBoth(places: seq<Placed>, a: seq<Target>, b: seq<Target>, managers: seq<string>, ra: seq<Simulation>,
                rb: seq<Simulation>)
    requires Run(places, a, managers, ra) && Run(places, b, managers, rb)
    ensures Run(places, a + b, managers, ra + rb)
  {
  }

  method SimulateAll(domains: seq<Domain>, managers: seq<string>)
    returns (out: seq<Simulation>, ghost runs: seq<Simulation>)
    ensures Run(Places(domains), Targets(domains), managers, runs)
    ensures multiset(out) == multiset(runs) && Ordered(out, WorstFirst())
  {
    var all: seq<Simulation> := [];
    for i := 0 to |domains|
      invariant Run(Places(domains), Targets(domains[..i]), managers, all)
    {
      var more := SimulateEach(domains, TargetsOf(domains[i]), managers);
      FlatMapStep(TargetsOf, domains, i);
      RunBoth(Places(domains), Targets(domains[..i]), TargetsOf(domains[i]), managers, all, more);
      all := all + more;
    }
    assert domains[..|domains|] == domains;
    runs := all;
    out := SortBy(all, WorstFirst());
    SortKeeps(all, WorstFirst());
    WorstFirstIsAPreorder();
  }

  /** What stops more services is read first; as many, by name. */
  lemma WorstIsFirst(out: seq<Simulation>, j: nat, k: nat)
    requires Ordered(out, WorstFirst()) && j < k < |out|
    ensures |out[j].servicesLost| >= |out[k].servicesLost|
    ensures |out[j].servicesLost| == |out[k].servicesLost| ==> !Before(out[k].target.name, out[j].target.name)
  {
    var a, b := out[j].target.name, out[k].target.name;
    assert WorstFirst()(out[j], out[k]);
    assert NotAfter()(a, b) ==> a == b || Before(a, b);
    BeforeIsTotal(a, b);
  }

  lemma WorstFirstIsAPreorder()
    ensures Preorder(WorstFirst())
  {
    NotAfterIsAPreorder();
    forall x: Simulation, y: Simulation ensures WorstFirst()(x, y) || WorstFirst()(y, x) {
      assert NotAfter()(x.target.name, y.target.name) || NotAfter()(y.target.name, x.target.name);
    }
    forall x: Simulation, y: Simulation, z: Simulation | WorstFirst()(x, y) && WorstFirst()(y, z)
      ensures WorstFirst()(x, z)
    {
      assert NotAfter()(x.target.name, y.target.name) && NotAfter()(y.target.name, z.target.name)
        ==> NotAfter()(x.target.name, z.target.name);
    }
  }

  /** Domains are told apart by their names, and nodes by their identifiers. */
  predicate Apart(domains: seq<Domain>) {
    && (forall i, j | 0 <= i < j < |domains| && domains[i].name.Some? :: domains[i].name != domains[j].name)
    && (forall i, j, a, b | 0 <= i < |domains| && 0 <= j < |domains|
          && 0 <= a < |domains[i].nodes| && 0 <= b < |domains[j].nodes| && (i != j || a != b) ::
          domains[i].nodes[a].id != domains[j].nodes[b].id)
  }

  lemma ApartWithoutLast(domains: seq<Domain>)
    requires domains != [] && Apart(domains)
    ensures Apart(domains[..|domains| - 1])
  {
  }

  /** What fails with one domain fails with no other. */
  lemma TargetsApart(domains: seq<Domain>, i: nat, j: nat, t: Target)
    requires i < j < |domains| && Apart(domains) && t in TargetsOf(domains[i])
    ensures t !in TargetsOf(domains[j])
  {
    var d, e := domains[i], domains[j];
    if d.name.None? && e.name.None? {
      var a :| 0 <= a < |d.nodes| && TargetsOf(d)[a] == t;
      forall b | 0 <= b < |e.nodes| ensures TargetsOf(e)[b] != t {
        assert d.nodes[a].id != e.nodes[b].id;
      }
    }
  }

  lemma {:induction false} TargetsAreDistinct(domains: seq<Domain>)
    requires Apart(domains)
    ensures forall j, k | 0 <= j < k < |Targets(domains)| :: Targets(domains)[j] != Targets(domains)[k]
    decreases |domains|
  {
    if domains != [] {
      var n := |domains| - 1;
      var init, last := domains[..n], domains[n];
      ApartWithoutLast(domains);
      TargetsAreDistinct(init);
      forall t | t in TargetsOf(last) ensures t !in Targets(init) {
        FlatMapMeaning(TargetsOf, init, t);
        if d :| d in init && t in TargetsOf(d) {
          var i :| 0 <= i < n && init[i] == d;
          TargetsApart(domains, i, n, t);
        }
      }
      var more := TargetsOf(last);
      forall j, k | 0 <= j < k < |more| ensures more[j] != more[k] {
        assert domains[n].nodes[j].id != domains[n].nodes[k].id;
      }
      assert Targets(domains) == Targets(init) + more;
      forall j, k | 0 <= j < k < |Targets(domains)| ensures Targets(domains)[j] != Targets(domains)[k] {
        if j < |Targets(init)| <= k {
          assert Targets(domains)[k] == more[k - |Targets(init)|] && Targets(init)[j] in Targets(init);
        }
      }
    }
  }

  /** What takes a node down: its domain's failure, or its own. */
  function TargetOf(p: Placed): Target {
    match p.domain case Some(name) => OfDomain(name) case None => OfNode(p.node.id)
  }

  lemma PlaceIn(domains: seq<Domain>, p: Placed) returns (i: nat, a: nat)
    requires p in Places(domains)
    ensures i < |domains| && a < |domains[i].nodes| && p == Placed(domains[i].name, domains[i].nodes[a])
  {
    FlatMapMeaning(PlacedIn, domains, p);
    var d :| d in domains && p in PlacedIn(d);
    i :| 0 <= i < |domains| && domains[i] == d;
    a :| 0 <= a < |d.nodes| && PlacedIn(d)[a] == p;
  }

  lemma OnePlace(domains: seq<Domain>, p: Placed, q: Placed)
    requires Apart(domains) && p in Places(domains) && q in Places(domains) && p.node.id == q.node.id
    ensures p == q
  {
    var i, a := PlaceIn(domains, p);
    var j, b := PlaceIn(domains, q);
    assert i == j && a == b;
  }

  lemma TargetIsThere(domains: seq<Domain>, p: Placed) returns (k: nat)
    requires p in Places(domains)
    ensures k < |Targets(domains)| && Targets(domains)[k] == TargetOf(p)
  {
    var i, a := PlaceIn(domains, p);
    var d := domains[i];
    assert TargetOf(p) in TargetsOf(d) by {
      if d.name.None? { assert TargetsOf(d)[a] == TargetOf(p); }
    }
    assert d in domains;
    FlatMapMeaning(TargetsOf, domains, TargetOf(p));
    k :| 0 <= k < |Targets(domains)| && Targets(domains)[k] == TargetOf(p);
  }

  /** No machine is left out: each is lost in the run of its domain, or in its own. */
  lemma EveryNodeIsLost(domains: seq<Domain>, managers: seq<string>, runs: seq<Simulation>, p: Placed) returns (k: nat)
    requires Run(Places(domains), Targets(domains), managers, runs) && p in Places(domains)
    ensures k < |runs| && runs[k].target == TargetOf(p) && p.node.id in runs[k].lostNodes
  {
    k := TargetIsThere(domains, p);
    LostIdsMean(Places(domains), TargetOf(p));
  }

  /** Nothing else that is simulated takes it down. */
  lemma OnlyItsTarget(domains: seq<Domain>, p: Placed, t: Target)
    requires Apart(domains) && p in Places(domains) && t in Targets(domains)
    ensures p.node.id in LostIds(Places(domains), t) <==> t == TargetOf(p)
  {
    LostIdsMean(Places(domains), t);
    if p.node.id in LostIds(Places(domains), t) {
      var q :| q in Places(domains) && Hit(t, q) && q.node.id == p.node.id;
      OnePlace(domains, p, q);
      if t.OfNode? {
        FlatMapMeaning(TargetsOf, domains, t);
        var d :| d in domains && t in TargetsOf(d);
        var a :| 0 <= a < |d.nodes| && TargetsOf(d)[a] == t;
        FlatMapMeaning(PlacedIn, domains, PlacedIn(d)[a]);
        OnePlace(domains, p, PlacedIn(d)[a]);
      }
    }
  }

  /** And in no other. */
  lemma EveryNodeIsLostOnce(domains: seq<Domain>, managers: seq<string>, runs: seq<Simulation>, p: Placed)
    returns (k: nat)
    requires Run(Places(domains), Targets(domains), managers, runs) && p in Places(domains) && Apart(domains)
    ensures k < |runs| && runs[k].target == TargetOf(p)
    ensures forall j | 0 <= j < |runs| :: p.node.id in runs[j].lostNodes <==> j == k
  {
    k := EveryNodeIsLost(domains, managers, runs, p);
    TargetsAreDistinct(domains);
    forall j | 0 <= j < |runs| ensures p.node.id in runs[j].lostNodes <==> j == k {
      assert Targets(domains)[j] in Targets(domains);
      OnlyItsTarget(domains, p, Targets(domains)[j]);
    }
  }
}
