/** What the calls that stop and start services leave behind, service after service. */
module HoldEffects {
  import opened Wrappers
  import opened Holds
  import opened HoldProtocol

  type Counts = map<string, nat>

  /** `hold_services`, one statement a service. */
  function HoldAll(holds: Table, services: seq<Counted>, why: string): Table
    decreases |services|
  {
    if services == [] then holds
    else
      var n := |services| - 1;
      HoldRow(HoldAll(holds, services[..n], why), services[n].0, services[n].1, why)
  }

  function NoteAll(holds: Table, services: seq<Counted>, node: string): Table
    decreases |services|
  {
    if services == [] then holds
    else
      var n := |services| - 1;
      NoteRow(NoteAll(holds, services[..n], node), services[n].0, node)
  }

  function ReleaseAll(holds: Table, services: seq<Counted>): Table {
    holds - Names(services)
  }

  function StopAll(desired: Counts, services: seq<Counted>): Counts
    decreases |services|
  {
    if services == [] then desired
    else
      var n := |services| - 1;
      var rest := StopAll(desired, services[..n]);
      if services[n].1 > 0 then rest[services[n].0 := 0] else rest
  }

  /** `start` from the last service down to `i`, but for the scale-ups that failed. */
  function StartFrom(desired: Counts, seen: Table, services: seq<Counted>, failed: set<nat>, i: nat): Counts
    requires i <= |services|
    decreases |services| - i
  {
    if i == |services| then desired
    else
      var rest := StartFrom(desired, seen, services, failed, i + 1);
      var n := GiveBack(Row(seen, services[i].0), services[i].1);
      if n > 0 && i !in failed then rest[services[i].0 := n] else rest
  }

  /** What `start` is for: every count given back. */
  function StartAll(desired: Counts, seen: Table, services: seq<Counted>): Counts {
    StartFrom(desired, seen, services, {}, 0)
  }

  // ---- Service by service ------------------------------------------------------

  lemma {:induction false} HoldAllAt(holds: Table, services: seq<Counted>, why: string, s: string)
    requires Distinct(services)
    ensures var held := HoldAll(holds, services, why);
            && held.Keys == holds.Keys + Names(services)
            && (s !in Names(services) ==> Row(held, s) == Row(holds, s))
            && (forall k | 0 <= k < |services| && services[k].0 == s ::
                  Row(held, s) == Some(Reheld(Row(holds, s), services[k].1, why)))
    decreases |services|
  {
    if services != [] {
      var n := |services| - 1;
      var before := services[..n];
      HoldAllAt(holds, before, why, s);
      NamesButLast(services);
    }
  }

  lemma NamesButLast(services: seq<Counted>)
    requires services != []
    ensures var n := |services| - 1;
            Names(services) == Names(services[..n]) + {services[n].0}
            && (Distinct(services) ==> Distinct(services[..n]) && services[n].0 !in Names(services[..n]))
  {
    var n := |services| - 1;
    var before := services[..n];
    assert forall k | 0 <= k < n :: services[k] == before[k];
    forall s | s in Names(services) ensures s in Names(before) + {services[n].0} {
      var k :| 0 <= k < |services| && services[k].0 == s;
      assert k < n ==> before[k].0 == s;
    }
    assert services[n].0 in Names(services);
  }

  /** Holding again and noting keep who holds the service and at least what is to give back. */
  lemma {:induction false} NoteAllAt(holds: Table, services: seq<Counted>, node: string, s: string)
    ensures var noted := NoteAll(holds, services, node);
            && noted.Keys == holds.Keys
            && (s in holds ==> noted[s] == (if s in Names(services) then holds[s].(node := Some(node)) else holds[s]))
    decreases |services|
  {
    if services != [] {
      NoteAllAt(holds, services[..|services| - 1], node, s);
      NamesButLast(services);
    }
  }

  /** Held again, a row says the node it said; a new one says none. */
  lemma HeldSaysTheSameNode(holds: Table, services: seq<Counted>, m: nat, why: string, s: string)
    requires Distinct(services) && m <= |services|
    ensures NodeOf(HoldAll(holds, services[..m], why), s) == NodeOf(holds, s)
  {
    var before := services[..m];
    assert forall j | 0 <= j < m :: before[j] == services[j];
    HoldAllAt(holds, before, why, s);
    if s in Names(before) {
      var k :| 0 <= k < m && before[k].0 == s;
      assert Row(HoldAll(holds, before, why), s) == Some(Reheld(Row(holds, s), before[k].1, why));
    } else {
      assert Row(HoldAll(holds, before, why), s) == Row(holds, s);
    }
  }

  /** Noted once every row is there, each says where. */
  lemma NotedSaysTheNode(holds: Table, services: seq<Counted>, why: string, node: string, k: nat)
    requires Distinct(services) && k < |services|
    ensures NodeOf(NoteAll(HoldAll(holds, services, why), services, node), services[k].0) == Some(node)
  {
    HoldAllAt(holds, services, why, services[k].0);
    NoteAllAt(HoldAll(holds, services, why), services, node, services[k].0);
    assert services[k].0 in Names(services);
  }

  lemma {:induction false} StopAllAt(desired: Counts, services: seq<Counted>, s: string)
    requires Distinct(services) && Names(services) <= desired.Keys && s in desired
    ensures var stopped := StopAll(desired, services);
            && stopped.Keys == desired.Keys
            && (s !in Names(services) ==> stopped[s] == desired[s])
            && (forall k | 0 <= k < |services| && services[k].0 == s ::
                  stopped[s] == if services[k].1 > 0 then 0 else desired[s])
    decreases |services|
  {
    if services != [] {
      StopAllAt(desired, services[..|services| - 1], s);
      NamesButLast(services);
    }
  }

  lemma {:induction false} StartFromAt(desired: Counts, seen: Table, services: seq<Counted>, failed: set<nat>, i: nat,
                                       s: string)
    requires i <= |services| && Distinct(services) && Names(services) <= desired.Keys && s in desired
    ensures var started := StartFrom(desired, seen, services, failed, i);
            && started.Keys == desired.Keys
            && ((forall k | i <= k < |services| :: services[k].0 != s) ==> started[s] == desired[s])
            && (forall k | i <= k < |services| && services[k].0 == s ::
                  var n := GiveBack(Row(seen, s), services[k].1);
                  started[s] == if n > 0 && k !in failed then n else desired[s])
    decreases |services| - i
  {
    if i < |services| {
      StartFromAt(desired, seen, services, failed, i + 1, s);
      assert services[i].0 in Names(services);
    }
  }

  /** Of a service at 0 or at its own count, whose hold says that count: `start` leaves it at
      its count exactly when it was there, or its scale-up works and either the holds could be
      read or its caller had counted it running. */
  lemma StartBringsBackIff(desired: Counts, holds: Table, services: seq<Counted>, failed: set<nat>, read: bool, k: nat,
                           own: nat)
    requires Distinct(services) && Names(services) <= desired.Keys && k < |services|
    requires services[k].0 in desired && desired[services[k].0] in {0, own} && services[k].1 in {0, own}
    requires services[k].0 in holds && holds[services[k].0].count == Some(own)
    ensures var s, started := services[k].0, StartFrom(desired, if read then holds else map[], services, failed, 0);
            s in started
            && (started[s] == own <==> desired[s] == own || (k !in failed && (read || services[k].1 == own)))
  {
    StartFromAt(desired, if read then holds else map[], services, failed, 0, services[k].0);
  }

  // ---- A begin undone ----------------------------------------------------------

  /** `start` would find as much to give back in either table. */
  predicate SameToGive(held: Table, holds: Table, services: seq<Counted>) {
    forall k | 0 <= k < |services| ::
      GiveBack(Row(held, services[k].0), services[k].1) == GiveBack(Row(holds, services[k].0), services[k].1)
  }

  /** Holding gives back no less and no more, however far it went. */
  lemma HeldGivesBackTheSame(holds: Table, services: seq<Counted>, m: nat, why: string)
    requires Distinct(services) && m <= |services|
    ensures SameToGive(HoldAll(holds, services[..m], why), holds, services)
  {
    var before := services[..m];
    assert forall j | 0 <= j < m :: before[j] == services[j];
    forall k | 0 <= k < |services|
      ensures GiveBack(Row(HoldAll(holds, before, why), services[k].0), services[k].1)
              == GiveBack(Row(holds, services[k].0), services[k].1)
    {
      HoldAllAt(holds, before, why, services[k].0);
      if k < m { assert before[k] == services[k]; }
    }
  }

  lemma NotedGivesBackTheSame(holds: Table, services: seq<Counted>, node: string)
    ensures SameToGive(NoteAll(holds, services, node), holds, services)
  {
    forall k | 0 <= k < |services|
      ensures GiveBack(Row(NoteAll(holds, services, node), services[k].0), services[k].1)
              == GiveBack(Row(holds, services[k].0), services[k].1)
    {
      NoteAllAt(holds, services, node, services[k].0);
    }
  }

  lemma {:induction false} StartKeys(desired: Counts, seen: Table, services: seq<Counted>, failed: set<nat>, i: nat)
    requires i <= |services| && Names(services) <= desired.Keys
    ensures StartFrom(desired, seen, services, failed, i).Keys == desired.Keys
    decreases |services| - i
  {
    if i < |services| {
      StartKeys(desired, seen, services, failed, i + 1);
      assert services[i].0 in Names(services);
    }
  }

  lemma {:induction false} StopKeys(desired: Counts, services: seq<Counted>)
    requires Names(services) <= desired.Keys
    ensures StopAll(desired, services).Keys == desired.Keys
    decreases |services|
  {
    if services != [] {
      StopKeys(desired, services[..|services| - 1]);
      NamesButLast(services);
    }
  }

  lemma UndoneAt(desired: Counts, held: Table, holds: Table, services: seq<Counted>, n: nat, s: string)
    requires Distinct(services) && Names(services) <= desired.Keys && n <= |services|
    requires SameToGive(held, holds, services) && s in desired
    ensures var stopped := StopAll(desired, services[..n]);
            && s in StartAll(stopped, held, services) && s in StartAll(desired, holds, services)
            && StartAll(stopped, held, services)[s] == StartAll(desired, holds, services)[s]
  {
    var before := services[..n];
    var stopped := StopAll(desired, before);
    assert forall j | 0 <= j < n :: before[j] == services[j];
    StopKeys(desired, before);
    StopAllAt(desired, before, s);
    StartFromAt(stopped, held, services, {}, 0, s);
    StartFromAt(desired, holds, services, {}, 0, s);
    if k :| 0 <= k < |services| && services[k].0 == s {
      if k < n { assert before[k].0 == s; }
    }
  }

  /** A begin that failed after stopping `n` services, and that `start` undid: what `start`
      would have done had the begin not moved at all. */
  lemma UndoneIsStart(desired: Counts, held: Table, holds: Table, services: seq<Counted>, n: nat)
    requires Distinct(services) && Names(services) <= desired.Keys && n <= |services|
    requires SameToGive(held, holds, services)
    ensures StartAll(StopAll(desired, services[..n]), held, services) == StartAll(desired, holds, services)
  {
    var stopped := StopAll(desired, services[..n]);
    assert forall j | 0 <= j < n :: services[..n][j] == services[j];
    StopKeys(desired, services[..n]);
    StartKeys(stopped, held, services, {}, 0);
    StartKeys(desired, holds, services, {}, 0);
    forall s | s in desired
      ensures StartAll(stopped, held, services)[s] == StartAll(desired, holds, services)[s]
    {
      UndoneAt(desired, held, holds, services, n, s);
    }
  }

  /** It leaves every count as it was exactly when no service stood below what its hold or
      its caller would give it back: a retry over a dead restore starts what that one
      had left stopped. */
  lemma UndoneLeavesCountsIff(desired: Counts, holds: Table, services: seq<Counted>)
    requires Distinct(services) && Names(services) <= desired.Keys
    ensures StartAll(desired, holds, services) == desired
            <==> forall k | 0 <= k < |services| ::
                   GiveBack(Row(holds, services[k].0), services[k].1) in {0, desired[services[k].0]}
  {
    var started := StartAll(desired, holds, services);
    forall k | 0 <= k < |services|
      ensures services[k].0 in started
      ensures started[services[k].0] == desired[services[k].0]
              <==> GiveBack(Row(holds, services[k].0), services[k].1) in {0, desired[services[k].0]}
    {
      StartFromAt(desired, holds, services, {}, 0, services[k].0);
    }
    if forall k | 0 <= k < |services| ::
         GiveBack(Row(holds, services[k].0), services[k].1) in {0, desired[services[k].0]}
    {
      forall s | s in desired ensures s in started && started[s] == desired[s] {
        StartFromAt(desired, holds, services, {}, 0, s);
      }
      StartKeys(desired, holds, services, {}, 0);
    }
  }

  lemma HeldAreReleased(held: Table, holds: Table, services: seq<Counted>)
    requires held.Keys <= holds.Keys + Names(services) && holds.Keys <= held.Keys
    requires forall s | s in holds && s !in Names(services) :: held[s] == holds[s]
    ensures ReleaseAll(held, services) == ReleaseAll(holds, services)
  {
  }
}
