/** Where a restore writes: noted on its holds before it stops anything, and still there for
    the next attempt when it dies. */
module HoldNodes {
  import opened Wrappers
  import opened Holds
  import opened HoldProtocol
  import opened HoldRuns
  import opened HoldSafety
  import opened HoldTheorems

  /** A volume is being written, or its services are being stopped for that. */
  predicate PastNoting(phase: Phase) {
    phase.Stopping? || phase.Waiting? || phase.Working?
  }

  /** Whoever stops services to write a volume has noted where it is, on every one. */
  lemma RowsSayWhere(orig: map<string, nat>, st: State, p: nat, k: nat)
    requires Reachable(orig, st) && p in st.procs && k < |st.procs[p].services|
    requires PastNoting(st.procs[p].phase) && st.procs[p].node.Some?
    ensures NodeOf(st.holds, st.procs[p].services[k].0) == st.procs[p].node
  {
    var q := st.procs[p];
    ProcIsSound(orig, st, p);
    var v := ViewOf(orig, st, q.services[k].0);
    assert Knows(orig[q.services[k].0], v, q, k);
  }

  predicate NotesNode(st: State, a: Action, s: string) {
    a.Act? && a.p in st.procs && st.procs[a.p].phase.Noting? && st.procs[a.p].phase.i < |st.procs[a.p].services|
    && st.procs[a.p].services[st.procs[a.p].phase.i].0 == s
  }

  /** One row's release, or another note on it. */
  predicate Unsays(st: State, a: Action, s: string) {
    Releases(st, a, s) || NotesNode(st, a, s)
  }

  lemma StillSaid(orig: map<string, nat>, st: State, a: Action, s: string)
    requires Enabled(orig, st, a) && NodeOf(st.holds, s).Some?
    ensures NodeOf(Apply(orig, st, a).holds, s) == NodeOf(st.holds, s) || Unsays(st, a, s)
  {
  }

  /** Nothing else anyone does changes it: not a copy or a restore holding the service again. */
  lemma {:induction false} SaidUntilUnsaid(orig: map<string, nat>, st: State, actions: seq<Action>, s: string, n: nat)
    requires Runs(orig, st, actions, false) && NodeOf(st.holds, s).Some? && n <= |actions|
    requires forall j | 0 <= j < |actions| :: !Unsays(At(orig, st, actions, j), actions[j], s)
    ensures NodeOf(At(orig, st, actions, n).holds, s) == NodeOf(st.holds, s)
    decreases n
  {
    if n > 0 {
      SaidUntilUnsaid(orig, st, actions, s, n - 1);
      EachIsEnabled(orig, st, actions, n - 1);
      StillSaid(orig, At(orig, st, actions, n - 1), actions[n - 1], s);
    }
  }

  /** A restore that died past noting leaves its node to be read, on each of its services,
      until a row of theirs is released or noted again. */
  lemma DeadRestoreSaysWhere(orig: map<string, nat>, st: State, actions: seq<Action>, p: nat, k: nat)
    requires Reachable(orig, st) && p in st.procs && k < |st.procs[p].services|
    requires PastNoting(st.procs[p].phase) && st.procs[p].node.Some?
    requires Runs(orig, Apply(orig, st, Crash(p)), actions, false)
    requires var died := Apply(orig, st, Crash(p));
             forall j | 0 <= j < |actions| :: !Unsays(At(orig, died, actions, j), actions[j], st.procs[p].services[k].0)
    ensures var died := Apply(orig, st, Crash(p));
            NodeOf(After(orig, died, actions).holds, st.procs[p].services[k].0) == st.procs[p].node
  {
    var died, s := Apply(orig, st, Crash(p)), st.procs[p].services[k].0;
    RowsSayWhere(orig, st, p, k);
    SaidUntilUnsaid(orig, died, actions, s, |actions|);
    LastIsAfter(orig, died, actions);
  }
}
