/** What runs reach, step by step. */
module HoldRuns {
  import opened HoldProtocol
  import opened HoldSafety

  /** `st` is reached from `start` by actions that are each enabled; `disciplined`: and each
      begins only where it may. */
  ghost predicate Reaches(orig: map<string, nat>, start: State, st: State, disciplined: bool) {
    exists actions :: Runs(orig, start, actions, disciplined) && Runs(orig, start, actions, false)
                      && After(orig, start, actions) == st
  }

  lemma Here(orig: map<string, nat>, st: State, disciplined: bool)
    ensures Reaches(orig, st, st, disciplined)
  {
    assert Runs(orig, st, [], disciplined) && Runs(orig, st, [], false) && After(orig, st, []) == st;
  }

  lemma {:induction false} OneMoreRuns(orig: map<string, nat>, start: State, actions: seq<Action>, a: Action,
                                       disciplined: bool)
    requires Runs(orig, start, actions, disciplined) && Runs(orig, start, actions, false)
    requires Enabled(orig, After(orig, start, actions), a)
    requires disciplined ==> Disciplined(After(orig, start, actions), a)
    ensures Runs(orig, start, actions + [a], disciplined)
    decreases |actions|
  {
    if actions == [] {
      assert [] + [a] == [a];
      assert Runs(orig, Apply(orig, start, a), [], disciplined);
    } else {
      OneMoreRuns(orig, Apply(orig, start, actions[0]), actions[1..], a, disciplined);
      assert (actions + [a])[1..] == actions[1..] + [a];
    }
  }

  lemma {:induction false} OneMore(orig: map<string, nat>, start: State, actions: seq<Action>, a: Action)
    requires Runs(orig, start, actions, false) && Enabled(orig, After(orig, start, actions), a)
    ensures Runs(orig, start, actions + [a], false)
    ensures After(orig, start, actions + [a]) == Apply(orig, After(orig, start, actions), a)
    decreases |actions|
  {
    if actions == [] {
      assert [] + [a] == [a];
      assert Runs(orig, Apply(orig, start, a), [], false);
    } else {
      OneMore(orig, Apply(orig, start, actions[0]), actions[1..], a);
      assert (actions + [a])[1..] == actions[1..] + [a];
    }
  }

  lemma Step(orig: map<string, nat>, start: State, st: State, a: Action, disciplined: bool)
    requires Reaches(orig, start, st, disciplined) && Enabled(orig, st, a) && (disciplined ==> Disciplined(st, a))
    ensures Reaches(orig, start, Apply(orig, st, a), disciplined)
  {
    var actions :| Runs(orig, start, actions, disciplined) && Runs(orig, start, actions, false)
                   && After(orig, start, actions) == st;
    OneMore(orig, start, actions, a);
    OneMoreRuns(orig, start, actions, a, disciplined);
  }

  /** What every step keeps, whatever is reached keeps. */
  lemma ReachedIsSound(orig: map<string, nat>, start: State, st: State)
    requires Inv(orig, start) && Reaches(orig, start, st, true)
    ensures Inv(orig, st)
  {
    var actions :| Runs(orig, start, actions, true) && Runs(orig, start, actions, false)
                   && After(orig, start, actions) == st;
    RunsKeepInv(orig, start, actions);
  }

  // ---- The states on the way ---------------------------------------------------

  /** The state after the first `j` of `actions`. */
  function At(orig: map<string, nat>, start: State, actions: seq<Action>, j: nat): State
    requires j <= |actions| && Runs(orig, start, actions, false)
    decreases |actions|
  {
    if j == 0 then start else At(orig, Apply(orig, start, actions[0]), actions[1..], j - 1)
  }

  lemma {:induction false} EachIsEnabled(orig: map<string, nat>, start: State, actions: seq<Action>, j: nat)
    requires j < |actions| && Runs(orig, start, actions, false)
    ensures Enabled(orig, At(orig, start, actions, j), actions[j])
    ensures At(orig, start, actions, j + 1) == Apply(orig, At(orig, start, actions, j), actions[j])
    decreases |actions|
  {
    if j > 0 {
      EachIsEnabled(orig, Apply(orig, start, actions[0]), actions[1..], j - 1);
    }
  }

  lemma {:induction false} LastIsAfter(orig: map<string, nat>, start: State, actions: seq<Action>)
    requires Runs(orig, start, actions, false)
    ensures At(orig, start, actions, |actions|) == After(orig, start, actions)
    decreases |actions|
  {
    if actions != [] {
      LastIsAfter(orig, Apply(orig, start, actions[0]), actions[1..]);
    }
  }

  /** What is left of a run from there. */
  lemma {:induction false} SuffixRuns(orig: map<string, nat>, start: State, actions: seq<Action>, j: nat,
                                      disciplined: bool)
    requires j <= |actions| && Runs(orig, start, actions, disciplined) && Runs(orig, start, actions, false)
    ensures var st := At(orig, start, actions, j);
            && Runs(orig, st, actions[j..], disciplined) && Runs(orig, st, actions[j..], false)
            && After(orig, st, actions[j..]) == After(orig, start, actions)
    decreases |actions|
  {
    if j == 0 {
      assert actions[0..] == actions;
    } else {
      SuffixRuns(orig, Apply(orig, start, actions[0]), actions[1..], j - 1, disciplined);
      assert actions[1..][j - 1..] == actions[j..];
    }
  }

  lemma {:induction false} SoundAt(orig: map<string, nat>, start: State, actions: seq<Action>, j: nat)
    requires j <= |actions| && Inv(orig, start) && Runs(orig, start, actions, true) && Runs(orig, start, actions, false)
    ensures Inv(orig, At(orig, start, actions, j))
    decreases |actions|
  {
    if j > 0 {
      StepKeepsInvariant(orig, start, actions[0]);
      SoundAt(orig, Apply(orig, start, actions[0]), actions[1..], j - 1);
    }
  }
}
