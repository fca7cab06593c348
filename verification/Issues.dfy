/** What the sources found, grouped by cause into the lines of the inbox. */
module Issues {
  import opened Wrappers
  import opened Sequences
  import opened Ordering
  import opened Attentions

  type Cause = string

  datatype Finding = Finding(cause: Cause, attention: Attention, subject: Option<string>)

  datatype Issue = Issue(cause: Cause, attention: Attention, subjects: seq<string>, asideUntil: Option<int>)

  // ---- What grouping means -------------------------------------------------------

  predicate Says(f: Finding, cause: Cause) {
    f.cause == cause && f.attention != Fine
  }

  /** The worst said of a cause; fine, when nothing is. */
  function Worst(findings: seq<Finding>, cause: Cause): Attention {
    if findings == [] then Fine
    else
      var before, last := Worst(findings[..|findings| - 1], cause), findings[|findings| - 1];
      if Says(last, cause) then Max(before, last.attention) else before
  }

  function SubjectsOf(findings: seq<Finding>, cause: Cause): set<string> {
    if findings == [] then {}
    else
      var before, last := SubjectsOf(findings[..|findings| - 1], cause), findings[|findings| - 1];
      if Says(last, cause) && last.subject.Some? then before + {last.subject.value} else before
  }

  lemma {:induction false} WorstMeaning(findings: seq<Finding>, cause: Cause)
    ensures forall f | f in findings && Says(f, cause) :: Rank(f.attention) <= Rank(Worst(findings, cause))
    ensures Worst(findings, cause) != Fine <==> exists f ::
              f in findings && Says(f, cause) && f.attention == Worst(findings, cause)
  {
    if findings != [] {
      var init, last := findings[..|findings| - 1], findings[|findings| - 1];
      WorstMeaning(init, cause);
      assert forall f :: f in findings <==> f in init || f == last;
    }
  }

  lemma {:induction false} SubjectsMeaning(findings: seq<Finding>, cause: Cause, s: string)
    ensures s in SubjectsOf(findings, cause) <==> exists f :: f in findings && Says(f, cause) && f.subject == Some(s)
  {
    if findings != [] {
      var init, last := findings[..|findings| - 1], findings[|findings| - 1];
      SubjectsMeaning(init, cause, s);
      assert forall f :: f in findings <==> f in init || f == last;
    }
  }

  function Elements(s: seq<string>): set<string> {
    set x | x in s
  }

  /** One line for a cause: at its worst, and its subjects. */
  predicate Covers(findings: seq<Finding>, i: Issue) {
    && i.attention == Worst(findings, i.cause) && i.attention != Fine
    && Elements(i.subjects) == SubjectsOf(findings, i.cause)
  }

  /** Where the cause is first said; their count when it is not. */
  function First(findings: seq<Finding>, cause: Cause): (n: nat)
    ensures n <= |findings|
    ensures n < |findings| ==> Says(findings[n], cause)
    ensures forall j | 0 <= j < n :: !Says(findings[j], cause)
  {
    if findings == [] || Says(findings[0], cause) then 0 else 1 + First(findings[1..], cause)
  }

  function Worse(): (Issue, Issue) -> bool {
    (a: Issue, b: Issue) => Rank(a.attention) >= Rank(b.attention)
  }

  function SaidBefore(findings: seq<Finding>): (Issue, Issue) -> bool {
    (a: Issue, b: Issue) => First(findings, a.cause) < First(findings, b.cause)
  }

  /** The worst first, and as they were said where none is worse. */
  function Order(findings: seq<Finding>): (Issue, Issue) -> bool {
    Stably(Worse(), SaidBefore(findings))
  }

  function Causes(issues: seq<Issue>): set<Cause> {
    set i | i in issues :: i.cause
  }

  ghost predicate Grouped(findings: seq<Finding>, issues: seq<Issue>) {
    && (forall i | i in issues :: Covers(findings, i) && Increasing(i.subjects, Lexical()) && i.asideUntil == None)
    && (forall f | f in findings && f.attention != Fine :: f.cause in Causes(issues))
    && Increasing(issues, Order(findings))
  }

  // ---- Grouping ------------------------------------------------------------------

  /** A line as the first `k` findings make it, its subjects in the order they came. */
  predicate Piece(findings: seq<Finding>, k: nat, i: Issue)
    requires k <= |findings|
  {
    Covers(findings[..k], i) && Once(i.subjects) && i.asideUntil == None && First(findings, i.cause) < k
  }

  /** So far, in the order the causes were said. */
  ghost predicate Gathered(findings: seq<Finding>, k: nat, out: seq<Issue>)
    requires k <= |findings|
  {
    && (forall i | i in out :: Piece(findings, k, i))
    && (forall f | f in findings[..k] && f.attention != Fine :: f.cause in Causes(out))
    && Increasing(out, SaidBefore(findings))
  }

  function With(i: Issue, f: Finding): Issue {
    i.(attention := Max(i.attention, f.attention),
       subjects := if f.subject.Some? && f.subject.value !in i.subjects then i.subjects + [f.subject.value]
                  else i.subjects)
  }

  method Position(out: seq<Issue>, cause: Cause) returns (at: Option<nat>)
    ensures at.Some? ==> at.value < |out| && out[at.value].cause == cause
    ensures at.None? ==> forall i | i in out :: i.cause != cause
  {
    for j := 0 to |out|
      invariant forall i | 0 <= i < j :: out[i].cause != cause
    {
      if out[j].cause == cause { return Some(j); }
    }
    at := None;
  }

  lemma CoversMore(before: seq<Finding>, f: Finding, i: Issue)
    requires Covers(before, i)
    ensures Covers(before + [f], if Says(f, i.cause) then With(i, f) else i)
  {
    assert (before + [f])[..|before|] == before;
  }

  lemma {:induction false} NothingSaid(findings: seq<Finding>, cause: Cause)
    requires forall f | f in findings :: !Says(f, cause)
    ensures Worst(findings, cause) == Fine && SubjectsOf(findings, cause) == {}
  {
    if findings != [] {
      assert forall f | f in findings[..|findings| - 1] :: f in findings;
      assert findings[|findings| - 1] in findings;
      NothingSaid(findings[..|findings| - 1], cause);
    }
  }

  lemma CoversFirst(before: seq<Finding>, f: Finding)
    requires f.attention != Fine && forall g | g in before :: !Says(g, f.cause)
    ensures Covers(before + [f], With(Issue(f.cause, f.attention, [], None), f))
  {
    assert (before + [f])[..|before|] == before;
    NothingSaid(before, f.cause);
  }

  lemma FirstIs(findings: seq<Finding>, cause: Cause, k: nat)
    requires k < |findings| && Says(findings[k], cause) && forall j | 0 <= j < k :: !Says(findings[j], cause)
    ensures First(findings, cause) == k
  {
  }

  /** A cause said before gets one more finding; the lines keep their order. */
  lemma GatheredAt(findings: seq<Finding>, k: nat, out: seq<Issue>, at: nat)
    requires k < |findings| && Gathered(findings, k, out) && at < |out|
    requires out[at].cause == findings[k].cause && findings[k].attention != Fine
    ensures Gathered(findings, k + 1, out[at := With(out[at], findings[k])])
  {
    var f, out' := findings[k], out[at := With(out[at], findings[k])];
    assert findings[..k + 1] == findings[..k] + [f];
    forall j | 0 <= j < |out'| ensures Piece(findings, k + 1, out'[j]) {
      assert out[j] in out;
      PieceMore(findings, k, out[j]);
      CauseElsewhere(findings, out, at, j);
    }
    SameCauses(out, out');
    StillInOrder(findings, out, out');
  }

  lemma PieceMore(findings: seq<Finding>, k: nat, i: Issue)
    requires k < |findings| && Piece(findings, k, i)
    ensures Piece(findings, k + 1, if Says(findings[k], i.cause) then With(i, findings[k]) else i)
  {
    assert findings[..k + 1] == findings[..k] + [findings[k]];
    CoversMore(findings[..k], findings[k], i);
  }

  lemma CauseElsewhere(findings: seq<Finding>, out: seq<Issue>, at: nat, j: nat)
    requires Increasing(out, SaidBefore(findings)) && at < |out| && j < |out|
    ensures j != at ==> out[j].cause != out[at].cause
  {
    assert j < at ==> SaidBefore(findings)(out[j], out[at]);
    assert at < j ==> SaidBefore(findings)(out[at], out[j]);
  }

  lemma StillInOrder(findings: seq<Finding>, out: seq<Issue>, out': seq<Issue>)
    requires Increasing(out, SaidBefore(findings)) && |out'| == |out|
    requires forall j | 0 <= j < |out| :: out'[j].cause == out[j].cause
    ensures Increasing(out', SaidBefore(findings))
  {
    forall i, j | 0 <= i < j < |out'| ensures SaidBefore(findings)(out'[i], out'[j]) {
      assert SaidBefore(findings)(out[i], out[j]);
    }
  }

  lemma SameCauses(a: seq<Issue>, b: seq<Issue>)
    requires |a| == |b| && forall j | 0 <= j < |a| :: a[j].cause == b[j].cause
    ensures Causes(a) == Causes(b)
  {
    forall c | c in Causes(a) ensures c in Causes(b) {
      var j :| 0 <= j < |a| && a[j].cause == c;
      assert b[j] in b;
    }
    forall c | c in Causes(b) ensures c in Causes(a) {
      var j :| 0 <= j < |b| && b[j].cause == c;
      assert a[j] in a;
    }
  }

  lemma NotSaidYet(findings: seq<Finding>, k: nat, out: seq<Issue>)
    requires k < |findings| && findings[k].attention != Fine && findings[k].cause !in Causes(out)
    requires forall f | f in findings[..k] && f.attention != Fine :: f.cause in Causes(out)
    ensures forall g | g in findings[..k] :: !Says(g, findings[k].cause)
    ensures First(findings, findings[k].cause) == k
  {
    forall j | 0 <= j < k ensures !Says(findings[j], findings[k].cause) {
      assert findings[j] in findings[..k];
    }
    FirstIs(findings, findings[k].cause, k);
  }

  lemma GatheredNew(findings: seq<Finding>, k: nat, out: seq<Issue>)
    requires k < |findings| && Gathered(findings, k, out) && findings[k].attention != Fine
    requires forall i | i in out :: i.cause != findings[k].cause
    ensures var first := Issue(findings[k].cause, findings[k].attention, [], None);
            Gathered(findings, k + 1, out + [With(first, findings[k])])
  {
    var f := findings[k];
    var new' := With(Issue(f.cause, f.attention, [], None), f);
    var out' := out + [new'];
    assert findings[..k + 1] == findings[..k] + [f];
    NotSaidYet(findings, k, out);
    CoversFirst(findings[..k], f);
    forall i | i in out ensures Piece(findings, k + 1, i) {
      PieceMore(findings, k, i);
    }
    assert forall i :: i in out' <==> i in out || i == new';
    assert Causes(out') == Causes(out) + {f.cause};
    forall i, j | 0 <= i < j < |out'| ensures SaidBefore(findings)(out'[i], out'[j]) {
      assert out'[i] == out[i] && out[i] in out;
      assert j < |out| ==> SaidBefore(findings)(out[i], out[j]);
    }
  }

  lemma GatheredFine(findings: seq<Finding>, k: nat, out: seq<Issue>)
    requires k < |findings| && Gathered(findings, k, out) && findings[k].attention == Fine
    ensures Gathered(findings, k + 1, out)
  {
    assert findings[..k + 1] == findings[..k] + [findings[k]];
    forall i | i in out ensures Piece(findings, k + 1, i) {
      PieceMore(findings, k, i);
    }
  }

  method Gather(findings: seq<Finding>) returns (out: seq<Issue>)
    ensures Gathered(findings, |findings|, out)
  {
    out := [];
    for k := 0 to |findings|
      invariant Gathered(findings, k, out)
    {
      var f := findings[k];
      if f.attention == Fine {
        GatheredFine(findings, k, out);
        continue;
      }
      var at := Position(out, f.cause);
      match at {
        case Some(j) =>
          GatheredAt(findings, k, out, j);
          out := out[j := With(out[j], f)];
        case None =>
          GatheredNew(findings, k, out);
          out := out + [With(Issue(f.cause, f.attention, [], None), f)];
      }
    }
  }

  function SubjectsSorted(i: Issue): Issue {
    i.(subjects := SortBy(i.subjects, NotAfter()))
  }

  method Group(findings: seq<Finding>) returns (issues: seq<Issue>)
    ensures Grouped(findings, issues)
  {
    var out := Gather(findings);
    assert findings[..|findings|] == findings;
    var sorted: seq<Issue> := [];
    for k := 0 to |out|
      invariant |sorted| == k && forall j | 0 <= j < k :: sorted[j] == SubjectsSorted(out[j])
    {
      sorted := sorted + [SubjectsSorted(out[k])];
    }
    issues := SortBy(sorted, Worse());
    GatheredIsGrouped(findings, out, sorted);
  }

  lemma SubjectsSortedCover(findings: seq<Finding>, i: Issue)
    requires Covers(findings, i) && Once(i.subjects)
    ensures Covers(findings, SubjectsSorted(i)) && Increasing(SubjectsSorted(i).subjects, Lexical())
  {
    SortedOnce(i.subjects);
    assert Elements(SubjectsSorted(i).subjects) == Elements(i.subjects);
  }

  lemma SortedIsOrdered(findings: seq<Finding>, out: seq<Issue>, sorted: seq<Issue>)
    requires Increasing(out, SaidBefore(findings)) && |sorted| == |out|
    requires forall j | 0 <= j < |out| :: sorted[j] == SubjectsSorted(out[j])
    ensures Increasing(SortBy(sorted, Worse()), Order(findings))
    ensures forall i :: i in SortBy(sorted, Worse()) <==> i in sorted
  {
    StillInOrder(findings, out, sorted);
    SortIsStable(sorted, Worse(), SaidBefore(findings));
    forall i ensures i in SortBy(sorted, Worse()) <==> i in sorted {
      SortedHolds(sorted, Worse(), i);
    }
  }

  lemma GatheredIsGrouped(findings: seq<Finding>, out: seq<Issue>, sorted: seq<Issue>)
    requires Gathered(findings, |findings|, out) && |sorted| == |out|
    requires forall j | 0 <= j < |out| :: sorted[j] == SubjectsSorted(out[j])
    ensures Grouped(findings, SortBy(sorted, Worse()))
  {
    assert findings[..|findings|] == findings;
    var issues := SortBy(sorted, Worse());
    SortedIsOrdered(findings, out, sorted);
    forall i | i in issues ensures Covers(findings, i) && Increasing(i.subjects, Lexical()) && i.asideUntil == None {
      var j :| 0 <= j < |sorted| && sorted[j] == i;
      assert out[j] in out;
      SubjectsSortedCover(findings, out[j]);
    }
    SameCauses(out, sorted);
    assert Causes(issues) == Causes(sorted);
  }

  // ---- What it is for ------------------------------------------------------------

  /** A line is as bad as its worst finding, names each subject found and no other, and every
      cause found has one. */
  lemma GroupedMeans(findings: seq<Finding>, issues: seq<Issue>, cause: Cause)
    requires Grouped(findings, issues)
    ensures (exists f :: f in findings && Says(f, cause)) <==> (exists i :: i in issues && i.cause == cause)
    ensures forall i | i in issues && i.cause == cause ::
              && (exists f :: f in findings && Says(f, cause) && f.attention == i.attention)
              && (forall f | f in findings && Says(f, cause) :: Rank(f.attention) <= Rank(i.attention))
              && (forall s :: s in i.subjects <==> exists f :: f in findings && Says(f, cause) && f.subject == Some(s))
  {
    WorstMeaning(findings, cause);
    if f :| f in findings && Says(f, cause) {
      assert cause in Causes(issues);
    }
    forall i, s | i in issues && i.cause == cause
      ensures s in i.subjects <==> exists f :: f in findings && Says(f, cause) && f.subject == Some(s)
    {
      SubjectsMeaning(findings, cause, s);
      assert s in i.subjects <==> s in Elements(i.subjects);
    }
  }

  /** Every critical line stands before every notice, and lines that matter as much as their
      causes were first said. */
  lemma CriticalFirst(findings: seq<Finding>, issues: seq<Issue>, j: nat, k: nat)
    requires Grouped(findings, issues) && j < k < |issues|
    ensures issues[j].attention == Critical || issues[k].attention == Notice
    ensures issues[j].attention == issues[k].attention ==>
              First(findings, issues[j].cause) < First(findings, issues[k].cause)
  {
    assert issues[j] in issues && issues[k] in issues;
    assert Order(findings)(issues[j], issues[k]);
  }

  lemma OrderIsStrict(findings: seq<Finding>)
    ensures Strict(Order(findings))
  {
  }

  /** There is one way to group. */
  lemma GroupedOneWay(findings: seq<Finding>, a: seq<Issue>, b: seq<Issue>)
    requires Grouped(findings, a) && Grouped(findings, b)
    ensures a == b
  {
    OrderIsStrict(findings);
    forall i ensures i in a <==> i in b {
      if i in a { InBoth(findings, a, b, i); }
      if i in b { InBoth(findings, b, a, i); }
    }
    IncreasingIsUnique(a, b, Order(findings));
  }

  lemma {:induction false} SaidSomewhere(findings: seq<Finding>, cause: Cause)
    requires Worst(findings, cause) != Fine
    ensures exists f :: f in findings && f.attention != Fine && f.cause == cause
  {
    WorstMeaning(findings, cause);
  }

  lemma InBoth(findings: seq<Finding>, a: seq<Issue>, b: seq<Issue>, i: Issue)
    requires Grouped(findings, a) && Grouped(findings, b) && i in a
    ensures i in b
  {
    SaidSomewhere(findings, i.cause);
    var j :| j in b && j.cause == i.cause;
    SameSubjects(i.subjects, j.subjects);
  }

  lemma SameSubjects(a: seq<string>, b: seq<string>)
    requires Increasing(a, Lexical()) && Increasing(b, Lexical()) && Elements(a) == Elements(b)
    ensures a == b
  {
    LexicalIsStrict();
    forall x ensures x in a <==> x in b {
      assert x in Elements(a) <==> x in Elements(b);
    }
    IncreasingIsUnique(a, b, Lexical());
  }

  /** What a list says, told again. */
  function Told(i: Issue): seq<Finding> {
    if i.subjects == [] then [Finding(i.cause, i.attention, None)]
    else seq(|i.subjects|, k requires 0 <= k < |i.subjects| => Finding(i.cause, i.attention, Some(i.subjects[k])))
  }

  function Flatten(issues: seq<Issue>): seq<Finding> {
    FlatMap(Told, issues)
  }

  lemma ToldSays(i: Issue)
    ensures Told(i) != [] && forall f | f in Told(i) :: f.cause == i.cause && f.attention == i.attention
  {
  }

  /** No cause has two lines. */
  lemma CausesApart(findings: seq<Finding>, issues: seq<Issue>, i: Issue, j: Issue)
    requires Grouped(findings, issues) && i in issues && j in issues && i.cause == j.cause
    ensures i == j
  {
    SameSubjects(i.subjects, j.subjects);
  }

  lemma {:induction false} AllTold(findings: seq<Finding>, i: Issue, others: seq<Finding>)
    requires i.attention != Fine
    requires forall f :: f in others && f.cause == i.cause <==> f in Told(i)
    ensures Covers(others, i)
  {
    ToldSays(i);
    WorstMeaning(others, i.cause);
    assert Told(i)[0] in Told(i);
    forall s ensures s in SubjectsOf(others, i.cause) <==> s in i.subjects {
      SubjectsMeaning(others, i.cause, s);
      ToldOf(i, s);
    }
  }

  lemma ToldOf(i: Issue, s: string)
    ensures s in i.subjects <==> Finding(i.cause, i.attention, Some(s)) in Told(i)
  {
    if s in i.subjects {
      var k :| 0 <= k < |i.subjects| && i.subjects[k] == s;
      assert Told(i)[k] == Finding(i.cause, i.attention, Some(s));
    }
  }

  lemma FlattenCovers(findings: seq<Finding>, issues: seq<Issue>, i: Issue)
    requires Grouped(findings, issues) && i in issues
    ensures Covers(Flatten(issues), i)
  {
    var flat := Flatten(issues);
    forall f ensures f in flat && f.cause == i.cause <==> f in Told(i) {
      FlatMapMeaning(Told, issues, f);
      ToldSays(i);
      if f in flat && f.cause == i.cause {
        var j :| j in issues && f in Told(j);
        ToldSays(j);
        CausesApart(findings, issues, i, j);
      }
    }
    AllTold(findings, i, flat);
  }

  lemma {:induction false} FlatPrefix(issues: seq<Issue>, k: nat)
    requires k <= |issues|
    ensures Flatten(issues[..k]) <= Flatten(issues)
    decreases |issues|
  {
    if k < |issues| {
      var init := issues[..|issues| - 1];
      assert init[..k] == issues[..k];
      FlatPrefix(init, k);
    } else {
      assert issues[..k] == issues;
    }
  }

  /** Told again, a line is first said after those before it. */
  lemma FlattenFirst(findings: seq<Finding>, issues: seq<Issue>, k: nat)
    requires Grouped(findings, issues) && k < |issues|
    ensures |Flatten(issues[..k])| <= First(Flatten(issues), issues[k].cause) < |Flatten(issues[..k + 1])|
  {
    var flat, before, upTo := Flatten(issues), Flatten(issues[..k]), Flatten(issues[..k + 1]);
    var i := issues[k];
    FlatPrefix(issues, k);
    FlatPrefix(issues, k + 1);
    FlatMapStep(Told, issues, k);
    ToldSays(i);
    assert i in issues;
    assert upTo == before + Told(i);
    forall j | 0 <= j < |before| ensures !Says(flat[j], i.cause) {
      assert flat[j] == before[j] && before[j] in before;
      FlatMapMeaning(Told, issues[..k], before[j]);
      var x :| x in issues[..k] && before[j] in Told(x);
      var a :| 0 <= a < k && issues[a] == x;
      ToldSays(x);
      assert Order(findings)(issues[a], issues[k]);
      if x.cause == i.cause { CausesApart(findings, issues, x, i); }
    }
    assert flat[|before|] == upTo[|before|] == Told(i)[0] && Told(i)[0] in Told(i);
  }

  /** Grouped again, a list is itself. */
  lemma GroupedAgain(findings: seq<Finding>, issues: seq<Issue>)
    requires Grouped(findings, issues)
    ensures Grouped(Flatten(issues), issues)
  {
    var flat := Flatten(issues);
    forall i | i in issues ensures Covers(flat, i) {
      FlattenCovers(findings, issues, i);
    }
    forall f | f in flat && f.attention != Fine ensures f.cause in Causes(issues) {
      FlatMapMeaning(Told, issues, f);
      var i :| i in issues && f in Told(i);
      ToldSays(i);
    }
    forall a, b | 0 <= a < b < |issues| ensures Order(flat)(issues[a], issues[b]) {
      assert Order(findings)(issues[a], issues[b]);
      FlattenFirst(findings, issues, a);
      FlattenFirst(findings, issues, b);
      FlatPrefix(issues[..b], a + 1);
      assert issues[..b][..a + 1] == issues[..a + 1];
    }
  }

  // ---- Lines set aside -----------------------------------------------------------

  datatype Aside = Aside(cause: Cause, until: int, attention: Attention, subjects: nat)

  /** The one aside looked at: the first of the cause. */
  function AsideOf(asides: seq<Aside>, cause: Cause): (a: Option<Aside>)
    ensures a.Some? ==> a.value in asides && a.value.cause == cause
    ensures a.None? ==> forall b | b in asides :: b.cause != cause
  {
    if asides == [] then None
    else if asides[0].cause == cause then Some(asides[0])
    else
      assert forall b :: b in asides <==> b == asides[0] || b in asides[1..];
      AsideOf(asides[1..], cause)
  }

  /** Within its time, and no worse than it was. */
  predicate StillAside(a: Aside, i: Issue, now: int) {
    a.until > now && Rank(i.attention) <= Rank(a.attention) && |i.subjects| <= a.subjects
  }

  function AsideUntil(asides: seq<Aside>, i: Issue, now: int): Option<int> {
    match AsideOf(asides, i.cause)
    case Some(a) => if StillAside(a, i, now) then Some(a.until) else None
    case None => None
  }

  method ApplyAsides(issues: array<Issue>, asides: seq<Aside>, now: int)
    modifies issues
    ensures forall k | 0 <= k < issues.Length ::
              issues[k] == old(issues[k]).(asideUntil := AsideUntil(asides, old(issues[k]), now))
  {
    for k := 0 to issues.Length
      invariant forall j | 0 <= j < k ::
                issues[j] == old(issues[j]).(asideUntil := AsideUntil(asides, old(issues[j]), now))
      invariant forall j | k <= j < issues.Length :: issues[j] == old(issues[j])
    {
      issues[k] := issues[k].(asideUntil := AsideUntil(asides, issues[k], now));
    }
  }

  /** A line is out of view exactly when the aside of its cause still holds: one that got worse
      — in attention, or covering more — is back, and the latest moment is never in the past. */
  lemma AsideIsNeverWorse(asides: seq<Aside>, i: Issue, now: int)
    requires forall a, b | a in asides && b in asides && a.cause == b.cause :: a == b
    ensures forall until: int :: AsideUntil(asides, i, now) == Some(until) <==>
              exists a :: a in asides && a.cause == i.cause && a.until == until
                          && until > now
                          && (i.attention == a.attention || i.attention == Fine || a.attention == Critical)
                          && |i.subjects| <= a.subjects
  {
    assert forall a | a in asides && a.cause == i.cause :: AsideOf(asides, i.cause) == Some(a);
  }
}
