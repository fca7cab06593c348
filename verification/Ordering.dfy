/** Orders, and what sorting by one keeps. */
module Ordering {
  import opened Sequences

  /** As strings compare: character by character. */
  predicate Before(a: string, b: string) {
    b != [] && (a == [] || a[0] < b[0] || (a[0] == b[0] && Before(a[1..], b[1..])))
  }

  lemma {:induction false} BeforeIsTotal(a: string, b: string)
    ensures a == b || Before(a, b) || Before(b, a)
    ensures !(Before(a, b) && Before(b, a)) && !Before(a, a)
  {
    if a != [] && b != [] && a[0] == b[0] {
      BeforeIsTotal(a[1..], b[1..]);
      assert a == [a[0]] + a[1..] && b == [b[0]] + b[1..];
    }
    if a != [] { BeforeIsTotal(a[1..], a[1..]); }
  }

  lemma {:induction false} BeforeIsTransitive(a: string, b: string, c: string)
    requires Before(a, b) && Before(b, c)
    ensures Before(a, c)
  {
    if a != [] && a[0] == b[0] && b[0] == c[0] { BeforeIsTransitive(a[1..], b[1..], c[1..]); }
  }

  ghost predicate Strict<T(!new)>(lt: (T, T) -> bool) {
    && (forall x, y :: !(lt(x, y) && lt(y, x)))
    && (forall x, y, z :: lt(x, y) && lt(y, z) ==> lt(x, z))
  }

  predicate Increasing<T>(s: seq<T>, lt: (T, T) -> bool) {
    forall i, j | 0 <= i < j < |s| :: lt(s[i], s[j])
  }

  function Lexical(): (string, string) -> bool {
    (a, b) => Before(a, b)
  }

  lemma LexicalIsStrict()
    ensures Strict(Lexical())
  {
    forall x: string, y: string ensures !(Lexical()(x, y) && Lexical()(y, x)) {
      BeforeIsTotal(x, y);
    }
    forall x: string, y: string, z: string | Lexical()(x, y) && Lexical()(y, z) ensures Lexical()(x, z) {
      BeforeIsTransitive(x, y, z);
    }
  }

  lemma FirstIsLeast<T(!new)>(s: seq<T>, lt: (T, T) -> bool, x: T)
    requires Increasing(s, lt) && x in s
    ensures x == s[0] || lt(s[0], x)
  {
    var i :| 0 <= i < |s| && s[i] == x;
    assert i > 0 ==> lt(s[0], s[i]);
  }

  /** Of given elements there is one increasing sequence. */
  lemma {:induction false} IncreasingIsUnique<T(!new)>(a: seq<T>, b: seq<T>, lt: (T, T) -> bool)
    requires Strict(lt) && Increasing(a, lt) && Increasing(b, lt)
    requires forall x :: x in a <==> x in b
    ensures a == b
    decreases |a|
  {
    EmptyOrNot(a);
    EmptyOrNot(b);
    if a != [] {
      FirstIsLeast(b, lt, a[0]);
      FirstIsLeast(a, lt, b[0]);
      forall x ensures x in a[1..] <==> x in b[1..] {
        RestHolds(a, lt, x);
        RestHolds(b, lt, x);
      }
      assert Increasing(a[1..], lt) && Increasing(b[1..], lt);
      IncreasingIsUnique(a[1..], b[1..], lt);
      assert a == [a[0]] + a[1..] && b == [b[0]] + b[1..];
    }
  }

  lemma RestHolds<T(!new)>(s: seq<T>, lt: (T, T) -> bool, x: T)
    requires Strict(lt) && Increasing(s, lt) && s != []
    ensures x in s[1..] <==> x in s && x != s[0]
  {
    if x in s && x != s[0] {
      var i :| 0 <= i < |s| && s[i] == x;
      assert s[1..][i - 1] == x;
    }
    if x in s[1..] {
      var i :| 0 <= i < |s[1..]| && s[1..][i] == x;
      assert s[i + 1] == x && lt(s[0], s[i + 1]);
    }
  }

  // ---- A stable sort -------------------------------------------------------------

  /** `x`, which came first, before what it may precede. */
  function Insert<T>(x: T, s: seq<T>, leq: (T, T) -> bool): seq<T> {
    if s == [] then [x] else if leq(x, s[0]) then [x] + s else [s[0]] + Insert(x, s[1..], leq)
  }

  function SortBy<T>(s: seq<T>, leq: (T, T) -> bool): seq<T> {
    if s == [] then [] else Insert(s[0], SortBy(s[1..], leq), leq)
  }

  ghost predicate Preorder<T(!new)>(leq: (T, T) -> bool) {
    && (forall x, y :: leq(x, y) || leq(y, x))
    && (forall x, y, z :: leq(x, y) && leq(y, z) ==> leq(x, z))
  }

  predicate Ordered<T>(s: seq<T>, leq: (T, T) -> bool) {
    forall i, j | 0 <= i < j < |s| :: leq(s[i], s[j])
  }

  lemma {:induction false} InsertKeeps<T(!new)>(x: T, s: seq<T>, leq: (T, T) -> bool)
    ensures multiset(Insert(x, s, leq)) == multiset(s) + multiset{x}
  {
    if s != [] && !leq(x, s[0]) {
      InsertKeeps(x, s[1..], leq);
      assert s == [s[0]] + s[1..];
    }
  }

  lemma {:induction false} InsertOrders<T(!new)>(x: T, s: seq<T>, leq: (T, T) -> bool)
    requires Preorder(leq) && Ordered(s, leq)
    ensures Ordered(Insert(x, s, leq), leq)
  {
    if s != [] {
      if leq(x, s[0]) {
        forall j | 0 <= j < |s| ensures leq(x, s[j]) {
          assert leq(s[0], s[j]) || j == 0;
        }
      } else {
        var rest := Insert(x, s[1..], leq);
        InsertOrders(x, s[1..], leq);
        InsertKeeps(x, s[1..], leq);
        forall k | 0 <= k < |rest| ensures leq(s[0], rest[k]) {
          FromRest(x, s, rest, leq, k);
        }
      }
    }
  }

  lemma FromRest<T(!new)>(x: T, s: seq<T>, rest: seq<T>, leq: (T, T) -> bool, k: nat)
    requires Preorder(leq) && Ordered(s, leq) && s != [] && leq(s[0], x)
    requires multiset(rest) == multiset(s[1..]) + multiset{x} && k < |rest|
    ensures leq(s[0], rest[k])
  {
    assert rest[k] in multiset(rest);
    if rest[k] != x {
      assert rest[k] in multiset(s[1..]);
      var i :| 0 <= i < |s[1..]| && s[1..][i] == rest[k];
      assert leq(s[0], s[i + 1]);
    }
  }

  lemma {:induction false} SortKeeps<T(!new)>(s: seq<T>, leq: (T, T) -> bool)
    ensures multiset(SortBy(s, leq)) == multiset(s)
    ensures Preorder(leq) ==> Ordered(SortBy(s, leq), leq)
  {
    if s != [] {
      SortKeeps(s[1..], leq);
      InsertKeeps(s[0], SortBy(s[1..], leq), leq);
      if Preorder(leq) { InsertOrders(s[0], SortBy(s[1..], leq), leq); }
      assert s == [s[0]] + s[1..];
    }
  }

  /** Before by the order — or, where either may go first, by how they came. */
  function Stably<T>(leq: (T, T) -> bool, came: (T, T) -> bool): (T, T) -> bool {
    (x, y) => !leq(y, x) || (leq(x, y) && came(x, y))
  }

  lemma {:induction false} InsertIsStable<T(!new)>(x: T, s: seq<T>, leq: (T, T) -> bool, came: (T, T) -> bool)
    requires Preorder(leq) && Increasing(s, Stably(leq, came)) && forall y | y in s :: came(x, y)
    ensures Increasing(Insert(x, s, leq), Stably(leq, came))
  {
    var lt := Stably(leq, came);
    if s != [] {
      if leq(x, s[0]) {
        forall j | 0 <= j < |s| ensures lt(x, s[j]) {
          assert j > 0 ==> lt(s[0], s[j]);
        }
      } else {
        var rest := Insert(x, s[1..], leq);
        assert forall y | y in s[1..] :: y in s;
        InsertIsStable(x, s[1..], leq, came);
        InsertKeeps(x, s[1..], leq);
        forall k | 0 <= k < |rest| ensures lt(s[0], rest[k]) {
          assert rest[k] in multiset(rest);
          if rest[k] != x {
            assert rest[k] in multiset(s[1..]);
            var i :| 0 <= i < |s[1..]| && s[1..][i] == rest[k];
            assert lt(s[0], s[i + 1]);
          }
        }
      }
    }
  }

  /** A sort that keeps equals as they came. */
  lemma {:induction false} SortIsStable<T(!new)>(s: seq<T>, leq: (T, T) -> bool, came: (T, T) -> bool)
    requires Preorder(leq) && Increasing(s, came)
    ensures Increasing(SortBy(s, leq), Stably(leq, came))
  {
    if s != [] {
      SortIsStable(s[1..], leq, came);
      SortKeeps(s[1..], leq);
      forall y | y in SortBy(s[1..], leq) ensures came(s[0], y) {
        assert y in multiset(s[1..]);
        var i :| 0 <= i < |s[1..]| && s[1..][i] == y;
        assert came(s[0], s[i + 1]);
      }
      InsertIsStable(s[0], SortBy(s[1..], leq), leq, came);
    }
  }

  lemma SortedHolds<T(!new)>(s: seq<T>, leq: (T, T) -> bool, x: T)
    ensures x in SortBy(s, leq) <==> x in s
  {
    SortKeeps(s, leq);
    assert x in SortBy(s, leq) <==> x in multiset(SortBy(s, leq));
    assert x in s <==> x in multiset(s);
  }

  // ---- Strings, sorted -----------------------------------------------------------

  predicate Once(s: seq<string>) {
    forall i, j | 0 <= i < j < |s| :: s[i] != s[j]
  }

  function NotAfter(): (string, string) -> bool {
    (a, b) => a == b || Before(a, b)
  }

  lemma NotAfterIsAPreorder()
    ensures Preorder(NotAfter())
  {
    forall x: string, y: string ensures NotAfter()(x, y) || NotAfter()(y, x) {
      BeforeIsTotal(x, y);
    }
    forall x: string, y: string, z: string | NotAfter()(x, y) && NotAfter()(y, z) ensures NotAfter()(x, z) {
      if x != y && y != z { BeforeIsTransitive(x, y, z); }
    }
  }

  /** Sorted, subjects that are each there once increase. */
  lemma SortedOnce(s: seq<string>)
    requires Once(s)
    ensures Increasing(SortBy(s, NotAfter()), Lexical())
    ensures forall x :: x in SortBy(s, NotAfter()) <==> x in s
  {
    NotAfterIsAPreorder();
    SortIsStable(s, NotAfter(), (a: string, b: string) => a != b);
    forall x ensures x in SortBy(s, NotAfter()) <==> x in s {
      SortedHolds(s, NotAfter(), x);
    }
    var sorted, lt := SortBy(s, NotAfter()), Stably(NotAfter(), (a: string, b: string) => a != b);
    forall i, j | 0 <= i < j < |sorted| ensures Lexical()(sorted[i], sorted[j]) {
      assert lt(sorted[i], sorted[j]);
      BeforeIsTotal(sorted[i], sorted[j]);
    }
  }
}
