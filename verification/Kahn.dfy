/** internal/graph/graph.go, TopologicalOrder: Kahn's algorithm with multiset
    in-degrees and a ready list drained in sorted order. */
module Kahn {
  import opened Sorting
  import opened Graphs
  import opened Cycles

  function Elems(s: seq<string>): set<string> { set x | x in s }

  /** n can be emitted once done has been: it is new and waits on nothing else. */
  ghost predicate Ready(g: Graph, done: set<string>, n: string) {
    n in g.names && n !in done && forall d :: d in g.Dependencies(n) ==> d in done
  }

  ghost predicate DepsBefore(g: Graph, order: seq<string>, i: int) {
    0 <= i < |order| ==> forall d :: d in g.Dependencies(order[i]) ==> d in order[..i]
  }

  /** A permutation of the names with every action after all of its dependencies. */
  ghost predicate IsTopological(g: Graph, order: seq<string>) {
    && NoDup(order)
    && Elems(order) == Elems(g.names)
    && (forall i :: DepsBefore(g, order, i))
  }

  /** At position i the smallest of all the actions that could come next was taken. */
  ghost predicate Least(g: Graph, order: seq<string>, i: int) {
    0 <= i < |order| ==>
      && Ready(g, Elems(order[..i]), order[i])
      && forall m :: Ready(g, Elems(order[..i]), m) ==> AtMost(order[i], m)
  }

  ghost predicate Greedy(g: Graph, order: seq<string>) {
    forall i :: Least(g, order, i)
  }

  /** What TopologicalOrder returns when it succeeds. */
  ghost predicate Canonical(g: Graph, order: seq<string>) {
    Greedy(g, order) && IsTopological(g, order)
  }

  // ---- counting what an action still waits for ----

  ghost function Pending(deps: seq<string>, done: set<string>): nat {
    if deps == [] then 0
    else (if deps[0] in done then 0 else 1) + Pending(deps[1..], done)
  }

  lemma {:induction false} PendingZero(deps: seq<string>, done: set<string>)
    ensures Pending(deps, done) == 0 <==> forall d :: d in deps ==> d in done
    decreases |deps|
  {
    if deps != [] {
      PendingZero(deps[1..], done);
      assert forall d :: d in deps <==> d == deps[0] || d in deps[1..];
    }
  }

  lemma {:induction false} PendingInsert(deps: seq<string>, done: set<string>, n: string)
    requires n !in done
    ensures Pending(deps, done) == Pending(deps, done + {n}) + Count(deps, n)
    decreases |deps|
  {
    if deps != [] {
      PendingInsert(deps[1..], done, n);
      assert deps == [deps[0]] + deps[1..];
      assert multiset(deps) == multiset{deps[0]} + multiset(deps[1..]);
    }
  }

  // ---- sizes ----

  lemma {:induction false} NoDupSize(s: seq<string>)
    requires NoDup(s)
    ensures |Elems(s)| == |s|
    decreases |s|
  {
    if s != [] {
      NoDupSize(s[1..]);
      assert Elems(s) == {s[0]} + Elems(s[1..]);
    }
  }

  lemma SubsetSize(a: set<string>, b: set<string>)
    requires a <= b
    ensures |a| <= |b|
    ensures |a| == |b| ==> a == b
  {
    assert b == a + (b - a);
    assert |b| == |a| + |b - a|;
  }

  // ---- the state of the loop ----

  ghost predicate Owes(g: Graph, done: set<string>, remaining: map<string, int>, n: string) {
    && (n in remaining <==> n in g.names)
    && (n in g.names ==> remaining[n] == Pending(g.Dependencies(n), done))
  }

  ghost predicate ReadyListed(g: Graph, done: set<string>, ready: seq<string>, n: string) {
    n in ready <==> Ready(g, done, n)
  }

  ghost predicate KahnState(g: Graph, order: seq<string>, remaining: map<string, int>, ready: seq<string>) {
    && Greedy(g, order)
    && NoDup(order)
    && Elems(order) <= Elems(g.names)
    && (forall n :: Owes(g, Elems(order), remaining, n))
    && Sorted(ready, AtMost)
    && NoDup(ready)
    && (forall n :: ReadyListed(g, Elems(order), ready, n))
  }

  /** Inside the loop over the dependents of n: the first j edges are counted off. */
  ghost predicate Counted(g: Graph, done: set<string>, n: string, remaining: map<string, int>, j: nat, m: string) {
    && j <= |g.Dependents(n)|
    && (m in remaining <==> m in g.names)
    && (m in g.names ==> remaining[m] == Pending(g.Dependencies(m), done) - Count(g.Dependents(n)[..j], m))
  }

  ghost predicate Unblocked(g: Graph, n: string, remaining: map<string, int>, unblocked: seq<string>, j: nat,
                            m: string)
  {
    j <= |g.Dependents(n)| &&
    (m in unblocked <==> m in g.Dependents(n)[..j] && m in remaining && remaining[m] == 0)
  }

  ghost predicate Draining(g: Graph, done: set<string>, n: string, remaining: map<string, int>,
                           unblocked: seq<string>, j: nat)
  {
    && (forall m :: Counted(g, done, n, remaining, j, m))
    && (forall m :: Unblocked(g, n, remaining, unblocked, j, m))
    && NoDup(unblocked)
  }

  lemma CountPrefix(s: seq<string>, j: nat, m: string)
    requires j < |s|
    ensures Count(s[..j + 1], m) == Count(s[..j], m) + (if s[j] == m then 1 else 0)
    ensures Count(s[..j + 1], m) <= Count(s, m)
  {
    assert s[..j + 1] == s[..j] + [s[j]];
    assert s == s[..j + 1] + s[j + 1..];
    assert multiset(s) == multiset(s[..j + 1]) + multiset(s[j + 1..]);
  }

  /** An action never owes fewer edges to n than are counted off. */
  lemma EnoughPending(g: Graph, done: set<string>, n: string, m: string)
    requires g.WellFormed() && n !in done
    ensures Pending(g.Dependencies(m), done) == Pending(g.Dependencies(m), done + {n}) + Count(g.Dependents(n), m)
  {
    PendingInsert(g.Dependencies(m), done, n);
    assert EdgesAgree(g.deps, g.rdeps);
    assert EdgeAgrees(g.deps, g.rdeps, m, n);
  }

  function Decrement(remaining: map<string, int>, m: string): map<string, int> {
    if m in remaining then remaining[m := remaining[m] - 1] else remaining
  }

  lemma CountedStep(g: Graph, done: set<string>, n: string, remaining: map<string, int>, j: nat, x: string)
    requires g.WellFormed() && n !in done && j < |g.Dependents(n)|
    requires forall m :: Counted(g, done, n, remaining, j, m)
    ensures Counted(g, done, n, Decrement(remaining, g.Dependents(n)[j]), j + 1, x)
    ensures x in g.names ==> Decrement(remaining, g.Dependents(n)[j])[x] >= 0
  {
    var m := g.Dependents(n)[j];
    assert Counted(g, done, n, remaining, j, m) && Counted(g, done, n, remaining, j, x);
    DependentsNamed(g, n, m);
    CountPrefix(g.Dependents(n), j, x);
    EnoughPending(g, done, n, x);
  }

  lemma UnblockedStep(g: Graph, n: string, remaining: map<string, int>, unblocked: seq<string>, j: nat, x: string)
    requires j < |g.Dependents(n)|
    requires var m := g.Dependents(n)[j]; m in remaining && remaining[m] > 0
    requires Unblocked(g, n, remaining, unblocked, j, x)
    ensures var m := g.Dependents(n)[j];
      Unblocked(g, n, Decrement(remaining, m), if remaining[m] == 1 then unblocked + [m] else unblocked, j + 1, x)
  {
    var s := g.Dependents(n);
    assert s[..j + 1] == s[..j] + [s[j]];
  }

  lemma DrainStep(g: Graph, done: set<string>, n: string, remaining: map<string, int>, unblocked: seq<string>, j: nat)
    requires g.WellFormed() && n !in done
    requires Draining(g, done, n, remaining, unblocked, j) && j < |g.Dependents(n)|
    ensures var m := g.Dependents(n)[j];
      && m in remaining
      && Draining(g, done, n, Decrement(remaining, m), if remaining[m] == 1 then unblocked + [m] else unblocked, j + 1)
  {
    var m, k := g.Dependents(n)[j], j + 1;
    DependentsNamed(g, n, m);
    assert Counted(g, done, n, remaining, j, m);
    CountedStep(g, done, n, remaining, j, m);
    var unblocked' := if remaining[m] == 1 then unblocked + [m] else unblocked;
    assert m !in unblocked by { assert Unblocked(g, n, remaining, unblocked, j, m); }
    forall x ensures Counted(g, done, n, Decrement(remaining, m), k, x) {
      CountedStep(g, done, n, remaining, j, x);
    }
    forall x ensures Unblocked(g, n, Decrement(remaining, m), unblocked', k, x) {
      assert Unblocked(g, n, remaining, unblocked, j, x);
      UnblockedStep(g, n, remaining, unblocked, j, x);
    }
  }

  lemma DependentsNamed(g: Graph, n: string, m: string)
    requires g.WellFormed()
    ensures m in g.Dependents(n) <==> n in g.Dependencies(m)
    ensures m in g.Dependents(n) ==> m in g.names && n in g.names
  {
    assert EdgesAgree(g.deps, g.rdeps);
    assert EdgeAgrees(g.deps, g.rdeps, m, n);
    assert m in g.Dependents(n) <==> m in multiset(g.Dependents(n));
    assert n in g.Dependencies(m) <==> n in multiset(g.Dependencies(m));
  }

  // ---- one round of the loop ----

  lemma GreedyExtend(g: Graph, order: seq<string>, n: string)
    requires Greedy(g, order) && Ready(g, Elems(order), n)
    requires forall m :: Ready(g, Elems(order), m) ==> AtMost(n, m)
    ensures Greedy(g, order + [n])
  {
    var o := order + [n];
    forall i ensures Least(g, o, i) {
      if 0 <= i < |order| {
        assert o[..i] == order[..i];
        assert Least(g, order, i);
      } else if i == |order| {
        assert o[..i] == order;
      }
    }
  }

  lemma SmallestFirst(ready: seq<string>, m: string)
    requires Sorted(ready, AtMost) && m in ready
    ensures AtMost(ready[0], m)
  {
    var i :| 0 <= i < |ready| && ready[i] == m;
    assert InOrder(ready, AtMost, 0, i);
  }

  /** Once every edge is counted off, the new in-degrees are those of done plus n. */
  lemma Drained(g: Graph, done: set<string>, n: string, remaining: map<string, int>, unblocked: seq<string>)
    requires g.WellFormed() && n !in done
    requires Draining(g, done, n, remaining, unblocked, |g.Dependents(n)|)
    ensures forall m :: Owes(g, done + {n}, remaining, m)
    ensures forall m :: m in unblocked <==> m in g.Dependents(n) && m in remaining && remaining[m] == 0
  {
    var s := g.Dependents(n);
    assert s[..|s|] == s;
    forall m ensures Owes(g, done + {n}, remaining, m) {
      assert Counted(g, done, n, remaining, |s|, m);
      EnoughPending(g, done, n, m);
    }
    forall m ensures m in unblocked <==> m in s && m in remaining && remaining[m] == 0 {
      assert Unblocked(g, n, remaining, unblocked, |s|, m);
    }
  }

  /** Emitting n makes ready exactly the actions it unblocked. */
  lemma NewlyReady(g: Graph, done: set<string>, n: string, remaining: map<string, int>, m: string)
    requires g.WellFormed() && Ready(g, done, n)
    requires forall d, x :: x in done && d in g.Dependencies(x) ==> d in done
    requires Owes(g, done + {n}, remaining, m)
    ensures Ready(g, done + {n}, m) <==>
      (Ready(g, done, m) && m != n) || (m in g.Dependents(n) && m in remaining && remaining[m] == 0)
  {
    PendingZero(g.Dependencies(m), done + {n});
    DependentsNamed(g, n, m);
  }

  lemma GreedyClosed(g: Graph, order: seq<string>, x: string, d: string)
    requires Greedy(g, order) && x in order && d in g.Dependencies(x)
    ensures d in order
  {
    var i :| 0 <= i < |order| && order[i] == x;
    assert Least(g, order, i);
  }

  lemma RoundKeepsState(g: Graph, order: seq<string>, ready: seq<string>, n: string,
                        remaining: map<string, int>, unblocked: seq<string>, ready': seq<string>)
    requires g.WellFormed() && ready != [] && n == ready[0]
    requires Greedy(g, order) && NoDup(order) && Elems(order) <= Elems(g.names)
    requires Sorted(ready, AtMost) && NoDup(ready) && forall m :: ReadyListed(g, Elems(order), ready, m)
    requires Draining(g, Elems(order), n, remaining, unblocked, |g.Dependents(n)|)
    requires SortedStrings(ready', ready[1..] + unblocked)
    ensures KahnState(g, order + [n], remaining, ready')
  {
    var done := Elems(order);
    assert ReadyListed(g, done, ready, n);
    forall m | Ready(g, done, m) ensures AtMost(n, m) {
      assert ReadyListed(g, done, ready, m);
      SmallestFirst(ready, m);
    }
    GreedyExtend(g, order, n);
    assert Elems(order + [n]) == done + {n};
    Drained(g, done, n, remaining, unblocked);
    forall d, x | x in done && d in g.Dependencies(x) ensures d in done { GreedyClosed(g, order, x, d); }
    MemberOfSorted(ready', ready[1..] + unblocked);
    forall m ensures ReadyListed(g, done + {n}, ready', m) {
      NewlyReady(g, done, n, remaining, m);
      assert ReadyListed(g, done, ready, m);
      assert m in ready[1..] <==> m in ready && m != n by { assert ready == [n] + ready[1..]; }
    }
    ReadyNoDup(g, done, n, ready, unblocked);
    NoDupMultiset(ready[1..] + unblocked, ready');
  }

  lemma ReadyNoDup(g: Graph, done: set<string>, n: string, ready: seq<string>, unblocked: seq<string>)
    requires g.WellFormed() && ready != [] && NoDup(ready) && NoDup(unblocked) && n !in done
    requires forall m :: ReadyListed(g, done, ready, m)
    requires forall m :: m in unblocked ==> m in g.Dependents(n)
    ensures NoDup(ready[1..] + unblocked)
  {
    forall m | m in unblocked ensures m !in ready {
      DependentsNamed(g, n, m);
      assert ReadyListed(g, done, ready, m);
    }
    assert forall k :: 0 <= k < |unblocked| ==> unblocked[k] in unblocked;
  }

  // ---- what the order and the failure mean ----

  lemma StalledWhenStuck(g: Graph, order: seq<string>, remaining: map<string, int>, finder: CycleFinder)
    requires g.WellFormed() && KahnState(g, order, remaining, [])
    requires finder.g == g && finder.remaining == remaining
    requires Elems(order) != Elems(g.names)
    ensures finder.Stalled()
    ensures exists n :: n in g.names && finder.Residual(n)
  {
    forall n ensures finder.Blocked(n) {
      if finder.Residual(n) {
        var d := UnemittedWaits(g, order, remaining, n);
        var e := UnemittedWaits(g, order, remaining, d);
        assert finder.Residual(d) && Edge(g, n, d);
      }
    }
    var n :| n in Elems(g.names) && n !in Elems(order);
    var d := UnemittedWaits(g, order, remaining, n);
    assert finder.Residual(n);
  }

  /** An action that was not emitted, or still has something remaining, waits on another
      that was not emitted. */
  lemma UnemittedWaits(g: Graph, order: seq<string>, remaining: map<string, int>, n: string) returns (d: string)
    requires g.WellFormed() && KahnState(g, order, remaining, [])
    requires (n in g.names && n !in order) || (n in remaining && remaining[n] != 0)
    ensures n in remaining && remaining[n] != 0
    ensures d in g.Dependencies(n) && d in g.names && d !in order
  {
    assert ReadyListed(g, Elems(order), [], n) && Owes(g, Elems(order), remaining, n);
    PendingZero(g.Dependencies(n), Elems(order));
    d :| d in g.Dependencies(n) && d !in order;
  }

  lemma GreedyIsTopological(g: Graph, order: seq<string>)
    requires Greedy(g, order) && NoDup(order) && Elems(order) == Elems(g.names)
    ensures IsTopological(g, order)
  {
    forall i ensures DepsBefore(g, order, i) {
      assert Least(g, order, i);
    }
  }

  /** The position of x in an order. */
  ghost function Position(order: seq<string>, x: string): (i: nat)
    requires x in order
    ensures i < |order| && order[i] == x
  {
    var i: nat :| i < |order| && order[i] == x;
    i
  }

  lemma DependencyComesFirst(g: Graph, order: seq<string>, n: string, d: string)
    requires g.WellFormed() && IsTopological(g, order) && d in g.Dependencies(n)
    ensures n in order && d in order && Position(order, d) < Position(order, n)
  {
    assert n in g.names && d in g.names;
    assert n in Elems(order) && d in Elems(order);
    var i := Position(order, n);
    assert DepsBefore(g, order, i);
    var j :| 0 <= j < i && order[j] == d;
  }

  lemma {:induction false} WalkDescends(g: Graph, order: seq<string>, w: seq<string>, k: nat)
    requires g.WellFormed() && IsTopological(g, order) && IsWalk(g, w)
    requires k < |w| && w[0] in order
    ensures w[k] in order && Position(order, w[k]) + k <= Position(order, w[0])
    decreases k
  {
    if k > 0 {
      WalkDescends(g, order, w, k - 1);
      assert Edge(g, w[k - 1], w[k - 1 + 1]);
      DependencyComesFirst(g, order, w[k - 1], w[k]);
    }
  }

  /** An order leaves no room for a cycle. */
  lemma TopologicalIsAcyclic(g: Graph, order: seq<string>)
    requires g.WellFormed() && IsTopological(g, order)
    ensures Acyclic(g)
  {
    forall c ensures !IsCycle(g, c) {
      if IsCycle(g, c) {
        assert Edge(g, c[0], c[1]);
        DependencyComesFirst(g, order, c[0], c[1]);
        WalkDescends(g, order, c, |c| - 1);
      }
    }
  }

  /** a comes before b when sequences of names are compared position by position. */
  ghost predicate Before(a: seq<string>, b: seq<string>) {
    exists i :: 0 <= i < |a| && i < |b| && (forall k :: 0 <= k < i ==> a[k] == b[k]) && Less(a[i], b[i])
  }

  ghost function FirstDifference(a: seq<string>, b: seq<string>): (i: nat)
    requires |a| == |b| && a != b
    ensures i < |a| && (forall k :: 0 <= k < i ==> a[k] == b[k]) && a[i] != b[i]
  {
    if a[0] != b[0] then 0
    else
      assert a == [a[0]] + a[1..] && b == [b[0]] + b[1..];
      FirstDifference(a[1..], b[1..]) + 1
  }

  /** The canonical order is the lexicographically least of all the orders that
      respect the dependencies. */
  lemma CanonicalIsLeast(g: Graph, order: seq<string>, other: seq<string>)
    requires g.WellFormed() && Canonical(g, order) && IsTopological(g, other)
    ensures order == other || Before(order, other)
  {
    NoDupSize(order);
    NoDupSize(other);
    if order != other {
      var i := FirstDifference(order, other);
      assert order[..i] == other[..i];
      assert Least(g, order, i) && DepsBefore(g, other, i);
      assert Ready(g, Elems(order[..i]), other[i]) by {
        assert other[i] in Elems(g.names);
      }
      assert Less(order[i], other[i]);
    }
  }

  lemma BeforeAsymmetric(a: seq<string>, b: seq<string>)
    ensures !(Before(a, b) && Before(b, a))
  {
    forall i | 0 <= i < |a| && i < |b|
      ensures !(Less(a[i], b[i]) && Less(b[i], a[i])) && (Less(a[i], b[i]) ==> a[i] != b[i])
    {
      LessTotal(a[i], b[i]);
    }
  }

  /** Two graphs with the same names whose lists hold the same dependencies, in any
      order and with any repetitions. */
  ghost predicate SameShape(g1: Graph, g2: Graph) {
    && g1.names == g2.names
    && forall n, d :: d in g1.Dependencies(n) <==> d in g2.Dependencies(n)
  }

  lemma SameShapeTopological(g1: Graph, g2: Graph, order: seq<string>)
    requires SameShape(g1, g2) && IsTopological(g1, order)
    ensures IsTopological(g2, order)
  {
    forall i ensures DepsBefore(g2, order, i) {
      assert DepsBefore(g1, order, i);
    }
  }

  /** The order depends on the names and on who waits on whom, and on nothing else
      about the manifest: not on how its actions or dependencies are listed, nor on
      how often a dependency is repeated. */
  lemma CanonicalUnique(g1: Graph, g2: Graph, o1: seq<string>, o2: seq<string>)
    requires g1.WellFormed() && g2.WellFormed() && SameShape(g1, g2)
    requires Canonical(g1, o1) && Canonical(g2, o2)
    ensures o1 == o2
  {
    SameShapeTopological(g1, g2, o1);
    assert SameShape(g2, g1);
    SameShapeTopological(g2, g1, o2);
    CanonicalIsLeast(g1, o1, o2);
    CanonicalIsLeast(g2, o2, o1);
    BeforeAsymmetric(o1, o2);
  }

  datatype OrderResult = Order(order: seq<string>) | CycleError(cycle: seq<string>)

  /** The loop that fills remaining and ready. */
  method Start(g: Graph) returns (remaining: map<string, int>, ready: seq<string>)
    requires g.WellFormed()
    ensures KahnState(g, [], remaining, ready)
  {
    remaining, ready := map[], [];
    for i := 0 to |g.names|
      invariant forall k :: 0 <= k < i ==> g.names[k] in remaining
      invariant forall n :: n in remaining ==> n in g.names && remaining[n] == |g.Dependencies(n)|
      invariant NoDup(ready)
      invariant forall m :: m in ready ==> m in g.names && g.Dependencies(m) == []
      invariant forall k :: 0 <= k < i && g.Dependencies(g.names[k]) == [] ==> g.names[k] in ready
      invariant forall k :: i <= k < |g.names| ==> g.names[k] !in ready
    {
      remaining := remaining[g.names[i] := |g.Dependencies(g.names[i])|];
      if remaining[g.names[i]] == 0 { ready := ready + [g.names[i]]; }
    }
    ghost var unsorted := ready;
    ready := SortStrings(ready);
    StartState(g, remaining, unsorted, ready);
  }

  lemma StartState(g: Graph, remaining: map<string, int>, unsorted: seq<string>, ready: seq<string>)
    requires forall n :: n in remaining <==> n in g.names
    requires forall n :: n in remaining ==> remaining[n] == |g.Dependencies(n)|
    requires forall n :: n in unsorted <==> n in g.names && g.Dependencies(n) == []
    requires NoDup(unsorted) && SortedStrings(ready, unsorted)
    ensures KahnState(g, [], remaining, ready)
  {
    MemberOfSorted(ready, unsorted);
    NoDupMultiset(unsorted, ready);
    assert Elems([]) == {};
    forall n ensures Owes(g, {}, remaining, n) { PendingNone(g.Dependencies(n)); }
    forall n ensures ReadyListed(g, {}, ready, n) {
      assert g.Dependencies(n) != [] ==> g.Dependencies(n)[0] in g.Dependencies(n);
    }
    forall i ensures Least(g, [], i) {}
  }

  lemma {:induction false} PendingNone(deps: seq<string>)
    ensures Pending(deps, {}) == |deps|
    decreases |deps|
  {
    if deps != [] { PendingNone(deps[1..]); }
  }

  /** The loop over the dependents of the action just emitted. */
  method Drain(g: Graph, ghost done: set<string>, n: string, remaining0: map<string, int>)
    returns (remaining: map<string, int>, unblocked: seq<string>)
    requires g.WellFormed() && n !in done && forall m :: Owes(g, done, remaining0, m)
    ensures Draining(g, done, n, remaining, unblocked, |g.Dependents(n)|)
  {
    remaining, unblocked := remaining0, [];
    var rdeps := g.Dependents(n);
    forall m ensures Counted(g, done, n, remaining, 0, m) { assert Owes(g, done, remaining0, m); }
    for j := 0 to |rdeps|
      invariant Draining(g, done, n, remaining, unblocked, j)
    {
      DrainStep(g, done, n, remaining, unblocked, j);
      var m := rdeps[j];
      if remaining[m] == 1 { unblocked := unblocked + [m]; }
      remaining := remaining[m := remaining[m] - 1];
    }
  }

  /** Kahn's algorithm: the canonical order, or a cycle of actions it could not emit. */
  method TopologicalOrder(g: Graph) returns (r: OrderResult)
    requires g.WellFormed()
    ensures r.Order? <==> Acyclic(g)
    ensures r.Order? ==> Canonical(g, r.order)
    ensures r.CycleError? ==> IsSimpleCycle(g, r.cycle)
  {
    var remaining, ready := Start(g);
    var order: seq<string> := [];
    while ready != []
      invariant KahnState(g, order, remaining, ready)
      decreases Elems(g.names) - Elems(order)
    {
      var n := ready[0];
      assert ReadyListed(g, Elems(order), ready, n);
      ghost var done := Elems(order);
      var unblocked;
      remaining, unblocked := Drain(g, done, n, remaining);
      var next := SortStrings(ready[1..] + unblocked);
      RoundKeepsState(g, order, ready, n, remaining, unblocked, next);
      order, ready := order + [n], next;
      assert n in Elems(order);
    }
    NoDupSize(order);
    NoDupSize(g.names);
    SubsetSize(Elems(order), Elems(g.names));
    if |order| != |g.names| {
      var finder := new CycleFinder(g, remaining);
      StalledWhenStuck(g, order, remaining, finder);
      var cycle := finder.Find();
      return CycleError(cycle);
    }
    GreedyIsTopological(g, order);
    TopologicalIsAcyclic(g, order);
    return Order(order);
  }
}
