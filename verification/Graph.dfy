/** internal/manifest (the Action record) and internal/graph/graph.go: building the
    graph, Kahn's algorithm, and the search for a cycle when it stalls. */
module Graphs {
  import opened Sorting

  datatype Option<T> = None | Some(value: T)

  datatype Result<T> = Ok(value: T) | Err(message: string)

  datatype Action = Action(
    name: string,
    deps: seq<string>,
    inputs: seq<string>,
    outputs: seq<string>,
    command: seq<string>,
    env: map<string, string>)

  ghost predicate NoDup<T>(s: seq<T>) {
    forall i, j :: 0 <= i < j < |s| ==> s[i] != s[j]
  }

  function Count(s: seq<string>, x: string): nat { multiset(s)[x] }

  function Lookup(m: map<string, seq<string>>, k: string): seq<string> {
    if k in m then m[k] else []
  }

  /** n waits on d as often in one map as in the other. */
  ghost predicate EdgeAgrees(deps: map<string, seq<string>>, rdeps: map<string, seq<string>>, n: string, d: string) {
    Count(Lookup(rdeps, d), n) == Count(Lookup(deps, n), d)
  }

  /** The two edge maps agree with multiplicity and hold no empty list. */
  ghost predicate EdgesAgree(deps: map<string, seq<string>>, rdeps: map<string, seq<string>>) {
    && (forall n, d :: EdgeAgrees(deps, rdeps, n, d))
    && (forall n :: n in deps ==> deps[n] != [])
    && (forall n :: n in rdeps ==> rdeps[n] != [])
  }

  /** The graph is never changed after New returns, so it is a value. A Go map
      answers a missing key with a nil slice. */
  datatype Graph = Graph(
    actions: map<string, Action>,
    deps: map<string, seq<string>>,
    rdeps: map<string, seq<string>>,
    names: seq<string>)
  {
    function Dependencies(n: string): seq<string> { Lookup(deps, n) }
    function Dependents(n: string): seq<string> { Lookup(rdeps, n) }

    /** What New establishes and every algorithm below relies on. The two edge maps
        agree with multiplicity: a dependency listed twice is two edges. */
    ghost predicate WellFormed() {
      && Sorted(names, AtMost)
      && NoDup(names)
      && "" !in names
      && (forall n :: n in actions <==> n in names)
      && (forall n, d {:trigger d in Dependencies(n)} :: d in Dependencies(n) ==> n in names && d in names)
      && EdgesAgree(deps, rdeps)
    }
  }

  // ---- New ----

  function Names(m: seq<Action>): seq<string> {
    seq(|m|, i requires 0 <= i < |m| => m[i].name)
  }

  ghost predicate Named(m: seq<Action>, n: string) {
    exists i :: 0 <= i < |m| && m[i].name == n
  }

  /** What manifest.Validate guarantees about names. */
  ghost predicate ValidNames(m: seq<Action>) {
    && (forall i, j :: 0 <= i < j < |m| ==> m[i].name != m[j].name)
    && (forall i :: 0 <= i < |m| ==> m[i].name != "")
  }

  ghost predicate Known(m: seq<Action>, a: Action) {
    forall d :: d in a.deps ==> Named(m, d)
  }

  ghost predicate KnownDeps(m: seq<Action>) {
    forall i :: 0 <= i < |m| ==> Known(m, m[i])
  }

  /** g is the graph of m: sorted names, sorted dependency lists keeping duplicates,
      and the reverse edges, sorted, with the same multiplicities. */
  ghost predicate IsGraphOf(g: Graph, m: seq<Action>) {
    && SortedStrings(g.names, Names(m))
    && (forall n :: n in g.actions <==> Named(m, n))
    && (forall i :: 0 <= i < |m| ==> m[i].name in g.actions && g.actions[m[i].name] == m[i])
    && (forall i :: 0 <= i < |m| ==> SortedStrings(g.Dependencies(m[i].name), m[i].deps))
    && (forall n :: n in g.deps ==> Named(m, n))
    && (forall n :: Sorted(g.Dependents(n), AtMost))
    && EdgesAgree(g.deps, g.rdeps)
  }

  function Append(m: map<string, seq<string>>, k: string, x: string): (r: map<string, seq<string>>)
  {
    m[k := Lookup(m, k) + [x]]
  }

  lemma CountAppend(m: map<string, seq<string>>, k: string, x: string, j: string, y: string)
    ensures Count(Lookup(Append(m, k, x), j), y) == Count(Lookup(m, j), y) + (if j == k && y == x then 1 else 0)
  {
    if j == k { assert multiset(Lookup(m, k) + [x]) == multiset(Lookup(m, k)) + multiset{x}; }
  }

  lemma EdgesAgreeAppend(deps: map<string, seq<string>>, rdeps: map<string, seq<string>>, n: string, d: string)
    requires EdgesAgree(deps, rdeps)
    ensures EdgesAgree(Append(deps, n, d), Append(rdeps, d, n))
  {
    forall x, y ensures EdgeAgrees(Append(deps, n, d), Append(rdeps, d, n), x, y) {
      assert EdgeAgrees(deps, rdeps, x, y);
      CountAppend(deps, n, d, x, y);
      CountAppend(rdeps, d, n, y, x);
    }
  }

  method IndexActions(m: seq<Action>) returns (actions: map<string, Action>)
    requires ValidNames(m)
    ensures forall n :: n in actions <==> Named(m, n)
    ensures forall i :: 0 <= i < |m| ==> m[i].name in actions && actions[m[i].name] == m[i]
  {
    actions := map[];
    for i := 0 to |m|
      invariant forall n :: n in actions ==> Named(m, n)
      invariant forall k :: 0 <= k < i ==> m[k].name in actions && actions[m[k].name] == m[k]
    {
      actions := actions[m[i].name := m[i]];
    }
  }

  /** New's second loop has handled the actions before i: their lists are complete,
      the others are still empty. */
  ghost predicate Linked(m: seq<Action>, deps: map<string, seq<string>>, i: nat) {
    && (forall n :: n in deps ==> Named(m, n))
    && (forall k :: 0 <= k < i <= |m| ==> SortedStrings(Lookup(deps, m[k].name), m[k].deps))
    && (forall k :: i <= k < |m| ==> m[k].name !in deps)
  }

  lemma Assembled(m: seq<Action>, actions: map<string, Action>, deps: map<string, seq<string>>,
                  rdeps: map<string, seq<string>>, names: seq<string>)
    requires SortedStrings(names, Names(m))
    requires forall n :: n in actions <==> Named(m, n)
    requires forall i :: 0 <= i < |m| ==> m[i].name in actions && actions[m[i].name] == m[i]
    requires Linked(m, deps, |m|) && EdgesAgree(deps, rdeps)
    requires forall n :: Sorted(Lookup(rdeps, n), AtMost)
    ensures IsGraphOf(Graph(actions, deps, rdeps, names), m)
  {
    var g := Graph(actions, deps, rdeps, names);
    forall i | 0 <= i < |m| ensures SortedStrings(g.Dependencies(m[i].name), m[i].deps) {
      assert SortedStrings(Lookup(deps, m[i].name), m[i].deps);
    }
    forall n ensures Sorted(g.Dependents(n), AtMost) {
      assert Sorted(Lookup(rdeps, n), AtMost);
    }
  }

  method New(m: seq<Action>) returns (r: Result<Graph>)
    requires ValidNames(m)
    ensures r.Ok? <==> KnownDeps(m)
    ensures r.Ok? ==> IsGraphOf(r.value, m)
  {
    var actions := IndexActions(m);
    var deps: map<string, seq<string>> := map[];
    var rdeps: map<string, seq<string>> := map[];
    for i := 0 to |m|
      invariant EdgesAgree(deps, rdeps)
      invariant Linked(m, deps, i)
      invariant forall k :: 0 <= k < i ==> Known(m, m[k])
    {
      var ok;
      ok, deps, rdeps := LinkOne(m, i, actions, deps, rdeps);
      if !ok { return Err("depends on unknown action"); }
    }
    rdeps := SortLists(deps, rdeps);
    var names := SortStrings(Names(m));
    Assembled(m, actions, deps, rdeps, names);
    return Ok(Graph(actions, deps, rdeps, names));
  }

  /** Only the list of one name differs. */
  ghost predicate OnlyChanges(deps0: map<string, seq<string>>, deps: map<string, seq<string>>, name: string) {
    && (forall n :: n in deps ==> n in deps0 || n == name)
    && (forall n :: n in deps0 ==> n in deps && (n != name ==> deps[n] == deps0[n]))
  }

  /** The first j dependencies of name have been appended to its list. */
  ghost predicate Partial(deps0: map<string, seq<string>>, deps: map<string, seq<string>>, name: string,
                          ds: seq<string>, j: nat)
  {
    j <= |ds| && Lookup(deps, name) == ds[..j] && OnlyChanges(deps0, deps, name)
  }

  lemma PartialStep(deps0: map<string, seq<string>>, deps: map<string, seq<string>>, name: string, ds: seq<string>,
                    j: nat)
    requires j < |ds| && Partial(deps0, deps, name, ds, j)
    ensures Partial(deps0, Append(deps, name, ds[j]), name, ds, j + 1)
  {
    assert ds[..j + 1] == ds[..j] + [ds[j]];
  }

  lemma LinkedStep(m: seq<Action>, deps0: map<string, seq<string>>, deps: map<string, seq<string>>, i: nat)
    requires ValidNames(m) && i < |m| && Linked(m, deps0, i)
    requires OnlyChanges(deps0, deps, m[i].name)
    requires SortedStrings(Lookup(deps, m[i].name), m[i].deps)
    ensures Linked(m, deps, i + 1)
  {
    forall k | 0 <= k < i ensures SortedStrings(Lookup(deps, m[k].name), m[k].deps) {
      assert m[k].name != m[i].name;
      assert SortedStrings(Lookup(deps0, m[k].name), m[k].deps);
      assert Lookup(deps, m[k].name) == Lookup(deps0, m[k].name);
    }
  }

  /** The first j names of ds are names of actions. */
  ghost predicate AllNamed(m: seq<Action>, ds: seq<string>, j: nat) {
    j <= |ds| && forall k :: 0 <= k < j ==> Named(m, ds[k])
  }

  lemma OneMoreNamed(m: seq<Action>, ds: seq<string>, j: nat)
    requires j < |ds| && AllNamed(m, ds, j) && Named(m, ds[j])
    ensures AllNamed(m, ds, j + 1)
  {
  }

  /** Whether a's dependencies are known shows on the sorted list. */
  lemma KnownBySorted(m: seq<Action>, a: Action, ds: seq<string>)
    requires SortedStrings(ds, a.deps)
    ensures AllNamed(m, ds, |ds|) <==> Known(m, a)
  {
    MemberOfSorted(ds, a.deps);
    if AllNamed(m, ds, |ds|) {
      forall d | d in a.deps ensures Named(m, d) {
        var k :| 0 <= k < |ds| && ds[k] == d;
      }
    }
  }

  /** One round of New's second loop: the edges of one action. */
  method LinkOne(m: seq<Action>, i: nat, actions: map<string, Action>,
                 deps0: map<string, seq<string>>, rdeps0: map<string, seq<string>>)
    returns (ok: bool, deps: map<string, seq<string>>, rdeps: map<string, seq<string>>)
    requires ValidNames(m) && i < |m|
    requires forall n :: n in actions <==> Named(m, n)
    requires EdgesAgree(deps0, rdeps0) && Linked(m, deps0, i)
    ensures ok <==> Known(m, m[i])
    ensures ok ==> EdgesAgree(deps, rdeps) && Linked(m, deps, i + 1)
  {
    deps, rdeps := deps0, rdeps0;
    var name := m[i].name;
    var ds := SortStrings(m[i].deps);
    KnownBySorted(m, m[i], ds);
    for j := 0 to |ds|
      invariant EdgesAgree(deps, rdeps)
      invariant Partial(deps0, deps, name, ds, j)
      invariant AllNamed(m, ds, j)
    {
      if ds[j] !in actions { return false, deps, rdeps; }
      OneMoreNamed(m, ds, j);
      EdgesAgreeAppend(deps, rdeps, name, ds[j]);
      PartialStep(deps0, deps, name, ds, j);
      deps := Append(deps, name, ds[j]);
      rdeps := Append(rdeps, ds[j], name);
    }
    assert ds[..|ds|] == ds;
    LinkedStep(m, deps0, deps, i);
    return true, deps, rdeps;
  }

  /** New's last loop: every reverse list is sorted, in whatever order Go ranges over
      the map. */
  method SortLists(deps: map<string, seq<string>>, rdeps: map<string, seq<string>>)
    returns (sorted: map<string, seq<string>>)
    requires EdgesAgree(deps, rdeps)
    ensures EdgesAgree(deps, sorted)
    ensures forall n :: Sorted(Lookup(sorted, n), AtMost)
  {
    sorted := rdeps;
    var todo := rdeps.Keys;
    while todo != {}
      invariant todo <= sorted.Keys == rdeps.Keys
      invariant forall n :: n in sorted ==> multiset(sorted[n]) == multiset(rdeps[n])
      invariant forall n :: n in sorted && n !in todo ==> Sorted(sorted[n], AtMost)
      decreases todo
    {
      var n :| n in todo;
      var list := SortStrings(sorted[n]);
      sorted := sorted[n := list];
      todo := todo - {n};
    }
    forall n, d ensures EdgeAgrees(deps, sorted, n, d) {
      assert EdgeAgrees(deps, rdeps, n, d);
    }
    forall n | n in sorted ensures sorted[n] != [] {
      assert multiset(rdeps[n]) == multiset(sorted[n]) && |multiset(rdeps[n])| == |rdeps[n]|;
    }
  }

  lemma MemberOfNames(m: seq<Action>)
    ensures forall n :: n in Names(m) <==> Named(m, n)
  {
    forall n ensures n in Names(m) <==> Named(m, n) {
      if Named(m, n) {
        var i :| 0 <= i < |m| && m[i].name == n;
        assert Names(m)[i] == n;
      }
    }
  }

  /** The graph New returns meets what the algorithms assume of it. */
  lemma GraphOfWellFormed(g: Graph, m: seq<Action>)
    requires ValidNames(m) && KnownDeps(m) && IsGraphOf(g, m)
    ensures g.WellFormed()
  {
    NoDupMultiset(Names(m), g.names);
    MemberOfNames(m);
    MemberOfSorted(g.names, Names(m));
    forall n, d | d in g.Dependencies(n) ensures n in g.names && d in g.names {
      var k :| 0 <= k < |m| && m[k].name == n;
      MemberOfSorted(g.Dependencies(n), m[k].deps);
    }
  }

  lemma NoDupMultiset<T>(a: seq<T>, b: seq<T>)
    requires NoDup(a) && multiset(a) == multiset(b)
    ensures NoDup(b)
  {
    forall i, j | 0 <= i < j < |b| ensures b[i] != b[j] {
      if b[i] == b[j] {
        assert b == b[..i] + [b[i]] + b[i + 1..j] + [b[j]] + b[j + 1..];
        assert multiset(b)[b[i]] >= 2;
        NoDupCount(a, b[i]);
      }
    }
  }

  lemma {:induction false} NoDupCount<T>(a: seq<T>, x: T)
    requires NoDup(a)
    ensures multiset(a)[x] <= 1
    decreases |a|
  {
    if a != [] {
      NoDupCount(a[1..], x);
      assert a == [a[0]] + a[1..];
      if a[0] == x { assert x !in a[1..]; assert x !in multiset(a[1..]); }
    }
  }

  lemma SameMembers<T(!new)>(a: seq<T>, b: seq<T>)
    requires NoDup(a) && NoDup(b) && forall n :: n in a <==> n in b
    ensures multiset(a) == multiset(b)
  {
    forall x ensures multiset(a)[x] == multiset(b)[x] {
      NoDupCount(a, x);
      NoDupCount(b, x);
      assert x in a <==> x in multiset(a);
      assert x in b <==> x in multiset(b);
    }
  }

  /** Two manifests that list the same actions, each with the same dependencies, in
      any order. */
  ghost predicate SameManifest(m1: seq<Action>, m2: seq<Action>) {
    && multiset(Names(m1)) == multiset(Names(m2))
    && (forall i, j :: 0 <= i < |m1| && 0 <= j < |m2| && m1[i].name == m2[j].name ==>
          multiset(m1[i].deps) == multiset(m2[j].deps))
  }

  lemma DependenciesCanonical(m1: seq<Action>, m2: seq<Action>, g1: Graph, g2: Graph, n: string)
    requires SameManifest(m1, m2) && IsGraphOf(g1, m1) && IsGraphOf(g2, m2)
    ensures Lookup(g1.deps, n) == Lookup(g2.deps, n)
  {
    MemberOfNames(m1);
    MemberOfNames(m2);
    assert n in Names(m1) <==> n in multiset(Names(m1));
    assert n in Names(m2) <==> n in multiset(Names(m2));
    if Named(m1, n) {
      var i :| 0 <= i < |m1| && m1[i].name == n;
      var j :| 0 <= j < |m2| && m2[j].name == n;
      SortedStringsUnique(g1.Dependencies(n), g2.Dependencies(n), m1[i].deps, m2[j].deps);
    }
  }

  lemma DependentsCanonical(g1: Graph, g2: Graph, d: string)
    requires EdgesAgree(g1.deps, g1.rdeps) && EdgesAgree(g2.deps, g2.rdeps)
    requires Sorted(Lookup(g1.rdeps, d), AtMost) && Sorted(Lookup(g2.rdeps, d), AtMost)
    requires g1.deps == g2.deps
    ensures Lookup(g1.rdeps, d) == Lookup(g2.rdeps, d)
  {
    var a, b := Lookup(g1.rdeps, d), Lookup(g2.rdeps, d);
    forall n ensures multiset(a)[n] == multiset(b)[n] {
      assert EdgeAgrees(g1.deps, g1.rdeps, n, d) && EdgeAgrees(g2.deps, g2.rdeps, n, d);
    }
    assert multiset(a) == multiset(b);
    SortedStringsUnique(a, b, a, b);
  }

  lemma SameLookups(a: map<string, seq<string>>, b: map<string, seq<string>>)
    requires forall n :: n in a ==> a[n] != []
    requires forall n :: n in b ==> b[n] != []
    requires forall n :: Lookup(a, n) == Lookup(b, n)
    ensures a == b
  {
    forall n ensures (n in a <==> n in b) && (n in a ==> a[n] == b[n]) {
      assert Lookup(a, n) == Lookup(b, n);
    }
  }

  /** How the manifest was written down does not reach the graph. */
  lemma GraphCanonical(m1: seq<Action>, m2: seq<Action>, g1: Graph, g2: Graph)
    requires SameManifest(m1, m2) && IsGraphOf(g1, m1) && IsGraphOf(g2, m2)
    ensures g1.names == g2.names && g1.deps == g2.deps && g1.rdeps == g2.rdeps
  {
    SortedStringsUnique(g1.names, g2.names, Names(m1), Names(m2));
    forall n ensures Lookup(g1.deps, n) == Lookup(g2.deps, n) {
      DependenciesCanonical(m1, m2, g1, g2, n);
    }
    SameLookups(g1.deps, g2.deps);
    forall d ensures Lookup(g1.rdeps, d) == Lookup(g2.rdeps, d) {
      assert Sorted(g1.Dependents(d), AtMost) && Sorted(g2.Dependents(d), AtMost);
      DependentsCanonical(g1, g2, d);
    }
    SameLookups(g1.rdeps, g2.rdeps);
  }
}
