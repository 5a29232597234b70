/** internal/graph/graph.go, findCycle: the depth-first search that names the cycle
    when Kahn's algorithm stalls. */
module Cycles {
  import opened Graphs

  ghost predicate Edge(g: Graph, n: string, d: string) { d in g.Dependencies(n) }

  /** A walk along dependency edges. */
  ghost predicate IsWalk(g: Graph, w: seq<string>) {
    forall i :: 0 <= i < |w| - 1 ==> Edge(g, w[i], w[i + 1])
  }

  /** A closed walk of at least one edge, the first action repeated as the last. */
  ghost predicate IsCycle(g: Graph, c: seq<string>) {
    |c| >= 2 && c[0] == c[|c| - 1] && IsWalk(g, c)
  }

  /** No action occurs twice in it apart from the two endpoints. */
  ghost predicate IsSimpleCycle(g: Graph, c: seq<string>) {
    IsCycle(g, c) && NoDup(c[..|c| - 1])
  }

  ghost predicate Acyclic(g: Graph) {
    forall c :: !IsCycle(g, c)
  }

  datatype Color = White | Gray | Black

  /** The closure of findCycle's visit: its colors, its stack and the cycle it found.
      remaining is what Kahn left; an action with nothing remaining was emitted. */
  class CycleFinder {
    const g: Graph
    const remaining: map<string, int>
    var color: map<string, Color>
    var stack: seq<string>
    var cycle: seq<string>

    constructor (g: Graph, remaining: map<string, int>)
      ensures this.g == g && this.remaining == remaining
      ensures color == map[] && stack == [] && cycle == []
    {
      this.g, this.remaining := g, remaining;
      color, stack, cycle := map[], [], [];
    }

    /** A missing key reads as the zero value. */
    function ColorOf(n: string): Color
      reads this
    {
      if n in color then color[n] else White
    }

    /** Kahn could not emit n. */
    predicate Residual(n: string) { n in remaining && remaining[n] != 0 }

    /** Every action Kahn could not emit waits on another one. */
    ghost predicate Stalled() {
      forall n :: Blocked(n)
    }

    ghost predicate Blocked(n: string) {
      Residual(n) ==> exists d :: Residual(d) && Edge(g, n, d)
    }

    ghost predicate NoBlack()
      reads this
    {
      forall n :: ColorOf(n) != Black
    }

    /** The gray actions are the stack, a simple walk of actions Kahn could not emit. */
    ghost predicate Valid()
      reads this
    {
      && g.WellFormed()
      && NoDup(stack)
      && IsWalk(g, stack)
      && (forall n :: n in stack <==> ColorOf(n) == Gray)
      && (forall n :: n in stack ==> Residual(n) && n in g.names)
    }

    ghost function Whites(): set<string>
      reads this
    {
      set n | n in g.names && ColorOf(n) == White
    }

    /** The top of the stack waits on n, so pushing n extends the walk. */
    ghost predicate CanPush(n: string)
      reads this
    {
      && n in g.names && Residual(n) && ColorOf(n) == White
      && (stack != [] ==> Edge(g, stack[|stack| - 1], n))
    }

    ghost predicate Found()
      reads this
    {
      IsSimpleCycle(g, cycle) && forall x :: x in cycle ==> Residual(x)
    }

    method Push(n: string)
      requires Valid() && CanPush(n)
      modifies this`color, this`stack
      ensures Valid() && stack == old(stack) + [n]
      ensures Whites() == old(Whites()) - {n}
      ensures old(NoBlack()) ==> NoBlack()
    {
      PushWalk(g, stack, n);
      color := color[n := Gray];
      stack := stack + [n];
      assert forall x :: x in stack <==> x in old(stack) || x == n;
    }

    method Pop()
      requires Valid() && stack != []
      modifies this`color, this`stack
      ensures Valid() && stack == old(stack[..|stack| - 1])
      ensures ColorOf(old(stack[|stack| - 1])) == Black
      ensures Whites() == old(Whites())
    {
      var n := stack[|stack| - 1];
      PopWalk(g, stack);
      stack := stack[..|stack| - 1];
      color := color[n := Black];
      assert forall x :: x in stack <==> x in old(stack) && x != n;
    }

    /** The loop that cuts the stack at d. */
    method Cut(d: string) returns (found: bool)
      requires Valid() && stack != [] && Edge(g, stack[|stack| - 1], d)
      modifies this`cycle
      ensures found <==> d in stack
      ensures found ==> Found()
    {
      for i := 0 to |stack|
        invariant forall k :: 0 <= k < i ==> stack[k] != d
      {
        if stack[i] == d {
          cycle := stack[i..] + [d];
          CutIsCycle(g, stack, i);
          return true;
        }
      }
      return false;
    }

    method Visit(n: string) returns (found: bool)
      requires Valid() && CanPush(n)
      requires Stalled() ==> NoBlack()
      modifies this
      ensures found ==> Found()
      ensures !found ==> Valid() && stack == old(stack) && ColorOf(n) == Black && Whites() <= old(Whites()) - {n}
      ensures Stalled() ==> found
      decreases Whites(), 0
    {
      Push(n);
      var deps := g.Dependencies(n);
      for j := 0 to |deps|
        invariant Valid() && stack == old(stack) + [n]
        invariant Whites() <= old(Whites()) - {n}
        invariant Stalled() ==> NoBlack() && forall k :: 0 <= k < j ==> !Residual(deps[k])
      {
        assert Edge(g, n, deps[j]);
        found := Consider(deps[j]);
        if found { return; }
      }
      assert Stalled() ==> Blocked(n);
      Pop();
      return false;
    }

    /** One round of visit's loop, for a dependency d of the action on top of the stack. */
    method Consider(d: string) returns (found: bool)
      requires Valid() && stack != [] && Edge(g, stack[|stack| - 1], d)
      requires Stalled() ==> NoBlack()
      modifies this
      ensures found ==> Found()
      ensures !found ==> Valid() && stack == old(stack) && Whites() <= old(Whites())
      ensures Stalled() && !found ==> NoBlack() && !Residual(d)
      decreases Whites(), 1
    {
      if !Residual(d) { return false; }
      match ColorOf(d) {
        case Gray =>
          found := Cut(d);
        case White =>
          found := Visit(d);
        case Black =>
          found := false;
      }
    }

    /** findCycle. With every action Kahn left waiting on another it always answers
        with a cycle; the literal below is what is printed otherwise. */
    method Find() returns (c: seq<string>)
      requires Valid() && stack == [] && NoBlack()
      modifies this
      ensures Stalled() && (exists n :: n in g.names && Residual(n)) ==>
        IsSimpleCycle(g, c) && forall x :: x in c ==> Residual(x)
    {
      for i := 0 to |g.names|
        invariant Valid() && stack == []
        invariant Stalled() ==> NoBlack() && forall k :: 0 <= k < i ==> !Residual(g.names[k])
      {
        if Residual(g.names[i]) && ColorOf(g.names[i]) == White {
          var found := Visit(g.names[i]);
          if found { return cycle; }
        }
      }
      return ["<unknown>"];
    }
  }

  lemma PopWalk(g: Graph, stack: seq<string>)
    requires IsWalk(g, stack) && NoDup(stack) && stack != []
    ensures IsWalk(g, stack[..|stack| - 1]) && NoDup(stack[..|stack| - 1])
    ensures forall x :: x in stack[..|stack| - 1] <==> x in stack && x != stack[|stack| - 1]
  {
    var w := stack[..|stack| - 1];
    forall i | 0 <= i < |w| - 1 ensures Edge(g, w[i], w[i + 1]) {
      assert Edge(g, stack[i], stack[i + 1]);
    }
    assert stack == w + [stack[|stack| - 1]];
  }

  lemma PushWalk(g: Graph, stack: seq<string>, n: string)
    requires IsWalk(g, stack) && NoDup(stack) && n !in stack
    requires stack != [] ==> Edge(g, stack[|stack| - 1], n)
    ensures IsWalk(g, stack + [n]) && NoDup(stack + [n])
  {
    var w := stack + [n];
    forall i | 0 <= i < |w| - 1 ensures Edge(g, w[i], w[i + 1]) {
      if i < |stack| - 1 { assert Edge(g, stack[i], stack[i + 1]); }
    }
  }

  lemma CutIsCycle(g: Graph, stack: seq<string>, i: nat)
    requires IsWalk(g, stack) && NoDup(stack) && i < |stack|
    requires Edge(g, stack[|stack| - 1], stack[i])
    ensures IsSimpleCycle(g, stack[i..] + [stack[i]])
  {
    var c := stack[i..] + [stack[i]];
    forall k | 0 <= k < |c| - 1 ensures Edge(g, c[k], c[k + 1]) {
      if k < |c| - 2 { assert Edge(g, stack[i + k], stack[i + k + 1]); }
    }
    assert c[..|c| - 1] == stack[i..];
  }
}
