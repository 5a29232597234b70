/** internal/graph/critical.go: the longest chain of dependent actions by measured
    duration. */
module Critical {
  import opened Sorting
  import opened Graphs
  import opened Cycles
  import opened Kahn

  /** Reading a Go map: a missing key is the zero value. */
  function Get(m: map<string, int>, k: string): int { if k in m then m[k] else 0 }

  /** Each action of the chain waits on the one before it. */
  ghost predicate IsChain(g: Graph, c: seq<string>) {
    && c != []
    && (forall i :: 0 <= i < |c| ==> c[i] in g.names)
    && (forall i :: 0 <= i < |c| - 1 ==> Edge(g, c[i + 1], c[i]))
  }

  ghost function Weight(dur: map<string, int>, c: seq<string>): int {
    if c == [] then 0 else Weight(dur, c[..|c| - 1]) + Get(dur, c[|c| - 1])
  }

  function Last(c: seq<string>): string
    requires c != []
  {
    c[|c| - 1]
  }

  /** a and b agree from some point to the end, and just before it a has the smaller
      name. */
  ghost predicate EndsEarlier(a: seq<string>, b: seq<string>) {
    |a| == |b| && exists i :: 0 <= i < |a| && Less(a[i], b[i]) && a[i + 1..] == b[i + 1..]
  }

  /** The three levels of the tie-break: weight, then number of actions, then names
      compared from the end of the chain. */
  ghost predicate NoBetterThan(dur: map<string, int>, c: seq<string>, path: seq<string>) {
    || Weight(dur, c) < Weight(dur, path)
    || (Weight(dur, c) == Weight(dur, path) && |c| < |path|)
    || (Weight(dur, c) == Weight(dur, path) && |c| == |path| && (c == path || EndsEarlier(path, c)))
  }

  ghost predicate NonNegative(dur: map<string, int>) { forall n :: n in dur ==> dur[n] >= 0 }

  /** The chains the result is measured against: all of them when no duration is negative,
      and otherwise those that begin at a source, as the labels do. */
  ghost predicate Rival(g: Graph, dur: map<string, int>, c: seq<string>) {
    IsChain(g, c) && (NonNegative(dur) || g.Dependencies(c[0]) == [])
  }

  ghost predicate IsCriticalPath(g: Graph, dur: map<string, int>, path: seq<string>, length: int) {
    && IsChain(g, path)
    && g.Dependencies(path[0]) == []
    && (NonNegative(dur) ==> g.Dependents(Last(path)) == [])
    && Weight(dur, path) == length
    && (forall c :: Rival(g, dur, c) ==> NoBetterThan(dur, c, path))
  }

  // ---- better ----

  /** What better compares: finish time, depth, name. */
  datatype Score = Score(finish: int, depth: int, name: string)

  function ScoreOf(finish: map<string, int>, depth: map<string, int>, n: string): Score {
    Score(Get(finish, n), Get(depth, n), n)
  }

  predicate Better(a: Score, best: Score) {
    if best.name == "" then true
    else if a.finish != best.finish then a.finish > best.finish
    else if a.depth != best.depth then a.depth > best.depth
    else Less(a.name, best.name)
  }

  ghost predicate Wins(best: Score, a: Score) { best == a || (a.name != "" && Better(best, a)) }

  lemma WinsTransitive(a: Score, b: Score, c: Score)
    requires Wins(a, b) && Wins(b, c)
    ensures Wins(a, c)
  {
    if Less(a.name, b.name) && Less(b.name, c.name) { LessTransitive(a.name, b.name, c.name); }
  }

  lemma NotBetterWins(best: Score, a: Score)
    requires a.name != "" && best.name != "" && !Better(a, best)
    ensures Wins(best, a)
  {
    LessTotal(a.name, best.name);
  }

  lemma BetterWins(a: Score, best: Score, c: Score)
    requires a.name != "" && best.name != "" && Better(a, best) && Wins(best, c)
    ensures Wins(a, c)
  {
    WinsTransitive(a, best, c);
  }

  // ---- the labels computed by the first loop ----

  ghost predicate Labelled(g: Graph, dur: map<string, int>, finish: map<string, int>, depth: map<string, int>,
                           pred: map<string, string>, n: string) {
    && n in finish && n in depth
    && (g.Dependencies(n) == [] ==> n !in pred && finish[n] == Get(dur, n) && depth[n] == 1)
    && (g.Dependencies(n) != [] ==>
          && n in pred && pred[n] in g.Dependencies(n)
          && finish[n] == Get(finish, pred[n]) + Get(dur, n)
          && depth[n] == Get(depth, pred[n]) + 1
          && forall d :: d in g.Dependencies(n) ==> Wins(ScoreOf(finish, depth, pred[n]), ScoreOf(finish, depth, d)))
  }

  ghost predicate Labels(g: Graph, dur: map<string, int>, finish: map<string, int>, depth: map<string, int>,
                         pred: map<string, string>) {
    forall n :: n in g.names ==> Labelled(g, dur, finish, depth, pred, n)
  }

  /** The inner loop: the dependency with the best score. */
  method Choose(g: Graph, finish: map<string, int>, depth: map<string, int>, n: string)
    returns (latest: int, chosen: string)
    requires g.WellFormed()
    ensures Chose(g, finish, depth, n, latest, chosen)
  {
    latest, chosen := 0, "";
    var deps := g.Dependencies(n);
    for j := 0 to |deps|
      invariant chosen == "" <==> j == 0
      invariant j > 0 ==> chosen in deps && latest == Get(finish, chosen)
      invariant j == 0 ==> latest == 0
      invariant forall k :: 0 <= k < j ==> Wins(ScoreOf(finish, depth, chosen), ScoreOf(finish, depth, deps[k]))
    {
      var d := deps[j];
      assert d in deps && d in g.names && d != "";
      var s, best := ScoreOf(finish, depth, d), ScoreOf(finish, depth, chosen);
      if Better(Score(Get(finish, d), Get(depth, d), d), Score(latest, Get(depth, chosen), chosen)) {
        forall k | 0 <= k < j ensures Wins(s, ScoreOf(finish, depth, deps[k])) {
          BetterWins(s, best, ScoreOf(finish, depth, deps[k]));
        }
        latest, chosen := Get(finish, d), d;
      } else {
        NotBetterWins(best, s);
      }
    }
  }

  // ---- the first loop ----

  /** Exactly the actions in done are labelled. */
  ghost predicate LabelledIn(g: Graph, dur: map<string, int>, done: set<string>, finish: map<string, int>,
                             depth: map<string, int>, pred: map<string, string>) {
    && finish.Keys == depth.Keys == done
    && pred.Keys <= done
    && (forall n :: n in done ==> Labelled(g, dur, finish, depth, pred, n))
  }

  /** Labelling a new action leaves the labels of the others as they are. */
  lemma LabelOther(g: Graph, dur: map<string, int>, finish: map<string, int>, depth: map<string, int>,
                   pred: map<string, string>, n: string, f: int, dp: int, pred': map<string, string>, x: string)
    requires Labelled(g, dur, finish, depth, pred, x)
    requires x != n && n !in g.Dependencies(x)
    requires (x in pred' <==> x in pred) && (x in pred ==> pred'[x] == pred[x])
    ensures Labelled(g, dur, finish[n := f], depth[n := dp], pred', x)
  {
  }

  lemma LabelNew(g: Graph, dur: map<string, int>, finish: map<string, int>, depth: map<string, int>,
                 pred: map<string, string>, n: string, latest: int, chosen: string)
    requires n !in pred && n !in g.Dependencies(n) && n != "" && "" !in depth
    requires Chose(g, finish, depth, n, latest, chosen)
    ensures Labelled(g, dur, finish[n := latest + Get(dur, n)], depth[n := Get(depth, chosen) + 1],
                     if chosen != "" then pred[n := chosen] else pred, n)
  {
  }

  /** What the inner loop answers for n. */
  ghost predicate Chose(g: Graph, finish: map<string, int>, depth: map<string, int>, n: string, latest: int,
                        chosen: string)
  {
    && latest == (if chosen == "" then 0 else Get(finish, chosen))
    && (g.Dependencies(n) == [] ==> chosen == "")
    && (g.Dependencies(n) != [] ==> chosen != "" && chosen in g.Dependencies(n))
    && forall d :: d in g.Dependencies(n) ==> Wins(ScoreOf(finish, depth, chosen), ScoreOf(finish, depth, d))
  }

  lemma NewPosition(g: Graph, order: seq<string>, i: nat)
    requires g.WellFormed() && IsTopological(g, order) && i < |order|
    ensures order[i] in g.names && order[i] != "" && order[i] !in Elems(order[..i]) && "" !in Elems(order[..i])
    ensures order[i] !in g.Dependencies(order[i])
    ensures forall x :: x in Elems(order[..i]) ==> order[i] !in g.Dependencies(x)
    ensures Elems(order[..i + 1]) == Elems(order[..i]) + {order[i]}
  {
    assert order[i] in Elems(order);
    assert DepsBefore(g, order, i);
    forall x | x in Elems(order[..i]) ensures x in g.names && order[i] !in g.Dependencies(x) {
      var k :| 0 <= k < i && order[k] == x;
      assert DepsBefore(g, order, k);
      assert order[i] !in order[..k];
      assert x in Elems(order);
    }
    assert order[..i + 1] == order[..i] + [order[i]];
  }

  lemma LabelStep(g: Graph, dur: map<string, int>, done: set<string>, finish: map<string, int>,
                  depth: map<string, int>, pred: map<string, string>, n: string, latest: int, chosen: string)
    requires LabelledIn(g, dur, done, finish, depth, pred)
    requires n !in done && n != "" && "" !in done && n !in g.Dependencies(n)
    requires forall x :: x in done ==> n !in g.Dependencies(x)
    requires Chose(g, finish, depth, n, latest, chosen)
    ensures LabelledIn(g, dur, done + {n}, finish[n := latest + Get(dur, n)], depth[n := Get(depth, chosen) + 1],
                       if chosen != "" then pred[n := chosen] else pred)
  {
    LabelNew(g, dur, finish, depth, pred, n, latest, chosen);
    var f, dp := latest + Get(dur, n), Get(depth, chosen) + 1;
    var pred' := if chosen != "" then pred[n := chosen] else pred;
    forall x | x in done ensures Labelled(g, dur, finish[n := f], depth[n := dp], pred', x) {
      LabelOther(g, dur, finish, depth, pred, n, f, dp, pred', x);
    }
  }

  method Label(g: Graph, dur: map<string, int>, order: seq<string>)
    returns (finish: map<string, int>, depth: map<string, int>, pred: map<string, string>)
    requires g.WellFormed() && IsTopological(g, order)
    ensures Labels(g, dur, finish, depth, pred) && pred.Keys <= Elems(g.names)
  {
    finish, depth, pred := map[], map[], map[];
    for i := 0 to |order|
      invariant LabelledIn(g, dur, Elems(order[..i]), finish, depth, pred)
    {
      var n := order[i];
      var latest, chosen := Choose(g, finish, depth, n);
      NewPosition(g, order, i);
      LabelStep(g, dur, Elems(order[..i]), finish, depth, pred, n, latest, chosen);
      finish := finish[n := latest + Get(dur, n)];
      depth := depth[n := Get(depth, chosen) + 1];
      if chosen != "" { pred := pred[n := chosen]; }
    }
    assert order[..|order|] == order;
    assert forall n :: n in g.names <==> n in Elems(order);
  }

  // ---- what the labels mean ----

  /** The chain that leads to n along the chosen predecessors. */
  ghost predicate Follows(g: Graph, pred: map<string, string>, path: seq<string>) {
    && IsChain(g, path)
    && g.Dependencies(path[0]) == []
    && (forall i :: 0 <= i < |path| - 1 ==> Chosen(pred, path[i + 1], path[i]))
  }

  ghost predicate Chosen(pred: map<string, string>, n: string, d: string) { n in pred && pred[n] == d }

  lemma {:induction false} FollowsWeight(g: Graph, dur: map<string, int>, finish: map<string, int>,
                                         depth: map<string, int>, pred: map<string, string>, path: seq<string>)
    requires Labels(g, dur, finish, depth, pred) && Follows(g, pred, path)
    ensures Weight(dur, path) == Get(finish, Last(path)) && |path| == Get(depth, Last(path))
    decreases |path|
  {
    var k := |path| - 1;
    var init := path[..k];
    assert Labelled(g, dur, finish, depth, pred, path[k]);
    if k > 0 {
      ChainInit(g, path);
      FollowsInit(g, pred, path);
      FollowsWeight(g, dur, finish, depth, pred, init);
    } else {
      assert Weight(dur, init) == 0;
    }
  }

  lemma FollowsInit(g: Graph, pred: map<string, string>, path: seq<string>)
    requires Follows(g, pred, path) && |path| > 1
    ensures Follows(g, pred, path[..|path| - 1]) && Chosen(pred, Last(path), Last(path[..|path| - 1]))
  {
    ChainInit(g, path);
    var init := path[..|path| - 1];
    forall i | 0 <= i < |init| - 1 ensures Chosen(pred, init[i + 1], init[i]) {
      assert Chosen(pred, path[i + 1], path[i]);
    }
    assert Chosen(pred, path[|path| - 2 + 1], path[|path| - 2]);
  }

  lemma ChainInit(g: Graph, c: seq<string>)
    requires IsChain(g, c) && |c| > 1
    ensures IsChain(g, c[..|c| - 1]) && Last(c[..|c| - 1]) in g.Dependencies(Last(c))
  {
    var init := c[..|c| - 1];
    forall i | 0 <= i < |init| - 1 ensures Edge(g, init[i + 1], init[i]) {
      assert Edge(g, c[i + 1], c[i]);
    }
    assert Edge(g, c[|c| - 2 + 1], c[|c| - 2]);
  }

  /** No chain ending at n weighs more than finish[n], and none of that weight has more
      actions than depth[n]. */
  lemma {:induction false} LabelsDominate(g: Graph, dur: map<string, int>, finish: map<string, int>,
                                          depth: map<string, int>, pred: map<string, string>, order: seq<string>,
                                          c: seq<string>)
    requires g.WellFormed() && IsTopological(g, order)
    requires Labels(g, dur, finish, depth, pred) && Rival(g, dur, c)
    ensures Weight(dur, c) <= Get(finish, Last(c))
    ensures Weight(dur, c) == Get(finish, Last(c)) ==> |c| <= Get(depth, Last(c))
    decreases |c|
  {
    var n := Last(c);
    assert Labelled(g, dur, finish, depth, pred, n);
    if |c| > 1 {
      ChainInit(g, c);
      LabelsDominate(g, dur, finish, depth, pred, order, c[..|c| - 1]);
      assert Wins(ScoreOf(finish, depth, pred[n]), ScoreOf(finish, depth, Last(c[..|c| - 1])));
    } else {
      assert Weight(dur, c[..0]) == 0;
      assert g.Dependencies(n) != [] ==> pred[n] in Elems(order);
      if g.Dependencies(n) != [] { LabelsPositive(g, dur, finish, depth, pred, order, pred[n]); }
    }
  }

  lemma {:induction false} LabelsPositive(g: Graph, dur: map<string, int>, finish: map<string, int>,
                                          depth: map<string, int>, pred: map<string, string>, order: seq<string>,
                                          n: string)
    requires g.WellFormed() && IsTopological(g, order) && NonNegative(dur)
    requires Labels(g, dur, finish, depth, pred) && n in g.names && n in order
    ensures Get(finish, n) >= 0 && Get(depth, n) >= 1
    decreases Position(order, n)
  {
    assert Labelled(g, dur, finish, depth, pred, n);
    if g.Dependencies(n) != [] {
      DependencyComesFirst(g, order, n, pred[n]);
      LabelsPositive(g, dur, finish, depth, pred, order, pred[n]);
    }
  }

  /** A chain that ties with the followed path up to n also ties one step earlier, where
      the path has the smaller name or the same. */
  lemma TieOneEarlier(g: Graph, dur: map<string, int>, finish: map<string, int>, depth: map<string, int>,
                      pred: map<string, string>, order: seq<string>, c: seq<string>, path: seq<string>)
    requires g.WellFormed() && IsTopological(g, order)
    requires Labels(g, dur, finish, depth, pred) && Rival(g, dur, c) && Follows(g, pred, path)
    requires Last(c) == Last(path) && |c| == |path| > 1 && Weight(dur, c) == Weight(dur, path)
    ensures var c', path' := c[..|c| - 1], path[..|path| - 1];
      && Rival(g, dur, c') && Follows(g, pred, path') && Weight(dur, c') == Weight(dur, path')
      && (Last(c') == Last(path') || Less(Last(path'), Last(c')))
  {
    var c', path' := c[..|c| - 1], path[..|path| - 1];
    ChainInit(g, c);
    FollowsInit(g, pred, path);
    assert Labelled(g, dur, finish, depth, pred, Last(path));
    FollowsWeight(g, dur, finish, depth, pred, path');
    LabelsDominate(g, dur, finish, depth, pred, order, c');
    assert Wins(ScoreOf(finish, depth, Last(path')), ScoreOf(finish, depth, Last(c')));
  }

  /** Among the best chains ending at n, the chosen one has the least names counted
      from the end. */
  lemma {:induction false} FollowsEndsEarlier(g: Graph, dur: map<string, int>, finish: map<string, int>,
                                              depth: map<string, int>, pred: map<string, string>,
                                              order: seq<string>, c: seq<string>, path: seq<string>)
    requires g.WellFormed() && IsTopological(g, order)
    requires Labels(g, dur, finish, depth, pred) && Rival(g, dur, c) && Follows(g, pred, path)
    requires Last(c) == Last(path) && |c| == |path| && Weight(dur, c) == Weight(dur, path)
    ensures c == path || EndsEarlier(path, c)
    decreases |c|
  {
    var k := |c| - 1;
    if k > 0 {
      TieOneEarlier(g, dur, finish, depth, pred, order, c, path);
      var c', path' := c[..k], path[..k];
      if Last(c') == Last(path') {
        FollowsEndsEarlier(g, dur, finish, depth, pred, order, c', path');
      }
      EndsEarlierExtend(path, c);
    }
  }

  /** One action from the end the path is the same or ends earlier, or has the smaller
      name there. */
  lemma EndsEarlierExtend(a: seq<string>, b: seq<string>)
    requires |a| == |b| > 1 && Last(a) == Last(b)
    requires a[..|a| - 1] == b[..|b| - 1] || EndsEarlier(a[..|a| - 1], b[..|b| - 1]) || Less(a[|a| - 2], b[|b| - 2])
    ensures a == b || EndsEarlier(a, b)
  {
    var k := |a| - 1;
    var a', b' := a[..k], b[..k];
    assert a == a' + [a[k]] && b == b' + [a[k]];
    if EndsEarlier(a', b') {
      var i :| 0 <= i < |a'| && Less(a'[i], b'[i]) && a'[i + 1..] == b'[i + 1..];
      assert a[i + 1..] == a'[i + 1..] + [a[k]] && b[i + 1..] == b'[i + 1..] + [a[k]];
    } else if a' != b' {
      assert a[k - 1 + 1..] == [a[k]] == b[k - 1 + 1..];
    }
  }

  lemma FollowedIsBest(g: Graph, dur: map<string, int>, finish: map<string, int>, depth: map<string, int>,
                       pred: map<string, string>, order: seq<string>, path: seq<string>, c: seq<string>)
    requires g.WellFormed() && IsTopological(g, order) && Rival(g, dur, c)
    requires Labels(g, dur, finish, depth, pred) && Follows(g, pred, path)
    requires Wins(ScoreOf(finish, depth, Last(path)), ScoreOf(finish, depth, Last(c)))
    requires Weight(dur, path) == Get(finish, Last(path)) && |path| == Get(depth, Last(path))
    ensures NoBetterThan(dur, c, path)
  {
    LabelsDominate(g, dur, finish, depth, pred, order, c);
    if Weight(dur, c) == Weight(dur, path) && |c| == |path| {
      if Last(c) == Last(path) {
        FollowsEndsEarlier(g, dur, finish, depth, pred, order, c, path);
      } else {
        var k := |c| - 1;
        assert Less(path[k], c[k]) && path[k + 1..] == [] == c[k + 1..];
      }
    }
  }

  /** The end the second loop picks, followed back, is the critical path. */
  lemma FollowedIsCritical(g: Graph, dur: map<string, int>, finish: map<string, int>, depth: map<string, int>,
                           pred: map<string, string>, order: seq<string>, path: seq<string>)
    requires g.WellFormed() && IsTopological(g, order)
    requires Labels(g, dur, finish, depth, pred) && Follows(g, pred, path)
    requires forall n :: n in g.names ==> Wins(ScoreOf(finish, depth, Last(path)), ScoreOf(finish, depth, n))
    ensures IsCriticalPath(g, dur, path, Get(finish, Last(path)))
  {
    FollowsWeight(g, dur, finish, depth, pred, path);
    forall c | Rival(g, dur, c) ensures NoBetterThan(dur, c, path) {
      assert Last(c) in g.names;
      FollowedIsBest(g, dur, finish, depth, pred, order, path, c);
    }
    if NonNegative(dur) { EndIsSink(g, dur, finish, depth, pred, path); }
  }

  lemma DependentWins(g: Graph, dur: map<string, int>, finish: map<string, int>, depth: map<string, int>,
                      pred: map<string, string>, e: string, m: string)
    requires NonNegative(dur) && e != "" && m != ""
    requires Labelled(g, dur, finish, depth, pred, m) && e in g.Dependencies(m)
    ensures !Wins(ScoreOf(finish, depth, e), ScoreOf(finish, depth, m))
  {
    assert Wins(ScoreOf(finish, depth, pred[m]), ScoreOf(finish, depth, e));
  }

  lemma EndIsSink(g: Graph, dur: map<string, int>, finish: map<string, int>, depth: map<string, int>,
                  pred: map<string, string>, path: seq<string>)
    requires g.WellFormed() && NonNegative(dur)
    requires Labels(g, dur, finish, depth, pred) && path != [] && Last(path) in g.names
    requires forall n :: n in g.names ==> Wins(ScoreOf(finish, depth, Last(path)), ScoreOf(finish, depth, n))
    ensures g.Dependents(Last(path)) == []
  {
    var e := Last(path);
    if g.Dependents(e) != [] {
      var m := g.Dependents(e)[0];
      DependentsNamed(g, e, m);
      DependentWins(g, dur, finish, depth, pred, e, m);
    }
  }

  // ---- the second loop, the walk back and the reversal ----

  /** The loop over the sorted names: the action that finishes last. */
  method PickEnd(g: Graph, finish: map<string, int>, depth: map<string, int>) returns (end: string, length: int)
    requires g.WellFormed()
    ensures g.names == [] ==> end == "" && length == 0
    ensures g.names != [] ==> end in g.names && length == Get(finish, end)
    ensures forall n :: n in g.names ==> Wins(ScoreOf(finish, depth, end), ScoreOf(finish, depth, n))
  {
    end, length := "", 0;
    for j := 0 to |g.names|
      invariant end == "" <==> j == 0
      invariant j > 0 ==> end in g.names && length == Get(finish, end)
      invariant j == 0 ==> length == 0
      invariant forall k :: 0 <= k < j ==> Wins(ScoreOf(finish, depth, end), ScoreOf(finish, depth, g.names[k]))
    {
      var n := g.names[j];
      assert n in g.names && n != "";
      var s, best := ScoreOf(finish, depth, n), ScoreOf(finish, depth, end);
      if Better(s, Score(length, Get(depth, end), end)) {
        forall k | 0 <= k < j ensures Wins(s, ScoreOf(finish, depth, g.names[k])) {
          BetterWins(s, best, ScoreOf(finish, depth, g.names[k]));
        }
        end, length := n, Get(finish, n);
      } else {
        NotBetterWins(best, s);
      }
    }
  }

  ghost function Reversed(s: seq<string>): (r: seq<string>)
    ensures |r| == |s|
    ensures forall i :: 0 <= i < |s| ==> r[i] == s[|s| - 1 - i]
  {
    if s == [] then [] else Reversed(s[1..]) + [s[0]]
  }

  /** The swaps from both ends. */
  method Reverse(path: array<string>)
    modifies path
    ensures path[..] == Reversed(old(path[..]))
  {
    var i, j := 0, path.Length - 1;
    while i < j
      invariant 0 <= i && j == path.Length - 1 - i && i <= j + 1
      invariant forall k :: 0 <= k < i || j < k < path.Length ==> path[k] == old(path[path.Length - 1 - k])
      invariant forall k :: i <= k <= j ==> path[k] == old(path[k])
      decreases j - i
    {
      path[i], path[j] := path[j], path[i];
      i, j := i + 1, j - 1;
    }
  }

  /** back is the walk from end along the predecessors. */
  ghost predicate FollowsBack(g: Graph, pred: map<string, string>, back: seq<string>) {
    && (forall i :: 0 <= i < |back| ==> back[i] in g.names)
    && (forall i :: 0 <= i < |back| - 1 ==> Chosen(pred, back[i], back[i + 1]))
  }

  lemma FollowsReversed(g: Graph, pred: map<string, string>, back: seq<string>)
    requires FollowsBack(g, pred, back) && back != [] && g.Dependencies(back[|back| - 1]) == []
    requires forall n :: n in pred ==> pred[n] in g.Dependencies(n)
    ensures Follows(g, pred, Reversed(back)) && Last(Reversed(back)) == back[0]
  {
    var path := Reversed(back);
    forall i | 0 <= i < |path| - 1 ensures Chosen(pred, path[i + 1], path[i]) && Edge(g, path[i + 1], path[i]) {
      var k := |back| - 2 - i;
      assert Chosen(pred, back[k], back[k + 1]);
    }
  }

  lemma StepBack(g: Graph, pred: map<string, string>, back: seq<string>, n: string)
    requires FollowsBack(g, pred, back) && n in g.names && (back != [] ==> Chosen(pred, Last(back), n))
    ensures FollowsBack(g, pred, back + [n]) && Last(back + [n]) == n && (back != [] ==> (back + [n])[0] == back[0])
  {
    var longer := back + [n];
    forall i | 0 <= i < |longer| - 1 ensures Chosen(pred, longer[i], longer[i + 1]) {
      if i < |back| - 1 { assert Chosen(pred, back[i], back[i + 1]); }
    }
  }

  method WalkBack(g: Graph, pred: map<string, string>, end: string, ghost order: seq<string>)
    returns (back: seq<string>)
    requires g.WellFormed() && IsTopological(g, order) && end in g.names
    requires forall n :: n in g.names ==> (n in pred <==> g.Dependencies(n) != [])
    requires forall n :: n in pred ==> pred[n] in g.Dependencies(n)
    ensures FollowsBack(g, pred, back) && back != [] && back[0] == end && g.Dependencies(back[|back| - 1]) == []
  {
    back := [];
    var n := end;
    assert forall x :: x in g.names <==> x in Elems(order);
    while n != ""
      invariant n != "" ==> n in g.names
      invariant FollowsBack(g, pred, back)
      invariant back == [] ==> n == end
      invariant back != [] ==> back[0] == end
      invariant back != [] && n != "" ==> Chosen(pred, Last(back), n)
      invariant back != [] && n == "" ==> Last(back) !in pred
      decreases if n == "" then 0 else 1 + Position(order, n)
    {
      StepBack(g, pred, back, n);
      back := back + [n];
      if n in pred { DependencyComesFirst(g, order, n, pred[n]); }
      n := if n in pred then pred[n] else "";
    }
  }

  /** A schedule starts every action no earlier than time zero and after the end of
      everything it waits on. */
  ghost predicate IsSchedule(g: Graph, dur: map<string, int>, start: map<string, int>) {
    forall n :: n in g.names ==> StartsInTime(g, dur, start, n)
  }

  ghost predicate StartsInTime(g: Graph, dur: map<string, int>, start: map<string, int>, n: string) {
    && n in start && start[n] >= 0
    && forall d :: d in g.Dependencies(n) ==> d in start && start[d] + Get(dur, d) <= start[n]
  }

  ghost predicate EndsBy(g: Graph, dur: map<string, int>, start: map<string, int>, t: int) {
    forall n :: n in g.names ==> n in start && start[n] + Get(dur, n) <= t
  }

  /** No schedule, with any number of workers, beats a chain. */
  lemma {:induction false} ChainBoundsSchedule(g: Graph, dur: map<string, int>, start: map<string, int>, t: int,
                                               c: seq<string>)
    requires IsSchedule(g, dur, start) && EndsBy(g, dur, start, t) && IsChain(g, c)
    ensures Weight(dur, c) <= start[Last(c)] + Get(dur, Last(c)) <= t
    decreases |c|
  {
    var n := Last(c);
    assert StartsInTime(g, dur, start, n);
    if |c| > 1 {
      ChainInit(g, c);
      ChainBoundsSchedule(g, dur, start, t, c[..|c| - 1]);
    } else {
      assert Weight(dur, c[..0]) == 0;
    }
  }

  /** The critical path length is the least time any schedule can end by, the bound the
      speedup curve flattens against. */
  lemma LengthBoundsEverySchedule(g: Graph, dur: map<string, int>, path: seq<string>, length: int,
                                  start: map<string, int>, t: int)
    requires IsCriticalPath(g, dur, path, length)
    requires IsSchedule(g, dur, start) && EndsBy(g, dur, start, t)
    ensures length <= t
  {
    ChainBoundsSchedule(g, dur, start, t, path);
  }

  function EarliestStarts(dur: map<string, int>, finish: map<string, int>): map<string, int> {
    map n | n in finish :: finish[n] - Get(dur, n)
  }

  lemma EarliestStartInTime(g: Graph, dur: map<string, int>, finish: map<string, int>, depth: map<string, int>,
                            pred: map<string, string>, order: seq<string>, n: string)
    requires g.WellFormed() && IsTopological(g, order) && NonNegative(dur) && Labels(g, dur, finish, depth, pred)
    requires n in g.names
    ensures StartsInTime(g, dur, EarliestStarts(dur, finish), n)
  {
    assert Labelled(g, dur, finish, depth, pred, n);
    forall d | d in g.Dependencies(n) ensures d in finish && finish[d] <= finish[n] - Get(dur, n) {
      assert Labelled(g, dur, finish, depth, pred, d);
      assert Wins(ScoreOf(finish, depth, pred[n]), ScoreOf(finish, depth, d));
    }
    if n in pred {
      DependencyComesFirst(g, order, n, pred[n]);
      LabelsPositive(g, dur, finish, depth, pred, order, pred[n]);
    }
  }

  /** Starting each action at its finish label less its duration is a schedule. */
  lemma EarliestSchedule(g: Graph, dur: map<string, int>, finish: map<string, int>, depth: map<string, int>,
                         pred: map<string, string>, order: seq<string>, end: string) returns (start: map<string, int>)
    requires g.WellFormed() && IsTopological(g, order) && NonNegative(dur) && Labels(g, dur, finish, depth, pred)
    requires forall n :: n in g.names ==> Wins(ScoreOf(finish, depth, end), ScoreOf(finish, depth, n))
    ensures IsSchedule(g, dur, start) && EndsBy(g, dur, start, Get(finish, end))
  {
    start := EarliestStarts(dur, finish);
    forall n | n in g.names ensures StartsInTime(g, dur, start, n) {
      EarliestStartInTime(g, dur, finish, depth, pred, order, n);
    }
    forall n | n in g.names ensures n in start && start[n] + Get(dur, n) <= Get(finish, end) {
      assert Labelled(g, dur, finish, depth, pred, n);
      assert Wins(ScoreOf(finish, depth, end), ScoreOf(finish, depth, n));
    }
  }

  method CriticalPath(g: Graph, dur: map<string, int>) returns (path: seq<string>, length: int)
    requires g.WellFormed()
    ensures !Acyclic(g) || g.names == [] ==> path == [] && length == 0
    ensures Acyclic(g) && g.names != [] ==> IsCriticalPath(g, dur, path, length)
    ensures Acyclic(g) && g.names != [] && NonNegative(dur) ==>
      exists start :: IsSchedule(g, dur, start) && EndsBy(g, dur, start, length)
  {
    var r := TopologicalOrder(g);
    if r.CycleError? { return [], 0; }
    var finish, depth, pred := Label(g, dur, r.order);
    var end;
    end, length := PickEnd(g, finish, depth);
    if end == "" { return [], 0; }
    LabelledPred(g, dur, finish, depth, pred);
    var back := WalkBack(g, pred, end, r.order);
    FollowsReversed(g, pred, back);
    var a := new string[|back|](i requires 0 <= i < |back| => back[i]);
    assert a[..] == back;
    Reverse(a);
    path := a[..];
    FollowedIsCritical(g, dur, finish, depth, pred, r.order, path);
    if NonNegative(dur) { ghost var start := EarliestSchedule(g, dur, finish, depth, pred, r.order, end); }
  }

  lemma LabelledPred(g: Graph, dur: map<string, int>, finish: map<string, int>, depth: map<string, int>,
                     pred: map<string, string>)
    requires Labels(g, dur, finish, depth, pred) && pred.Keys <= Elems(g.names)
    ensures forall n :: n in g.names ==> (n in pred <==> g.Dependencies(n) != [])
    ensures forall n :: n in pred ==> pred[n] in g.Dependencies(n)
  {
    forall n | n in g.names
      ensures (n in pred <==> g.Dependencies(n) != []) && (n in pred ==> pred[n] in g.Dependencies(n))
    {
      assert Labelled(g, dur, finish, depth, pred, n);
    }
  }
}
