/** Where the parallel build on bytes ends: the statuses and the files of a finished build
    are the one solution of equations the sequential driver solves as well, and its summary
    counts what those equations say. */
module ParallelOutcome {
  import opened Graphs
  import opened Cycles
  import opened Kahn
  import opened Keys
  import opened Stores
  import opened Scheduler
  import opened SchedulerRuns
  import opened SchedulerOutcome
  import opened Runners
  import opened SandboxSteps
  import opened CachedSteps
  import opened Transparency
  import opened ParallelBytes
  import Seq = Sequential
  import Drivers = SequentialBuild

  // ---- the equations both drivers solve ----

  /** The verdict on n is what running it on its final inputs gives, and so are its
      outputs; a skipped action has left no trace. */
  ghost predicate Placed(x: Setup, state: map<string, Status>, ws: Tree, n: string) {
    n in x.c.g.actions && x.c.g.actions[n].command != [] ==>
      var a := ActionOf(x, n);
      if n in state && state[n] != StatusSkipped
      then Expected(x, a, ws).outcome.RanOK? == (state[n] == StatusOK) && Agree(ws, Expected(x, a, ws).ws, a.outputs)
      else Agree(ws, x.ws0, a.outputs)
  }

  ghost predicate Verdict(x: Setup, state: map<string, Status>, n: string) {
    n in x.c.g.names ==> n in state && (state[n] == StatusSkipped <==> BadDep(x.c.g, state, n))
  }

  ghost predicate Solution(x: Setup, state: map<string, Status>, ws: Tree) {
    && state.Keys == Elems(x.c.g.names)
    && (forall n :: Verdict(x, state, n))
    && (forall n :: Placed(x, state, ws, n))
    && (forall p :: SourceKept(x.c.g, ws, x.ws0, p))
  }

  lemma UpstreamIsEarlier(g: Graph, order: seq<string>, n: string, k: string)
    requires g.WellFormed() && IsTopological(g, order) && n in g.names && Seq.DependsOn(g, n, k)
    ensures n in order && k in order && Position(order, k) < Position(order, n)
  {
    assert n in Elems(order);
    var w :| Seq.WalkFromTo(g, w, n, k);
    WalkDescends(g, order, w, |w| - 1);
  }

  lemma {:induction false} SolutionsAgree(x: Setup, order: seq<string>, s1: map<string, Status>, t1: Tree,
                                          s2: map<string, Status>, t2: Tree, n: string)
    requires ValidSetup(x) && Disciplined(x.c.g) && IsTopological(x.c.g, order) && n in order
    requires Solution(x, s1, t1) && Solution(x, s2, t2)
    ensures n in s1 && n in s2 && s1[n] == s2[n]
    ensures n in x.c.g.actions && Agree(t1, t2, x.c.g.actions[n].outputs)
    decreases Position(order, n)
  {
    assert n in Elems(order);
    assert Verdict(x, s1, n) && Verdict(x, s2, n) && Placed(x, s1, t1, n) && Placed(x, s2, t2, n);
    var a := ActionOf(x, n);
    forall d | d in x.c.g.Dependencies(n) ensures StatusOf(s1, d) == StatusOf(s2, d) {
      DependencyComesFirst(x.c.g, order, n, d);
      SolutionsAgree(x, order, s1, t1, s2, t2, d);
    }
    assert BadDep(x.c.g, s1, n) <==> BadDep(x.c.g, s2, n);
    forall p | p in a.inputs ensures SameAt(t1, t2, p) {
      if k :| k in x.c.g.actions && p in x.c.g.actions[k].outputs {
        assert ReadsUpstream(x.c.g, n, k, p);
        UpstreamIsEarlier(x.c.g, order, n, k);
        SolutionsAgree(x, order, s1, t1, s2, t2, k);
      } else {
        assert SourceKept(x.c.g, t1, x.ws0, p) && SourceKept(x.c.g, t2, x.ws0, p);
      }
    }
    SameInputsSameEnd(x, a, s1, t1, s2, t2, n);
  }

  lemma SameInputsSameEnd(x: Setup, a: Action, s1: map<string, Status>, t1: Tree, s2: map<string, Status>, t2: Tree,
                          n: string)
    requires n in x.c.g.actions && a == ActionOf(x, n) && a.command != [] && n in s1 && n in s2
    requires Placed(x, s1, t1, n) && Placed(x, s2, t2, n) && Agree(t1, t2, a.inputs)
    requires s1[n] == StatusSkipped <==> s2[n] == StatusSkipped
    ensures s1[n] == s2[n] && Agree(t1, t2, a.outputs)
  {
    ExpectedLocal(x, a, t1, t2);
    var e1, e2 := Expected(x, a, t1).ws, Expected(x, a, t2).ws;
    forall p | p in a.outputs ensures SameAt(t1, t2, p) {
      if s1[n] == StatusSkipped {
        assert SameAt(t1, x.ws0, p) && SameAt(t2, x.ws0, p);
      } else {
        assert SameAt(t1, e1, p) && SameAt(e1, e2, p) && SameAt(t2, e2, p);
      }
    }
  }

  /** The equations have one solution. */
  lemma SolutionUnique(x: Setup, order: seq<string>, s1: map<string, Status>, t1: Tree, s2: map<string, Status>,
                       t2: Tree)
    requires ValidSetup(x) && Disciplined(x.c.g) && IsTopological(x.c.g, order)
    requires Solution(x, s1, t1) && Solution(x, s2, t2)
    ensures s1 == s2 && t1 == t2
  {
    forall n | n in s1 ensures s1[n] == s2[n] {
      assert n in Elems(order);
      SolutionsAgree(x, order, s1, t1, s2, t2, n);
    }
    forall p ensures (p in t1 <==> p in t2) && (p in t1 ==> t1[p] == t2[p]) {
      if n :| n in x.c.g.actions && p in x.c.g.actions[n].outputs {
        assert n in Elems(order);
        SolutionsAgree(x, order, s1, t1, s2, t2, n);
        assert SameAt(t1, t2, p);
      } else {
        assert SourceKept(x.c.g, t1, x.ws0, p) && SourceKept(x.c.g, t2, x.ws0, p);
      }
    }
  }

  // ---- the parallel build solves them ----

  lemma ParallelSolves(x: Setup, b: BState)
    requires ValidSetup(x) && BInv(x, b) && Finished(x.c, b.s)
    ensures Solution(x, b.s.state, b.ws)
  {
    forall n ensures Verdict(x, b.s.state, n) { if n in x.c.g.names { FinishedVerdict(x, b, n); } }
    forall n ensures Placed(x, b.s.state, b.ws, n) { FinishedPlaced(x, b, n); }
    forall n ensures n in b.s.state <==> n in Elems(x.c.g.names) {
      if n in x.c.g.names { assert ActionInv(x.c, b.s, n); }
    }
  }

  lemma FinishedVerdict(x: Setup, b: BState, n: string)
    requires ValidSetup(x) && BInv(x, b) && Finished(x.c, b.s) && n in x.c.g.names
    ensures Verdict(x, b.s.state, n)
  {
    assert ActionInv(x.c, b.s, n) && SkipReason(x.c, b.s, n);
  }

  /** Every action of a finished build has a status, and its place follows. */
  lemma FinishedPlaced(x: Setup, b: BState, n: string)
    requires FilesInv(x, b) && Finished(x.c, b.s)
    ensures Placed(x, b.s.state, b.ws, n)
  {
    assert LocalFits(b, n) && OnTrack(x, b, n);
    if n in x.c.g.names { assert ActionInv(x.c, b.s, n); }
    if n in x.c.g.actions && x.c.g.actions[n].command != [] && n in b.local {
      PlacedWhereItEnds(x, b, n);
    }
  }

  lemma PlacedWhereItEnds(x: Setup, b: BState, n: string)
    requires n in x.c.g.actions && x.c.g.actions[n].command != [] && n in b.local
      && StageOnTrack(x, ActionOf(x, n), b.local[n], b.ws)
    requires n in b.s.state && b.s.state[n] != StatusSkipped && RecordedAs(b.s, n, b.local[n])
    ensures Placed(x, b.s.state, b.ws, n)
  {
  }

  // ---- the sequential build solves them ----

  ghost predicate NeverKilled(ticks: nat -> Drivers.Tick) { forall i :: !ticks(i).killed }

  /** What holds of the workspace after each action of the sequential build. */
  ghost predicate SeqTracked(x: Setup, state: map<string, Status>, s: Site) {
    && s.cache.None?
    && (forall n :: Placed(x, state, s.ws, n))
    && (forall p :: SourceKept(x.c.g, s.ws, x.ws0, p))
  }

  lemma PlacedElsewhere(x: Setup, state: map<string, Status>, state': map<string, Status>, ws: Tree, ws': Tree,
                        k: string)
    requires k in x.c.g.actions && x.c.g.actions[k].command != [] && Placed(x, state, ws, k)
    requires (k in state <==> k in state') && (k in state ==> state[k] == state'[k])
    requires Agree(ws, ws', x.c.g.actions[k].outputs)
    requires k in state && state[k] != StatusSkipped ==> Agree(ws, ws', x.c.g.actions[k].inputs)
    ensures Placed(x, state', ws', k)
  {
    var a := ActionOf(x, k);
    if k in state && state[k] != StatusSkipped {
      ExpectedLocal(x, a, ws, ws');
      forall p | p in a.outputs ensures SameAt(ws', Expected(x, a, ws').ws, p) {
        assert SameAt(ws, ws', p) && SameAt(ws, Expected(x, a, ws).ws, p)
          && SameAt(Expected(x, a, ws).ws, Expected(x, a, ws').ws, p);
      }
    } else {
      forall p | p in a.outputs ensures SameAt(ws', x.ws0, p) { assert SameAt(ws, ws', p) && SameAt(ws, x.ws0, p); }
    }
  }

  lemma SkipTracked(x: Setup, state: map<string, Status>, s: Site, n: string)
    requires SeqTracked(x, state, s) && n !in state
    ensures SeqTracked(x, state[n := StatusSkipped], s)
  {
    var state' := state[n := StatusSkipped];
    forall k ensures Placed(x, state', s.ws, k) { assert Placed(x, state, s.ws, k); }
  }

  /** The sequential driver runs n when nothing that has run waits on it. */
  lemma RunTracked(x: Setup, state: map<string, Status>, s: Site, n: string, status: Status)
    requires ValidSetup(x) && Disciplined(x.c.g) && SeqTracked(x, state, s) && n in x.c.g.names && n !in state
    requires forall k :: k in state ==> !Seq.DependsOn(x.c.g, k, n)
    requires status == if RunPlain(x.m, ActionOf(x, n), s.ws, false).outcome.RanOK? then StatusOK else StatusFailed
    ensures SeqTracked(x, state[n := status], Site(RunPlain(x.m, ActionOf(x, n), s.ws, false).ws, None))
  {
    var a := ActionOf(x, n);
    var ws, ws', state' := s.ws, RunPlain(x.m, a, s.ws, false).ws, state[n := status];
    forall p | p !in a.outputs ensures SameAt(ws', ws, p) { OnlyOutputsChange(x.m, a, ws, false, p); }
    assert Placed(x, state, ws, n);
    ResetFresh(ws, x.ws0, a.outputs);
    ResetSame(ws', ws, x.ws0, a.outputs);
    assert Expected(x, a, ws') == RunPlain(x.m, a, ws, false);
    forall k ensures Placed(x, state', ws', k) {
      assert Placed(x, state, ws, k);
      if k != n && k in x.c.g.actions {
        SequentiallyApart(x, state, ws, ws', n, k);
        PlacedElsewhere(x, state, state', ws, ws', k);
      }
    }
    forall p ensures SourceKept(x.c.g, ws', x.ws0, p) {
      assert SourceKept(x.c.g, ws, x.ws0, p);
      if !Produced(x.c.g, p) { assert p !in a.outputs; }
    }
  }

  lemma SequentiallyApart(x: Setup, state: map<string, Status>, ws: Tree, ws': Tree, n: string, k: string)
    requires Disciplined(x.c.g) && n in x.c.g.actions && k in x.c.g.actions && k != n
    requires forall p :: p !in x.c.g.actions[n].outputs ==> SameAt(ws', ws, p)
    requires k in state ==> !Seq.DependsOn(x.c.g, k, n)
    ensures Agree(ws, ws', x.c.g.actions[k].outputs)
    ensures k in state ==> Agree(ws, ws', x.c.g.actions[k].inputs)
  {
    forall p | p in x.c.g.actions[k].outputs ensures SameAt(ws, ws', p) {
      assert OneProducer(x.c.g, n, k, p);
      assert SameAt(ws', ws, p);
    }
    if k in state {
      forall p | p in x.c.g.actions[k].inputs ensures SameAt(ws, ws', p) {
        assert ReadsUpstream(x.c.g, k, n, p);
        assert SameAt(ws', ws, p);
      }
    }
  }

  lemma {:induction false} DriveTracked(x: Setup, order: seq<string>, d: Seq.Driver<Site>, ticks: nat -> Drivers.Tick,
                                        k: nat)
    requires ValidSetup(x) && Disciplined(x.c.g) && IsTopological(x.c.g, order) && NeverKilled(ticks)
    requires d == Drivers.BuildDriver(x.m, x.c.g, order, true, |order|, ticks) && k <= |order|
    ensures var p := Seq.Drive(d, Site(x.ws0, None), k); SeqTracked(x, p.book.state, p.world)
    decreases k
  {
    if k == 0 {
      forall n ensures Placed(x, map[], x.ws0, n) {}
      forall p ensures SourceKept(x.c.g, x.ws0, x.ws0, p) {}
    } else {
      DriveTracked(x, order, d, ticks, k - 1);
      var p := Seq.Drive(d, Site(x.ws0, None), k - 1);
      StepTracked(x, order, d, ticks, k - 1, p);
    }
  }

  lemma StepTracked(x: Setup, order: seq<string>, d: Seq.Driver<Site>, ticks: nat -> Drivers.Tick, k: nat,
                    p: Seq.Progress<Site>)
    requires ValidSetup(x) && Disciplined(x.c.g) && IsTopological(x.c.g, order) && NeverKilled(ticks)
    requires d == Drivers.BuildDriver(x.m, x.c.g, order, true, |order|, ticks) && k < |order|
    requires p == Seq.Drive(d, Site(x.ws0, None), k) && SeqTracked(x, p.book.state, p.world)
    ensures var q := Seq.StepAt(d, k, p); SeqTracked(x, q.book.state, q.world)
  {
    var n := order[k];
    Seq.DriveKeepsInv(d, Site(x.ws0, None), k);
    Seq.NeverStops(d, Site(x.ws0, None), k);
    Seq.NewTurn(d, k, p.book, StatusOK);
    if n in p.book.poisoned {
      SkipTracked(x, p.book.state, p.world, n);
    } else {
      Drivers.OrderNamed(x.c.g, order, k);
      Drivers.RunOfDriver(x.m, x.c.g, order, true, |order|, ticks, p.world, k);
      forall y | y in p.book.state ensures !Seq.DependsOn(x.c.g, y, n) {
        assert y in Elems(order[..k]);
        Seq.NotDownstream(x.c.g, order, k, y);
        assert y in Elems(order);
      }
      var r := RunPlain(x.m, ActionOf(x, n), p.world.ws, false);
      RunTracked(x, p.book.state, p.world, n, if r.outcome.RanOK? then StatusOK else StatusFailed);
    }
  }

  lemma SequentialSolves(x: Setup, order: seq<string>, ticks: nat -> Drivers.Tick)
    requires ValidSetup(x) && Disciplined(x.c.g) && IsTopological(x.c.g, order) && NeverKilled(ticks)
    ensures var d := Drivers.BuildDriver(x.m, x.c.g, order, true, |order|, ticks);
      var p := Seq.Drive(d, Site(x.ws0, None), |order|);
      Solution(x, p.book.state, p.world.ws)
  {
    var d := Drivers.BuildDriver(x.m, x.c.g, order, true, |order|, ticks);
    DriveTracked(x, order, d, ticks, |order|);
    Seq.SequentialSummary(d, Site(x.ws0, None));
    forall n ensures Verdict(x, Seq.Final(d, Site(x.ws0, None)).state, n) {
      if n in x.c.g.names { Seq.SkippedIffBadDep(d, Site(x.ws0, None), n); }
    }
  }

  /** However the goroutines interleave and however many workers there are, a finished
      build has the workspace the sequential driver leaves, file for file, and the same
      status for every action. */
  lemma ParallelMatchesSequentialBytes(x: Setup, es: seq<BEvent>, order: seq<string>, ticks: nat -> Drivers.Tick)
    requires ValidSetup(x) && Disciplined(x.c.g) && BLegal(x, es) && Finished(x.c, BExec(x, es).s)
    requires IsTopological(x.c.g, order) && NeverKilled(ticks)
    ensures var d := Drivers.BuildDriver(x.m, x.c.g, order, true, |order|, ticks);
      var p := Seq.Drive(d, Site(x.ws0, None), |order|);
      BExec(x, es).ws == p.world.ws && BExec(x, es).s.state == p.book.state
  {
    BReachable(x, es);
    var b := BExec(x, es);
    var p := Seq.Drive(Drivers.BuildDriver(x.m, x.c.g, order, true, |order|, ticks), Site(x.ws0, None), |order|);
    ParallelSolves(x, b);
    SequentialSolves(x, order, ticks);
    SolutionUnique(x, order, b.s.state, b.ws, p.book.state, p.world.ws);
  }

  // ---- when the numbers of the summary add up ----

  /** n declares no input twice, and those that nothing produces were there at the start. */
  ghost predicate SourcesThere(x: Setup, n: string)
    requires n in x.c.g.actions
  {
    NoDup(ActionOf(x, n).inputs) && forall p :: p in ActionOf(x, n).inputs ==> Produced(x.c.g, p) || p in x.ws0
  }

  /** The actions that were run without what they need from the start. */
  ghost function Unstarted(x: Setup, state: map<string, Status>): set<string> {
    set n | n in x.c.g.names && n in state && state[n] != StatusSkipped && n in x.c.g.actions && !SourcesThere(x, n)
  }

  /** What an OK action produces is in the workspace. */
  lemma ProducedIsThere(x: Setup, b: BState, k: string, p: Path)
    requires ValidSetup(x) && BInv(x, b) && Finished(x.c, b.s)
    requires k in x.c.g.actions && p in x.c.g.actions[k].outputs && StatusAt(b.s, k, StatusOK)
    ensures p in b.ws
  {
    FinishedPlaced(x, b, k);
    var a := ActionOf(x, k);
    var r := Expected(x, a, b.ws);
    assert AllPresent(r.ws, a.outputs) by { OKHasOutputs(x.m, a, Reset(b.ws, x.ws0, a.outputs)); }
    assert SameAt(b.ws, r.ws, p);
  }

  lemma OKHasOutputs(m: Machine, a: Action, ws: Tree)
    requires a.command != [] && RunPlain(m, a, ws, false).outcome.RanOK?
    ensures AllPresent(RunPlain(m, a, ws, false).ws, a.outputs)
  {
  }

  /** The inputs of an action that was run are all there at the end exactly when its sources
      were there at the start: the rest was produced by actions that ended OK. */
  lemma ReadableIffSources(x: Setup, b: BState, n: string)
    requires ValidSetup(x) && Disciplined(x.c.g) && BInv(x, b) && Finished(x.c, b.s)
    requires n in x.c.g.names && n in b.s.state && b.s.state[n] != StatusSkipped && n in x.c.g.actions
    ensures Readable(ActionOf(x, n), View(b.ws)) <==>
      forall p :: p in ActionOf(x, n).inputs ==> Produced(x.c.g, p) || p in x.ws0
  {
    assert ActionInv(x.c, b.s, n);
    forall p | p in ActionOf(x, n).inputs ensures p in View(b.ws) <==> Produced(x.c.g, p) || p in x.ws0 {
      if k :| k in x.c.g.actions && p in x.c.g.actions[k].outputs {
        assert ReadsUpstream(x.c.g, n, k, p);
        var w :| Seq.WalkFromTo(x.c.g, w, n, k);
        AncestorsDone(x, b.s, w, |w| - 1);
        ProducedIsThere(x, b, k, p);
      } else {
        assert SourceKept(x.c.g, b.ws, x.ws0, p);
      }
    }
  }

  lemma ReadableFromReset(x: Setup, a: Action, ws: Tree)
    requires NoOverlap(a)
    ensures Readable(a, View(Reset(ws, x.ws0, a.outputs))) <==> Readable(a, View(ws))
  {
    assert forall p :: p in a.inputs ==> (p in Reset(ws, x.ws0, a.outputs) <==> p in ws);
  }

  /** Its Result is the one it would have, run on its own. */
  lemma ResultIsOwn(x: Setup, b: BState, n: string)
    requires FilesInv(x, b) && n in b.s.state && b.s.state[n] != StatusSkipped
    requires n in x.c.g.actions && x.c.g.actions[n].command != []
    ensures n !in b.s.results <==> NoResult(Expected(x, ActionOf(x, n), b.ws).outcome)
  {
    assert LocalFits(b, n) && OnTrack(x, b, n);
  }

  /** An action that was run has no Result exactly when it lacked what it needs from the
      start. */
  lemma NoResultOnBytes(x: Setup, b: BState, n: string)
    requires ValidSetup(x) && Disciplined(x.c.g) && BInv(x, b) && Finished(x.c, b.s)
    requires n in x.c.g.names && n in b.s.state && b.s.state[n] != StatusSkipped && n in x.c.g.actions
    ensures n !in b.s.results <==> !SourcesThere(x, n)
  {
    var a := ActionOf(x, n);
    ResultIsOwn(x, b, n);
    PlainNoResult(x.m, a, Reset(b.ws, x.ws0, a.outputs), false);
    ReadsNoneOfItsOwn(x, n);
    ReadableFromReset(x, a, b.ws);
    ReadableIffSources(x, b, n);
  }

  /** With or without a cache, the numbers of a finished build fall short of the number of
      actions by those that were run although a source file was missing or an input was
      declared twice: they account for every action if and only if there is none. */
  lemma SummaryOnBytes(x: Setup, es: seq<BEvent>)
    requires ValidSetup(x) && Disciplined(x.c.g) && BLegal(x, es) && Finished(x.c, BExec(x, es).s)
    ensures var s := BExec(x, es).s;
      && Succeeded(s.results, s.failed) + |s.failed| + |s.skipped| + |Unstarted(x, s.state)| == |x.c.g.names|
      && (Succeeded(s.results, s.failed) + |s.failed| + |s.skipped| == |x.c.g.names|
          <==> forall n :: n in x.c.g.names && n in s.state && s.state[n] != StatusSkipped && n in x.c.g.actions ==>
                 SourcesThere(x, n))
  {
    BReachable(x, es);
    var b := BExec(x, es);
    FinishedCounts(x.c, b.s);
    UnstartedHaveNoResult(x, b);
    if n :| n in x.c.g.names && n in b.s.state && b.s.state[n] != StatusSkipped && n in x.c.g.actions
            && !SourcesThere(x, n) {
      assert n in Unstarted(x, b.s.state);
    }
  }

  lemma UnstartedHaveNoResult(x: Setup, b: BState)
    requires ValidSetup(x) && Disciplined(x.c.g) && BInv(x, b) && Finished(x.c, b.s)
    ensures WithoutResult(b.s.failed, b.s.results) == Unstarted(x, b.s.state)
  {
    forall n ensures n in WithoutResult(b.s.failed, b.s.results) <==> n in Unstarted(x, b.s.state) {
      assert ListInv(b.s, n);
      assert n in b.s.state ==> n in Elems(x.c.g.names);
      if n in b.s.state && b.s.state[n] != StatusSkipped { NoResultOnBytes(x, b, n); }
    }
  }

  /** The lists of two finished builds name the same actions. */
  ghost predicate SameLists(s1: State, s2: State) {
    && multiset(s1.results) == multiset(s2.results)
    && multiset(s1.failed) == multiset(s2.failed) && multiset(s1.skipped) == multiset(s2.skipped)
  }

  lemma ListedAlike(x1: Setup, b1: BState, x2: Setup, b2: BState, n: string)
    requires ValidSetup(x1) && Disciplined(x1.c.g) && BInv(x1, b1) && Finished(x1.c, b1.s)
    requires ValidSetup(x2) && BInv(x2, b2) && Finished(x2.c, b2.s)
    requires x1.c.g == x2.c.g && x1.ws0 == x2.ws0 && b1.s.state == b2.s.state
    ensures n in b1.s.results <==> n in b2.s.results
    ensures n in b1.s.failed <==> n in b2.s.failed
    ensures n in b1.s.skipped <==> n in b2.s.skipped
  {
    assert ListInv(b1.s, n) && ListInv(b2.s, n);
    if n in b1.s.state && b1.s.state[n] != StatusSkipped {
      assert n in Elems(x1.c.g.names);
      NoResultOnBytes(x1, b1, n);
      NoResultOnBytes(x2, b2, n);
    }
  }

  /** Two finished builds of one graph in one workspace, with any worker counts and
      interleavings, with or without caches, leave the same files, report the same status
      for every action and list the same actions, those with a Result included. */
  lemma BuildsAgree(x1: Setup, es1: seq<BEvent>, x2: Setup, es2: seq<BEvent>, order: seq<string>)
    requires ValidSetup(x1) && BLegal(x1, es1) && Finished(x1.c, BExec(x1, es1).s)
    requires ValidSetup(x2) && BLegal(x2, es2) && Finished(x2.c, BExec(x2, es2).s)
    requires x1.c.g == x2.c.g && x1.m == x2.m && x1.ws0 == x2.ws0
    requires Disciplined(x1.c.g) && IsTopological(x1.c.g, order)
    ensures BExec(x1, es1).ws == BExec(x2, es2).ws && BExec(x1, es1).s.state == BExec(x2, es2).s.state
    ensures SameLists(BExec(x1, es1).s, BExec(x2, es2).s)
  {
    var ticks := (i: nat) => Drivers.Tick(false, 0);
    ParallelMatchesSequentialBytes(x1, es1, order, ticks);
    ParallelMatchesSequentialBytes(x2, es2, order, ticks);
    BReachable(x1, es1);
    BReachable(x2, es2);
    AlikeLists(x1, BExec(x1, es1), x2, BExec(x2, es2));
  }

  lemma AlikeLists(x1: Setup, b1: BState, x2: Setup, b2: BState)
    requires ValidSetup(x1) && Disciplined(x1.c.g) && BInv(x1, b1) && Finished(x1.c, b1.s)
    requires ValidSetup(x2) && BInv(x2, b2) && Finished(x2.c, b2.s)
    requires x1.c.g == x2.c.g && x1.ws0 == x2.ws0 && b1.s.state == b2.s.state
    ensures SameLists(b1.s, b2.s)
  {
    forall n
      ensures n in b1.s.results <==> n in b2.s.results
      ensures n in b1.s.failed <==> n in b2.s.failed
      ensures n in b1.s.skipped <==> n in b2.s.skipped
    {
      ListedAlike(x1, b1, x2, b2, n);
    }
    SameMembers(b1.s.results, b2.s.results);
    SameMembers(b1.s.failed, b2.s.failed);
    SameMembers(b1.s.skipped, b2.s.skipped);
  }

  /** The graph of one action whose input is missing, built in an empty workspace. */
  function MissingInput(m: Machine, workers: nat): Setup {
    Setup(Config(Drivers.OneAction(), workers, true), m, map[], None)
  }

  lemma MissingInputValid(m: Machine, workers: nat)
    requires workers >= 1
    ensures ValidSetup(MissingInput(m, workers)) && Disciplined(Drivers.OneAction())
    ensures !SourcesThere(MissingInput(m, workers), "compile")
  {
    Drivers.OneActionValid();
    TopologicalIsAcyclic(Drivers.OneAction(), ["compile"]);
    assert "main.c" in ActionOf(MissingInput(m, workers), "compile").inputs;
  }

  /** However its build goes, the three numbers sum to 0 instead of 1. */
  lemma MissingInputMiscounts(m: Machine, workers: nat, es: seq<BEvent>)
    requires workers >= 1 && ValidSetup(MissingInput(m, workers)) && BLegal(MissingInput(m, workers), es)
    requires Finished(MissingInput(m, workers).c, BExec(MissingInput(m, workers), es).s)
    ensures var s := BExec(MissingInput(m, workers), es).s;
      Succeeded(s.results, s.failed) + |s.failed| + |s.skipped| == 0
  {
    var x := MissingInput(m, workers);
    MissingInputValid(m, workers);
    BReachable(x, es);
    SummaryOnBytes(x, es);
    NeverSkipped(x, BExec(x, es).s, "compile");
    OneUnstarted(m, workers, BExec(x, es).s.state);
  }

  lemma OneUnstarted(m: Machine, workers: nat, state: map<string, Status>)
    requires "compile" in state && state["compile"] != StatusSkipped
    requires !SourcesThere(MissingInput(m, workers), "compile")
    ensures Unstarted(MissingInput(m, workers), state) == {"compile"}
  {
    assert "compile" in MissingInput(m, workers).c.g.names;
  }

  lemma NeverSkipped(x: Setup, s: State, n: string)
    requires Inv(x.c, s) && SkipsInv(x.c, s) && Finished(x.c, s) && x.c.keepGoing && n in x.c.g.names
    requires x.c.g.Dependencies(n) == [] && HonestInv(x.c, s)
    ensures n in s.state && s.state[n] != StatusSkipped
  {
    assert ActionInv(x.c, s, n) && SkipReason(x.c, s, n);
  }
}
