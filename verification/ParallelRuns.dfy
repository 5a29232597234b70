/** The parallel build on bytes always ends: no action gets stuck on the workspace or on the
    cache, every run is bounded, and every partial run can be carried on to its end. */
module ParallelRuns {
  import opened Graphs
  import opened Kahn
  import opened Keys
  import opened Stores
  import opened Scheduler
  import opened SchedulerRuns
  import opened Runners
  import opened SandboxSteps
  import opened CachedSteps
  import opened Transparency
  import opened ParallelBytes
  import Seq = Sequential

  // ---- no deadlock ----

  /** No action can get stuck on the workspace or the cache: while some goroutine has not
      exited, the build can take a step, whatever has happened to the cache. */
  lemma BNoDeadlock(x: Setup, es: seq<BEvent>, order: seq<string>) returns (e: BEvent)
    requires ValidSetup(x) && Disciplined(x.c.g) && BLegal(x, es) && IsTopological(x.c.g, order)
    requires !Finished(x.c, BExec(x, es).s)
    ensures BEnabled(x, BExec(x, es), e)
  {
    BReachable(x, es);
    e := UnfinishedCanStep(x, BExec(x, es), order);
  }

  lemma UnfinishedCanStep(x: Setup, b: BState, order: seq<string>) returns (e: BEvent)
    requires ValidSetup(x) && FilesInv(x, b) && IsTopological(x.c.g, order) && !Finished(x.c, b.s)
    ensures BEnabled(x, b, e)
  {
    var n :| n in x.c.g.names && !(n in b.s.pc && b.s.pc[n] == PC.Exited);
    assert ActionInv(x.c, b.s, n);
    assert n in Elems(order);
    var ev := SomeoneCanStep(x.c, b.s, order, n);
    if ev.Return? { e := RunningCanStep(x, b, ev.n); } else { e := Control(ev); }
  }

  lemma RunningCanStep(x: Setup, b: BState, n: string) returns (e: BEvent)
    requires ValidSetup(x) && FilesInv(x, b) && At(b.s, n, Running)
    ensures BEnabled(x, b, e)
  {
    assert n in Elems(x.c.g.names);
    assert LocalFits(b, n) && OnTrack(x, b, n);
    if b.local[n].Ready? {
      ReadyCanReturn(x, b, n);
      e := Control(Return(n, b.local[n].outcome));
    } else {
      e := Work(n, b.cache, 0);
    }
  }

  /** A run that is not killed fails in its own name. */
  lemma OutcomeIsOwn(m: Machine, a: Action, ws: Tree)
    requires a.command != []
    ensures var o := RunPlain(m, a, ws, false).outcome; o.RunFailed? ==> o.err == ActionFailed(a.name)
  {
  }

  lemma ReadyCanReturn(x: Setup, b: BState, n: string)
    requires At(b.s, n, Running) && n in x.c.g.actions && n in b.local && b.local[n].Ready?
    requires ActionOf(x, n).name == n && ActionOf(x, n).command != []
      && StageOnTrack(x, ActionOf(x, n), b.local[n], b.ws)
    ensures CanControl(x, b, Return(n, b.local[n].outcome))
  {
    var a := ActionOf(x, n);
    OutcomeIsOwn(x.m, a, Reset(b.ws, x.ws0, a.outputs));
    assert b.local[n].outcome == Expected(x, a, b.ws).outcome by { ReadyEnd(x, a, b.local[n].outcome, b.ws); }
  }

  lemma ReadyEnd(x: Setup, a: Action, outcome: Outcome, ws: Tree)
    requires a.command != [] && StageOnTrack(x, a, Ready(outcome), ws)
    ensures outcome == Expected(x, a, ws).outcome
  {
  }

  // ---- termination ----

  /** The work n still has to do inside Run. */
  ghost function WorkAt(x: Setup, local: map<string, Stage>, n: string): nat {
    if n !in x.c.g.actions then 0
    else StageWork(x.c.g.actions[n], if n in local then local[n] else Opening(0))
  }

  ghost function WorkSum(x: Setup, local: map<string, Stage>, names: seq<string>): nat {
    if names == [] then 0 else WorkAt(x, local, names[0]) + WorkSum(x, local, names[1..])
  }

  /** How many steps are left at most. */
  ghost function BMeasure(x: Setup, b: BState): nat { Measure(x.c, b.s) + WorkSum(x, b.local, x.c.g.names) }

  lemma {:induction false} WorkSumDrops(x: Setup, local: map<string, Stage>, local': map<string, Stage>, n: string,
                                        names: seq<string>)
    requires n in local' && local' == local[n := local'[n]] && WorkAt(x, local', n) <= WorkAt(x, local, n)
    ensures WorkSum(x, local', names) <= WorkSum(x, local, names)
    ensures n in names && WorkAt(x, local', n) < WorkAt(x, local, n) ==>
      WorkSum(x, local', names) < WorkSum(x, local, names)
    decreases |names|
  {
    if names != [] {
      WorkSumDrops(x, local, local', n, names[1..]);
      assert n in names ==> n == names[0] || n in names[1..];
    }
  }

  /** A step of the scheduler lowers the scheduler's measure and adds no work. */
  lemma ControlDrops(x: Setup, b: BState, ev: Event)
    requires FilesInv(x, b) && CanControl(x, b, ev)
    ensures BMeasure(x, Controlled(x, b, ev)) < BMeasure(x, b)
  {
    MeasureDrops(x.c, b.s, ev);
    if ev.Acquire? {
      NotYetEntered(x, b, ev.n);
      WorkSumDrops(x, b.local, Controlled(x, b, ev).local, ev.n, x.c.g.names);
    }
  }

  /** A step inside Run leaves the scheduler alone and lowers the work. */
  lemma InsideRunDrops(x: Setup, b: BState, n: string, found: Option<Cache>, now: int)
    requires ValidSetup(x) && FilesInv(x, b) && CanWork(x, b, n, found)
    ensures BMeasure(x, Worked(x, b, n, found, now)) < BMeasure(x, b)
  {
    assert OnTrack(x, b, n);
    assert n in Elems(x.c.g.names);
    WeatheredIsHonest(x.m.w, b.cache, found);
    StageWorkDrops(x.m, ActionOf(x, n), b.local[n], b.ws, found, now);
    WorkSumDrops(x, b.local, Worked(x, b, n, found, now).local, n, x.c.g.names);
  }

  lemma BMeasureDrops(x: Setup, b: BState, e: BEvent)
    requires ValidSetup(x) && BInv(x, b) && BEnabled(x, b, e)
    ensures BMeasure(x, BApply(x, b, e)) < BMeasure(x, b)
  {
    match e {
      case Control(ev) => ControlDrops(x, b, ev);
      case Work(n, found, now) => InsideRunDrops(x, b, n, found, now);
    }
  }

  /** Every run on bytes is shorter than the measure of the initial state, however the
      goroutines interleave and whatever happens to the cache. */
  lemma {:induction false} BRunsAreBounded(x: Setup, es: seq<BEvent>)
    requires ValidSetup(x) && Disciplined(x.c.g) && BLegal(x, es)
    ensures |es| + BMeasure(x, BExec(x, es)) <= BMeasure(x, BInit(x))
    decreases |es|
  {
    if es != [] {
      var front := es[..|es| - 1];
      BRunsAreBounded(x, front);
      BReachable(x, front);
      BMeasureDrops(x, BExec(x, front), es[|es| - 1]);
    }
  }

  lemma BExecSnoc(x: Setup, es: seq<BEvent>, e: BEvent)
    requires ValidSetup(x) && BLegal(x, es) && BEnabled(x, BExec(x, es), e)
    ensures BLegal(x, es + [e]) && BExec(x, es + [e]) == BApply(x, BExec(x, es), e)
  {
    assert (es + [e])[..|es + [e]| - 1] == es;
  }

  lemma {:induction false} CarriedOn(x: Setup, es: seq<BEvent>, order: seq<string>, left: nat)
    returns (all: seq<BEvent>)
    requires ValidSetup(x) && Disciplined(x.c.g) && BLegal(x, es) && IsTopological(x.c.g, order)
    requires |es| + left == BMeasure(x, BInit(x)) + 1
    ensures es <= all && BLegal(x, all) && Finished(x.c, BExec(x, all).s)
    decreases left
  {
    if Finished(x.c, BExec(x, es).s) {
      all := es;
    } else {
      BRunsAreBounded(x, es);
      var e := BNoDeadlock(x, es, order);
      BExecSnoc(x, es, e);
      all := CarriedOn(x, es + [e], order, left - 1);
    }
  }

  /** Any run on bytes, however far it got, can be carried on to its end, and so to the
      workspace of the sequential build. */
  lemma BRunsFinish(x: Setup, es: seq<BEvent>, order: seq<string>) returns (all: seq<BEvent>)
    requires ValidSetup(x) && Disciplined(x.c.g) && BLegal(x, es) && IsTopological(x.c.g, order)
    ensures es <= all && BLegal(x, all) && Finished(x.c, BExec(x, all).s)
  {
    BRunsAreBounded(x, es);
    all := CarriedOn(x, es, order, BMeasure(x, BInit(x)) + 1 - |es|);
  }
}
