/** What holds of every run of the parallel scheduler: dependency safety, bounded width,
    no deadlock, termination, honest errors and a summary that adds up. */
module SchedulerRuns {
  import opened Graphs
  import opened Kahn
  import opened Scheduler

  // ---- safety ----

  ghost function InsideRun(s: State): set<string> { set n | n in s.pc && s.pc[n].Running? }

  /** In every reachable state: a closed done channel has a recorded status behind it;
      an action inside Run has every dependency recorded as OK; and no more actions are
      inside Run than there are workers. */
  lemma DependencySafety(c: Config, es: seq<Event>)
    requires ValidConfig(c) && Legal(c, es)
    ensures var s := Exec(c, es);
      && s.done <= s.state.Keys
      && (forall n, d :: n in s.pc && s.pc[n].Running? && d in c.g.Dependencies(n) ==>
            d in s.state && s.state[d] == StatusOK)
      && |InsideRun(s)| <= c.workers
  {
    Reachable(c, es);
    var s := Exec(c, es);
    assert forall n :: n in s.pc <==> n in c.g.names by {
      assert forall n :: n in c.g.names <==> n in Elems(c.g.names);
    }
    forall n | n in s.done ensures n in s.state {
      assert ActionInv(c, s, n);
    }
    forall n, d | n in s.pc && s.pc[n].Running? && d in c.g.Dependencies(n)
      ensures d in s.state && s.state[d] == StatusOK
    {
      assert ActionInv(c, s, n);
      assert DepsRecordedOK(c, s, n);
    }
    SubsetSize(InsideRun(s), Holders(s));
  }

  lemma LegalPrefix(c: Config, es: seq<Event>, k: nat)
    requires Legal(c, es) && k <= |es|
    ensures Legal(c, es[..k])
    decreases |es|
  {
    if k < |es| {
      LegalPrefix(c, es[..|es| - 1], k);
      assert es[..|es| - 1][..k] == es[..k];
    } else {
      assert es[..k] == es;
    }
  }

  /** A status, once recorded, never changes: the dependencies an action found OK stay OK. */
  lemma {:induction false} StatusPermanent(c: Config, es: seq<Event>, k: nat, n: string)
    requires ValidConfig(c) && Legal(c, es) && k <= |es|
    ensures Legal(c, es[..k])
    ensures n in Exec(c, es[..k]).state ==> n in Exec(c, es).state && Exec(c, es).state[n] == Exec(c, es[..k]).state[n]
    decreases |es|
  {
    LegalPrefix(c, es, k);
    if k < |es| {
      var p := es[..|es| - 1];
      assert p[..k] == es[..k];
      StatusPermanent(c, p, k, n);
      Reachable(c, p);
      if !es[|es| - 1].CallerCancel? { StepTouches(c, Exec(c, p), es[|es| - 1]); }
    } else {
      assert es[..k] == es;
    }
  }

  // ---- no deadlock ----

  ghost predicate Finished(c: Config, s: State) {
    forall n :: n in c.g.names ==> n in s.pc && s.pc[n] == Exited
  }

  /** A goroutine that is past its waits has a step of its own, or waits for a slot that
      someone else can give back. */
  lemma PastWaitsCanStep(c: Config, s: State, n: string) returns (e: Event)
    requires c.workers >= 1 && SlotsInv(c, s) && n in s.pc && s.pc[n] != Exited && !s.pc[n].Waiting?
    ensures Enabled(c, s, e) && !e.CallerCancel?
  {
    match s.pc[n] {
      case CheckStates => e := CompareStates(n);
      case CheckContext => e := CompareContext(n);
      case Acquiring =>
        if s.slots < c.workers { e := Acquire(n); } else { e := HolderCanStep(c, s); }
      case Running => e := Return(n, RanOK);
      case Publishing(_) => e := Publish(n);
      case Cancelling => e := Cancel(n);
      case Skipping => e := Skip(n);
      case Releasing =>
        assert n in Holders(s);
        e := Release(n);
      case Closing => e := Close(n);
      case Exiting => e := Exit(n);
    }
  }

  /** While some goroutine has not exited, some goroutine can take a step. */
  lemma {:induction false} SomeoneCanStep(c: Config, s: State, order: seq<string>, n: string) returns (e: Event)
    requires ValidConfig(c) && Inv(c, s) && IsTopological(c.g, order)
    requires n in c.g.names && n in order && n in s.pc && s.pc[n] != Exited
    ensures Enabled(c, s, e) && !e.CallerCancel?
    decreases Position(order, n)
  {
    assert ActionInv(c, s, n);
    if s.pc[n].Waiting? {
      var d := c.g.Dependencies(n)[s.pc[n].k];
      if d in s.done {
        e := DepDone(n);
      } else {
        DependencyComesFirst(c.g, order, n, d);
        assert ActionInv(c, s, d);
        e := SomeoneCanStep(c, s, order, d);
      }
    } else {
      e := PastWaitsCanStep(c, s, n);
    }
  }

  lemma HolderCanStep(c: Config, s: State) returns (e: Event)
    requires SlotsInv(c, s) && s.slots > 0
    ensures Enabled(c, s, e) && !e.CallerCancel?
  {
    var h :| h in Holders(s);
    match s.pc[h] {
      case Running => e := Return(h, RanOK);
      case Publishing(_) => e := Publish(h);
      case Cancelling => e := Cancel(h);
      case Releasing => e := Release(h);
    }
  }

  lemma NoDeadlock(c: Config, es: seq<Event>, order: seq<string>)
    requires ValidConfig(c) && Legal(c, es) && IsTopological(c.g, order)
    requires !Finished(c, Exec(c, es))
    ensures exists e :: Enabled(c, Exec(c, es), e) && !e.CallerCancel?
  {
    Reachable(c, es);
    var s := Exec(c, es);
    var n :| n in c.g.names && !(n in s.pc && s.pc[n] == Exited);
    assert ActionInv(c, s, n);
    assert n in Elems(order);
    var e := SomeoneCanStep(c, s, order, n);
  }

  // ---- termination ----

  function Rank(c: Config, n: string, pc: PC): nat {
    match pc
    case Waiting(k) => if k <= |c.g.Dependencies(n)| then 12 + |c.g.Dependencies(n)| - k else 12
    case CheckStates => 11
    case CheckContext => 10
    case Acquiring => 9
    case Running => 8
    case Publishing(_) => 7
    case Cancelling => 6
    case Skipping => 5
    case Releasing => 4
    case Closing => 3
    case Exiting => 2
    case Exited => 1
  }

  ghost function RankSum(c: Config, pc: map<string, PC>, names: seq<string>): nat {
    if names == [] then 0
    else (if names[0] in pc then Rank(c, names[0], pc[names[0]]) else 0) + RankSum(c, pc, names[1..])
  }

  /** How many steps are left at most. */
  ghost function Measure(c: Config, s: State): nat {
    RankSum(c, s.pc, c.g.names) + (if s.cancelled then 0 else 1)
  }

  lemma {:induction false} RankSumDrops(c: Config, pc: map<string, PC>, pc': map<string, PC>, n: string,
                                        names: seq<string>)
    requires n in pc && n in pc' && pc' == pc[n := pc'[n]] && Rank(c, n, pc'[n]) < Rank(c, n, pc[n])
    ensures RankSum(c, pc', names) <= RankSum(c, pc, names)
    ensures n in names ==> RankSum(c, pc', names) < RankSum(c, pc, names)
    decreases |names|
  {
    if names != [] {
      RankSumDrops(c, pc, pc', n, names[1..]);
      assert n in names ==> n == names[0] || n in names[1..];
    }
  }

  lemma RankDrops(c: Config, s: State, e: Event)
    requires Enabled(c, s, e) && !e.CallerCancel?
    ensures var s' := Apply(c, s, e); Rank(c, e.n, s'.pc[e.n]) < Rank(c, e.n, s.pc[e.n])
    ensures s.cancelled ==> Apply(c, s, e).cancelled
  {
  }

  lemma MeasureDrops(c: Config, s: State, e: Event)
    requires ActionsInv(c, s) && Enabled(c, s, e)
    ensures Measure(c, Apply(c, s, e)) < Measure(c, s)
  {
    if !e.CallerCancel? {
      MovesOne(c, s, e);
      RankDrops(c, s, e);
      assert e.n in Elems(c.g.names);
      RankSumDrops(c, s.pc, Apply(c, s, e).pc, e.n, c.g.names);
    }
  }

  /** Every run is shorter than the measure of the initial state, whatever fails and
      whoever cancels. */
  lemma {:induction false} RunsAreBounded(c: Config, es: seq<Event>)
    requires ValidConfig(c) && Legal(c, es)
    ensures |es| + Measure(c, Exec(c, es)) <= Measure(c, Init(c))
    decreases |es|
  {
    if es != [] {
      var p := es[..|es| - 1];
      RunsAreBounded(c, p);
      Reachable(c, p);
      MeasureDrops(c, Exec(c, p), es[|es| - 1]);
    }
  }

  lemma OneMore(c: Config, es: seq<Event>, order: seq<string>) returns (e: Event)
    requires ValidConfig(c) && Legal(c, es) && IsTopological(c.g, order) && !Finished(c, Exec(c, es))
    ensures Legal(c, es + [e]) && Measure(c, Exec(c, es + [e])) < Measure(c, Exec(c, es))
  {
    NoDeadlock(c, es, order);
    e :| Enabled(c, Exec(c, es), e) && !e.CallerCancel?;
    ExecSnoc(c, es, e);
    Reachable(c, es);
    MeasureDrops(c, Exec(c, es), e);
  }

  /** Any run, however far it got, can be carried on until every goroutine has exited. */
  lemma {:induction false} RunsFinish(c: Config, es: seq<Event>, order: seq<string>) returns (all: seq<Event>)
    requires ValidConfig(c) && Legal(c, es) && IsTopological(c.g, order)
    ensures es <= all && Legal(c, all) && Finished(c, Exec(c, all))
    decreases Measure(c, Exec(c, es))
  {
    if Finished(c, Exec(c, es)) {
      all := es;
    } else {
      var e := OneMore(c, es, order);
      all := RunsFinish(c, es + [e], order);
    }
  }

  /** A run that cannot be carried on has closed every done channel and recorded every
      action, so wg.Wait returns. */
  lemma StuckRunsAreFinished(c: Config, es: seq<Event>, order: seq<string>)
    requires ValidConfig(c) && Legal(c, es) && IsTopological(c.g, order)
    requires forall e :: Enabled(c, Exec(c, es), e) ==> e.CallerCancel?
    ensures Finished(c, Exec(c, es))
    ensures forall n :: n in c.g.names ==> n in Exec(c, es).done && n in Exec(c, es).state
    ensures Exec(c, es).slots == 0
  {
    Reachable(c, es);
    var s := Exec(c, es);
    if !Finished(c, s) { NoDeadlock(c, es, order); }
    forall n | n in c.g.names ensures n in s.done && n in s.state { assert ActionInv(c, s, n); }
    assert forall n :: n in s.pc ==> n in Elems(c.g.names);
    assert Holders(s) == {};
  }
}
