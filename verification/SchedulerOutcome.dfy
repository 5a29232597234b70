/** What the parallel build reports: which error, which summary, and that with
    KeepGoing the verdicts do not depend on the interleaving or on the worker count. */
module SchedulerOutcome {
  import opened Sorting
  import opened Graphs
  import opened Kahn
  import opened Scheduler
  import opened SchedulerRuns

  // ---- why an action was skipped ----

  ghost predicate SkipReason(c: Config, s: State, n: string) {
    (n in s.pc && s.pc[n].Skipping?) || (n in s.state && s.state[n] == StatusSkipped) ==>
      s.cancelled || BadDep(c.g, s.state, n)
  }

  ghost predicate SkipsInv(c: Config, s: State) {
    && (forall n :: SkipReason(c, s, n))
    && FirstErrorNamed(s)
  }

  /** The error is that of the first action to fail. */
  ghost predicate FirstErrorNamed(s: State) {
    s.firstErr.Some? ==> s.failed != [] && s.firstErr.value.action == s.failed[0]
  }

  lemma BadDepStays(c: Config, s: State, s': State, n: string)
    requires BadDep(c.g, s.state, n)
    requires forall x :: x in s.state ==> x in s'.state && s'.state[x] == s.state[x]
    ensures BadDep(c.g, s'.state, n)
  {
    var d :| d in c.g.Dependencies(n) && StatusOf(s.state, d) != StatusOK;
    assert StatusOf(s'.state, d) != StatusOK;
  }

  lemma SkipsActor(c: Config, s: State, e: Event)
    requires ValidConfig(c) && Inv(c, s) && Enabled(c, s, e) && !e.CallerCancel? && SkipReason(c, s, e.n)
    ensures SkipReason(c, Apply(c, s, e), e.n)
  {
    StepTouches(c, s, e);
    CancelStays(c, s, e);
    if BadDep(c.g, s.state, e.n) { BadDepStays(c, s, Apply(c, s, e), e.n); }
  }

  lemma SkipsOther(c: Config, s: State, e: Event, n: string)
    requires ValidConfig(c) && Inv(c, s) && Enabled(c, s, e) && (e.CallerCancel? || e.n != n) && SkipReason(c, s, n)
    ensures SkipReason(c, Apply(c, s, e), n)
  {
    if !e.CallerCancel? { StepTouches(c, s, e); }
    CancelStays(c, s, e);
    if BadDep(c.g, s.state, n) { BadDepStays(c, s, Apply(c, s, e), n); }
  }

  lemma SkipsStep(c: Config, s: State, e: Event)
    requires ValidConfig(c) && Inv(c, s) && SkipsInv(c, s) && Enabled(c, s, e)
    ensures SkipsInv(c, Apply(c, s, e))
  {
    var s' := Apply(c, s, e);
    if e.Publish? { assert e.n in Elems(c.g.names) && ActionInv(c, s, e.n); }
    assert FirstErrorNamed(s');
    forall n ensures SkipReason(c, s', n) {
      assert SkipReason(c, s, n);
      if e.CallerCancel? || e.n != n { SkipsOther(c, s, e, n); } else { SkipsActor(c, s, e); }
    }
  }

  lemma CancelStays(c: Config, s: State, e: Event)
    requires Enabled(c, s, e)
    ensures s.cancelled ==> Apply(c, s, e).cancelled
    ensures Apply(c, s, e).cancelled && !s.cancelled ==> e.Cancel? || e.CallerCancel?
  {
  }

  lemma {:induction false} SkipsReachable(c: Config, es: seq<Event>)
    requires ValidConfig(c) && Legal(c, es)
    ensures SkipsInv(c, Exec(c, es))
    decreases |es|
  {
    if es == [] {
      forall n ensures SkipReason(c, Init(c), n) {}
    } else {
      SkipsReachable(c, es[..|es| - 1]);
      Reachable(c, es[..|es| - 1]);
      SkipsStep(c, Exec(c, es[..|es| - 1]), es[|es| - 1]);
    }
  }

  // ---- the error a build returns ----

  /** No one outside the build cancels its context. */
  ghost predicate NoCallerCancel(es: seq<Event>) { CallerCancel !in es }

  ghost predicate HonestAt(c: Config, s: State, n: string) {
    n in s.pc ==>
      && (s.pc[n].Publishing? && s.pc[n].outcome.RunFailed? && s.pc[n].outcome.err.ContextCancelled? ==> s.cancelled)
      && (s.pc[n].Cancelling? ==> !c.keepGoing)
  }

  ghost predicate HonestInv(c: Config, s: State) {
    && (s.cancelled ==> s.failed != [] && !c.keepGoing)
    && (s.firstErr.Some? ==> s.firstErr.value.ActionFailed?)
    && (forall n :: HonestAt(c, s, n))
  }

  lemma HonestStep(c: Config, s: State, e: Event)
    requires ValidConfig(c) && Inv(c, s) && HonestInv(c, s) && Enabled(c, s, e) && !e.CallerCancel?
    ensures HonestInv(c, Apply(c, s, e))
  {
    var s' := Apply(c, s, e);
    CancelStays(c, s, e);
    assert HonestAt(c, s, e.n) && ListInv(s, e.n);
    assert e.Cancel? ==> e.n in Elems(c.g.names) && ActionInv(c, s, e.n);
    HonestActor(c, s, e);
    forall n ensures HonestAt(c, s', n) {
      assert HonestAt(c, s, n);
      if n != e.n { HonestOther(c, s, e, n); }
    }
  }

  lemma HonestOther(c: Config, s: State, e: Event, n: string)
    requires ActionsInv(c, s) && Enabled(c, s, e) && !e.CallerCancel? && e.n != n && HonestAt(c, s, n)
    ensures HonestAt(c, Apply(c, s, e), n)
  {
    StepTouches(c, s, e);
    CancelStays(c, s, e);
  }

  lemma HonestActor(c: Config, s: State, e: Event)
    requires Enabled(c, s, e) && !e.CallerCancel? && HonestAt(c, s, e.n)
    ensures HonestAt(c, Apply(c, s, e), e.n)
    ensures e.Cancel? || Apply(c, s, e).cancelled == s.cancelled
  {
  }

  lemma {:induction false} HonestReachable(c: Config, es: seq<Event>)
    requires ValidConfig(c) && Legal(c, es) && NoCallerCancel(es)
    ensures HonestInv(c, Exec(c, es))
    decreases |es|
  {
    if es == [] {
      forall n ensures HonestAt(c, Init(c), n) {}
    } else {
      var p := es[..|es| - 1];
      assert es[|es| - 1] in es;
      HonestReachable(c, p);
      Reachable(c, p);
      HonestStep(c, Exec(c, p), es[|es| - 1]);
    }
  }

  /** Nothing failed and nothing was cancelled, so nothing was skipped either. */
  lemma {:induction false} NoFailureNoSkip(c: Config, s: State, order: seq<string>, n: string)
    requires ValidConfig(c) && Inv(c, s) && SkipsInv(c, s) && IsTopological(c.g, order)
    requires s.failed == [] && !s.cancelled && n in order && n in s.state
    ensures s.state[n] == StatusOK
    decreases Position(order, n)
  {
    assert ListInv(s, n) && SkipReason(c, s, n);
    if s.state[n] == StatusSkipped {
      var d :| d in c.g.Dependencies(n) && StatusOf(s.state, d) != StatusOK;
      DependencyComesFirst(c.g, order, n, d);
      NoFailureNoSkip(c, s, order, d);
    }
  }

  /** Without a cancelling caller, a cancelled context means the error is already set,
      that error is never the build's own cancellation, it belongs to the first action
      to fail, and a finished build returns nil exactly when every action is OK. */
  lemma HonestError(c: Config, es: seq<Event>, order: seq<string>)
    requires ValidConfig(c) && Legal(c, es) && NoCallerCancel(es) && IsTopological(c.g, order)
    ensures var s := Exec(c, es);
      && (s.cancelled ==> s.firstErr.Some?)
      && (s.firstErr.Some? ==>
            s.firstErr.value.ActionFailed? && s.failed != [] && s.firstErr.value.action == s.failed[0])
      && (Finished(c, s) ==> (s.firstErr.None? <==> forall n :: n in c.g.names ==> StatusAt(s, n, StatusOK)))
  {
    Reachable(c, es);
    SkipsReachable(c, es);
    HonestReachable(c, es);
    var s := Exec(c, es);
    if Finished(c, s) {
      forall n | n in c.g.names ensures n in s.state && (s.firstErr.None? ==> s.state[n] == StatusOK) {
        assert ActionInv(c, s, n);
        assert n in Elems(order);
        if s.firstErr.None? { NoFailureNoSkip(c, s, order, n); }
      }
      if s.firstErr.Some? {
        var n := s.failed[0];
        assert n in s.failed && ListInv(s, n);
        assert n in Elems(c.g.names);
        assert !StatusAt(s, n, StatusOK);
      }
    }
  }

  // ---- the error is the one Run returned ----

  ghost predicate ReturnedWith(es: seq<Event>, i: int, n: string, outcome: Outcome) {
    0 <= i < |es| && es[i] == Return(n, outcome)
  }

  ghost predicate CameBackWith(es: seq<Event>, n: string, outcome: Outcome) {
    exists i :: ReturnedWith(es, i, n, outcome)
  }

  /** What n is about to publish is what its Run returned. */
  ghost predicate PublishesItsOwn(es: seq<Event>, s: State, n: string) {
    n in s.pc && s.pc[n].Publishing? ==> CameBackWith(es, n, s.pc[n].outcome)
  }

  /** The error is what Run returned for the first action to fail. */
  ghost predicate ErrorWasReturned(es: seq<Event>, s: State) {
    s.firstErr.Some? ==> s.failed != [] && exists i :: FailedWith(es, i, s.failed[0], s.firstErr.value)
  }

  ghost predicate FailedWith(es: seq<Event>, i: int, n: string, err: BuildError) {
    0 <= i < |es| && es[i].Return? && es[i].n == n && es[i].outcome.RunFailed? && es[i].outcome.err == err
  }

  lemma CameBackSnoc(es: seq<Event>, e: Event, n: string, outcome: Outcome)
    requires CameBackWith(es, n, outcome) || e == Return(n, outcome)
    ensures CameBackWith(es + [e], n, outcome)
  {
    if e == Return(n, outcome) {
      assert ReturnedWith(es + [e], |es|, n, outcome);
    } else {
      var i :| ReturnedWith(es, i, n, outcome);
      assert ReturnedWith(es + [e], i, n, outcome);
    }
  }

  lemma FailedSnoc(es: seq<Event>, e: Event, n: string, err: BuildError, i: int)
    requires FailedWith(es, i, n, err)
    ensures FailedWith(es + [e], i, n, err)
  {
  }

  lemma PublishesStep(c: Config, es: seq<Event>, s: State, e: Event, n: string)
    requires Enabled(c, s, e) && PublishesItsOwn(es, s, n)
    ensures PublishesItsOwn(es + [e], Apply(c, s, e), n)
  {
    var s' := Apply(c, s, e);
    if n in s'.pc && s'.pc[n].Publishing? { CameBackSnoc(es, e, n, s'.pc[n].outcome); }
  }

  lemma ErrorKept(c: Config, s: State, e: Event)
    requires Enabled(c, s, e) && s.firstErr.Some? && s.failed != []
    ensures var s' := Apply(c, s, e); s'.firstErr == s.firstErr && s'.failed != [] && s'.failed[0] == s.failed[0]
  {
  }

  /** The error appears only when a failure is published, and then it is that failure's. */
  lemma ErrorAppears(c: Config, s: State, e: Event)
    requires Enabled(c, s, e) && s.firstErr.None? && s.failed == [] && Apply(c, s, e).firstErr.Some?
    ensures e.Publish? && s.pc[e.n].outcome.RunFailed?
    ensures Apply(c, s, e).failed == [e.n] && Apply(c, s, e).firstErr == Some(s.pc[e.n].outcome.err)
  {
  }

  lemma ErrorStep(c: Config, es: seq<Event>, s: State, e: Event)
    requires Inv(c, s) && Enabled(c, s, e) && ErrorWasReturned(es, s) && forall n :: PublishesItsOwn(es, s, n)
    ensures ErrorWasReturned(es + [e], Apply(c, s, e))
  {
    if s.firstErr.Some? {
      ErrorKept(c, s, e);
      var i :| FailedWith(es, i, s.failed[0], s.firstErr.value);
      FailedSnoc(es, e, s.failed[0], s.firstErr.value, i);
    } else if Apply(c, s, e).firstErr.Some? {
      ErrorAppears(c, s, e);
      assert PublishesItsOwn(es, s, e.n);
      var i :| ReturnedWith(es, i, e.n, s.pc[e.n].outcome);
      var s' := Apply(c, s, e);
      FailedSnoc(es, e, e.n, s.pc[e.n].outcome.err, i);
      assert FailedWith(es + [e], i, s'.failed[0], s'.firstErr.value);
    }
  }

  lemma {:induction false} PublishesReachable(c: Config, es: seq<Event>, n: string)
    requires ValidConfig(c) && Legal(c, es)
    ensures PublishesItsOwn(es, Exec(c, es), n)
    decreases |es|
  {
    if es != [] {
      var front := es[..|es| - 1];
      PublishesReachable(c, front, n);
      PublishesStep(c, front, Exec(c, front), es[|es| - 1], n);
      assert front + [es[|es| - 1]] == es;
    }
  }

  /** In every run, whoever cancels: the error a build ends with is, to the letter, the one
      Run returned for the first action to be recorded as failed. */
  lemma {:induction false} ErrorIsReturned(c: Config, es: seq<Event>)
    requires ValidConfig(c) && Legal(c, es)
    ensures var s := Exec(c, es);
      s.firstErr.Some? ==> s.failed != [] && exists i :: FailedWith(es, i, s.failed[0], s.firstErr.value)
    decreases |es|
  {
    if es != [] {
      var front := es[..|es| - 1];
      ErrorIsReturned(c, front);
      Reachable(c, front);
      forall n ensures PublishesItsOwn(front, Exec(c, front), n) { PublishesReachable(c, front, n); }
      ErrorStep(c, front, Exec(c, front), es[|es| - 1]);
      assert front + [es[|es| - 1]] == es;
    }
  }

  ghost predicate StatusAt(s: State, n: string, st: Status) { n in s.state && s.state[n] == st }

  // ---- fail-fast ----

  ghost predicate StopsOthers(c: Config, s: State, n: string) {
    StatusAt(s, n, StatusFailed) && !c.keepGoing ==> s.cancelled || (n in s.pc && s.pc[n].Cancelling?)
  }

  lemma StopsStep(c: Config, s: State, e: Event, n: string)
    requires Enabled(c, s, e) && StopsOthers(c, s, n)
    ensures StopsOthers(c, Apply(c, s, e), n)
  {
  }

  /** Without KeepGoing a failure cancels the build: by the time the failed action closes
      its done channel the context is cancelled. */
  lemma {:induction false} FailureCancels(c: Config, es: seq<Event>, n: string)
    requires ValidConfig(c) && Legal(c, es) && !c.keepGoing
    ensures StopsOthers(c, Exec(c, es), n)
    ensures n in Exec(c, es).done && StatusAt(Exec(c, es), n, StatusFailed) ==> Exec(c, es).cancelled
    decreases |es|
  {
    Reachable(c, es);
    if n in Exec(c, es).done { assert ActionInv(c, Exec(c, es), n); }
    if es != [] {
      FailureCancels(c, es[..|es| - 1], n);
      StopsStep(c, Exec(c, es[..|es| - 1]), es[|es| - 1], n);
    }
  }

  /** Not yet past its context check, or skipped. */
  ghost predicate KeptOut(s: State, n: string) {
    && n in s.pc
    && (s.pc[n].Waiting? || s.pc[n].CheckStates? || s.pc[n].CheckContext? || s.pc[n].Skipping? || s.pc[n].Closing?
        || s.pc[n].Exiting? || s.pc[n].Exited?)
    && (n in s.state ==> s.state[n] == StatusSkipped)
    && n !in s.results && n !in s.failed
  }

  lemma KeptOutStep(c: Config, s: State, e: Event, n: string)
    requires Enabled(c, s, e) && s.cancelled && KeptOut(s, n)
    ensures KeptOut(Apply(c, s, e), n) && Apply(c, s, e).cancelled
  {
  }

  /** A cancelled build starts nothing new: an action that was not past its context check
      when the context was cancelled never runs. (One that was may still enter Run.) */
  lemma {:induction false} CancelStartsNothing(c: Config, es: seq<Event>, k: nat, n: string)
    requires ValidConfig(c) && Legal(c, es) && k <= |es|
    requires Legal(c, es[..k]) && Exec(c, es[..k]).cancelled && KeptOut(Exec(c, es[..k]), n)
    ensures Exec(c, es).cancelled && KeptOut(Exec(c, es), n)
    decreases |es|
  {
    if k < |es| {
      var p := es[..|es| - 1];
      assert p[..k] == es[..k];
      CancelStartsNothing(c, p, k, n);
      KeptOutStep(c, Exec(c, p), es[|es| - 1], n);
    } else {
      assert es[..k] == es;
    }
  }

  // ---- a caller that cancels ----

  /** In every run, cancelled by its caller or not, a nil error means that nothing failed. */
  lemma NilErrorMeansNothingFailed(c: Config, es: seq<Event>)
    requires ValidConfig(c) && Legal(c, es)
    ensures Exec(c, es).firstErr.None? <==> forall n :: !StatusAt(Exec(c, es), n, StatusFailed)
  {
    Reachable(c, es);
    var s := Exec(c, es);
    forall n ensures StatusAt(s, n, StatusFailed) <==> n in s.failed { assert ListInv(s, n); }
    if s.failed != [] { assert s.failed[0] in s.failed; }
  }

  /** The caller has cancelled, nothing is in flight and nothing but skips happened. */
  ghost predicate Quiet(c: Config, s: State) {
    && s.cancelled && s.failed == [] && s.firstErr.None?
    && (forall n :: n in s.pc ==> !s.pc[n].Acquiring? && !Holds(s.pc[n]))
    && (forall n :: n in s.state ==> s.state[n] == StatusSkipped)
  }

  lemma QuietStep(c: Config, s: State, n: string) returns (e: Event)
    requires Quiet(c, s) && n in s.pc && s.pc[n] != Exited
    ensures Enabled(c, s, e) && Quiet(c, Apply(c, s, e))
  {
    match s.pc[n] {
      case Waiting(_) => e := StopWaiting(n);
      case CheckStates => e := CompareStates(n);
      case CheckContext => e := CompareContext(n);
      case Skipping => e := Skip(n);
      case Closing => e := Close(n);
      case Exiting => e := Exit(n);
    }
  }

  lemma {:induction false} QuietFinish(c: Config, es: seq<Event>) returns (all: seq<Event>)
    requires ValidConfig(c) && Legal(c, es) && Quiet(c, Exec(c, es))
    ensures es <= all && Legal(c, all) && Finished(c, Exec(c, all)) && Quiet(c, Exec(c, all))
    decreases Measure(c, Exec(c, es))
  {
    if Finished(c, Exec(c, es)) {
      all := es;
    } else {
      var e := OneMoreQuiet(c, es);
      all := QuietFinish(c, es + [e]);
    }
  }

  lemma OneMoreQuiet(c: Config, es: seq<Event>) returns (e: Event)
    requires ValidConfig(c) && Legal(c, es) && Quiet(c, Exec(c, es)) && !Finished(c, Exec(c, es))
    ensures Legal(c, es + [e]) && Quiet(c, Exec(c, es + [e]))
    ensures Measure(c, Exec(c, es + [e])) < Measure(c, Exec(c, es))
  {
    Reachable(c, es);
    var s := Exec(c, es);
    var n :| n in c.g.names && !(n in s.pc && s.pc[n] == Exited);
    assert ActionInv(c, s, n);
    e := QuietStep(c, s, n);
    ExecSnoc(c, es, e);
    MeasureDrops(c, s, e);
  }

  /** It does not mean that everything ran: whatever the graph, a caller that cancels
      before anything is in flight can be told nil about a build that skipped every
      action. */
  lemma CallerCancelSkipsSilently(c: Config) returns (es: seq<Event>)
    requires ValidConfig(c)
    ensures Legal(c, es) && Finished(c, Exec(c, es)) && Exec(c, es).firstErr.None?
    ensures forall n :: n in c.g.names ==> StatusAt(Exec(c, es), n, StatusSkipped)
  {
    ExecSnoc(c, [], CallerCancel);
    assert [] + [CallerCancel] == [CallerCancel];
    es := QuietFinish(c, [CallerCancel]);
    Reachable(c, es);
    forall n | n in c.g.names ensures StatusAt(Exec(c, es), n, StatusSkipped) {
      assert ActionInv(c, Exec(c, es), n);
    }
  }

  // ---- a cancelled build winds down ----

  /** In a cancelled build no goroutine needs a slot or a dependency to go on. */
  lemma CancelledCanStep(c: Config, s: State, n: string) returns (e: Event)
    requires SlotsInv(c, s) && s.cancelled && n in s.pc && s.pc[n] != Exited
    ensures Enabled(c, s, e) && !e.Acquire? && !e.CallerCancel?
  {
    match s.pc[n] {
      case Waiting(_) => e := StopWaiting(n);
      case CheckStates => e := CompareStates(n);
      case CheckContext => e := CompareContext(n);
      case Acquiring => e := StopAcquiring(n);
      case Running => e := Return(n, RunFailed(true, ContextCancelled(n)));
      case Publishing(_) => e := Publish(n);
      case Cancelling => e := Cancel(n);
      case Skipping => e := Skip(n);
      case Releasing =>
        assert n in Holders(s);
        e := Release(n);
      case Closing => e := Close(n);
      case Exiting => e := Exit(n);
    }
  }

  lemma OneMoreCancelled(c: Config, es: seq<Event>) returns (e: Event)
    requires ValidConfig(c) && Legal(c, es) && Exec(c, es).cancelled && !Finished(c, Exec(c, es))
    ensures !e.Acquire? && Legal(c, es + [e]) && Exec(c, es + [e]).cancelled
  {
    Reachable(c, es);
    var s := Exec(c, es);
    var n :| n in c.g.names && !(n in s.pc && s.pc[n] == Exited);
    assert ActionInv(c, s, n);
    e := CancelledCanStep(c, s, n);
    ExecSnoc(c, es, e);
    CancelStays(c, s, e);
  }

  ghost predicate NothingStarts(es: seq<Event>, from: nat) { forall i :: from <= i < |es| ==> !es[i].Acquire? }

  lemma {:induction false} WoundDown(c: Config, es: seq<Event>, from: nat, left: nat) returns (all: seq<Event>)
    requires ValidConfig(c) && Legal(c, es) && Exec(c, es).cancelled && from <= |es| && NothingStarts(es, from)
    requires |es| + left == Measure(c, Init(c)) + 1
    ensures es <= all && Legal(c, all) && Finished(c, Exec(c, all)) && NothingStarts(all, from)
    decreases left
  {
    if Finished(c, Exec(c, es)) {
      all := es;
    } else {
      RunsAreBounded(c, es);
      var e := OneMoreCancelled(c, es);
      all := WoundDown(c, es + [e], from, left - 1);
    }
  }

  /** Once the context is cancelled the build can end without another action starting,
      however many are queued for a slot or wait for dependencies that never end. */
  lemma CancelledWindsDown(c: Config, es: seq<Event>) returns (all: seq<Event>)
    requires ValidConfig(c) && Legal(c, es) && Exec(c, es).cancelled
    ensures es <= all && Legal(c, all) && Finished(c, Exec(c, all)) && NothingStarts(all, |es|)
  {
    RunsAreBounded(c, es);
    all := WoundDown(c, es, |es|, Measure(c, Init(c)) + 1 - |es|);
  }

  // ---- the numbers add up ----

  /** Summary.Succeeded. */
  function Succeeded(results: seq<string>, failed: seq<string>): int { |results| - |failed| }

  ghost function WithoutResult(failed: seq<string>, results: seq<string>): set<string> {
    set n | n in failed && n !in results
  }

  /** The arithmetic behind both drivers: the three lists cover the names. */
  lemma SummaryCounts(names: seq<string>, results: seq<string>, failed: seq<string>, skipped: seq<string>)
    requires NoDup(names) && NoDup(results) && NoDup(failed) && NoDup(skipped)
    requires Elems(results) + Elems(failed) + Elems(skipped) == Elems(names)
    requires Elems(results) !! Elems(skipped) && Elems(failed) !! Elems(skipped)
    ensures Succeeded(results, failed) + |failed| + |skipped| == |names| - |WithoutResult(failed, results)|
  {
    NoDupSize(names);
    NoDupSize(results);
    NoDupSize(skipped);
    var w := WithoutResult(failed, results);
    assert Elems(names) == Elems(results) + w + Elems(skipped);
    assert Elems(results) !! w && (Elems(results) + w) !! Elems(skipped);
  }

  /** Run returned without a Result for n. */
  ghost predicate CameBackEmpty(es: seq<Event>, n: string) { exists i :: EmptyReturn(es, i, n) }

  ghost predicate EmptyReturn(es: seq<Event>, i: int, n: string) {
    0 <= i < |es| && es[i].Return? && es[i].n == n && NoResult(es[i].outcome)
  }

  /** A run of n that came back empty is about to be published, or has been. */
  ghost predicate Empty(s: State, n: string) {
    (n in s.pc && s.pc[n].Publishing? && NoResult(s.pc[n].outcome)) || (n in s.failed && n !in s.results)
  }

  lemma EmptyMoves(c: Config, s: State, e: Event)
    requires Enabled(c, s, e) && !e.CallerCancel? && !e.Publish? && ActionInv(c, s, e.n) && ListInv(s, e.n)
    ensures Empty(Apply(c, s, e), e.n) <==> Empty(s, e.n) || (e.Return? && NoResult(e.outcome))
  {
  }

  lemma EmptyPublished(c: Config, s: State, n: string)
    requires Enabled(c, s, Publish(n)) && ActionInv(c, s, n) && ListInv(s, n)
    ensures Empty(Apply(c, s, Publish(n)), n) <==> Empty(s, n)
  {
  }

  lemma EmptyElsewhere(c: Config, s: State, e: Event, n: string)
    requires Enabled(c, s, e) && (e.CallerCancel? || e.n != n)
    ensures Empty(Apply(c, s, e), n) <==> Empty(s, n)
  {
  }

  lemma EmptyStep(c: Config, s: State, e: Event, n: string)
    requires Inv(c, s) && Enabled(c, s, e)
    ensures Empty(Apply(c, s, e), n) <==> Empty(s, n) || (e.Return? && e.n == n && NoResult(e.outcome))
  {
    if e.CallerCancel? || e.n != n {
      EmptyElsewhere(c, s, e, n);
    } else {
      MovesOne(c, s, e);
      assert n in Elems(c.g.names);
      assert ActionInv(c, s, n) && ListInv(s, n);
      if e.Publish? { EmptyPublished(c, s, n); } else { EmptyMoves(c, s, e); }
    }
  }

  lemma CameBackEmptySnoc(es: seq<Event>, n: string)
    requires es != []
    ensures var e := es[|es| - 1];
      CameBackEmpty(es, n) <==>
        CameBackEmpty(es[..|es| - 1], n) || (e.Return? && e.n == n && NoResult(e.outcome))
  {
    var front := es[..|es| - 1];
    if i :| EmptyReturn(es, i, n) {
      assert i < |es| - 1 ==> EmptyReturn(front, i, n);
    }
    if i :| EmptyReturn(front, i, n) { assert EmptyReturn(es, i, n); }
    if es[|es| - 1].Return? && es[|es| - 1].n == n && NoResult(es[|es| - 1].outcome) {
      assert EmptyReturn(es, |es| - 1, n);
    }
  }

  /** What a run has filed without a Result is what Run returned without one. */
  lemma {:induction false} EmptyReachable(c: Config, es: seq<Event>, n: string)
    requires ValidConfig(c) && Legal(c, es)
    ensures Empty(Exec(c, es), n) <==> CameBackEmpty(es, n)
    decreases |es|
  {
    if es != [] {
      var front := es[..|es| - 1];
      EmptyReachable(c, front, n);
      Reachable(c, front);
      EmptyStep(c, Exec(c, front), es[|es| - 1], n);
      CameBackEmptySnoc(es, n);
    }
  }

  lemma FinishedEmpty(c: Config, es: seq<Event>)
    requires ValidConfig(c) && Legal(c, es) && Finished(c, Exec(c, es))
    ensures forall n :: n in WithoutResult(Exec(c, es).failed, Exec(c, es).results) <==> CameBackEmpty(es, n)
  {
    Reachable(c, es);
    var s := Exec(c, es);
    forall n ensures n in WithoutResult(s.failed, s.results) <==> CameBackEmpty(es, n) {
      EmptyReachable(c, es, n);
      assert n in s.pc ==> n in Elems(c.g.names);
    }
  }

  ghost predicate NoneCameBackEmpty(es: seq<Event>) {
    forall i :: 0 <= i < |es| && es[i].Return? ==> !NoResult(es[i].outcome)
  }

  lemma NoneEmpty(c: Config, es: seq<Event>)
    requires ValidConfig(c) && Legal(c, es) && Finished(c, Exec(c, es))
    ensures |WithoutResult(Exec(c, es).failed, Exec(c, es).results)| == 0 <==> NoneCameBackEmpty(es)
  {
    FinishedEmpty(c, es);
    var without := WithoutResult(Exec(c, es).failed, Exec(c, es).results);
    if n :| n in without {
      var i :| EmptyReturn(es, i, n);
    }
    if i :| 0 <= i < |es| && es[i].Return? && NoResult(es[i].outcome) {
      assert EmptyReturn(es, i, es[i].n);
      assert es[i].n in without;
    }
  }

  /** When a build is over, every action is exactly one of OK, failed and skipped. The
      counts of the summary fall short of the number of actions by the actions whose Run
      returned no Result, so they add up if and only if there is none. */
  lemma SummaryAddsUp(c: Config, es: seq<Event>)
    requires ValidConfig(c) && Legal(c, es) && Finished(c, Exec(c, es))
    ensures var s := Exec(c, es);
      && (forall n :: n in c.g.names ==> n in s.state)
      && (forall n :: n in s.failed <==> StatusAt(s, n, StatusFailed))
      && (forall n :: n in s.skipped <==> StatusAt(s, n, StatusSkipped))
      && NoDup(s.failed) && NoDup(s.skipped)
      && Succeeded(s.results, s.failed) + |s.failed| + |s.skipped|
         == |c.g.names| - |WithoutResult(s.failed, s.results)|
      && (forall n :: n in WithoutResult(s.failed, s.results) <==> CameBackEmpty(es, n))
      && (Succeeded(s.results, s.failed) + |s.failed| + |s.skipped| == |c.g.names| <==> NoneCameBackEmpty(es))
  {
    Reachable(c, es);
    var s := Exec(c, es);
    FinishedRecorded(c, s);
    forall n
      ensures (n in s.failed <==> StatusAt(s, n, StatusFailed)) && (n in s.skipped <==> StatusAt(s, n, StatusSkipped))
    {
      assert ListInv(s, n);
    }
    FinishedCounts(c, s);
    FinishedEmpty(c, es);
    NoneEmpty(c, es);
  }

  lemma FinishedCounts(c: Config, s: State)
    requires ValidConfig(c) && Inv(c, s) && Finished(c, s)
    ensures Succeeded(s.results, s.failed) + |s.failed| + |s.skipped|
         == |c.g.names| - |WithoutResult(s.failed, s.results)|
  {
    FinishedRecorded(c, s);
    forall n ensures Filed(s.results, s.failed, s.skipped, s.state, n) { assert ListInv(s, n); }
    ListsCover(s.results, s.failed, s.skipped, s.state, Elems(c.g.names));
    SummaryCounts(c.g.names, s.results, s.failed, s.skipped);
  }

  lemma FinishedRecorded(c: Config, s: State)
    requires ValidConfig(c) && Inv(c, s) && Finished(c, s)
    ensures s.state.Keys == Elems(c.g.names)
  {
    forall n | n in c.g.names ensures n in s.state { assert ActionInv(c, s, n); }
  }

  /** Lists that agree with a status map cover its keys, and nothing skipped is also
      elsewhere. */
  lemma ListsCover(results: seq<string>, failed: seq<string>, skipped: seq<string>, state: map<string, Status>,
                   names: set<string>)
    requires (forall n :: Filed(results, failed, skipped, state, n)) && state.Keys == names
    ensures Elems(results) + Elems(failed) + Elems(skipped) == names
    ensures Elems(results) !! Elems(skipped) && Elems(failed) !! Elems(skipped)
  {
    forall n ensures n in Elems(results) + Elems(failed) + Elems(skipped) <==> n in names {
      assert Filed(results, failed, skipped, state, n);
    }
    forall n ensures !(n in results && n in skipped) && !(n in failed && n in skipped) {
      assert Filed(results, failed, skipped, state, n);
    }
  }

  lemma NoneWithout(failed: seq<string>, results: seq<string>)
    ensures |WithoutResult(failed, results)| == 0 <==> forall n :: n in failed ==> n in results
  {
    if n :| n in failed && n !in results { assert n in WithoutResult(failed, results); }
  }

  // ---- confluence ----

  /** The verdict on n given those on its dependencies: skipped when one of them is not
      OK, otherwise what its own command decides. Both drivers must satisfy it. */
  ghost predicate Settled(g: Graph, fails: string -> bool, state: map<string, Status>, n: string) {
    n in state &&
    state[n] ==
      if exists d :: d in g.Dependencies(n) && StatusOf(state, d) != StatusOK then StatusSkipped
      else if fails(n) then StatusFailed
      else StatusOK
  }

  /** The verdicts are determined: two settled maps agree. */
  lemma {:induction false} SettledUnique(g: Graph, order: seq<string>, fails: string -> bool,
                                         a: map<string, Status>, b: map<string, Status>, n: string)
    requires g.WellFormed() && IsTopological(g, order) && n in order
    requires forall x :: x in g.names ==> Settled(g, fails, a, x) && Settled(g, fails, b, x)
    ensures n in a && n in b && a[n] == b[n]
    decreases Position(order, n)
  {
    assert n in Elems(g.names);
    assert Settled(g, fails, a, n) && Settled(g, fails, b, n);
    forall d | d in g.Dependencies(n) ensures StatusOf(a, d) == StatusOf(b, d) {
      DependencyComesFirst(g, order, n, d);
      SettledUnique(g, order, fails, a, b, d);
    }
  }

  /** Each command's outcome is fixed in advance. */
  ghost predicate FixedOutcomes(es: seq<Event>, fails: string -> bool) {
    forall i :: 0 <= i < |es| && es[i].Return? ==> es[i].outcome.RunFailed? == fails(es[i].n)
  }

  ghost predicate FixedAt(s: State, fails: string -> bool, n: string) {
    && (n in s.pc && s.pc[n].Publishing? ==> s.pc[n].outcome.RunFailed? == fails(n))
    && (n in s.state && s.state[n] != StatusSkipped ==> s.state[n] == if fails(n) then StatusFailed else StatusOK)
  }

  lemma FixedStep(c: Config, s: State, e: Event, fails: string -> bool)
    requires ActionsInv(c, s) && Enabled(c, s, e) && forall n :: FixedAt(s, fails, n)
    requires e.Return? ==> e.outcome.RunFailed? == fails(e.n)
    ensures forall n :: FixedAt(Apply(c, s, e), fails, n)
  {
    forall n ensures FixedAt(Apply(c, s, e), fails, n) {
      assert FixedAt(s, fails, n);
      if e.CallerCancel? || e.n != n { FixedOther(c, s, e, fails, n); } else { FixedActor(c, s, e, fails); }
    }
  }

  lemma FixedOther(c: Config, s: State, e: Event, fails: string -> bool, n: string)
    requires ActionsInv(c, s) && Enabled(c, s, e) && (e.CallerCancel? || e.n != n) && FixedAt(s, fails, n)
    ensures FixedAt(Apply(c, s, e), fails, n)
  {
    if !e.CallerCancel? { StepTouches(c, s, e); }
  }

  lemma FixedActor(c: Config, s: State, e: Event, fails: string -> bool)
    requires Enabled(c, s, e) && !e.CallerCancel? && FixedAt(s, fails, e.n)
    requires e.Return? ==> e.outcome.RunFailed? == fails(e.n)
    ensures FixedAt(Apply(c, s, e), fails, e.n)
  {
  }

  lemma {:induction false} FixedReachable(c: Config, es: seq<Event>, fails: string -> bool)
    requires ValidConfig(c) && Legal(c, es) && FixedOutcomes(es, fails)
    ensures forall n :: FixedAt(Exec(c, es), fails, n)
    decreases |es|
  {
    if es != [] {
      var p := es[..|es| - 1];
      FixedReachable(c, p, fails);
      Reachable(c, p);
      FixedStep(c, Exec(c, p), es[|es| - 1], fails);
    }
  }

  /** With KeepGoing and no cancelling caller, every finished interleaving has the verdicts
      the dependencies and the commands determine. */
  lemma ParallelSettles(c: Config, es: seq<Event>, fails: string -> bool, n: string)
    requires ValidConfig(c) && c.keepGoing && Legal(c, es) && NoCallerCancel(es) && FixedOutcomes(es, fails)
    requires n in c.g.names && n in Exec(c, es).state
    ensures Settled(c.g, fails, Exec(c, es).state, n)
  {
    Reachable(c, es);
    SkipsReachable(c, es);
    HonestReachable(c, es);
    FixedReachable(c, es, fails);
    var s := Exec(c, es);
    assert ActionInv(c, s, n) && SkipReason(c, s, n) && FixedAt(s, fails, n);
    if s.state[n] == StatusSkipped {
      var d :| d in c.g.Dependencies(n) && StatusOf(s.state, d) != StatusOK;
      assert StatusOf(s.state, d) != StatusOK;
    }
  }

  lemma StatesAgree(g: Graph, order: seq<string>, fails: string -> bool, a: map<string, Status>, b: map<string, Status>)
    requires g.WellFormed() && IsTopological(g, order)
    requires forall n :: n in g.names ==> Settled(g, fails, a, n) && Settled(g, fails, b, n)
    requires a.Keys == b.Keys == Elems(g.names)
    ensures a == b
  {
    forall n | n in a ensures a[n] == b[n] {
      assert n in Elems(order);
      SettledUnique(g, order, fails, a, b, n);
    }
  }

  lemma FinishedSettles(c: Config, es: seq<Event>, fails: string -> bool)
    requires ValidConfig(c) && c.keepGoing && Legal(c, es) && NoCallerCancel(es) && FixedOutcomes(es, fails)
    requires Finished(c, Exec(c, es))
    ensures Exec(c, es).state.Keys == Elems(c.g.names)
    ensures forall n :: n in c.g.names ==> Settled(c.g, fails, Exec(c, es).state, n)
  {
    SummaryAddsUp(c, es);
    Reachable(c, es);
    forall n | n in c.g.names ensures Settled(c.g, fails, Exec(c, es).state, n) {
      ParallelSettles(c, es, fails, n);
    }
  }

  /** Two finished builds of the same graph, with any worker counts and interleavings,
      report the same status for every action and the same failed and skipped actions,
      which the summary lists in sorted order. */
  lemma Confluence(c1: Config, c2: Config, es1: seq<Event>, es2: seq<Event>, fails: string -> bool, order: seq<string>)
    requires ValidConfig(c1) && c1.keepGoing && Legal(c1, es1) && NoCallerCancel(es1) && FixedOutcomes(es1, fails)
    requires ValidConfig(c2) && c2.keepGoing && Legal(c2, es2) && NoCallerCancel(es2) && FixedOutcomes(es2, fails)
    requires c1.g == c2.g && IsTopological(c1.g, order)
    requires Finished(c1, Exec(c1, es1)) && Finished(c2, Exec(c2, es2))
    ensures Exec(c1, es1).state == Exec(c2, es2).state
    ensures multiset(Exec(c1, es1).failed) == multiset(Exec(c2, es2).failed)
    ensures multiset(Exec(c1, es1).skipped) == multiset(Exec(c2, es2).skipped)
    ensures Sort(Exec(c1, es1).failed, AtMost) == Sort(Exec(c2, es2).failed, AtMost)
    ensures Sort(Exec(c1, es1).skipped, AtMost) == Sort(Exec(c2, es2).skipped, AtMost)
  {
    FinishedSettles(c1, es1, fails);
    FinishedSettles(c2, es2, fails);
    StatesAgree(c1.g, order, fails, Exec(c1, es1).state, Exec(c2, es2).state);
    SummaryAddsUp(c1, es1);
    SummaryAddsUp(c2, es2);
    SameMembers(Exec(c1, es1).failed, Exec(c2, es2).failed);
    SameMembers(Exec(c1, es1).skipped, Exec(c2, es2).skipped);
    AtMostTotalOrder();
    SortCanonical(Exec(c1, es1).failed, Exec(c2, es2).failed, AtMost);
    SortCanonical(Exec(c1, es1).skipped, Exec(c2, es2).skipped, AtMost);
  }
}
