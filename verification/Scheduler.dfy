/** internal/sched/sched.go, Build: one goroutine per action, a done channel each, a
    counting semaphore, maps under a mutex, and a cancellable context, as a state
    machine whose events are the atomic steps of the goroutines. A run is any legal
    sequence of events, so a claim about all runs is a claim about all interleavings. */
module Scheduler {
  import opened Graphs
  import opened Kahn

  /** StatusOK is the zero value: reading a missing entry of the state map answers it. */
  datatype Status = StatusOK | StatusFailed | StatusSkipped

  datatype BuildError = ActionFailed(action: string) | ContextCancelled(action: string)

  /** What Runner.Run returns. A success always comes with a Result; an early failure
      comes without one. */
  datatype Outcome = RanOK | RunFailed(hasResult: bool, err: BuildError)

  predicate NoResult(outcome: Outcome) { outcome.RunFailed? && !outcome.hasResult }

  /** Where the goroutine of one action stands. The deferred calls run in the order
      Releasing, Closing, Exiting. */
  datatype PC =
    | Waiting(k: nat)
    | CheckStates
    | CheckContext
    | Acquiring
    | Running
    | Publishing(outcome: Outcome)
    | Cancelling
    | Skipping
    | Releasing
    | Closing
    | Exiting
    | Exited

  datatype Config = Config(g: Graph, workers: nat, keepGoing: bool)

  datatype State = State(
    pc: map<string, PC>,
    done: set<string>,
    state: map<string, Status>,
    results: seq<string>,
    failed: seq<string>,
    skipped: seq<string>,
    firstErr: Option<BuildError>,
    cancelled: bool,
    slots: nat)

  datatype Event =
    | DepDone(n: string)
    | StopWaiting(n: string)
    | CompareStates(n: string)
    | CompareContext(n: string)
    | Acquire(n: string)
    | StopAcquiring(n: string)
    | Return(n: string, outcome: Outcome)
    | Publish(n: string)
    | Cancel(n: string)
    | Skip(n: string)
    | Release(n: string)
    | Close(n: string)
    | Exit(n: string)
    | CallerCancel

  /** g passed the cycle check and there is at least one worker. */
  ghost predicate ValidConfig(c: Config) {
    c.g.WellFormed() && c.workers >= 1
  }

  function StartPC(c: Config, n: string): PC {
    if c.g.Dependencies(n) == [] then CheckStates else Waiting(0)
  }

  function Init(c: Config): State {
    State(map n | n in c.g.names :: StartPC(c, n), {}, map[], [], [], [], None, false, 0)
  }

  function StatusOf(state: map<string, Status>, n: string): Status {
    if n in state then state[n] else StatusOK
  }

  predicate DepsOK(c: Config, s: State, n: string) {
    forall d :: d in c.g.Dependencies(n) ==> StatusOf(s.state, d) == StatusOK
  }

  predicate At(s: State, n: string, pc: PC) { n in s.pc && s.pc[n] == pc }

  predicate Enabled(c: Config, s: State, e: Event) {
    match e
    case DepDone(n) =>
      n in s.pc && s.pc[n].Waiting? && s.pc[n].k < |c.g.Dependencies(n)| && c.g.Dependencies(n)[s.pc[n].k] in s.done
    case StopWaiting(n) => n in s.pc && s.pc[n].Waiting? && s.cancelled
    case CompareStates(n) => At(s, n, CheckStates)
    case CompareContext(n) => At(s, n, CheckContext)
    case Acquire(n) => At(s, n, Acquiring) && s.slots < c.workers
    case StopAcquiring(n) => At(s, n, Acquiring) && s.cancelled
    case Return(n, outcome) =>
      && At(s, n, Running)
      && (outcome.RunFailed? ==> outcome.err.action == n && (outcome.err.ContextCancelled? ==> s.cancelled))
    case Publish(n) => n in s.pc && s.pc[n].Publishing?
    case Cancel(n) => At(s, n, Cancelling)
    case Skip(n) => At(s, n, Skipping)
    case Release(n) => At(s, n, Releasing) && s.slots > 0
    case Close(n) => At(s, n, Closing)
    case Exit(n) => At(s, n, Exiting)
    case CallerCancel => !s.cancelled
  }

  function Goto(s: State, n: string, pc: PC): State { s.(pc := s.pc[n := pc]) }

  /** The critical section after Run: record the result, the status and the error. */
  function Published(c: Config, s: State, n: string, outcome: Outcome): State {
    match outcome
    case RanOK =>
      Goto(s, n, Releasing).(state := s.state[n := StatusOK], results := s.results + [n])
    case RunFailed(hasResult, err) =>
      Goto(s, n, if c.keepGoing then Releasing else Cancelling).(
        state := s.state[n := StatusFailed],
        results := if hasResult then s.results + [n] else s.results,
        failed := s.failed + [n],
        firstErr := if s.firstErr.None? then Some(err) else s.firstErr)
  }

  function Apply(c: Config, s: State, e: Event): State
    requires Enabled(c, s, e)
  {
    match e
    case DepDone(n) =>
      Goto(s, n, if s.pc[n].k + 1 == |c.g.Dependencies(n)| then CheckStates else Waiting(s.pc[n].k + 1))
    case StopWaiting(n) => Goto(s, n, Skipping)
    case CompareStates(n) => Goto(s, n, if DepsOK(c, s, n) then CheckContext else Skipping)
    case CompareContext(n) => Goto(s, n, if s.cancelled then Skipping else Acquiring)
    case Acquire(n) => Goto(s, n, Running).(slots := s.slots + 1)
    case StopAcquiring(n) => Goto(s, n, Skipping)
    case Return(n, outcome) => Goto(s, n, Publishing(outcome))
    case Publish(n) => Published(c, s, n, s.pc[n].outcome)
    case Cancel(n) => Goto(s, n, Releasing).(cancelled := true)
    case Skip(n) => Goto(s, n, Closing).(state := s.state[n := StatusSkipped], skipped := s.skipped + [n])
    case Release(n) => Goto(s, n, Closing).(slots := s.slots - 1)
    case Close(n) => Goto(s, n, Exiting).(done := s.done + {n})
    case Exit(n) => Goto(s, n, Exited)
    case CallerCancel => s.(cancelled := true)
  }

  /** es is a run from the start of the build. */
  ghost predicate Legal(c: Config, es: seq<Event>)
    decreases |es|, 0
  {
    es == [] || (Legal(c, es[..|es| - 1]) && Enabled(c, Exec(c, es[..|es| - 1]), es[|es| - 1]))
  }

  ghost function Exec(c: Config, es: seq<Event>): State
    requires Legal(c, es)
    decreases |es|, 1
  {
    if es == [] then Init(c) else Apply(c, Exec(c, es[..|es| - 1]), es[|es| - 1])
  }

  // ---- what every step keeps ----

  predicate Recorded(pc: PC) { pc.Cancelling? || pc.Releasing? || pc.Closing? || pc.Exiting? || pc.Exited? }
  predicate Closed(pc: PC) { pc.Exiting? || pc.Exited? }
  predicate Holds(pc: PC) { pc.Running? || pc.Publishing? || pc.Cancelling? || pc.Releasing? }
  predicate PastCheck(pc: PC) { pc.CheckContext? || pc.Acquiring? || Holds(pc) }

  ghost predicate DepsRecordedOK(c: Config, s: State, n: string) {
    forall d :: d in c.g.Dependencies(n) ==> d in s.state && s.state[d] == StatusOK
  }

  ghost predicate DepsClosed(c: Config, s: State, n: string, k: nat) {
    k <= |c.g.Dependencies(n)| && forall i :: 0 <= i < k ==> c.g.Dependencies(n)[i] in s.done
  }

  /** What holds of one action. */
  ghost predicate ActionInv(c: Config, s: State, n: string) {
    && n in s.pc
    && (n in s.done <==> Closed(s.pc[n]))
    && (n in s.state <==> Recorded(s.pc[n]))
    && (s.pc[n].Waiting? ==> s.pc[n].k < |c.g.Dependencies(n)| && DepsClosed(c, s, n, s.pc[n].k))
    && (s.pc[n].CheckStates? ==> DepsClosed(c, s, n, |c.g.Dependencies(n)|))
    && (PastCheck(s.pc[n]) ==> DepsRecordedOK(c, s, n))
    && (n in s.state && s.state[n] != StatusSkipped ==> DepsRecordedOK(c, s, n))
    && (s.pc[n].Cancelling? ==> s.state[n] == StatusFailed)
    && (s.pc[n].Releasing? ==> s.state[n] != StatusSkipped)
    && (s.pc[n].Publishing? && s.pc[n].outcome.RunFailed? ==> s.pc[n].outcome.err.action == n)
  }

  ghost predicate ActionsInv(c: Config, s: State) {
    && s.pc.Keys == Elems(c.g.names)
    && s.done <= s.pc.Keys && s.state.Keys <= s.pc.Keys
    && (forall n :: n in c.g.names ==> ActionInv(c, s, n))
  }

  ghost function Holders(s: State): set<string> { set n | n in s.pc && Holds(s.pc[n]) }

  /** The semaphore counts the goroutines that hold a slot. */
  ghost predicate SlotsInv(c: Config, s: State) {
    s.slots == |Holders(s)| <= c.workers
  }

  /** The lists of a summary agree with the status map on n. */
  ghost predicate Filed(results: seq<string>, failed: seq<string>, skipped: seq<string>, state: map<string, Status>,
                        n: string)
  {
    && (n in failed <==> n in state && state[n] == StatusFailed)
    && (n in skipped <==> n in state && state[n] == StatusSkipped)
    && (n in results ==> n in state && state[n] != StatusSkipped)
    && (n in state && state[n] == StatusOK ==> n in results)
  }

  ghost predicate ListInv(s: State, n: string) { Filed(s.results, s.failed, s.skipped, s.state, n) }

  /** Some dependency of n is known not to be OK. */
  ghost predicate BadDep(g: Graph, state: map<string, Status>, n: string) {
    exists d :: d in g.Dependencies(n) && StatusOf(state, d) != StatusOK
  }

  ghost predicate ListsInv(s: State) {
    && NoDup(s.failed) && NoDup(s.skipped) && NoDup(s.results)
    && (forall n :: ListInv(s, n))
    && (s.firstErr.None? <==> s.failed == [])
  }

  ghost predicate Inv(c: Config, s: State) {
    ActionsInv(c, s) && SlotsInv(c, s) && ListsInv(s)
  }

  /** What one event may change: only its own goroutine's place, and the shared maps
      only by adding that goroutine's entry. */
  ghost predicate Touches(s: State, s': State, m: string) {
    && m in s.pc && s'.pc.Keys == s.pc.Keys
    && (forall x :: x in s.pc && x != m ==> s'.pc[x] == s.pc[x])
    && s.done <= s'.done <= s.done + {m}
    && (forall x :: x in s.state ==> x in s'.state && (s'.state[x] == s.state[x]))
    && (forall x :: x in s'.state ==> x in s.state || x == m)
  }

  function Actor(e: Event): string
    requires !e.CallerCancel?
  {
    e.n
  }

  lemma StepTouches(c: Config, s: State, e: Event)
    requires ActionsInv(c, s) && Enabled(c, s, e) && !e.CallerCancel?
    ensures Touches(s, Apply(c, s, e), Actor(e))
    ensures Actor(e) in c.g.names
  {
    var n := Actor(e);
    MovesOne(c, s, e);
    assert n in Elems(c.g.names);
    assert ActionInv(c, s, n);
  }

  lemma OthersKeep(c: Config, s: State, s': State, m: string, n: string)
    requires Touches(s, s', m) && ActionInv(c, s, n) && n != m
    ensures ActionInv(c, s', n)
  {
  }

  lemma ActorKeepsWaiting(c: Config, s: State, e: Event)
    requires Enabled(c, s, e) && (e.DepDone? || e.StopWaiting?)
    requires ActionInv(c, s, e.n)
    ensures ActionInv(c, Apply(c, s, e), e.n)
  {
  }

  lemma ActorKeepsBeforeRun(c: Config, s: State, e: Event)
    requires Enabled(c, s, e)
    requires e.CompareContext? || e.Acquire? || e.StopAcquiring? || e.Return?
    requires ActionInv(c, s, e.n)
    ensures ActionInv(c, Apply(c, s, e), e.n)
  {
  }

  lemma ActorKeepsCompare(c: Config, s: State, e: Event)
    requires ValidConfig(c) && ActionsInv(c, s) && Enabled(c, s, e) && e.CompareStates?
    ensures ActionInv(c, Apply(c, s, e), e.n)
  {
    assert e.n in Elems(c.g.names);
    assert ActionInv(c, s, e.n);
    forall d | d in c.g.Dependencies(e.n) ensures d in s.state { ClosedDepRecorded(c, s, e.n, d); }
  }

  lemma ActorKeepsRecording(c: Config, s: State, e: Event)
    requires Enabled(c, s, e) && (e.Publish? || e.Skip?)
    requires ActionInv(c, s, e.n)
    ensures ActionInv(c, Apply(c, s, e), e.n)
  {
  }

  lemma ActorKeepsDeferred(c: Config, s: State, e: Event)
    requires Enabled(c, s, e)
    requires e.Cancel? || e.Release? || e.Close? || e.Exit?
    requires ActionInv(c, s, e.n)
    ensures ActionInv(c, Apply(c, s, e), e.n)
  {
  }

  lemma ActorKeeps(c: Config, s: State, e: Event)
    requires ValidConfig(c) && ActionsInv(c, s) && Enabled(c, s, e) && !e.CallerCancel?
    ensures ActionInv(c, Apply(c, s, e), Actor(e))
  {
    assert Actor(e) in Elems(c.g.names);
    assert ActionInv(c, s, Actor(e));
    match e {
      case DepDone(_) => ActorKeepsWaiting(c, s, e);
      case StopWaiting(_) => ActorKeepsWaiting(c, s, e);
      case CompareStates(_) => ActorKeepsCompare(c, s, e);
      case CompareContext(_) => ActorKeepsBeforeRun(c, s, e);
      case Acquire(_) => ActorKeepsBeforeRun(c, s, e);
      case StopAcquiring(_) => ActorKeepsBeforeRun(c, s, e);
      case Return(_, _) => ActorKeepsBeforeRun(c, s, e);
      case Publish(_) => ActorKeepsRecording(c, s, e);
      case Skip(_) => ActorKeepsRecording(c, s, e);
      case Cancel(_) => ActorKeepsDeferred(c, s, e);
      case Release(_) => ActorKeepsDeferred(c, s, e);
      case Close(_) => ActorKeepsDeferred(c, s, e);
      case Exit(_) => ActorKeepsDeferred(c, s, e);
    }
  }

  /** A closed done channel means a recorded status, so the zero value is never read. */
  lemma ClosedDepRecorded(c: Config, s: State, n: string, d: string)
    requires ValidConfig(c) && ActionsInv(c, s) && d in c.g.Dependencies(n)
    requires DepsClosed(c, s, n, |c.g.Dependencies(n)|)
    ensures d in s.done && d in s.state
  {
    var i :| 0 <= i < |c.g.Dependencies(n)| && c.g.Dependencies(n)[i] == d;
    assert d in c.g.names;
    assert ActionInv(c, s, d);
  }

  lemma ActionsStep(c: Config, s: State, e: Event)
    requires ValidConfig(c) && ActionsInv(c, s) && Enabled(c, s, e)
    ensures ActionsInv(c, Apply(c, s, e))
  {
    var s' := Apply(c, s, e);
    if e.CallerCancel? {
      forall n | n in c.g.names ensures ActionInv(c, s', n) { assert ActionInv(c, s, n); }
    } else {
      StepTouches(c, s, e);
      ActorKeeps(c, s, e);
      forall n | n in c.g.names ensures ActionInv(c, s', n) {
        assert ActionInv(c, s, n);
        if n != Actor(e) { OthersKeep(c, s, s', Actor(e), n); }
      }
    }
  }

  lemma HoldersMove(s: State, s': State, n: string)
    requires n in s.pc && n in s'.pc && s'.pc == s.pc[n := s'.pc[n]]
    ensures Holders(s') == if Holds(s'.pc[n]) then Holders(s) + {n} else Holders(s) - {n}
  {
  }

  lemma MovesOne(c: Config, s: State, e: Event)
    requires Enabled(c, s, e) && !e.CallerCancel?
    ensures var s' := Apply(c, s, e);
      Actor(e) in s.pc && Actor(e) in s'.pc && s'.pc == s.pc[Actor(e) := s'.pc[Actor(e)]]
  {
  }

  lemma SlotsStep(c: Config, s: State, e: Event)
    requires SlotsInv(c, s) && Enabled(c, s, e)
    ensures SlotsInv(c, Apply(c, s, e))
  {
    var s' := Apply(c, s, e);
    if e.CallerCancel? {
      assert Holders(s') == Holders(s);
    } else {
      var n := Actor(e);
      MovesOne(c, s, e);
      HoldersMove(s, s', n);
      HoldersMove(s, s, n);
      if e.Acquire? {
        assert n !in Holders(s);
      } else if e.Release? {
        assert n in Holders(s);
      } else {
        SlotsUnmoved(c, s, e);
      }
    }
  }

  lemma SlotsUnmoved(c: Config, s: State, e: Event)
    requires Enabled(c, s, e) && !e.CallerCancel? && !e.Acquire? && !e.Release?
    ensures var s' := Apply(c, s, e); s'.slots == s.slots && Holds(s'.pc[Actor(e)]) == Holds(s.pc[Actor(e)])
  {
  }

  lemma ListsSame(s: State, s': State)
    requires ListsInv(s) && s'.failed == s.failed && s'.skipped == s.skipped && s'.results == s.results
    requires s'.state == s.state && s'.firstErr == s.firstErr
    ensures ListsInv(s')
  {
    forall n ensures ListInv(s', n) { assert ListInv(s, n); }
  }

  lemma ListsPublish(c: Config, s: State, n: string, outcome: Outcome)
    requires ListsInv(s) && n in s.pc && n !in s.state
    ensures ListsInv(Published(c, s, n, outcome))
  {
    var s' := Published(c, s, n, outcome);
    assert ListInv(s, n);
    forall x ensures ListInv(s', x) { assert ListInv(s, x); }
  }

  lemma ListsSkip(s: State, s': State, n: string)
    requires ListsInv(s) && n !in s.state
    requires s'.state == s.state[n := StatusSkipped] && s'.skipped == s.skipped + [n]
    requires s'.failed == s.failed && s'.results == s.results && s'.firstErr == s.firstErr
    ensures ListsInv(s')
  {
    assert ListInv(s, n);
    forall x ensures ListInv(s', x) { assert ListInv(s, x); }
  }

  lemma ListsStep(c: Config, s: State, e: Event)
    requires ActionsInv(c, s) && ListsInv(s) && Enabled(c, s, e)
    ensures ListsInv(Apply(c, s, e))
  {
    var s' := Apply(c, s, e);
    if e.Publish? || e.Skip? {
      assert e.n in Elems(c.g.names);
      assert ActionInv(c, s, e.n);
      if e.Publish? {
        ListsPublish(c, s, e.n, s.pc[e.n].outcome);
      } else {
        ListsSkip(s, s', e.n);
      }
    } else {
      ListsSame(s, s');
    }
  }

  lemma InitInv(c: Config)
    requires ValidConfig(c)
    ensures Inv(c, Init(c))
  {
    assert Holders(Init(c)) == {};
    forall n | n in c.g.names ensures ActionInv(c, Init(c), n) {}
    forall n ensures ListInv(Init(c), n) {}
  }

  /** Every reachable state satisfies the invariant. */
  lemma {:induction false} Reachable(c: Config, es: seq<Event>)
    requires ValidConfig(c) && Legal(c, es)
    ensures Inv(c, Exec(c, es))
    decreases |es|
  {
    if es == [] {
      InitInv(c);
    } else {
      Reachable(c, es[..|es| - 1]);
      var s, e := Exec(c, es[..|es| - 1]), es[|es| - 1];
      ActionsStep(c, s, e);
      SlotsStep(c, s, e);
      ListsStep(c, s, e);
    }
  }

  lemma ExecSnoc(c: Config, es: seq<Event>, e: Event)
    requires Legal(c, es) && Enabled(c, Exec(c, es), e)
    ensures Legal(c, es + [e]) && Exec(c, es + [e]) == Apply(c, Exec(c, es), e)
  {
    assert (es + [e])[..|es + [e]| - 1] == es;
  }
}
