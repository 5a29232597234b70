/** The critical path is reached: with a worker for every action the scheduler itself has a
    run that follows any schedule to the tick, so the bound on elapsed time is tight. */
module TimedRuns {
  import opened Graphs
  import opened Kahn
  import opened Critical
  import opened Scheduler
  import opened SchedulerRuns
  import opened SchedulerTiming

  /** A run so far and when each of its events happened. */
  datatype Clocked = Clocked(es: seq<Event>, times: seq<int>)

  /** k is a run whose events happened in order, none after t, and fit the spans. */
  ghost predicate OnTime(c: Config, spans: map<string, Span>, k: Clocked, t: int) {
    && Legal(c, k.es) && |k.times| == |k.es|
    && (forall i, j :: 0 <= i <= j < |k.times| ==> k.times[i] <= k.times[j])
    && (forall i :: 0 <= i < |k.times| ==> 0 <= k.times[i] <= t)
    && (forall i :: 0 <= i < |k.es| ==> SpanFits(k.es[i], k.times[i], spans))
  }

  /** k is such a run and leads to s. */
  ghost predicate Leads(c: Config, spans: map<string, Span>, k: Clocked, t: int, s: State) {
    OnTime(c, spans, k, t) && Exec(c, k.es) == s
  }

  /** One more event. */
  lemma Take(c: Config, spans: map<string, Span>, k: Clocked, t: int, s: State, e: Event, now: int) returns (r: Clocked)
    requires Leads(c, spans, k, t, s) && Enabled(c, s, e) && 0 <= t <= now && SpanFits(e, now, spans)
    ensures Leads(c, spans, r, now, Apply(c, s, e))
  {
    r := Clocked(k.es + [e], k.times + [now]);
    ExecSnoc(c, k.es, e);
  }

  /** Where the goroutine of n stands between two moments of the schedule. */
  function Standing(c: Config, begun: set<string>, ended: set<string>, n: string): PC {
    if n in ended then Exited else if n in begun then Running else StartPC(c, n)
  }

  ghost predicate StandsRight(c: Config, s: State, begun: set<string>, ended: set<string>, n: string) {
    && n in s.pc && s.pc[n] == Standing(c, begun, ended, n)
    && (n in s.done <==> n in ended)
    && (n in ended ==> n in s.state && s.state[n] == StatusOK && n in s.results)
  }

  /** The actions of ended are over and OK, the rest of begun are inside Run, and the others
      have not moved. */
  ghost predicate Snapshot(c: Config, s: State, begun: set<string>, ended: set<string>) {
    && ended <= begun <= Elems(c.g.names)
    && (forall n :: n in c.g.names ==> StandsRight(c, s, begun, ended, n))
    && s.slots == |begun| - |ended| && !s.cancelled
  }

  lemma SnapshotStart(c: Config)
    ensures Snapshot(c, Init(c), {}, {})
  {
    forall n | n in c.g.names ensures StandsRight(c, Init(c), {}, {}, n) {}
  }

  // ---- the beginning of an action ----

  /** Dependencies that are all done let n through. */
  lemma {:induction false} WaitsAreOver(c: Config, spans: map<string, Span>, k: Clocked, t: int, s: State, now: int,
                                        n: string)
    returns (r: Clocked)
    requires Leads(c, spans, k, t, s) && 0 <= t <= now && n in s.pc
    requires s.pc[n] == CheckStates || (s.pc[n].Waiting? && s.pc[n].k < |c.g.Dependencies(n)|)
    requires forall d :: d in c.g.Dependencies(n) ==> d in s.done
    ensures Leads(c, spans, r, now, Goto(s, n, CheckStates))
    decreases if s.pc[n].Waiting? then 1 + |c.g.Dependencies(n)| - s.pc[n].k else 0
  {
    if s.pc[n].Waiting? {
      var k' := Take(c, spans, k, t, s, DepDone(n), now);
      var s' := Apply(c, s, DepDone(n));
      assert Goto(s', n, CheckStates) == Goto(s, n, CheckStates);
      r := WaitsAreOver(c, spans, k', now, s', now, n);
    } else {
      r := k;
      assert s == Goto(s, n, CheckStates);
    }
  }

  lemma EntersRun(c: Config, spans: map<string, Span>, k: Clocked, t: int, s: State, n: string) returns (r: Clocked)
    requires Leads(c, spans, k, t, s) && 0 <= t && n in spans && t <= spans[n].start
    requires At(s, n, CheckStates) && DepsOK(c, s, n) && !s.cancelled && s.slots < c.workers
    ensures Leads(c, spans, r, t, Goto(s, n, Running).(slots := s.slots + 1))
  {
    var k1 := Take(c, spans, k, t, s, CompareStates(n), t);
    var s1 := Goto(s, n, CheckContext);
    var k2 := Take(c, spans, k1, t, s1, CompareContext(n), t);
    var s2 := Goto(s1, n, Acquiring);
    r := Take(c, spans, k2, t, s2, Acquire(n), t);
    assert s.pc[n := CheckContext][n := Acquiring][n := Running] == s.pc[n := Running];
  }

  lemma BegunSnapshot(c: Config, s: State, begun: set<string>, ended: set<string>, n: string)
    requires Snapshot(c, s, begun, ended) && n in c.g.names && n !in begun
    ensures Snapshot(c, Goto(s, n, Running).(slots := s.slots + 1), begun + {n}, ended)
  {
    var s' := Goto(s, n, Running).(slots := s.slots + 1);
    forall x | x in c.g.names ensures StandsRight(c, s', begun + {n}, ended, x) {
      assert StandsRight(c, s, begun, ended, x);
    }
  }

  lemma SlotLeft(c: Config, s: State, begun: set<string>, ended: set<string>, n: string)
    requires Snapshot(c, s, begun, ended) && n in c.g.names && n !in begun && c.workers >= |Elems(c.g.names)|
    ensures s.slots < c.workers
  {
    SubsetSize(begun + {n}, Elems(c.g.names));
  }

  lemma DependenciesReady(c: Config, s: State, begun: set<string>, ended: set<string>, n: string)
    requires c.g.WellFormed() && Snapshot(c, s, begun, ended) && forall d :: d in c.g.Dependencies(n) ==> d in ended
    ensures DepsOK(c, s, n) && forall d :: d in c.g.Dependencies(n) ==> d in s.done
  {
    forall d | d in c.g.Dependencies(n) ensures d in s.done && StatusOf(s.state, d) == StatusOK {
      assert d in Elems(c.g.names);
      assert StandsRight(c, s, begun, ended, d);
    }
  }

  /** From its first step to the inside of Run. */
  lemma ReachesRun(c: Config, spans: map<string, Span>, k: Clocked, t: int, s: State, n: string) returns (r: Clocked)
    requires Leads(c, spans, k, t, s) && n in spans && 0 <= t <= spans[n].start && At(s, n, StartPC(c, n))
    requires DepsOK(c, s, n) && (forall d :: d in c.g.Dependencies(n) ==> d in s.done)
    requires !s.cancelled && s.slots < c.workers
    ensures Leads(c, spans, r, spans[n].start, Goto(s, n, Running).(slots := s.slots + 1))
  {
    var k1 := WaitsAreOver(c, spans, k, t, s, spans[n].start, n);
    r := EntersRun(c, spans, k1, spans[n].start, Goto(s, n, CheckStates), n);
    assert Goto(Goto(s, n, CheckStates), n, Running) == Goto(s, n, Running);
  }

  /** An action whose dependencies have all ended begins on the tick. */
  lemma Begin(c: Config, spans: map<string, Span>, k: Clocked, t: int, s: State, begun: set<string>,
              ended: set<string>, n: string)
    returns (r: Clocked, s': State)
    requires c.g.WellFormed() && c.workers >= |Elems(c.g.names)| && Leads(c, spans, k, t, s)
    requires Snapshot(c, s, begun, ended) && n in c.g.names && n !in begun
    requires n in spans && 0 <= t <= spans[n].start && forall d :: d in c.g.Dependencies(n) ==> d in ended
    ensures Leads(c, spans, r, spans[n].start, s') && Snapshot(c, s', begun + {n}, ended)
  {
    assert StandsRight(c, s, begun, ended, n);
    DependenciesReady(c, s, begun, ended, n);
    SlotLeft(c, s, begun, ended, n);
    r := ReachesRun(c, spans, k, t, s, n);
    s' := Goto(s, n, Running).(slots := s.slots + 1);
    BegunSnapshot(c, s, begun, ended, n);
  }

  // ---- the end of an action ----

  /** What the five last steps of a successful action amount to. */
  function Over(s: State, n: string): State
    requires s.slots > 0
  {
    Goto(s, n, Exited).(state := s.state[n := StatusOK], results := s.results + [n], done := s.done + {n},
                        slots := s.slots - 1)
  }

  lemma LeavesRun(c: Config, spans: map<string, Span>, k: Clocked, t: int, s: State, now: int, n: string)
    returns (r: Clocked)
    requires Leads(c, spans, k, t, s) && 0 <= t <= now && n in spans && spans[n].end <= now
    requires At(s, n, Running) && s.slots > 0
    ensures Leads(c, spans, r, now, Over(s, n))
  {
    var k1 := Take(c, spans, k, t, s, Return(n, RanOK), now);
    var s1 := Goto(s, n, Publishing(RanOK));
    var k2 := Take(c, spans, k1, now, s1, Publish(n), now);
    var s2 := Goto(s, n, Releasing).(state := s.state[n := StatusOK], results := s.results + [n]);
    assert s1.pc[n := Releasing] == s.pc[n := Releasing];
    r := Departs(c, spans, k2, now, s2, n);
    assert s2.pc[n := Exited] == s.pc[n := Exited];
  }

  /** The deferred calls. */
  lemma Departs(c: Config, spans: map<string, Span>, k: Clocked, t: int, s: State, n: string) returns (r: Clocked)
    requires Leads(c, spans, k, t, s) && 0 <= t && At(s, n, Releasing) && s.slots > 0
    ensures Leads(c, spans, r, t, Goto(s, n, Exited).(done := s.done + {n}, slots := s.slots - 1))
  {
    var k1 := Take(c, spans, k, t, s, Release(n), t);
    var s1 := Goto(s, n, Closing).(slots := s.slots - 1);
    var k2 := Take(c, spans, k1, t, s1, Close(n), t);
    var s2 := Goto(s1, n, Exiting).(done := s.done + {n});
    r := Take(c, spans, k2, t, s2, Exit(n), t);
    assert s.pc[n := Closing][n := Exiting][n := Exited] == s.pc[n := Exited];
  }

  lemma OverSnapshot(c: Config, s: State, begun: set<string>, ended: set<string>, n: string)
    requires Snapshot(c, s, begun, ended) && n in begun && n !in ended && s.slots > 0
    ensures Snapshot(c, Over(s, n), begun, ended + {n})
  {
    forall x | x in c.g.names ensures StandsRight(c, Over(s, n), begun, ended + {n}, x) {
      assert StandsRight(c, s, begun, ended, x);
    }
  }

  /** An action inside Run ends on the tick. */
  lemma End(c: Config, spans: map<string, Span>, k: Clocked, t: int, s: State, begun: set<string>, ended: set<string>,
            n: string)
    returns (r: Clocked, s': State)
    requires Leads(c, spans, k, t, s) && Snapshot(c, s, begun, ended) && n in begun && n !in ended
    requires n in spans && 0 <= t <= spans[n].end
    ensures Leads(c, spans, r, spans[n].end, s') && Snapshot(c, s', begun, ended + {n})
  {
    assert n in c.g.names;
    assert StandsRight(c, s, begun, ended, n);
    SubsetSize(ended + {n}, begun);
    r := LeavesRun(c, spans, k, t, s, spans[n].end, n);
    s' := Over(s, n);
    OverSnapshot(c, s, begun, ended, n);
  }

  // ---- what comes next ----

  /** When n next begins or ends. */
  function Due(spans: map<string, Span>, begun: set<string>, n: string): int
    requires n in spans
  {
    if n in begun then spans[n].end else spans[n].start
  }

  /** x is due no later than y; at the same moment, ends come before beginnings. */
  predicate NoLater(spans: map<string, Span>, begun: set<string>, x: string, y: string)
    requires x in spans && y in spans
  {
    Due(spans, begun, x) < Due(spans, begun, y)
    || (Due(spans, begun, x) == Due(spans, begun, y) && (x in begun || y !in begun))
  }

  /** From position i on, the action at j is due first, and earliest in order among those
      due with it. */
  ghost predicate DueFirst(spans: map<string, Span>, begun: set<string>, ended: set<string>, order: seq<string>, i: nat,
                           j: nat)
    requires forall n :: n in order ==> n in spans
  {
    && i <= j < |order| && order[j] !in ended
    && forall l :: i <= l < |order| && order[l] !in ended ==>
         NoLater(spans, begun, order[j], order[l]) && (NoLater(spans, begun, order[l], order[j]) ==> j <= l)
  }

  lemma {:induction false} FindDueFirst(spans: map<string, Span>, begun: set<string>, ended: set<string>,
                                        order: seq<string>, i: nat, some: nat)
    returns (j: nat)
    requires forall n :: n in order ==> n in spans
    requires i <= some < |order| && order[some] !in ended
    ensures DueFirst(spans, begun, ended, order, i, j)
    decreases |order| - i
  {
    if order[i] in ended {
      j := FindDueFirst(spans, begun, ended, order, i + 1, some);
    } else if later :| i + 1 <= later < |order| && order[later] !in ended {
      j := FindDueFirst(spans, begun, ended, order, i + 1, later);
      if NoLater(spans, begun, order[i], order[j]) { j := i; }
    } else {
      j := i;
    }
  }

  /** What waits is not due yet. */
  ghost predicate NothingMissed(spans: map<string, Span>, names: seq<string>, begun: set<string>, ended: set<string>,
                                t: int)
  {
    forall n :: n in names && n !in ended ==> n in spans && t <= Due(spans, begun, n)
  }

  ghost function SpansOf(g: Graph, dur: map<string, int>, start: map<string, int>): map<string, Span> {
    map n | n in g.names && n in start :: Span(start[n], start[n] + Get(dur, n))
  }

  /** When an action is due to begin before anything else, its dependencies have ended. */
  lemma DependenciesEnded(g: Graph, dur: map<string, int>, start: map<string, int>, order: seq<string>,
                          begun: set<string>, ended: set<string>, j: nat, d: string)
    requires g.WellFormed() && IsTopological(g, order) && IsSchedule(g, dur, start) && NonNegative(dur)
    requires forall n :: n in order ==> n in SpansOf(g, dur, start)
    requires DueFirst(SpansOf(g, dur, start), begun, ended, order, 0, j) && order[j] !in begun
    requires d in g.Dependencies(order[j])
    ensures d in ended
  {
    var n := order[j];
    assert n in Elems(order) && DepsBefore(g, order, j);
    assert StartsInTime(g, dur, start, n);
    var i :| 0 <= i < j && order[i] == d;
  }

  // ---- the whole run ----

  predicate StatusIsOK(s: State, n: string) { n in s.state && s.state[n] == StatusOK }

  ghost predicate Scheduled(c: Config, dur: map<string, int>, start: map<string, int>, order: seq<string>) {
    && ValidConfig(c) && c.workers >= |Elems(c.g.names)| && IsTopological(c.g, order)
    && NonNegative(dur) && IsSchedule(c.g, dur, start)
  }

  lemma SpansCover(c: Config, dur: map<string, int>, start: map<string, int>, order: seq<string>)
    requires Scheduled(c, dur, start, order)
    ensures forall n :: n in order ==> n in c.g.names && n in SpansOf(c.g, dur, start)
    ensures forall n :: n in SpansOf(c.g, dur, start) ==>
      var sp := SpansOf(c.g, dur, start)[n]; 0 <= sp.start <= sp.end
  {
    forall n | n in order ensures n in c.g.names && n in SpansOf(c.g, dur, start) {
      assert n in Elems(order);
      assert StartsInTime(c.g, dur, start, n);
    }
    forall n | n in SpansOf(c.g, dur, start) ensures 0 <= start[n] { assert StartsInTime(c.g, dur, start, n); }
  }

  /** A moment of the run: how it got there, where everyone stands, and nothing missed. */
  datatype Moment = Moment(k: Clocked, t: int, s: State, begun: set<string>, ended: set<string>)

  ghost predicate Faithful(c: Config, spans: map<string, Span>, m: Moment) {
    && Leads(c, spans, m.k, m.t, m.s) && Snapshot(c, m.s, m.begun, m.ended) && 0 <= m.t
    && NothingMissed(spans, c.g.names, m.begun, m.ended, m.t)
  }

  /** m' is m after n has begun or ended. */
  ghost predicate Moved(spans: map<string, Span>, m: Moment, n: string, m': Moment) {
    && n in spans && m'.t == Due(spans, m.begun, n)
    && m'.begun == m.begun + {n} && m'.ended == if n in m.begun then m.ended + {n} else m.ended
  }

  /** The next beginning or end, on the tick. */
  lemma NextMoment(c: Config, dur: map<string, int>, start: map<string, int>, order: seq<string>, m: Moment, j: nat)
    returns (m': Moment)
    requires Scheduled(c, dur, start, order) && forall n :: n in order ==> n in SpansOf(c.g, dur, start)
    requires Faithful(c, SpansOf(c.g, dur, start), m)
    requires DueFirst(SpansOf(c.g, dur, start), m.begun, m.ended, order, 0, j)
    ensures Moved(SpansOf(c.g, dur, start), m, order[j], m') && 0 <= m'.t
    ensures Leads(c, SpansOf(c.g, dur, start), m'.k, m'.t, m'.s) && Snapshot(c, m'.s, m'.begun, m'.ended)
  {
    var spans, n := SpansOf(c.g, dur, start), order[j];
    assert n in Elems(order);
    if n in m.begun {
      m' := NextEnd(c, spans, m, n);
    } else {
      forall d | d in c.g.Dependencies(n) ensures d in m.ended {
        DependenciesEnded(c.g, dur, start, order, m.begun, m.ended, j, d);
      }
      m' := NextBeginning(c, spans, m, n);
    }
  }

  lemma NextEnd(c: Config, spans: map<string, Span>, m: Moment, n: string) returns (m': Moment)
    requires Leads(c, spans, m.k, m.t, m.s) && Snapshot(c, m.s, m.begun, m.ended) && 0 <= m.t
    requires n in m.begun && n !in m.ended && n in spans && m.t <= spans[n].end
    ensures Moved(spans, m, n, m') && Leads(c, spans, m'.k, m'.t, m'.s) && Snapshot(c, m'.s, m'.begun, m'.ended)
  {
    var k, s := End(c, spans, m.k, m.t, m.s, m.begun, m.ended, n);
    m' := Moment(k, spans[n].end, s, m.begun, m.ended + {n});
    assert m.begun == m.begun + {n};
  }

  lemma NextBeginning(c: Config, spans: map<string, Span>, m: Moment, n: string) returns (m': Moment)
    requires c.g.WellFormed() && c.workers >= |Elems(c.g.names)| && n in c.g.names
    requires Leads(c, spans, m.k, m.t, m.s) && Snapshot(c, m.s, m.begun, m.ended) && 0 <= m.t
    requires n !in m.begun && n in spans && m.t <= spans[n].start
    requires forall d :: d in c.g.Dependencies(n) ==> d in m.ended
    ensures Moved(spans, m, n, m') && Leads(c, spans, m'.k, m'.t, m'.s) && Snapshot(c, m'.s, m'.begun, m'.ended)
  {
    var k, s := Begin(c, spans, m.k, m.t, m.s, m.begun, m.ended, n);
    m' := Moment(k, spans[n].start, s, m.begun + {n}, m.ended);
  }

  lemma StillNothingMissed(c: Config, dur: map<string, int>, start: map<string, int>, order: seq<string>, m: Moment,
                           j: nat, m': Moment)
    requires Scheduled(c, dur, start, order) && forall n :: n in order ==> n in SpansOf(c.g, dur, start)
    requires DueFirst(SpansOf(c.g, dur, start), m.begun, m.ended, order, 0, j)
    requires Moved(SpansOf(c.g, dur, start), m, order[j], m')
    ensures NothingMissed(SpansOf(c.g, dur, start), c.g.names, m'.begun, m'.ended, m'.t)
  {
    var spans := SpansOf(c.g, dur, start);
    SpansCover(c, dur, start, order);
    forall n | n in c.g.names && n !in m'.ended ensures n in spans && m'.t <= Due(spans, m'.begun, n) {
      assert n in Elems(order);
      var l :| 0 <= l < |order| && order[l] == n;
      assert NoLater(spans, m.begun, order[j], order[l]);
    }
  }

  ghost function Ahead(c: Config, m: Moment): int { 2 * |Elems(c.g.names)| - |m.begun| - |m.ended| }

  lemma MovedAhead(c: Config, spans: map<string, Span>, m: Moment, n: string, m': Moment)
    requires Moved(spans, m, n, m') && n !in m.ended && Snapshot(c, m'.s, m'.begun, m'.ended)
    ensures 0 <= Ahead(c, m') < Ahead(c, m)
  {
    SubsetSize(m'.begun, Elems(c.g.names));
    SubsetSize(m'.ended, Elems(c.g.names));
    assert n in m.begun ==> m.begun + {n} == m.begun;
  }

  lemma OneMoment(c: Config, dur: map<string, int>, start: map<string, int>, order: seq<string>, m: Moment, length: int,
                  some: nat)
    returns (m': Moment)
    requires Scheduled(c, dur, start, order) && EndsBy(c.g, dur, start, length)
    requires Faithful(c, SpansOf(c.g, dur, start), m) && some < |order| && order[some] !in m.ended
    ensures Faithful(c, SpansOf(c.g, dur, start), m') && m'.t <= length && 0 <= Ahead(c, m') < Ahead(c, m)
  {
    SpansCover(c, dur, start, order);
    var j := FindDueFirst(SpansOf(c.g, dur, start), m.begun, m.ended, order, 0, some);
    m' := NextMoment(c, dur, start, order, m, j);
    StillNothingMissed(c, dur, start, order, m, j, m');
    DueInTime(c, dur, start, order, m.begun, order[j], length);
    MovedAhead(c, SpansOf(c.g, dur, start), m, order[j], m');
  }

  lemma {:induction false} FollowSchedule(c: Config, dur: map<string, int>, start: map<string, int>, order: seq<string>,
                                          m: Moment, length: int)
    returns (r: Moment)
    requires Scheduled(c, dur, start, order) && EndsBy(c.g, dur, start, length)
    requires Faithful(c, SpansOf(c.g, dur, start), m) && m.t <= length
    ensures Faithful(c, SpansOf(c.g, dur, start), r) && r.t <= length && r.begun == r.ended == Elems(c.g.names)
    decreases Ahead(c, m)
  {
    if some: nat :| some < |order| && order[some] !in m.ended {
      var m' := OneMoment(c, dur, start, order, m, length, some);
      r := FollowSchedule(c, dur, start, order, m', length);
    } else {
      r := m;
      assert Elems(order) <= m.ended <= m.begun <= Elems(c.g.names);
    }
  }

  lemma DueInTime(c: Config, dur: map<string, int>, start: map<string, int>, order: seq<string>, begun: set<string>,
                  n: string, length: int)
    requires Scheduled(c, dur, start, order) && EndsBy(c.g, dur, start, length) && n in order
    requires n in SpansOf(c.g, dur, start)
    ensures Due(SpansOf(c.g, dur, start), begun, n) <= length
  {
    assert n in Elems(order);
  }

  /** Any schedule that ends by length is followed to the tick by a run of the scheduler
      with a worker for every action: it ends with everything OK, its Durations are the
      given ones, and it takes no longer. */
  lemma ScheduleIsFollowed(c: Config, dur: map<string, int>, start: map<string, int>, order: seq<string>, length: int)
    returns (es: seq<Event>, times: seq<int>, spans: map<string, Span>)
    requires Scheduled(c, dur, start, order) && EndsBy(c.g, dur, start, length) && 0 <= length
    ensures Legal(c, es) && Finished(c, Exec(c, es)) && Timed(es, times, 0, length, spans)
    ensures forall n :: n in c.g.names ==> StatusIsOK(Exec(c, es), n)
    ensures forall n :: n in c.g.names ==>
      n in Durations(Exec(c, es).results, spans) && Durations(Exec(c, es).results, spans)[n] == Get(dur, n)
  {
    spans := SpansOf(c.g, dur, start);
    var m := StartOfSchedule(c, dur, start, order);
    m := FollowSchedule(c, dur, start, order, m, length);
    es, times := m.k.es, m.k.times;
    FollowedInTime(c, dur, start, order, m, length);
    forall n | n in c.g.names
      ensures At(m.s, n, Exited) && StatusIsOK(m.s, n) && n in m.s.results && n in spans
      ensures spans[n].end - spans[n].start == Get(dur, n)
    {
      assert StandsRight(c, m.s, m.begun, m.ended, n) && StartsInTime(c.g, dur, start, n);
    }
  }

  lemma FollowedInTime(c: Config, dur: map<string, int>, start: map<string, int>, order: seq<string>, m: Moment,
                       length: int)
    requires Scheduled(c, dur, start, order) && Faithful(c, SpansOf(c.g, dur, start), m) && m.t <= length
    ensures Timed(m.k.es, m.k.times, 0, length, SpansOf(c.g, dur, start))
  {
    SpansCover(c, dur, start, order);
  }

  lemma StartOfSchedule(c: Config, dur: map<string, int>, start: map<string, int>, order: seq<string>)
    returns (m: Moment)
    requires Scheduled(c, dur, start, order)
    ensures Faithful(c, SpansOf(c.g, dur, start), m) && m.t == 0
  {
    m := Moment(Clocked([], []), 0, Init(c), {}, {});
    SpansCover(c, dur, start, order);
    SnapshotStart(c);
    forall n | n in c.g.names ensures n in SpansOf(c.g, dur, start) && 0 <= Due(SpansOf(c.g, dur, start), {}, n) {
      assert n in Elems(order);
    }
  }

  /** The critical path length is therefore exactly what the best build takes: with a worker
      for every action some run takes that long, and no run with those Durations less. */
  lemma CriticalPathIsReached(c: Config, dur: map<string, int>, start: map<string, int>, order: seq<string>,
                              path: seq<string>, length: int)
    returns (es: seq<Event>, times: seq<int>, spans: map<string, Span>)
    requires Scheduled(c, dur, start, order) && EndsBy(c.g, dur, start, length)
      && IsCriticalPath(c.g, dur, path, length)
    ensures Legal(c, es) && Finished(c, Exec(c, es)) && Timed(es, times, 0, length, spans)
    ensures forall n :: n in c.g.names ==> Get(Durations(Exec(c, es).results, spans), n) == Get(dur, n)
  {
    LengthIsPositive(c.g, dur, start, path, length);
    es, times, spans := ScheduleIsFollowed(c, dur, start, order, length);
  }

  lemma LengthIsPositive(g: Graph, dur: map<string, int>, start: map<string, int>, path: seq<string>, length: int)
    requires IsCriticalPath(g, dur, path, length) && IsSchedule(g, dur, start) && EndsBy(g, dur, start, length)
    requires NonNegative(dur)
    ensures 0 <= length
  {
    assert StartsInTime(g, dur, start, Last(path));
  }
}
