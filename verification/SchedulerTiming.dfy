/** Elapsed time against the critical path: no timed run of the scheduler finishes
    sooner than the critical path of the durations it measured itself. */
module SchedulerTiming {
  import opened Graphs
  import opened Kahn
  import opened Critical
  import opened Scheduler
  import opened SchedulerRuns

  /** The timestamps of one Result. */
  datatype Span = Span(start: int, end: int)

  /** times[i] is when event i of the run happened; begin is read before the first
      goroutine starts and finish after the last one is done. An action's timestamps
      are taken inside Run: after its slot was acquired, before Run returned. */
  ghost predicate Timed(es: seq<Event>, times: seq<int>, begin: int, finish: int, spans: map<string, Span>) {
    && |times| == |es|
    && (forall i, j :: 0 <= i <= j < |times| ==> times[i] <= times[j])
    && (forall i :: 0 <= i < |times| ==> begin <= times[i] <= finish)
    && begin <= finish
    && (forall n :: n in spans ==> spans[n].start <= spans[n].end)
    && (forall i :: 0 <= i < |es| ==> SpanFits(es[i], times[i], spans))
  }

  ghost predicate SpanFits(e: Event, t: int, spans: map<string, Span>) {
    && (e.Acquire? && e.n in spans ==> t <= spans[e.n].start)
    && (e.Return? && e.n in spans ==> spans[e.n].end <= t)
  }

  /** Durations: the wall time of every action with a Result; the others count as zero. */
  function Durations(results: seq<string>, spans: map<string, Span>): map<string, int> {
    map n | n in results && n in spans :: spans[n].end - spans[n].start
  }

  ghost predicate AcquiredAt(es: seq<Event>, n: string, i: int) { 0 <= i < |es| && es[i].Acquire? && es[i].n == n }
  ghost predicate ReturnedAt(es: seq<Event>, n: string, i: int) { 0 <= i < |es| && es[i].Return? && es[i].n == n }

  /** Whoever holds a slot or has a result acquired the slot earlier in the run. */
  lemma {:induction false} AcquiredBefore(c: Config, es: seq<Event>, n: string) returns (i: int)
    requires ValidConfig(c) && Legal(c, es)
    requires var s := Exec(c, es); (n in s.pc && Holds(s.pc[n])) || n in s.results
    ensures AcquiredAt(es, n, i)
    decreases |es|
  {
    if es != [] {
      var p, e := es[..|es| - 1], es[|es| - 1];
      if e.Acquire? && e.n == n {
        i := |es| - 1;
      } else {
        AcquiredStep(c, Exec(c, p), e, n);
        i := AcquiredBefore(c, p, n);
      }
    }
  }

  lemma AcquiredStep(c: Config, s: State, e: Event, n: string)
    requires Enabled(c, s, e) && !(e.Acquire? && e.n == n)
    requires var s' := Apply(c, s, e); (n in s'.pc && Holds(s'.pc[n])) || n in s'.results
    ensures (n in s.pc && Holds(s.pc[n])) || n in s.results
  {
  }

  /** Whoever has a result, or is about to publish, returned from Run earlier. */
  lemma {:induction false} ReturnedBefore(c: Config, es: seq<Event>, n: string) returns (i: int)
    requires ValidConfig(c) && Legal(c, es)
    requires var s := Exec(c, es); (n in s.pc && s.pc[n].Publishing?) || n in s.results
    ensures ReturnedAt(es, n, i)
    decreases |es|
  {
    if es != [] {
      var p, e := es[..|es| - 1], es[|es| - 1];
      if e.Return? && e.n == n {
        i := |es| - 1;
      } else {
        ReturnedStep(c, Exec(c, p), e, n);
        i := ReturnedBefore(c, p, n);
      }
    }
  }

  lemma ReturnedStep(c: Config, s: State, e: Event, n: string)
    requires Enabled(c, s, e) && !(e.Return? && e.n == n)
    requires var s' := Apply(c, s, e); (n in s'.pc && s'.pc[n].Publishing?) || n in s'.results
    ensures (n in s.pc && s.pc[n].Publishing?) || n in s.results
  {
  }

  lemma BeforeAcquire(c: Config, es: seq<Event>, n: string, i: int)
    requires Legal(c, es) && AcquiredAt(es, n, i)
    ensures Legal(c, es[..i]) && At(Exec(c, es[..i]), n, Acquiring)
  {
    LegalPrefix(c, es, i + 1);
    assert es[..i + 1][..i] == es[..i];
  }

  /** At the moment an action takes its slot, each dependency has its result. */
  lemma DepsHaveResults(c: Config, es: seq<Event>, n: string, d: string, i: int)
    requires ValidConfig(c) && Legal(c, es) && AcquiredAt(es, n, i) && d in c.g.Dependencies(n)
    ensures Legal(c, es[..i]) && d in Exec(c, es[..i]).results
  {
    BeforeAcquire(c, es, n, i);
    Reachable(c, es[..i]);
    AcquiringDepsHaveResults(c, Exec(c, es[..i]), n, d);
  }

  lemma AcquiringDepsHaveResults(c: Config, s: State, n: string, d: string)
    requires Inv(c, s) && At(s, n, Acquiring) && d in c.g.Dependencies(n)
    ensures d in s.results
  {
    assert n in Elems(c.g.names);
    assert ActionInv(c, s, n);
    assert d in s.state && s.state[d] == StatusOK;
    assert ListInv(s, d);
  }

  /** A dependency ends before its dependent starts. */
  lemma DependencyEndsFirst(c: Config, es: seq<Event>, times: seq<int>, begin: int, finish: int,
                            spans: map<string, Span>, n: string, d: string)
    requires ValidConfig(c) && Legal(c, es) && Timed(es, times, begin, finish, spans)
    requires n in Exec(c, es).results && n in spans && d in spans && d in c.g.Dependencies(n)
    ensures spans[d].end <= spans[n].start
    ensures begin <= spans[n].start
  {
    var i := AcquiredBefore(c, es, n);
    DepsHaveResults(c, es, n, d, i);
    var j := ReturnedBefore(c, es[..i], d);
    assert es[j] == es[..i][j];
    assert SpanFits(es[i], times[i], spans) && SpanFits(es[j], times[j], spans);
  }

  lemma SpanInside(c: Config, es: seq<Event>, times: seq<int>, begin: int, finish: int, spans: map<string, Span>,
                   n: string)
    requires ValidConfig(c) && Legal(c, es) && Timed(es, times, begin, finish, spans)
    requires n in Exec(c, es).results && n in spans
    ensures begin <= spans[n].start <= spans[n].end <= finish
  {
    var i := AcquiredBefore(c, es, n);
    var j := ReturnedBefore(c, es, n);
    assert SpanFits(es[i], times[i], spans) && SpanFits(es[j], times[j], spans);
  }

  /** The measured starts, with everything that has no result placed at the very end. */
  function MeasuredStarts(g: Graph, results: seq<string>, spans: map<string, Span>, begin: int,
                          finish: int): map<string, int>
  {
    map n | n in g.names :: if n in results && n in spans then spans[n].start - begin else finish - begin
  }

  lemma DepOfResultHasResult(c: Config, es: seq<Event>, n: string, d: string)
    requires ValidConfig(c) && Legal(c, es) && n in Exec(c, es).results && d in c.g.Dependencies(n)
    ensures d in Exec(c, es).results
  {
    Reachable(c, es);
    var s := Exec(c, es);
    assert ListInv(s, n);
    assert n in Elems(c.g.names);
    assert ActionInv(c, s, n);
    assert d in s.state && s.state[d] == StatusOK;
    assert ListInv(s, d);
  }

  lemma MeasuredStartInTime(c: Config, es: seq<Event>, times: seq<int>, begin: int, finish: int,
                            spans: map<string, Span>, n: string)
    requires ValidConfig(c) && Legal(c, es) && Timed(es, times, begin, finish, spans)
    requires forall x :: x in Exec(c, es).results ==> x in spans
    requires n in c.g.names
    ensures var results := Exec(c, es).results;
      StartsInTime(c.g, Durations(results, spans), MeasuredStarts(c.g, results, spans, begin, finish), n)
  {
    var results := Exec(c, es).results;
    if n in results { SpanInside(c, es, times, begin, finish, spans, n); }
    forall d | d in c.g.Dependencies(n)
      ensures d in c.g.names && (if d in results then spans[d].end - begin else finish - begin)
        <= (if n in results then spans[n].start - begin else finish - begin)
    {
      if d in results { SpanInside(c, es, times, begin, finish, spans, d); }
      if n in results {
        DepOfResultHasResult(c, es, n, d);
        DependencyEndsFirst(c, es, times, begin, finish, spans, n, d);
      }
    }
  }

  /** Whatever the worker count, the failures and the cancellations, a build takes at
      least as long as the critical path of its own Durations. */
  lemma ElapsedAtLeastCriticalPath(c: Config, es: seq<Event>, times: seq<int>, begin: int, finish: int,
                                   spans: map<string, Span>, path: seq<string>, length: int)
    requires ValidConfig(c) && Legal(c, es) && Timed(es, times, begin, finish, spans)
    requires forall x :: x in Exec(c, es).results ==> x in spans
    requires IsCriticalPath(c.g, Durations(Exec(c, es).results, spans), path, length)
    ensures length <= finish - begin
  {
    var results := Exec(c, es).results;
    var dur, start := Durations(results, spans), MeasuredStarts(c.g, results, spans, begin, finish);
    forall n | n in c.g.names
      ensures StartsInTime(c.g, dur, start, n) && start[n] + Get(dur, n) <= finish - begin
    {
      MeasuredStartInTime(c, es, times, begin, finish, spans, n);
      if n in results { SpanInside(c, es, times, begin, finish, spans, n); }
    }
    LengthBoundsEverySchedule(c.g, dur, path, length, start, finish - begin);
  }
}
