/** The parallel build on bytes, with or without a cache: every goroutine inside Run looks
    at and changes the shared workspace and the shared cache one step at a time, in any
    interleaving, while anything harmless may happen to the cache. What every step keeps. */
module ParallelBytes {
  import opened Graphs
  import opened Cycles
  import opened Kahn
  import opened Keys
  import opened Stores
  import opened Scheduler
  import opened SchedulerRuns
  import opened SchedulerOutcome
  import opened Runners
  import opened SandboxSteps
  import opened CachedSteps
  import opened Transparency
  import Seq = Sequential
  import Drivers = SequentialBuild

  // ---- the machine ----

  /** A scheduler configuration, what commands do, and the workspace and the cache at the
      start. */
  datatype Setup = Setup(c: Config, m: Machine, ws0: Tree, cache0: Option<Cache>)

  datatype BState = BState(s: State, ws: Tree, cache: Option<Cache>, local: map<string, Stage>)

  /** A scheduler event, or one step of an action inside Run; found is the cache as the step
      finds it, after whatever has happened to it since the last one. */
  datatype BEvent = Control(e: Event) | Work(n: string, found: Option<Cache>, now: int)

  function ActionOf(x: Setup, n: string): Action
    requires n in x.c.g.actions
  {
    x.c.g.actions[n]
  }

  /** The graph passed the cycle check; a cache that is already there is honest, and every
      command's tool resolves. */
  ghost predicate ValidSetup(x: Setup) {
    && ValidConfig(x.c) && x.c.keepGoing && Acyclic(x.c.g) && Drivers.HasCommands(x.c.g)
    && (forall n :: n in x.c.g.actions ==> x.c.g.actions[n].name == n)
    && (x.cache0.Some? ==> GoodHash(x.m.w.hash) && forall n :: n in x.c.g.actions ==> ToolFound(x.m, x.c.g.actions[n]))
    && CacheHonest(x.m.w, x.cache0)
  }

  /** Each output has one producer, and what an action reads of another's outputs it waits
      for, directly or through others. */
  ghost predicate Disciplined(g: Graph) {
    && (forall n, k, p :: OneProducer(g, n, k, p))
    && (forall n, k, p :: ReadsUpstream(g, n, k, p))
  }

  ghost predicate OneProducer(g: Graph, n: string, k: string, p: Path) {
    n in g.actions && k in g.actions && p in g.actions[n].outputs && p in g.actions[k].outputs ==> n == k
  }

  ghost predicate ReadsUpstream(g: Graph, n: string, k: string, p: Path) {
    n in g.actions && k in g.actions && p in g.actions[n].inputs && p in g.actions[k].outputs ==>
      Seq.DependsOn(g, n, k)
  }

  /** What may become of the cache between two steps. */
  ghost predicate Weathered(w: World, cache: Option<Cache>, cache': Option<Cache>) {
    cache'.Some? == cache.Some? && (cache.Some? ==> Weathers(w, cache.value, cache'.value))
  }

  ghost predicate CanControl(x: Setup, b: BState, ev: Event) {
    && Enabled(x.c, b.s, ev) && !ev.CallerCancel?
    && (ev.Return? ==> ev.n in b.local && b.local[ev.n] == Ready(ev.outcome))
  }

  ghost predicate CanWork(x: Setup, b: BState, n: string, found: Option<Cache>) {
    && At(b.s, n, Running) && n in x.c.g.actions && n in b.local && !b.local[n].Ready?
    && StageInRange(ActionOf(x, n), b.local[n], b.cache.Some?) && Weathered(x.m.w, b.cache, found)
  }

  ghost function Controlled(x: Setup, b: BState, ev: Event): BState
    requires CanControl(x, b, ev)
  {
    BState(Apply(x.c, b.s, ev), b.ws, b.cache, if ev.Acquire? then b.local[ev.n := Opening(0)] else b.local)
  }

  ghost function Worked(x: Setup, b: BState, n: string, found: Option<Cache>, now: int): BState
    requires Drivers.HasCommands(x.c.g) && CanWork(x, b, n, found)
  {
    var (st, ws, cache) := Step(x.m, ActionOf(x, n), b.local[n], b.ws, found, now);
    BState(b.s, ws, cache, b.local[n := st])
  }

  ghost predicate BEnabled(x: Setup, b: BState, e: BEvent) {
    match e
    case Control(ev) => CanControl(x, b, ev)
    case Work(n, found, _) => CanWork(x, b, n, found)
  }

  ghost function BApply(x: Setup, b: BState, e: BEvent): BState
    requires ValidSetup(x) && BEnabled(x, b, e)
  {
    match e
    case Control(ev) => Controlled(x, b, ev)
    case Work(n, found, now) => Worked(x, b, n, found, now)
  }

  ghost function BInit(x: Setup): BState { BState(Init(x.c), x.ws0, x.cache0, map[]) }

  ghost predicate BLegal(x: Setup, es: seq<BEvent>)
    requires ValidSetup(x)
    decreases |es|, 0
  {
    es == [] || (BLegal(x, es[..|es| - 1]) && BEnabled(x, BExec(x, es[..|es| - 1]), es[|es| - 1]))
  }

  ghost function BExec(x: Setup, es: seq<BEvent>): BState
    requires ValidSetup(x) && BLegal(x, es)
    decreases |es|, 1
  {
    if es == [] then BInit(x) else BApply(x, BExec(x, es[..|es| - 1]), es[|es| - 1])
  }

  // ---- what every step keeps ----

  /** ws with the given paths put back as they were in ws0. */
  function Reset(ws: Tree, ws0: Tree, ps: seq<Path>): Tree {
    map p | p in ws.Keys + ws0.Keys && (if p in ps then p in ws0 else p in ws) :: if p in ps then ws0[p] else ws[p]
  }

  /** What running a on its own and without a cache gives, starting from its inputs as they
      are now and its outputs as they were at the beginning. */
  ghost function Expected(x: Setup, a: Action, ws: Tree): Ran
    requires a.command != []
  {
    RunPlain(x.m, a, Reset(ws, x.ws0, a.outputs), false)
  }

  /** Does n hold a place inside Run, or has it been there? */
  ghost predicate Entered(s: State, n: string) {
    (n in s.pc && (s.pc[n].Running? || s.pc[n].Publishing?)) || (n in s.state && s.state[n] != StatusSkipped)
  }

  /** What has been recorded of n is what its run returned. */
  ghost predicate RecordedAs(s: State, n: string, st: Stage)
    requires n in s.state
  {
    && st.Ready? && st.outcome.RanOK? == (s.state[n] == StatusOK)
    && (NoResult(st.outcome) <==> n !in s.results)
  }

  /** The local state of n fits its place in the scheduler. */
  ghost predicate LocalFits(b: BState, n: string) {
    && (n in b.local <==> Entered(b.s, n))
    && (n in b.s.pc && b.s.pc[n].Publishing? ==> n in b.local && b.local[n] == Ready(b.s.pc[n].outcome))
    && (n in b.s.state && b.s.state[n] != StatusSkipped ==> n in b.local && RecordedAs(b.s, n, b.local[n]))
  }

  /** The files of n are where its own run, so far, has to have put them, and the run will
      end, wherever the cache leads it, where it would end without one. */
  ghost predicate OnTrack(x: Setup, b: BState, n: string) {
    n in x.c.g.actions && x.c.g.actions[n].command != [] ==>
      var a := ActionOf(x, n);
      if n in b.local then StageOnTrack(x, a, b.local[n], b.ws) else Agree(b.ws, x.ws0, a.outputs)
  }

  ghost predicate StageOnTrack(x: Setup, a: Action, st: Stage, ws: Tree)
    requires a.command != []
  {
    Fits(x.m, a, st, ws, x.cache0.Some?) && SameEnd(a, End(x.m, a, st, ws), Expected(x, a, ws))
  }

  ghost predicate Produced(g: Graph, p: Path) { exists n :: n in g.actions && p in g.actions[n].outputs }

  /** Source files stay as they are. */
  ghost predicate SourceKept(g: Graph, ws: Tree, ws0: Tree, p: Path) { Produced(g, p) || SameAt(ws, ws0, p) }

  /** What the steps inside Run have to keep. */
  ghost predicate FilesInv(x: Setup, b: BState) {
    && Inv(x.c, b.s)
    && (forall n :: LocalFits(b, n))
    && (forall n :: OnTrack(x, b, n))
    && (forall p :: SourceKept(x.c.g, b.ws, x.ws0, p))
    && b.cache.Some? == x.cache0.Some? && CacheHonest(x.m.w, b.cache)
  }

  ghost predicate BInv(x: Setup, b: BState) {
    FilesInv(x, b) && SkipsInv(x.c, b.s) && HonestInv(x.c, b.s)
  }

  /** No action reads what it writes: it would wait on itself. */
  lemma ReadsNoneOfItsOwn(x: Setup, n: string)
    requires ValidSetup(x) && Disciplined(x.c.g) && n in x.c.g.actions
    ensures NoOverlap(ActionOf(x, n))
  {
    forall p | p in ActionOf(x, n).inputs ensures p !in ActionOf(x, n).outputs {
      assert ReadsUpstream(x.c.g, n, n, p);
      if p in ActionOf(x, n).outputs {
        var w :| Seq.WalkFromTo(x.c.g, w, n, n);
        assert IsCycle(x.c.g, w);
      }
    }
  }

  lemma {:induction false} AncestorsDone(x: Setup, s: State, w: seq<string>, k: nat)
    requires Inv(x.c, s) && IsWalk(x.c.g, w) && 0 < k < |w|
    requires DepsRecordedOK(x.c, s, w[0])
    ensures w[k] in s.state && s.state[w[k]] == StatusOK
    decreases k
  {
    assert Edge(x.c.g, w[k - 1], w[k - 1 + 1]);
    if k > 1 {
      AncestorsDone(x, s, w, k - 1);
      assert w[k - 1] in Elems(x.c.g.names);
      assert ActionInv(x.c, s, w[k - 1]);
    }
  }

  /** An action that is or has been inside Run depends on nothing that is still running. */
  lemma NobodyUpstreamRuns(x: Setup, b: BState, k: string, n: string)
    requires FilesInv(x, b) && k in b.local && Seq.DependsOn(x.c.g, k, n)
    ensures !At(b.s, n, Running)
  {
    assert LocalFits(b, k);
    assert k in Elems(x.c.g.names);
    assert ActionInv(x.c, b.s, k);
    var w :| Seq.WalkFromTo(x.c.g, w, k, n);
    AncestorsDone(x, b.s, w, |w| - 1);
    assert n in Elems(x.c.g.names);
    assert ActionInv(x.c, b.s, n);
  }

  lemma ResetSame(ws1: Tree, ws2: Tree, ws0: Tree, ps: seq<Path>)
    requires forall p :: p in ps || SameAt(ws1, ws2, p)
    ensures Reset(ws1, ws0, ps) == Reset(ws2, ws0, ps)
  {
    var r1, r2 := Reset(ws1, ws0, ps), Reset(ws2, ws0, ps);
    forall p ensures (p in r1 <==> p in r2) && (p in r1 ==> r1[p] == r2[p]) {
      assert p in ps || SameAt(ws1, ws2, p);
    }
  }

  lemma ResetFresh(ws: Tree, ws0: Tree, ps: seq<Path>)
    requires Agree(ws, ws0, ps)
    ensures Reset(ws, ws0, ps) == ws
  {
    var r := Reset(ws, ws0, ps);
    forall p ensures (p in r <==> p in ws) && (p in r ==> r[p] == ws[p]) {
      if p in ps { assert SameAt(ws, ws0, p); }
    }
  }

  /** Expectations depend on the inputs alone. */
  lemma ExpectedLocal(x: Setup, a: Action, ws1: Tree, ws2: Tree)
    requires a.command != [] && Agree(ws1, ws2, a.inputs)
    ensures SameEnd(a, Expected(x, a, ws1), Expected(x, a, ws2))
  {
    var r1, r2 := Reset(ws1, x.ws0, a.outputs), Reset(ws2, x.ws0, a.outputs);
    forall p | p in a.inputs ensures SameAt(r1, r2, p) { assert SameAt(ws1, ws2, p); }
    forall p | p in a.outputs ensures SameAt(r1, r2, p) {}
    FinishFromStart(x.m, a, r1);
    FinishFromStart(x.m, a, r2);
    FinishLocal(x.m, a, Checking(0), r1, r2);
  }

  lemma SameEndTransitive(a: Action, r1: Ran, r2: Ran, r3: Ran)
    requires SameEnd(a, r1, r2) && SameEnd(a, r2, r3)
    ensures SameEnd(a, r1, r3) && SameEnd(a, r2, r1)
  {
    forall p | p in a.outputs ensures SameAt(r1.ws, r3.ws, p) && SameAt(r2.ws, r1.ws, p) {
      assert SameAt(r1.ws, r2.ws, p) && SameAt(r2.ws, r3.ws, p);
    }
  }

  lemma WeatheredIsHonest(w: World, cache: Option<Cache>, cache': Option<Cache>)
    requires Weathered(w, cache, cache') && CacheHonest(w, cache)
    ensures CacheHonest(w, cache')
  {
    if cache.Some? { WeathersIsHonest(w, cache.value, cache'.value); }
  }

  /** A step of its own keeps an action on track, and an honest cache honest. */
  lemma StageStays(x: Setup, a: Action, st: Stage, ws: Tree, cache: Option<Cache>, now: int)
    requires a.command != [] && NoOverlap(a) && StageOnTrack(x, a, st, ws) && !st.Ready?
    requires cache.Some? == x.cache0.Some? && CacheHonest(x.m.w, cache)
    requires cache.Some? ==> GoodHash(x.m.w.hash) && ToolOf(x.m, a).Some?
    ensures var (st', ws', cache') := Step(x.m, a, st, ws, cache, now);
      StageOnTrack(x, a, st', ws') && cache'.Some? == cache.Some? && CacheHonest(x.m.w, cache')
  {
    var base := Reset(ws, x.ws0, a.outputs);
    forall p | p in a.inputs ensures SameAt(ws, base, p) {}
    StepKeepsEnd(x.m, a, st, ws, cache, now, base);
    var (st', ws', cache') := Step(x.m, a, st, ws, cache, now);
    forall p ensures p in a.outputs || SameAt(ws', ws, p) {
      if p !in a.outputs { StepFrame(x.m, a, st, ws, cache, now, p); }
    }
    ResetSame(ws', ws, x.ws0, a.outputs);
    SameEndTransitive(a, End(x.m, a, st', ws'), End(x.m, a, st, ws), Expected(x, a, ws));
  }

  lemma WorkKeepsOwn(x: Setup, b: BState, n: string, found: Option<Cache>, now: int)
    requires ValidSetup(x) && Disciplined(x.c.g) && FilesInv(x, b) && CanWork(x, b, n, found)
    ensures OnTrack(x, Worked(x, b, n, found, now), n)
    ensures var cache' := Worked(x, b, n, found, now).cache;
      cache'.Some? == x.cache0.Some? && CacheHonest(x.m.w, cache')
  {
    assert OnTrack(x, b, n);
    ReadsNoneOfItsOwn(x, n);
    WeatheredIsHonest(x.m.w, b.cache, found);
    assert found.Some? ==> ToolFound(x.m, ActionOf(x, n));
    StageStays(x, ActionOf(x, n), b.local[n], b.ws, found, now);
  }

  lemma WorkFrame(x: Setup, b: BState, n: string, found: Option<Cache>, now: int, p: Path)
    requires ValidSetup(x) && CanWork(x, b, n, found) && OnTrack(x, b, n)
    requires b.cache.Some? == x.cache0.Some? && p !in ActionOf(x, n).outputs
    ensures SameAt(b.ws, Worked(x, b, n, found, now).ws, p)
  {
    StepFrame(x.m, ActionOf(x, n), b.local[n], b.ws, found, now, p);
  }

  /** What n writes is no input or output of any other action that has entered Run, and no
      output of any other action. */
  lemma WorkIsApart(x: Setup, b: BState, n: string, found: Option<Cache>, now: int, k: string)
    requires ValidSetup(x) && Disciplined(x.c.g) && FilesInv(x, b) && CanWork(x, b, n, found)
    requires k != n && k in x.c.g.actions
    ensures var ws' := Worked(x, b, n, found, now).ws;
      && Agree(b.ws, ws', x.c.g.actions[k].outputs)
      && (k in b.local ==> Agree(b.ws, ws', x.c.g.actions[k].inputs))
  {
    var a, ws' := ActionOf(x, n), Worked(x, b, n, found, now).ws;
    assert OnTrack(x, b, n);
    forall p | p in x.c.g.actions[k].outputs ensures SameAt(b.ws, ws', p) {
      assert OneProducer(x.c.g, n, k, p);
      WorkFrame(x, b, n, found, now, p);
    }
    if k in b.local {
      forall p | p in x.c.g.actions[k].inputs ensures SameAt(b.ws, ws', p) {
        assert ReadsUpstream(x.c.g, k, n, p);
        if p in a.outputs { NobodyUpstreamRuns(x, b, k, n); }
        WorkFrame(x, b, n, found, now, p);
      }
    }
  }

  lemma WorkKeepsOther(x: Setup, b: BState, n: string, found: Option<Cache>, now: int, k: string)
    requires ValidSetup(x) && Disciplined(x.c.g) && FilesInv(x, b) && CanWork(x, b, n, found) && k != n
    ensures OnTrack(x, Worked(x, b, n, found, now), k)
  {
    assert OnTrack(x, b, k);
    var b' := Worked(x, b, n, found, now);
    if k in x.c.g.actions {
      WorkIsApart(x, b, n, found, now, k);
      StaysOnTrack(x, b, b', k);
    }
  }

  lemma StaysOnTrack(x: Setup, b: BState, b': BState, k: string)
    requires k in x.c.g.actions && OnTrack(x, b, k) && (k in b.local <==> k in b'.local)
    requires Agree(b.ws, b'.ws, x.c.g.actions[k].outputs)
    requires k in b.local ==> b'.local[k] == b.local[k] && Agree(b.ws, b'.ws, x.c.g.actions[k].inputs)
    ensures OnTrack(x, b', k)
  {
    var a := ActionOf(x, k);
    if a.command != [] && k in b.local {
      OnTrackElsewhere(x, a, b.local[k], b.ws, b'.ws);
    } else {
      forall p | p in a.outputs && a.command != [] ensures SameAt(b'.ws, x.ws0, p) {
        assert SameAt(b.ws, b'.ws, p) && SameAt(b.ws, x.ws0, p);
      }
    }
  }

  lemma OnTrackElsewhere(x: Setup, a: Action, st: Stage, ws: Tree, ws': Tree)
    requires a.command != [] && StageOnTrack(x, a, st, ws)
    requires Agree(ws, ws', a.inputs) && Agree(ws, ws', a.outputs)
    ensures StageOnTrack(x, a, st, ws')
  {
    FitsLocal(x.m, a, st, ws, ws', x.cache0.Some?);
    EndLocal(x.m, a, st, ws, ws', x.cache0.Some?);
    ExpectedLocal(x, a, ws, ws');
    var end, end' := End(x.m, a, st, ws), End(x.m, a, st, ws');
    SameEndTransitive(a, end, end', end');
    SameEndTransitive(a, end', end, Expected(x, a, ws));
    SameEndTransitive(a, end', Expected(x, a, ws), Expected(x, a, ws'));
  }

  lemma WorkKeepsLocal(x: Setup, b: BState, n: string, found: Option<Cache>, now: int)
    requires Drivers.HasCommands(x.c.g) && Inv(x.c, b.s) && CanWork(x, b, n, found) && forall k :: LocalFits(b, k)
    ensures forall k :: LocalFits(Worked(x, b, n, found, now), k)
  {
    var b' := Worked(x, b, n, found, now);
    assert n in Elems(x.c.g.names);
    assert ActionInv(x.c, b.s, n);
    forall k ensures LocalFits(b', k) { assert LocalFits(b, k); }
  }

  lemma WorkKeepsSources(x: Setup, b: BState, n: string, found: Option<Cache>, now: int, p: Path)
    requires ValidSetup(x) && FilesInv(x, b) && CanWork(x, b, n, found)
    ensures SourceKept(x.c.g, Worked(x, b, n, found, now).ws, x.ws0, p)
  {
    assert OnTrack(x, b, n) && SourceKept(x.c.g, b.ws, x.ws0, p);
    if !Produced(x.c.g, p) { WorkFrame(x, b, n, found, now, p); }
  }

  lemma WorkKeepsFiles(x: Setup, b: BState, n: string, found: Option<Cache>, now: int)
    requires ValidSetup(x) && Disciplined(x.c.g) && FilesInv(x, b) && CanWork(x, b, n, found)
    ensures FilesInv(x, Worked(x, b, n, found, now))
  {
    var b' := Worked(x, b, n, found, now);
    WorkKeepsLocal(x, b, n, found, now);
    WorkKeepsOwn(x, b, n, found, now);
    forall k ensures OnTrack(x, b', k) { if k != n { WorkKeepsOther(x, b, n, found, now, k); } }
    forall p ensures SourceKept(x.c.g, b'.ws, x.ws0, p) { WorkKeepsSources(x, b, n, found, now, p); }
  }

  lemma WorkKeepsInv(x: Setup, b: BState, n: string, found: Option<Cache>, now: int)
    requires ValidSetup(x) && Disciplined(x.c.g) && BInv(x, b) && CanWork(x, b, n, found)
    ensures BInv(x, Worked(x, b, n, found, now))
  {
    WorkKeepsFiles(x, b, n, found, now);
  }

  lemma RecordingFits(x: Setup, b: BState, ev: Event)
    requires CanControl(x, b, ev) && (ev.Publish? || ev.Skip?)
    requires ActionInv(x.c, b.s, ev.n) && ListInv(b.s, ev.n) && LocalFits(b, ev.n)
    ensures LocalFits(Controlled(x, b, ev), ev.n)
  {
  }

  lemma MovingFits(x: Setup, b: BState, ev: Event)
    requires CanControl(x, b, ev) && !ev.Publish? && !ev.Skip?
    requires ActionInv(x.c, b.s, ev.n) && LocalFits(b, ev.n)
    ensures LocalFits(Controlled(x, b, ev), ev.n)
  {
  }

  lemma ControlFitsActor(x: Setup, b: BState, ev: Event)
    requires CanControl(x, b, ev) && ActionInv(x.c, b.s, ev.n) && ListInv(b.s, ev.n) && LocalFits(b, ev.n)
    ensures LocalFits(Controlled(x, b, ev), ev.n)
  {
    if ev.Publish? || ev.Skip? { RecordingFits(x, b, ev); } else { MovingFits(x, b, ev); }
  }

  lemma ControlLists(c: Config, s: State, ev: Event, k: string)
    requires Enabled(c, s, ev) && !ev.CallerCancel? && k != ev.n
    ensures k in Apply(c, s, ev).results <==> k in s.results
  {
  }

  lemma ControlFitsOther(x: Setup, b: BState, ev: Event, k: string)
    requires CanControl(x, b, ev) && Inv(x.c, b.s) && LocalFits(b, k) && k != ev.n
    ensures LocalFits(Controlled(x, b, ev), k)
  {
    StepTouches(x.c, b.s, ev);
    ControlLists(x.c, b.s, ev, k);
  }

  lemma EnteringOnTrack(x: Setup, a: Action, ws: Tree)
    requires a.command != [] && Agree(ws, x.ws0, a.outputs)
    ensures StageOnTrack(x, a, Opening(0), ws)
  {
    ResetFresh(ws, x.ws0, a.outputs);
    FinishFromStart(x.m, a, ws);
    SameEndReflexive(a, RunPlain(x.m, a, ws, false));
  }

  lemma ControlKeepsInv(x: Setup, b: BState, ev: Event)
    requires ValidSetup(x) && BInv(x, b) && CanControl(x, b, ev)
    ensures BInv(x, Controlled(x, b, ev))
  {
    ActionsStep(x.c, b.s, ev);
    SlotsStep(x.c, b.s, ev);
    ListsStep(x.c, b.s, ev);
    SkipsStep(x.c, b.s, ev);
    HonestStep(x.c, b.s, ev);
    ControlKeepsLocal(x, b, ev);
    ControlKeepsTracks(x, b, ev);
  }

  lemma ControlKeepsLocal(x: Setup, b: BState, ev: Event)
    requires Inv(x.c, b.s) && CanControl(x, b, ev) && forall k :: LocalFits(b, k)
    ensures forall k :: LocalFits(Controlled(x, b, ev), k)
  {
    var b' := Controlled(x, b, ev);
    MovesOne(x.c, b.s, ev);
    assert ev.n in Elems(x.c.g.names);
    assert ActionInv(x.c, b.s, ev.n) && ListInv(b.s, ev.n);
    forall k ensures LocalFits(b', k) {
      assert LocalFits(b, k);
      if k != ev.n { ControlFitsOther(x, b, ev, k); } else { ControlFitsActor(x, b, ev); }
    }
  }

  lemma ControlKeepsTracks(x: Setup, b: BState, ev: Event)
    requires ValidSetup(x) && FilesInv(x, b) && CanControl(x, b, ev)
    ensures forall k :: OnTrack(x, Controlled(x, b, ev), k)
    ensures forall p :: SourceKept(x.c.g, Controlled(x, b, ev).ws, x.ws0, p)
  {
    var b' := Controlled(x, b, ev);
    if ev.Acquire? { AcquireOnTrack(x, b, ev.n); }
    forall k ensures OnTrack(x, b', k) { assert OnTrack(x, b, k); }
  }

  lemma NotYetEntered(x: Setup, b: BState, n: string)
    requires FilesInv(x, b) && At(b.s, n, Acquiring)
    ensures n !in b.local && n in x.c.g.names
  {
    assert n in Elems(x.c.g.names);
    assert ActionInv(x.c, b.s, n) && LocalFits(b, n);
  }

  lemma AcquireOnTrack(x: Setup, b: BState, n: string)
    requires ValidSetup(x) && FilesInv(x, b) && At(b.s, n, Acquiring)
    ensures OnTrack(x, BState(b.s, b.ws, b.cache, b.local[n := Opening(0)]), n)
  {
    NotYetEntered(x, b, n);
    assert OnTrack(x, b, n);
    EnteringOnTrack(x, ActionOf(x, n), b.ws);
  }

  /** Every reachable state of the build on bytes satisfies the invariant. */
  lemma {:induction false} BReachable(x: Setup, es: seq<BEvent>)
    requires ValidSetup(x) && Disciplined(x.c.g) && BLegal(x, es)
    ensures BInv(x, BExec(x, es))
    decreases |es|
  {
    if es == [] {
      InitInv(x.c);
      StartInv(x);
    } else {
      BReachable(x, es[..|es| - 1]);
      var b := BExec(x, es[..|es| - 1]);
      match es[|es| - 1] {
        case Control(ev) => ControlKeepsInv(x, b, ev);
        case Work(n, found, now) => WorkKeepsInv(x, b, n, found, now);
      }
    }
  }

  lemma StartInv(x: Setup)
    requires ValidSetup(x) && Inv(x.c, Init(x.c))
    ensures BInv(x, BInit(x))
  {
    var b := BInit(x);
    forall n ensures SkipReason(x.c, Init(x.c), n) {}
    forall n ensures HonestAt(x.c, Init(x.c), n) {}
    forall n ensures LocalFits(b, n) {}
    forall n ensures OnTrack(x, b, n) {}
    forall p ensures SourceKept(x.c.g, b.ws, x.ws0, p) {}
  }
}
