/** internal/runner/build.go, Build: the loop over the topological order, proved to do what
    the driver of Sequential does to the workspace, the cache and the summary. */
module SequentialBuild {
  import opened Sorting
  import opened Graphs
  import opened Cycles
  import opened Kahn
  import opened Keys
  import opened Stores
  import opened Scheduler
  import opened Runners
  import opened SchedulerOutcome
  import opened Sequential

  /** What the clock and the context do during one action. */
  datatype Tick = Tick(killed: bool, now: int)

  /** What manifest.Validate guarantees about commands. */
  ghost predicate HasCommands(g: Graph) {
    forall n :: n in g.actions ==> g.actions[n].command != []
  }

  ghost function RunNamed(m: Machine, g: Graph, ticks: nat -> Tick, s: Site, i: nat, n: string): (Site, Outcome) {
    if n in g.actions && g.actions[n].command != []
    then RunSite(m, g.actions[n], s, ticks(i).killed, ticks(i).now)
    else (s, RanOK)
  }

  ghost function BuildDriver(m: Machine, g: Graph, order: seq<string>, keepGoing: bool, stopAt: nat,
                             ticks: nat -> Tick): Driver<Site>
  {
    Driver(g, order, keepGoing, stopAt, (s: Site, i: nat, n: string) => RunNamed(m, g, ticks, s, i, n))
  }

  // ---- when the numbers of the summary add up ----

  ghost function Total(b: Book): int { Succeeded(b.results, b.failed) + |b.failed| + |b.skipped| }

  /** Succeeded, Failed and Skipped account for every action if and only if every action
      whose turn comes finds its inputs, resolves its tool when there is a cache, and
      declares no input twice (or is restored). */
  lemma SummaryExact(m: Machine, g: Graph, order: seq<string>, keepGoing: bool, stopAt: nat, ticks: nat -> Tick,
                     s0: Site)
    requires g.WellFormed() && IsTopological(g, order) && HasCommands(g)
    ensures var d := BuildDriver(m, g, order, keepGoing, stopAt, ticks);
      Total(Final(d, s0)) == |g.names| <==>
        forall i :: 0 <= i < |order| && TurnComes(d, s0, i) ==> TurnStarts(m, g, order, Drive(d, s0, i).world, i)
  {
    var d := BuildDriver(m, g, order, keepGoing, stopAt, ticks);
    SequentialSummary(d, s0);
    forall i | 0 <= i < |order| && TurnComes(d, s0, i)
      ensures NoResultAt(d, s0, i) <==> !TurnStarts(m, g, order, Drive(d, s0, i).world, i)
    {
      OrderNamed(g, order, i);
      RunOfDriver(m, g, order, keepGoing, stopAt, ticks, Drive(d, s0, i).world, i);
      NoResultIff(m, g.actions[order[i]], Drive(d, s0, i).world, ticks(i).killed, ticks(i).now);
    }
  }

  ghost predicate TurnStarts(m: Machine, g: Graph, order: seq<string>, s: Site, i: nat) {
    i < |order| && order[i] in g.actions && g.actions[order[i]].command != [] && CanStart(m, g.actions[order[i]], s)
  }

  /** One action whose declared input is not in the workspace. */
  function OneAction(): Graph {
    Graph(map["compile" := Action("compile", [], ["main.c"], ["main.o"], ["cc"], map[])], map[], map[], ["compile"])
  }

  lemma OneActionValid()
    ensures OneAction().WellFormed() && HasCommands(OneAction()) && IsTopological(OneAction(), ["compile"])
  {
    var g := OneAction();
    forall n, d ensures EdgeAgrees(g.deps, g.rdeps, n, d) {}
    forall i, j ensures InOrder(g.names, AtMost, i, j) {}
    forall i ensures DepsBefore(g, ["compile"], i) {}
  }

  /** Its build reports Succeeded as -1, and the three numbers sum to 0 instead of 1. */
  lemma MissingInputMiscounts(m: Machine, keepGoing: bool, ticks: nat -> Tick)
    ensures var b := Final(BuildDriver(m, OneAction(), ["compile"], keepGoing, 1, ticks), Site(map[], None));
      && b.results == [] && b.failed == ["compile"] && b.skipped == []
      && Succeeded(b.results, b.failed) == -1 && Total(b) == 0 && |OneAction().names| == 1
  {
    var g := OneAction();
    var d := BuildDriver(m, g, ["compile"], keepGoing, 1, ticks);
    var s0 := Site(map[], None);
    OneActionValid();
    assert "main.c" in g.actions["compile"].inputs && "main.c" !in View(map[]);
    RunOfDriver(m, g, ["compile"], keepGoing, 1, ticks, s0, 0);
    assert Drive(d, s0, 0) == Progress(s0, EMPTY_BOOK);
    assert Drive(d, s0, 1) == StepAt(d, 0, Drive(d, s0, 0));
  }

  datatype Summary = Summary(results: seq<string>, failed: seq<string>, skipped: seq<string>)
  datatype BuildResult = CycleFound(cycle: seq<string>) | Built(sum: Summary, err: Option<BuildError>)

  ghost predicate Reports(sum: Summary, err: Option<BuildError>, b: Book) {
    sum.results == b.results && sum.failed == b.failed && sum.skipped == b.skipped && err == b.firstErr
  }

  /** The loop has dealt with the first i actions. */
  ghost predicate UpTo(d: Driver<Site>, s0: Site, i: nat, s: Site, sum: Summary, err: Option<BuildError>,
                       poisoned: set<string>)
  {
    && i <= |d.order|
    && var p := Drive(d, s0, i);
       p.world == s && Reports(sum, err, p.book) && p.book.poisoned == poisoned && !p.book.stopped
  }

  lemma SkipRound(d: Driver<Site>, s0: Site, i: nat, s: Site, sum: Summary, err: Option<BuildError>,
                  poisoned: set<string>)
    requires UpTo(d, s0, i, s, sum, err, poisoned) && i < |d.order|
    requires d.order[i] in poisoned || i >= d.stopAt
    ensures var n := d.order[i];
      UpTo(d, s0, i + 1, s, sum.(skipped := sum.skipped + [n]),
           if n in poisoned then err else Earlier(err, Some(ContextCancelled(n))), poisoned + Downstream(d.g, n))
  {
  }

  function Noted(sum: Summary, n: string, outcome: Outcome): Summary {
    match outcome
    case RanOK => sum.(results := sum.results + [n])
    case RunFailed(hasResult, _) =>
      sum.(results := if hasResult then sum.results + [n] else sum.results, failed := sum.failed + [n])
  }

  lemma RunRound(d: Driver<Site>, s0: Site, i: nat, s: Site, sum: Summary, err: Option<BuildError>,
                 poisoned: set<string>,
                 s': Site, outcome: Outcome)
    requires UpTo(d, s0, i, s, sum, err, poisoned) && i < |d.order|
    requires d.order[i] !in poisoned && i < d.stopAt && d.run(s, i, d.order[i]) == (s', outcome)
    ensures outcome.RanOK? ==> UpTo(d, s0, i + 1, s', Noted(sum, d.order[i], outcome), err, poisoned)
    ensures outcome.RunFailed? && d.keepGoing ==>
      UpTo(d, s0, i + 1, s', Noted(sum, d.order[i], outcome), Earlier(err, Some(outcome.err)),
        poisoned + Downstream(d.g, d.order[i]))
    ensures outcome.RunFailed? && !d.keepGoing ==>
      Ends(d, s0, s', Noted(sum, d.order[i], outcome).(skipped := sum.skipped + d.order[i + 1..]),
        Earlier(err, Some(outcome.err)))
  {
    if outcome.RunFailed? && !d.keepGoing {
      StoppedRest(d, s0, i + 1, |d.order|);
      assert d.order[i + 1..|d.order|] == d.order[i + 1..];
    }
  }

  /** How the whole build ends. */
  ghost predicate Ends(d: Driver<Site>, s0: Site, s: Site, sum: Summary, err: Option<BuildError>) {
    var p := Drive(d, s0, |d.order|);
    p.world == s && Reports(sum, err, p.book)
  }

  lemma RunOfDriver(m: Machine, g: Graph, order: seq<string>, keepGoing: bool, stopAt: nat, ticks: nat -> Tick,
                    s: Site, i: nat)
    requires i < |order| && order[i] in g.actions && HasCommands(g)
    ensures BuildDriver(m, g, order, keepGoing, stopAt, ticks).run(s, i, order[i])
         == RunSite(m, g.actions[order[i]], s, ticks(i).killed, ticks(i).now)
  {
  }

  lemma PoisonedClosed<W>(d: Driver<W>, w0: W, i: nat)
    requires ValidDriver(d) && i <= |d.order| && !Drive(d, w0, i).book.stopped
    ensures ClosedUnder(d.g, Drive(d, w0, i).book.poisoned)
  {
    DriveKeepsInv(d, w0, i);
  }

  lemma OrderNamed(g: Graph, order: seq<string>, i: nat)
    requires g.WellFormed() && IsTopological(g, order) && i < |order|
    ensures order[i] in g.actions
  {
    assert order[i] in Elems(order);
  }

  /** Build: a cycle is reported and nothing runs; otherwise the actions run one by one in
      the canonical order. */
  method Build(g: Graph, r: Runner, keepGoing: bool, stopAt: nat, ticks: nat -> Tick)
    returns (res: BuildResult, ghost order: seq<string>)
    requires g.WellFormed() && HasCommands(g) && r.Valid() && GoodHash(r.m.w.hash)
    modifies r.ws, r.tools, if r.store != null then {r.store} else {}
    ensures res.Built? <==> Acyclic(g)
    ensures res.CycleFound? ==> IsSimpleCycle(g, res.cycle) && r.CurrentSite() == old(r.CurrentSite())
    ensures res.Built? ==> Canonical(g, order)
    ensures res.Built? ==>
      Ends(BuildDriver(r.m, g, order, keepGoing, stopAt, ticks), old(r.CurrentSite()), r.CurrentSite(),
           res.sum, res.err)
  {
    var topological := TopologicalOrder(g);
    if topological.CycleError? { return CycleFound(topological.cycle), []; }
    order := topological.order;
    var sum, err := Loop(g, topological.order, r, keepGoing, stopAt, ticks);
    return Built(sum, err), order;
  }

  lemma BeforeTheFirst(d: Driver<Site>, s0: Site)
    ensures UpTo(d, s0, 0, s0, Summary([], [], []), None, {})
  {
  }

  lemma AfterTheLast(d: Driver<Site>, s0: Site, s: Site, sum: Summary, err: Option<BuildError>, poisoned: set<string>)
    requires UpTo(d, s0, |d.order|, s, sum, err, poisoned)
    ensures Ends(d, s0, s, sum, err)
  {
  }

  /** The loop of Build. */
  method Loop(g: Graph, names: seq<string>, r: Runner, keepGoing: bool, stopAt: nat, ticks: nat -> Tick)
    returns (sum: Summary, firstErr: Option<BuildError>)
    requires g.WellFormed() && IsTopological(g, names) && HasCommands(g) && r.Valid() && GoodHash(r.m.w.hash)
    modifies r.ws, r.tools, if r.store != null then {r.store} else {}
    ensures Ends(BuildDriver(r.m, g, names, keepGoing, stopAt, ticks), old(r.CurrentSite()), r.CurrentSite(),
                 sum, firstErr)
  {
    ghost var d := BuildDriver(r.m, g, names, keepGoing, stopAt, ticks);
    ghost var s0 := r.CurrentSite();
    var poison := new Poison(g);
    sum, firstErr := Summary([], [], []), None;
    BeforeTheFirst(d, s0);
    for i := 0 to |names|
      invariant r.Valid() && poison.g == g && fresh(poison)
      invariant UpTo(d, s0, i, r.CurrentSite(), sum, firstErr, poison.poisoned)
    {
      var over;
      over, sum, firstErr := Turn(g, names, r, keepGoing, stopAt, ticks, s0, i, poison, sum, firstErr);
      if over { return sum, firstErr; }
    }
    AfterTheLast(d, s0, r.CurrentSite(), sum, firstErr, poison.poisoned);
  }

  /** The turn of the i-th action: skipped, or run; over says that fail-fast ends the build. */
  method Turn(g: Graph, names: seq<string>, r: Runner, keepGoing: bool, stopAt: nat, ticks: nat -> Tick, ghost s0: Site,
              i: nat, poison: Poison, sum0: Summary, err0: Option<BuildError>)
    returns (over: bool, sum: Summary, firstErr: Option<BuildError>)
    requires g.WellFormed() && IsTopological(g, names) && HasCommands(g) && r.Valid() && GoodHash(r.m.w.hash)
    requires UpTo(BuildDriver(r.m, g, names, keepGoing, stopAt, ticks), s0, i, r.CurrentSite(),
                  sum0, err0, poison.poisoned)
    requires i < |names| && poison.g == g
    modifies r.ws, r.tools, poison, if r.store != null then {r.store} else {}
    ensures r.Valid()
    ensures !over ==>
      UpTo(BuildDriver(r.m, g, names, keepGoing, stopAt, ticks), s0, i + 1, r.CurrentSite(), sum, firstErr,
           poison.poisoned)
    ensures over ==> Ends(BuildDriver(r.m, g, names, keepGoing, stopAt, ticks), s0, r.CurrentSite(), sum, firstErr)
  {
    ghost var d := BuildDriver(r.m, g, names, keepGoing, stopAt, ticks);
    PoisonedClosed(d, s0, i);
    if names[i] in poison.poisoned || i >= stopAt {
      sum, firstErr := SkipTurn(d, s0, i, names[i], r, poison, sum0, err0);
      over := false;
    } else {
      over, sum, firstErr := RunTurn(g, names, r, keepGoing, stopAt, ticks, s0, i, poison, sum0, err0);
    }
  }

  method SkipTurn(ghost d: Driver<Site>, ghost s0: Site, i: nat, name: string, r: Runner, poison: Poison,
                  sum0: Summary, err0: Option<BuildError>)
    returns (sum: Summary, firstErr: Option<BuildError>)
    requires ValidDriver(d) && poison.g == d.g && UpTo(d, s0, i, r.CurrentSite(), sum0, err0, poison.poisoned)
    requires i < |d.order| && name == d.order[i] && (d.order[i] in poison.poisoned || i >= d.stopAt)
      && ClosedUnder(d.g, poison.poisoned)
    modifies poison
    ensures UpTo(d, s0, i + 1, r.CurrentSite(), sum, firstErr, poison.poisoned)
  {
    SkipRound(d, s0, i, r.CurrentSite(), sum0, err0, poison.poisoned);
    sum, firstErr := sum0.(skipped := sum0.skipped + [name]), err0;
    if name !in poison.poisoned && firstErr.None? { firstErr := Some(ContextCancelled(name)); }
    poison.MarkDependents(name);
  }

  method RunTurn(g: Graph, names: seq<string>, r: Runner, keepGoing: bool, stopAt: nat, ticks: nat -> Tick,
                 ghost s0: Site, i: nat, poison: Poison, sum0: Summary, err0: Option<BuildError>)
    returns (over: bool, sum: Summary, firstErr: Option<BuildError>)
    requires g.WellFormed() && IsTopological(g, names) && HasCommands(g) && r.Valid() && GoodHash(r.m.w.hash)
    requires UpTo(BuildDriver(r.m, g, names, keepGoing, stopAt, ticks), s0, i, r.CurrentSite(),
                  sum0, err0, poison.poisoned)
    requires i < |names| && names[i] !in poison.poisoned && i < stopAt
    requires poison.g == g && ClosedUnder(g, poison.poisoned)
    modifies r.ws, r.tools, poison, if r.store != null then {r.store} else {}
    ensures r.Valid()
    ensures !over ==>
      UpTo(BuildDriver(r.m, g, names, keepGoing, stopAt, ticks), s0, i + 1, r.CurrentSite(), sum, firstErr,
           poison.poisoned)
    ensures over ==> Ends(BuildDriver(r.m, g, names, keepGoing, stopAt, ticks), s0, r.CurrentSite(), sum, firstErr)
  {
    ghost var d, s := BuildDriver(r.m, g, names, keepGoing, stopAt, ticks), r.CurrentSite();
    var name := names[i];
    OrderNamed(g, names, i);
    RunOfDriver(r.m, g, names, keepGoing, stopAt, ticks, s, i);
    var outcome, cached := r.Run(g.actions[name], ticks(i).killed, ticks(i).now);
    RunRound(d, s0, i, s, sum0, err0, poison.poisoned, r.CurrentSite(), outcome);
    sum, firstErr := Noted(sum0, name, outcome), err0;
    if outcome.RanOK? { return false, sum, firstErr; }
    if firstErr.None? { firstErr := Some(outcome.err); }
    if !keepGoing {
      return true, sum.(skipped := sum.skipped + names[i + 1..]), firstErr;
    }
    poison.MarkDependents(name);
    return false, sum, firstErr;
  }
}
