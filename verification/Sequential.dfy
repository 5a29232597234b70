/** internal/runner/build.go: the sequential driver, the poisoning of everything downstream
    of an action that did not succeed, and the summary. */
module Sequential {
  import opened Graphs
  import opened Cycles
  import opened Kahn
  import opened Scheduler
  import opened SchedulerOutcome
  import SchedulerRuns

  // ---- downstream ----

  /** m waits on n, directly or through others. */
  ghost predicate DependsOn(g: Graph, m: string, n: string) {
    exists w :: WalkFromTo(g, w, m, n)
  }

  ghost predicate WalkFromTo(g: Graph, w: seq<string>, m: string, n: string) {
    |w| >= 2 && IsWalk(g, w) && w[0] == m && w[|w| - 1] == n
  }

  ghost function Downstream(g: Graph, n: string): set<string> {
    set m | m in g.names && DependsOn(g, m, n)
  }

  /** Everything that waits on a member is a member. */
  ghost predicate ClosedUnder(g: Graph, s: set<string>) {
    forall x, d :: x in s && d in g.Dependents(x) ==> d in s
  }

  lemma DependentsDownstream(g: Graph, n: string, d: string)
    requires g.WellFormed() && d in g.Dependents(n)
    ensures d in Downstream(g, n)
  {
    DependentsNamed(g, n, d);
    assert WalkFromTo(g, [d, n], d, n);
  }

  lemma DownstreamClosed(g: Graph, n: string, x: string, d: string)
    requires g.WellFormed() && x in Downstream(g, n) && d in g.Dependents(x)
    ensures d in Downstream(g, n)
  {
    DependentsNamed(g, x, d);
    var w :| WalkFromTo(g, w, x, n);
    var v := [d] + w;
    forall i | 0 <= i < |v| - 1 ensures Edge(g, v[i], v[i + 1]) {
      if i > 0 { assert Edge(g, w[i - 1], w[i - 1 + 1]); }
    }
    assert WalkFromTo(g, v, d, n);
  }

  /** Downstream is the least closed set that holds the direct dependents. */
  lemma {:induction false} DownstreamLeast(g: Graph, n: string, s: set<string>, w: seq<string>, k: nat)
    requires g.WellFormed() && ClosedUnder(g, s) && forall d :: d in g.Dependents(n) ==> d in s
    requires |w| >= 2 && IsWalk(g, w) && w[|w| - 1] == n && k < |w| - 1
    ensures w[k] in s
    decreases |w| - k
  {
    assert Edge(g, w[k], w[k + 1]);
    DependentsNamed(g, w[k + 1], w[k]);
    if k + 1 < |w| - 1 { DownstreamLeast(g, n, s, w, k + 1); }
  }

  lemma DownstreamWithin(g: Graph, n: string, s: set<string>)
    requires g.WellFormed() && ClosedUnder(g, s) && forall d :: d in g.Dependents(n) ==> d in s
    ensures Downstream(g, n) <= s
  {
    forall m | m in Downstream(g, n) ensures m in s {
      var w :| WalkFromTo(g, w, m, n);
      DownstreamLeast(g, n, s, w, 0);
    }
  }

  /** The map of poisoned actions a build keeps. */
  class Poison {
    const g: Graph
    var poisoned: set<string>

    constructor (g: Graph)
      ensures this.g == g && poisoned == {}
    {
      this.g := g;
      poisoned := {};
    }

    /** Every action marked since then has all its dependents marked. */
    ghost predicate MarkedClosed(before: set<string>)
      reads this
    {
      forall x, d :: x in poisoned && x !in before && d in g.Dependents(x) ==> d in poisoned
    }

    /** markDependents ends on any graph, cyclic ones included, and although it turns back
        at every action already marked it adds exactly what is downstream of name, as long
        as what was marked before was closed. */
    method MarkDependents(name: string)
      requires g.WellFormed()
      modifies this
      ensures old(poisoned) <= poisoned <= old(poisoned) + Downstream(g, name)
      ensures MarkedClosed(old(poisoned)) && forall d :: d in g.Dependents(name) ==> d in poisoned
      ensures ClosedUnder(g, old(poisoned)) ==>
        ClosedUnder(g, poisoned) && poisoned == old(poisoned) + Downstream(g, name)
      decreases Elems(g.names) - poisoned
    {
      var rdeps := g.Dependents(name);
      for j := 0 to |rdeps|
        invariant old(poisoned) <= poisoned <= old(poisoned) + Downstream(g, name)
        invariant MarkedClosed(old(poisoned)) && forall i :: 0 <= i < j ==> rdeps[i] in poisoned
      {
        var d := rdeps[j];
        DependentsDownstream(g, name, d);
        DependentsNamed(g, name, d);
        if d !in poisoned {
          poisoned := poisoned + {d};
          DownstreamInside(g, name, d);
          MarkDependents(d);
        }
      }
      if ClosedUnder(g, old(poisoned)) { DownstreamWithin(g, name, poisoned); }
    }
  }

  lemma DownstreamInside(g: Graph, n: string, d: string)
    requires g.WellFormed() && d in g.Dependents(n)
    ensures Downstream(g, d) <= Downstream(g, n)
  {
    DependentsDownstream(g, n, d);
    assert ClosedUnder(g, Downstream(g, n)) by {
      forall x, y | x in Downstream(g, n) && y in g.Dependents(x) ensures y in Downstream(g, n) {
        DownstreamClosed(g, n, x, y);
      }
    }
    forall y | y in g.Dependents(d) ensures y in Downstream(g, n) { DownstreamClosed(g, n, d, y); }
    DownstreamWithin(g, d, Downstream(g, n));
  }

  // ---- the driver ----

  /** The books of a build: the three lists of the summary, the error, the poisoned
      actions, the verdict on each action so far, and whether fail-fast has ended it. */
  datatype Book = Book(
    results: seq<string>,
    failed: seq<string>,
    skipped: seq<string>,
    firstErr: Option<BuildError>,
    poisoned: set<string>,
    state: map<string, Status>,
    stopped: bool)

  datatype Progress<W> = Progress(world: W, book: Book)

  /** A build of g in the given order. The context is cancelled from the stopAt-th action
      on, and run says what running the i-th action does to the world. */
  datatype Driver<!W> = Driver(
    g: Graph,
    order: seq<string>,
    keepGoing: bool,
    stopAt: nat,
    run: (W, nat, string) -> (W, Outcome))

  const EMPTY_BOOK := Book([], [], [], None, {}, map[], false)

  function Earlier(a: Option<BuildError>, b: Option<BuildError>): Option<BuildError> {
    if a.Some? then a else b
  }

  /** n is skipped; err is the cancellation that caused it, if one did. */
  ghost function NoteSkip(g: Graph, b: Book, n: string, err: Option<BuildError>): Book {
    b.(skipped := b.skipped + [n], state := b.state[n := StatusSkipped],
       poisoned := b.poisoned + Downstream(g, n), firstErr := Earlier(b.firstErr, err))
  }

  ghost function NoteRun(g: Graph, keepGoing: bool, b: Book, n: string, outcome: Outcome): Book {
    match outcome
    case RanOK => b.(results := b.results + [n], state := b.state[n := StatusOK])
    case RunFailed(hasResult, err) =>
      b.(results := if hasResult then b.results + [n] else b.results, failed := b.failed + [n],
         state := b.state[n := StatusFailed], poisoned := b.poisoned + Downstream(g, n),
         firstErr := Earlier(b.firstErr, Some(err)), stopped := !keepGoing)
  }

  ghost function StepAt<W>(d: Driver<W>, i: nat, p: Progress<W>): Progress<W>
    requires i < |d.order|
  {
    var n := d.order[i];
    if p.book.stopped then
      p.(book := p.book.(skipped := p.book.skipped + [n], state := p.book.state[n := StatusSkipped]))
    else if n in p.book.poisoned then p.(book := NoteSkip(d.g, p.book, n, None))
    else if i >= d.stopAt then p.(book := NoteSkip(d.g, p.book, n, Some(ContextCancelled(n))))
    else
      var (w, outcome) := d.run(p.world, i, n);
      Progress(w, NoteRun(d.g, d.keepGoing, p.book, n, outcome))
  }

  /** The build after k actions. */
  ghost function Drive<W>(d: Driver<W>, w0: W, k: nat): Progress<W>
    requires k <= |d.order|
  {
    if k == 0 then Progress(w0, EMPTY_BOOK) else StepAt(d, k - 1, Drive(d, w0, k - 1))
  }

  // ---- what every step keeps ----

  ghost predicate Listed(b: Book, n: string) { Filed(b.results, b.failed, b.skipped, b.state, n) }

  ghost predicate Lists(b: Book) {
    && NoDup(b.failed) && NoDup(b.skipped) && NoDup(b.results)
    && (forall n :: Listed(b, n))
    && (b.firstErr.None? <==> AllOK(b.state))
    && (b.stopped ==> b.firstErr.Some?)
  }

  ghost predicate AllOK(state: map<string, Status>) { forall n :: n in state ==> state[n] == StatusOK }

  /** Why x is poisoned: one of its dependencies is, or is known not to be OK. */
  ghost predicate PoisonReason(g: Graph, b: Book, x: string) {
    exists d :: d in g.Dependencies(x) && (d in b.poisoned || StatusOf(b.state, d) != StatusOK)
  }

  ghost predicate Marked(g: Graph, b: Book, y: string) {
    && (y in b.state && b.state[y] != StatusOK ==> forall x :: x in g.Dependents(y) ==> x in b.poisoned)
    && (y in b.state && b.state[y] == StatusOK ==> y !in b.poisoned)
    && (y in b.poisoned ==> PoisonReason(g, b, y))
  }

  ghost predicate Poisoning(g: Graph, b: Book) {
    ClosedUnder(g, b.poisoned) && forall y :: Marked(g, b, y)
  }

  lemma ListsSkip(g: Graph, b: Book, n: string, err: Option<BuildError>)
    requires Lists(b) && n !in b.state && (err.Some? || b.firstErr.Some?)
    ensures Lists(NoteSkip(g, b, n, err))
  {
    var b' := NoteSkip(g, b, n, err);
    assert Listed(b, n);
    forall x ensures Listed(b', x) { assert Listed(b, x); }
    assert b'.state[n] == StatusSkipped;
  }

  lemma ListsRun(g: Graph, keepGoing: bool, b: Book, n: string, outcome: Outcome)
    requires Lists(b) && n !in b.state && !b.stopped
    ensures Lists(NoteRun(g, keepGoing, b, n, outcome))
  {
    var b' := NoteRun(g, keepGoing, b, n, outcome);
    assert Listed(b, n);
    forall x ensures Listed(b', x) { assert Listed(b, x); }
    assert b'.state[n] == if outcome.RanOK? then StatusOK else StatusFailed;
    if outcome.RanOK? && AllOK(b'.state) {
      forall x | x in b.state ensures b.state[x] == StatusOK { assert b'.state[x] == b.state[x]; }
    }
  }

  lemma ListsStopped(b: Book, b': Book, n: string)
    requires Lists(b) && n !in b.state && b.stopped
    requires b' == b.(skipped := b.skipped + [n], state := b.state[n := StatusSkipped])
    ensures Lists(b')
  {
    assert Listed(b, n);
    forall x ensures Listed(b', x) { assert Listed(b, x); }
    assert b'.state[n] == StatusSkipped;
  }

  /** An action already behind us does not wait on the one whose turn it is. */
  lemma NotDownstream(g: Graph, order: seq<string>, k: nat, y: string)
    requires g.WellFormed() && IsTopological(g, order) && k < |order| && y in order[..k]
    ensures y !in Downstream(g, order[k])
  {
    var j :| 0 <= j < |order[..k]| && order[..k][j] == y;
    PositionAt(order, j);
    PositionAt(order, k);
    if y in Downstream(g, order[k]) {
      var w :| WalkFromTo(g, w, y, order[k]);
      WalkDescends(g, order, w, |w| - 1);
    }
  }

  lemma PositionAt(order: seq<string>, i: nat)
    requires NoDup(order) && i < |order|
    ensures Position(order, order[i]) == i
  {
  }

  /** The turn of n comes after all its dependencies, and it is poisoned if and only if
      one of them is not OK. */
  lemma PoisonedIffBadDep(g: Graph, order: seq<string>, k: nat, b: Book)
    requires g.WellFormed() && IsTopological(g, order) && k < |order|
    requires Poisoning(g, b) && b.state.Keys == Elems(order[..k])
    ensures order[k] in b.poisoned <==> BadDep(g, b.state, order[k])
    ensures forall d :: d in g.Dependencies(order[k]) ==> d in b.state
  {
    var n := order[k];
    assert DepsBefore(g, order, k);
    forall d | d in g.Dependencies(n) ensures d in b.state { assert d in Elems(order[..k]); }
    if n in b.poisoned {
      assert Marked(g, b, n);
      var d :| d in g.Dependencies(n) && (d in b.poisoned || StatusOf(b.state, d) != StatusOK);
      assert Marked(g, b, d);
      assert StatusOf(b.state, d) != StatusOK;
    }
    if BadDep(g, b.state, n) {
      var d :| d in g.Dependencies(n) && StatusOf(b.state, d) != StatusOK;
      assert Marked(g, b, d);
      DependentsNamed(g, d, n);
    }
  }

  lemma DownstreamReason(g: Graph, n: string, x: string)
    requires x in Downstream(g, n)
    ensures exists d :: d in g.Dependencies(x) && (d == n || (d in g.names && DependsOn(g, d, n)))
    requires g.WellFormed()
  {
    var w :| WalkFromTo(g, w, x, n);
    assert Edge(g, w[0], w[0 + 1]);
    if |w| > 2 {
      forall i | 0 <= i < |w[1..]| - 1 ensures Edge(g, w[1..][i], w[1..][i + 1]) {
        assert Edge(g, w[i + 1], w[i + 1 + 1]);
      }
      assert WalkFromTo(g, w[1..], w[1], n);
    }
  }

  /** Poisoning everything downstream of an action that is not OK. */
  lemma PoisonMarks(g: Graph, order: seq<string>, k: nat, b: Book, b': Book)
    requires g.WellFormed() && IsTopological(g, order) && k < |order|
    requires Poisoning(g, b) && b.state.Keys == Elems(order[..k]) && order[k] !in b.state
    requires b'.poisoned == b.poisoned + Downstream(g, order[k])
    requires order[k] in b'.state && b'.state[order[k]] != StatusOK
      && b'.state == b.state[order[k] := b'.state[order[k]]]
    ensures Poisoning(g, b')
  {
    var n := order[k];
    forall x, d | x in b'.poisoned && d in g.Dependents(x) ensures d in b'.poisoned {
      if x in Downstream(g, n) { DownstreamClosed(g, n, x, d); }
    }
    forall y ensures Marked(g, b', y) {
      assert Marked(g, b, y);
      if y == n {
        forall x | x in g.Dependents(n) ensures x in b'.poisoned { DependentsDownstream(g, n, x); }
      } else if y in b.state {
        assert y in order[..k];
        NotDownstream(g, order, k, y);
      }
      if y in b'.poisoned { ReasonStays(g, b, b', n, y); }
    }
  }

  lemma ReasonStays(g: Graph, b: Book, b': Book, n: string, y: string)
    requires g.WellFormed() && y in b'.poisoned && b'.poisoned == b.poisoned + Downstream(g, n)
    requires n in b'.state && b'.state[n] != StatusOK && b'.state == b.state[n := b'.state[n]]
    requires Marked(g, b, y)
    ensures PoisonReason(g, b', y)
  {
    if y in b.poisoned {
      var d :| d in g.Dependencies(y) && (d in b.poisoned || StatusOf(b.state, d) != StatusOK);
      assert d in b'.poisoned || StatusOf(b'.state, d) != StatusOK;
    } else {
      DownstreamReason(g, n, y);
      var d :| d in g.Dependencies(y) && (d == n || (d in g.names && DependsOn(g, d, n)));
      assert d in b'.poisoned || StatusOf(b'.state, d) != StatusOK;
    }
  }

  lemma PoisonUnmoved(g: Graph, b: Book, b': Book, n: string)
    requires Poisoning(g, b) && n !in b.state && n !in b.poisoned
    requires b'.poisoned == b.poisoned && b'.state == b.state[n := StatusOK]
    ensures Poisoning(g, b')
  {
    forall y ensures Marked(g, b', y) {
      assert Marked(g, b, y);
      if y in b.poisoned {
        var d :| d in g.Dependencies(y) && (d in b.poisoned || StatusOf(b.state, d) != StatusOK);
        assert d in b'.poisoned || StatusOf(b'.state, d) != StatusOK;
      }
    }
  }

  /** The verdict on the i-th action: skipped if and only if a dependency is not OK or the
      context was cancelled by its turn. */
  ghost predicate Judged<W>(d: Driver<W>, state: map<string, Status>, i: nat) {
    i < |d.order| && d.order[i] in state &&
    (state[d.order[i]] == StatusSkipped <==> BadDep(d.g, state, d.order[i]) || i >= d.stopAt)
  }

  ghost predicate DriveInv<W>(d: Driver<W>, k: nat, b: Book) {
    && k <= |d.order|
    && Lists(b) && b.state.Keys == Elems(d.order[..k])
    && (!b.stopped ==> Poisoning(d.g, b) && AllJudged(d, b.state, k))
  }

  ghost predicate AllJudged<W>(d: Driver<W>, state: map<string, Status>, k: nat) {
    forall i :: 0 <= i < k ==> Judged(d, state, i)
  }

  ghost predicate ValidDriver<W>(d: Driver<W>) {
    d.g.WellFormed() && IsTopological(d.g, d.order)
  }

  lemma JudgedStays<W>(d: Driver<W>, state: map<string, Status>, i: nat, k: nat, st: Status)
    requires ValidDriver(d) && i < k < |d.order| && Judged(d, state, i)
    requires d.order[k] !in state
    ensures Judged(d, state[d.order[k] := st], i)
  {
    var n, state' := d.order[i], state[d.order[k] := st];
    assert DepsBefore(d.g, d.order, i);
    forall x | x in d.g.Dependencies(n) ensures StatusOf(state', x) == StatusOf(state, x) {
      assert x in d.order[..i];
    }
  }

  lemma JudgedAt<W>(d: Driver<W>, state: map<string, Status>, k: nat, st: Status)
    requires ValidDriver(d) && k < |d.order|
    requires st == StatusSkipped <==> BadDep(d.g, state, d.order[k]) || k >= d.stopAt
    ensures Judged(d, state[d.order[k] := st], k)
  {
    var n, state' := d.order[k], state[d.order[k] := st];
    assert DepsBefore(d.g, d.order, k);
    forall x | x in d.g.Dependencies(n) ensures StatusOf(state', x) == StatusOf(state, x) {
      assert x in d.order[..k];
    }
  }

  lemma NewTurn<W>(d: Driver<W>, k: nat, b: Book, st: Status)
    requires ValidDriver(d) && k < |d.order| && b.state.Keys == Elems(d.order[..k])
    ensures d.order[k] !in b.state
    ensures b.state[d.order[k] := st].Keys == Elems(d.order[..k + 1])
  {
    assert d.order[..k + 1] == d.order[..k] + [d.order[k]];
    assert b.state[d.order[k] := st].Keys == b.state.Keys + {d.order[k]};
  }

  lemma OneMoreJudged<W>(d: Driver<W>, k: nat, b: Book, st: Status)
    requires ValidDriver(d) && k < |d.order| && d.order[k] !in b.state
    requires AllJudged(d, b.state, k)
    requires st == StatusSkipped <==> BadDep(d.g, b.state, d.order[k]) || k >= d.stopAt
    ensures AllJudged(d, b.state[d.order[k] := st], k + 1)
  {
    var state' := b.state[d.order[k] := st];
    JudgedAt(d, b.state, k, st);
    forall i | 0 <= i < k ensures Judged(d, state', i) { JudgedStays(d, b.state, i, k, st); }
  }

  lemma SkipKeepsInv<W>(d: Driver<W>, k: nat, b: Book, err: Option<BuildError>)
    requires ValidDriver(d) && k < |d.order| && DriveInv(d, k, b) && !b.stopped
    requires d.order[k] in b.poisoned || (k >= d.stopAt && err.Some?)
    ensures DriveInv(d, k + 1, NoteSkip(d.g, b, d.order[k], err))
  {
    var n, b' := d.order[k], NoteSkip(d.g, b, d.order[k], err);
    NewTurn(d, k, b, StatusSkipped);
    PoisonedIffBadDep(d.g, d.order, k, b);
    if n in b.poisoned { SomethingBad(b, d.g, n); }
    ListsSkip(d.g, b, n, err);
    PoisonMarks(d.g, d.order, k, b, b');
    OneMoreJudged(d, k, b, StatusSkipped);
  }

  lemma SomethingBad(b: Book, g: Graph, n: string)
    requires Lists(b) && BadDep(g, b.state, n)
    ensures b.firstErr.Some?
  {
    var d :| d in g.Dependencies(n) && StatusOf(b.state, d) != StatusOK;
    assert d in b.state && b.state[d] != StatusOK;
  }

  lemma RunKeepsInv<W>(d: Driver<W>, k: nat, b: Book, outcome: Outcome)
    requires ValidDriver(d) && k < |d.order| && DriveInv(d, k, b) && !b.stopped
    requires d.order[k] !in b.poisoned && k < d.stopAt
    ensures DriveInv(d, k + 1, NoteRun(d.g, d.keepGoing, b, d.order[k], outcome))
  {
    var n, b' := d.order[k], NoteRun(d.g, d.keepGoing, b, d.order[k], outcome);
    NewTurn(d, k, b, if outcome.RanOK? then StatusOK else StatusFailed);
    PoisonedIffBadDep(d.g, d.order, k, b);
    ListsRun(d.g, d.keepGoing, b, n, outcome);
    if outcome.RanOK? {
      PoisonUnmoved(d.g, b, b', n);
    } else {
      PoisonMarks(d.g, d.order, k, b, b');
    }
    OneMoreJudged(d, k, b, b'.state[n]);
  }

  /** After every step the lists, the verdicts and the poison agree. */
  lemma {:induction false} DriveKeepsInv<W>(d: Driver<W>, w0: W, k: nat)
    requires ValidDriver(d) && k <= |d.order|
    ensures DriveInv(d, k, Drive(d, w0, k).book)
    decreases k
  {
    if k == 0 {
      EmptyInv(d);
    } else {
      DriveKeepsInv(d, w0, k - 1);
      var p := Drive(d, w0, k - 1);
      var b := p.book;
      NewTurn(d, k - 1, b, StatusSkipped);
      if b.stopped {
        ListsStopped(b, StepAt(d, k - 1, p).book, d.order[k - 1]);
      } else if d.order[k - 1] in b.poisoned {
        SkipKeepsInv(d, k - 1, b, None);
      } else if k - 1 >= d.stopAt {
        SkipKeepsInv(d, k - 1, b, Some(ContextCancelled(d.order[k - 1])));
      } else {
        RunKeepsInv(d, k - 1, b, d.run(p.world, k - 1, d.order[k - 1]).1);
      }
    }
  }

  lemma EmptyInv<W>(d: Driver<W>)
    requires ValidDriver(d)
    ensures DriveInv(d, 0, EMPTY_BOOK)
  {
    assert d.order[..0] == [];
    forall n ensures Listed(EMPTY_BOOK, n) {}
    forall n ensures Marked(d.g, EMPTY_BOOK, n) {}
  }

  // ---- what a sequential build reports ----

  ghost function Final<W>(d: Driver<W>, w0: W): Book { Drive(d, w0, |d.order|).book }

  /** The i-th action is run: neither poisoned nor cut off by a cancellation or fail-fast. */
  ghost predicate TurnComes<W>(d: Driver<W>, w0: W, i: nat) {
    i < |d.order| && i < d.stopAt && var b := Drive(d, w0, i).book; !b.stopped && d.order[i] !in b.poisoned
  }

  ghost predicate NoResultAt<W>(d: Driver<W>, w0: W, i: nat) {
    TurnComes(d, w0, i) && NoResult(d.run(Drive(d, w0, i).world, i, d.order[i]).1)
  }

  ghost predicate AllRunsHaveResults<W>(d: Driver<W>, w0: W, k: nat) {
    forall i :: 0 <= i < k ==> !NoResultAt(d, w0, i)
  }

  lemma OneMoreRun<W>(d: Driver<W>, w0: W, i: nat)
    ensures AllRunsHaveResults(d, w0, i + 1) <==> AllRunsHaveResults(d, w0, i) && !NoResultAt(d, w0, i)
  {
  }

  ghost predicate AllHaveResults(b: Book) { forall n :: n in b.failed ==> n in b.results }

  ghost predicate ResultsAgree<W>(d: Driver<W>, w0: W, k: nat)
    requires k <= |d.order|
  {
    AllHaveResults(Drive(d, w0, k).book) <==> AllRunsHaveResults(d, w0, k)
  }

  /** The failures a summary lists without a Result are the runs that returned none. */
  lemma {:induction false} ResultsByTurn<W>(d: Driver<W>, w0: W, k: nat)
    requires ValidDriver(d) && k <= |d.order|
    ensures ResultsAgree(d, w0, k)
    decreases k
  {
    if k > 0 {
      ResultsByTurn(d, w0, k - 1);
      NotYetListed(d, w0, k - 1);
      ResultsStep(d, w0, k - 1);
    }
  }

  lemma NotYetListed<W>(d: Driver<W>, w0: W, i: nat)
    requires ValidDriver(d) && i < |d.order|
    ensures var b := Drive(d, w0, i).book; d.order[i] !in b.failed && d.order[i] !in b.results
  {
    DriveKeepsInv(d, w0, i);
    NewTurn(d, i, Drive(d, w0, i).book, StatusOK);
    assert Listed(Drive(d, w0, i).book, d.order[i]);
  }

  lemma ResultsStep<W>(d: Driver<W>, w0: W, i: nat)
    requires i < |d.order|
    requires var b := Drive(d, w0, i).book; d.order[i] !in b.failed && d.order[i] !in b.results
    requires ResultsAgree(d, w0, i)
    ensures ResultsAgree(d, w0, i + 1)
  {
    OneMoreRun(d, w0, i);
    OneMoreResult(d, w0, i);
  }

  lemma OneMoreResult<W>(d: Driver<W>, w0: W, i: nat)
    requires i < |d.order|
    requires var b := Drive(d, w0, i).book; d.order[i] !in b.failed && d.order[i] !in b.results
    ensures AllHaveResults(Drive(d, w0, i + 1).book) <==> AllHaveResults(Drive(d, w0, i).book) && !NoResultAt(d, w0, i)
  {
    var p, q, n := Drive(d, w0, i).book, Drive(d, w0, i + 1).book, d.order[i];
    forall x
      ensures x in q.failed && x !in q.results <==>
        (x in p.failed && x !in p.results) || (x == n && NoResultAt(d, w0, i))
    {
    }
    if !AllHaveResults(p) {
      var x :| x in p.failed && x !in p.results;
      assert x in q.failed && x !in q.results;
    }
    if NoResultAt(d, w0, i) { assert n in q.failed && n !in q.results; }
  }

  /** Every action of the graph is exactly one of OK, failed and skipped, whatever fails
      and whenever the context is cancelled; the numbers of the summary fall short by the
      actions that were run and returned no Result, so they add up if and only if there is
      none. */
  lemma SequentialSummary<W>(d: Driver<W>, w0: W)
    requires ValidDriver(d)
    ensures var b := Final(d, w0);
      && b.state.Keys == Elems(d.g.names)
      && (forall n :: Listed(b, n)) && NoDup(b.failed) && NoDup(b.skipped)
      && Succeeded(b.results, b.failed) + |b.failed| + |b.skipped| == |d.g.names| - |WithoutResult(b.failed, b.results)|
      && (Succeeded(b.results, b.failed) + |b.failed| + |b.skipped| == |d.g.names|
          <==> AllRunsHaveResults(d, w0, |d.order|))
  {
    DriveKeepsInv(d, w0, |d.order|);
    var b := Final(d, w0);
    assert d.order[..|d.order|] == d.order;
    forall n ensures Filed(b.results, b.failed, b.skipped, b.state, n) { assert Listed(b, n); }
    ListsCover(b.results, b.failed, b.skipped, b.state, Elems(d.g.names));
    SummaryCounts(d.g.names, b.results, b.failed, b.skipped);
    NoneWithout(b.failed, b.results);
    ResultsByTurn(d, w0, |d.order|);
  }

  /** A nil error means that every action is OK, and only then: a cancelled context is
      always reported. (The parallel build can return nil after skipping everything.) */
  lemma NilErrorIffAllOK<W>(d: Driver<W>, w0: W)
    requires ValidDriver(d)
    ensures Final(d, w0).firstErr.None? <==>
      forall n :: n in d.g.names ==> n in Final(d, w0).state && Final(d, w0).state[n] == StatusOK
  {
    DriveKeepsInv(d, w0, |d.order|);
    assert d.order[..|d.order|] == d.order;
    assert forall n :: n in d.g.names <==> n in Elems(d.g.names);
  }

  /** The error of the i-th turn: what Run returned if the action was run and failed, the
      cancellation if that is why it was not run, and none otherwise. */
  ghost function TurnError<W>(d: Driver<W>, w0: W, i: nat): Option<BuildError> {
    if TurnComes(d, w0, i) then
      match d.run(Drive(d, w0, i).world, i, d.order[i]).1
      case RanOK => None
      case RunFailed(_, err) => Some(err)
    else if CutOff(d, w0, i) then Some(ContextCancelled(d.order[i]))
    else None
  }

  /** The i-th action would have been run if the context had not been cancelled. */
  ghost predicate CutOff<W>(d: Driver<W>, w0: W, i: nat) {
    d.stopAt <= i < |d.order| && var b := Drive(d, w0, i).book; !b.stopped && d.order[i] !in b.poisoned
  }

  ghost predicate FirstErrorAt<W>(d: Driver<W>, w0: W, i: nat, err: BuildError) {
    TurnError(d, w0, i) == Some(err) && forall j :: 0 <= j < i ==> TurnError(d, w0, j).None?
  }

  ghost predicate ErrorIsFirst<W>(d: Driver<W>, w0: W, k: nat, err: Option<BuildError>) {
    if err.Some? then exists i :: 0 <= i < k && FirstErrorAt(d, w0, i, err.value)
    else forall j :: 0 <= j < k ==> TurnError(d, w0, j).None?
  }

  lemma ErrorOfTurn<W>(d: Driver<W>, w0: W, i: nat)
    requires i < |d.order|
    ensures Drive(d, w0, i + 1).book.firstErr ==
      if Drive(d, w0, i).book.firstErr.Some? then Drive(d, w0, i).book.firstErr else TurnError(d, w0, i)
  {
  }

  lemma NextError<W>(d: Driver<W>, w0: W, k: nat, err: Option<BuildError>)
    requires ErrorIsFirst(d, w0, k, err)
    ensures ErrorIsFirst(d, w0, k + 1, if err.Some? then err else TurnError(d, w0, k))
  {
    if err.Some? {
      var i :| 0 <= i < k && FirstErrorAt(d, w0, i, err.value);
    } else if TurnError(d, w0, k).Some? {
      assert FirstErrorAt(d, w0, k, TurnError(d, w0, k).value);
    }
  }

  /** The error a build returns is, to the letter, that of the first turn that had one. */
  lemma {:induction false} FirstTurnsError<W>(d: Driver<W>, w0: W, k: nat)
    requires k <= |d.order|
    ensures ErrorIsFirst(d, w0, k, Drive(d, w0, k).book.firstErr)
    decreases k
  {
    if k > 0 {
      FirstTurnsError(d, w0, k - 1);
      ErrorOfTurn(d, w0, k - 1);
      NextError(d, w0, k - 1, Drive(d, w0, k - 1).book.firstErr);
    }
  }

  /** The error a build returns is the first there was: once set it never changes. */
  lemma {:induction false} FirstErrorStays<W>(d: Driver<W>, w0: W, i: nat, k: nat)
    requires i <= k <= |d.order| && Drive(d, w0, i).book.firstErr.Some?
    ensures Drive(d, w0, k).book.firstErr == Drive(d, w0, i).book.firstErr
    decreases k
  {
    if i < k { FirstErrorStays(d, w0, i, k - 1); }
  }

  /** The first failure of a fail-fast build ends it: what follows is skipped, in order,
      and nothing else changes. */
  lemma {:induction false} StoppedRest<W>(d: Driver<W>, w0: W, i: nat, k: nat)
    requires i <= k <= |d.order| && Drive(d, w0, i).book.stopped
    ensures var p, q := Drive(d, w0, i), Drive(d, w0, k);
      && q.book.stopped && q.world == p.world
      && q.book.results == p.book.results && q.book.failed == p.book.failed && q.book.firstErr == p.book.firstErr
      && q.book.skipped == p.book.skipped + d.order[i..k]
    decreases k
  {
    if i < k {
      StoppedRest(d, w0, i, k - 1);
      assert d.order[i..k] == d.order[i..k - 1] + [d.order[k - 1]];
    }
  }

  lemma {:induction false} NeverStops<W>(d: Driver<W>, w0: W, k: nat)
    requires d.keepGoing && k <= |d.order|
    ensures !Drive(d, w0, k).book.stopped
    decreases k
  {
    if k > 0 { NeverStops(d, w0, k - 1); }
  }

  /** With KeepGoing and no cancellation, an action is skipped if and only if one of its
      dependencies did not end OK. */
  lemma SkippedIffBadDep<W>(d: Driver<W>, w0: W, n: string)
    requires ValidDriver(d) && d.keepGoing && d.stopAt >= |d.order| && n in d.g.names
    ensures n in Final(d, w0).state
    ensures Final(d, w0).state[n] == StatusSkipped <==> BadDep(d.g, Final(d, w0).state, n)
  {
    DriveKeepsInv(d, w0, |d.order|);
    NeverStops(d, w0, |d.order|);
    assert n in Elems(d.order);
    var i :| 0 <= i < |d.order| && d.order[i] == n;
    assert Judged(d, Final(d, w0).state, i);
  }

  /** Each command's outcome is fixed in advance. */
  ghost predicate FixedRuns<W(!new)>(d: Driver<W>, fails: string -> bool) {
    forall w, i: nat, n :: d.run(w, i, n).1.RunFailed? == fails(n)
  }

  lemma {:induction false} FixedVerdicts<W(!new)>(d: Driver<W>, w0: W, fails: string -> bool, k: nat, n: string)
    requires FixedRuns(d, fails) && k <= |d.order|
    ensures var state := Drive(d, w0, k).book.state;
      n in state && state[n] != StatusSkipped ==> state[n] == if fails(n) then StatusFailed else StatusOK
    decreases k
  {
    if k > 0 {
      FixedVerdicts(d, w0, fails, k - 1, n);
      var p := Drive(d, w0, k - 1);
      assert d.run(p.world, k - 1, d.order[k - 1]).1.RunFailed? == fails(d.order[k - 1]);
    }
  }

  lemma SequentialSettles<W(!new)>(d: Driver<W>, w0: W, fails: string -> bool, n: string)
    requires ValidDriver(d) && d.keepGoing && d.stopAt >= |d.order| && FixedRuns(d, fails) && n in d.g.names
    ensures Settled(d.g, fails, Final(d, w0).state, n)
  {
    SkippedIffBadDep(d, w0, n);
    FixedVerdicts(d, w0, fails, |d.order|, n);
  }

  /** Whatever the interleaving and the worker count, a finished parallel build reports
      the statuses of the sequential one, and the same failed and skipped actions. */
  lemma ParallelMatchesSequential<W(!new)>(c: Config, es: seq<Event>, d: Driver<W>, w0: W, fails: string -> bool)
    requires ValidConfig(c) && c.keepGoing && Legal(c, es) && NoCallerCancel(es) && FixedOutcomes(es, fails)
    requires SchedulerRuns.Finished(c, Exec(c, es))
    requires ValidDriver(d) && d.g == c.g && d.keepGoing && d.stopAt >= |d.order| && FixedRuns(d, fails)
    ensures Exec(c, es).state == Final(d, w0).state
    ensures multiset(Exec(c, es).failed) == multiset(Final(d, w0).failed)
    ensures multiset(Exec(c, es).skipped) == multiset(Final(d, w0).skipped)
  {
    var s, b := Exec(c, es), Final(d, w0);
    FinishedSettles(c, es, fails);
    SequentialSummary(d, w0);
    forall n | n in c.g.names ensures Settled(c.g, fails, b.state, n) { SequentialSettles(d, w0, fails, n); }
    StatesAgree(c.g, d.order, fails, s.state, b.state);
    SummaryAddsUp(c, es);
    forall n ensures (n in s.failed <==> n in b.failed) && (n in s.skipped <==> n in b.skipped) { assert Listed(b, n); }
    SameMembers(s.failed, b.failed);
    SameMembers(s.skipped, b.skipped);
  }
}
