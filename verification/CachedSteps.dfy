/** internal/runner/runner.go, Run, with or without a cache: the steps a goroutine inside
    Run takes around its command. The key, the lookup, each restored output and the put
    are single steps; the command and the harvest go as in SandboxSteps. Wherever the
    cache leads, the run ends where it would end without. */
module CachedSteps {
  import opened Graphs
  import opened Keys
  import opened Stores
  import opened Scheduler
  import opened Runners
  import opened SandboxSteps
  import opened Transparency

  /** Opening checks the inputs; Inside holds the steps from the sandbox on, with the key if
      there is a cache. */
  datatype Stage =
    | Opening(i: nat)
    | Keying
    | Looking(key: string)
    | Restoring(key: string, e: Entry, i: nat)
    | Inside(under: Option<string>, l: Local)
    | Putting(key: string)
    | Ready(outcome: Outcome)

  predicate NeedsCache(st: Stage) {
    st.Keying? || st.Looking? || st.Restoring? || (st.Inside? && st.under.Some?) || st.Putting?
  }

  predicate StageInRange(a: Action, st: Stage, cached: bool) {
    && (NeedsCache(st) ==> cached)
    && match st
       case Opening(i) => i <= |a.inputs|
       case Restoring(_, e, i) => i <= |e.outputs|
       case Inside(key, l) => InRange(a, l) && !l.Checking? && (key.None? ==> !cached)
       case _ => true
  }

  /** Put, which does nothing for a malformed key or a missing output. */
  function WithPut(m: Machine, a: Action, key: string, ws: Tree, c: Cache, now: int): Cache {
    if ValidName(key) && AllPresent(ws, a.outputs) then
      Cache(Stored(c.cas, m.w.hash, ws, a.outputs, now),
            c.ac[key := EntryFile(Some(Entry(key, RecordsOf(m.w.hash, ws, a.outputs))), now)])
    else c
  }

  /** One output restored, or the end of the restore. */
  function RestoreOne(m: Machine, key: string, e: Entry, i: nat, ws: Tree, c: Cache): (Stage, Tree)
    requires i <= |e.outputs|
  {
    if i == |e.outputs| then (Ready(RanOK), ws)
    else if !Verified(c.cas, m.w.hash, e.outputs[i].digest) then (Inside(Some(key), Linking), ws)
    else (Restoring(key, e, i + 1), ws[e.outputs[i].path := File(c.cas[e.outputs[i].digest].bytes, e.outputs[i].mode)])
  }

  /** The key, or the failure to compute it. */
  ghost function KeyStep(m: Machine, a: Action, ws: Tree): Stage
    requires a.command != []
  {
    match SpecKey(a, m.platform, ToolOf(m, a), View(ws), m.w.hash)
    case None => Ready(Fails(a, false))
    case Some(key) => Looking(key)
  }

  function LookupStep(key: string, c: Cache, now: int): (Stage, Cache) {
    match Usable(c.cas, c.ac, key)
    case None => (Inside(Some(key), Linking), c)
    case Some(e) => (Restoring(key, e, 0), Cache(c.cas, Touch(c.ac, key, now)))
  }

  function CheckStep(a: Action, i: nat, ws: Tree, cached: bool): Stage
    requires i <= |a.inputs|
  {
    if i < |a.inputs| then (if a.inputs[i] in ws then Opening(i + 1) else Ready(Fails(a, false)))
    else if cached then Keying else Inside(None, Linking)
  }

  /** The command and the harvest; a success goes on to the put if there is a key. */
  ghost function InsideStep(m: Machine, a: Action, key: Option<string>, l: Local, ws: Tree): (Stage, Tree)
    requires a.command != [] && InRange(a, l)
  {
    if l.Done? then (if l.outcome.RanOK? && key.Some? then Putting(key.value) else Ready(l.outcome), ws)
    else var (l', ws') := Advance(m, a, l, ws); (Inside(key, l'), ws')
  }

  /** One step: where the run stands, the workspace and the cache. */
  ghost function Step(m: Machine, a: Action, st: Stage, ws: Tree, cache: Option<Cache>, now: int)
    : (Stage, Tree, Option<Cache>)
    requires a.command != [] && StageInRange(a, st, cache.Some?) && !st.Ready?
  {
    match st
    case Opening(i) => (CheckStep(a, i, ws, cache.Some?), ws, cache)
    case Keying => (KeyStep(m, a, ws), ws, cache)
    case Looking(key) => var (st', c') := LookupStep(key, cache.value, now); (st', ws, Some(c'))
    case Restoring(key, e, i) => var (st', ws') := RestoreOne(m, key, e, i, ws, cache.value); (st', ws', cache)
    case Inside(key, l) => var (st', ws') := InsideStep(m, a, key, l, ws); (st', ws', cache)
    case Putting(key) => (Ready(RanOK), ws, Some(WithPut(m, a, key, ws, cache.value, now)))
  }

  // ---- where a run would end if it were left alone ----

  /** Nothing before the command makes a difference. */
  ghost function End(m: Machine, a: Action, st: Stage, ws: Tree): Ran
    requires a.command != []
    requires st.Opening? ==> st.i <= |a.inputs|
    requires st.Inside? ==> InRange(a, st.l)
  {
    match st
    case Opening(i) => Finish(m, a, Checking(i), ws)
    case Inside(_, l) => Finish(m, a, l, ws)
    case Putting(_) => Ran(ws, RanOK)
    case Ready(outcome) => Ran(ws, outcome)
    case _ => Execute(m, a, ws, false)
  }

  /** The first k outputs of the entry are in place. */
  ghost predicate Rewritten(ws: Tree, files: Tree, e: Entry, k: nat) {
    k <= |e.outputs| && forall j :: 0 <= j < k ==> SameAt(ws, files, e.outputs[j].path)
  }

  ghost predicate KeyFits(m: Machine, a: Action, key: string, ws: Tree)
    requires a.command != []
  {
    ToolOf(m, a).Some? && HasKey(m.w, key, a, m.platform, ToolOf(m, a).value, View(ws))
  }

  ghost predicate EntryFits(m: Machine, a: Action, e: Entry, k: nat, ws: Tree)
    requires a.command != []
  {
    && ToolOf(m, a).Some? && Produces(m.w, e, a, m.platform, ToolOf(m, a).value, View(ws))
    && Rewritten(ws, m.w.exec(CoveredOf(m, a, View(ws))).files, e, k)
  }

  /** The key is the one of the inputs as they are, and a restore has put back what the
      command would leave. */
  ghost predicate Fits(m: Machine, a: Action, st: Stage, ws: Tree, cached: bool) {
    && a.command != [] && StageInRange(a, st, cached)
    && match st
       case Opening(i) => forall k :: 0 <= k < i ==> a.inputs[k] in ws
       case Keying => Readable(a, View(ws))
       case Looking(key) => KeyFits(m, a, key, ws)
       case Restoring(key, e, i) => KeyFits(m, a, key, ws) && EntryFits(m, a, e, i, ws)
       case Inside(key, _) => key.Some? ==> KeyFits(m, a, key.value, ws)
       case Putting(key) => KeyFits(m, a, key, ws)
       case _ => true
  }

  ghost predicate CacheHonest(w: World, cache: Option<Cache>) { cache.Some? ==> Honest(w, cache.value.ac) }

  // ---- what others do elsewhere ----

  lemma LinksLocal(a: Action, ws1: Tree, ws2: Tree)
    requires Agree(ws1, ws2, a.inputs)
    ensures Links(a, View(ws1)) == Links(a, View(ws2))
  {
    var l1, l2 := Links(a, View(ws1)), Links(a, View(ws2));
    forall p ensures (p in l1 <==> p in l2) && (p in l1 ==> l1[p] == l2[p]) {
      if p in a.inputs { assert SameAt(ws1, ws2, p); }
    }
  }

  lemma KeyFitsLocal(m: Machine, a: Action, key: string, ws1: Tree, ws2: Tree)
    requires a.command != [] && KeyFits(m, a, key, ws1) && Agree(ws1, ws2, a.inputs)
    ensures KeyFits(m, a, key, ws2)
  {
    LinksLocal(a, ws1, ws2);
    KeyFromLinks(m.w, key, a, m.platform, ToolOf(m, a).value, View(ws1), View(ws2));
  }

  lemma EntryFitsLocal(m: Machine, a: Action, e: Entry, k: nat, ws1: Tree, ws2: Tree)
    requires a.command != [] && EntryFits(m, a, e, k, ws1)
    requires Agree(ws1, ws2, a.inputs) && Agree(ws1, ws2, a.outputs)
    ensures EntryFits(m, a, e, k, ws2)
  {
    LinksLocal(a, ws1, ws2);
    var files := m.w.exec(CoveredOf(m, a, View(ws1))).files;
    assert CoveredOf(m, a, View(ws1)) == CoveredOf(m, a, View(ws2));
    forall j | 0 <= j < k ensures SameAt(ws2, files, e.outputs[j].path) {
      assert ListsPath(e, e.outputs[j].path);
      assert SameAt(ws1, ws2, e.outputs[j].path) && SameAt(ws1, files, e.outputs[j].path);
    }
  }

  lemma FitsLocal(m: Machine, a: Action, st: Stage, ws1: Tree, ws2: Tree, cached: bool)
    requires Fits(m, a, st, ws1, cached) && Agree(ws1, ws2, a.inputs) && Agree(ws1, ws2, a.outputs)
    ensures Fits(m, a, st, ws2, cached)
  {
    match st {
      case Opening(i) =>
        forall k | 0 <= k < i ensures a.inputs[k] in ws2 { assert SameAt(ws1, ws2, a.inputs[k]); }
      case Keying => LinksLocal(a, ws1, ws2); SameReadable(a, View(ws1), View(ws2));
      case Looking(key) => KeyFitsLocal(m, a, key, ws1, ws2);
      case Restoring(key, e, i) =>
        KeyFitsLocal(m, a, key, ws1, ws2);
        EntryFitsLocal(m, a, e, i, ws1, ws2);
      case Inside(key, _) => if key.Some? { KeyFitsLocal(m, a, key.value, ws1, ws2); }
      case Putting(key) => KeyFitsLocal(m, a, key, ws1, ws2);
      case _ =>
    }
  }

  lemma EndLocal(m: Machine, a: Action, st: Stage, ws1: Tree, ws2: Tree, cached: bool)
    requires Fits(m, a, st, ws1, cached) && Agree(ws1, ws2, a.inputs) && Agree(ws1, ws2, a.outputs)
    ensures SameEnd(a, End(m, a, st, ws1), End(m, a, st, ws2))
  {
    match st {
      case Opening(i) => FinishLocal(m, a, Checking(i), ws1, ws2);
      case Inside(_, l) => FinishLocal(m, a, l, ws1, ws2);
      case Putting(_) =>
      case Ready(_) =>
      case _ => ExecuteLocal(m, a, ws1, ws2);
    }
  }

  // ---- a step of its own ----

  /** What the next output of an honest entry is: a declared output, with the bytes and the
      mode the command would leave. */
  lemma NextOutput(m: Machine, a: Action, e: Entry, i: nat, ws: Tree)
    requires a.command != [] && EntryFits(m, a, e, i, ws) && i < |e.outputs|
    ensures e.outputs[i].path in a.outputs
    ensures RecordedRight(m.w.hash, m.w.exec(CoveredOf(m, a, View(ws))).files, e.outputs[i])
  {
    assert ListsPath(e, e.outputs[i].path);
  }

  lemma InsideFrame(m: Machine, a: Action, under: Option<string>, l: Local, ws: Tree, p: Path)
    requires a.command != [] && InRange(a, l) && p !in a.outputs
    ensures SameAt(InsideStep(m, a, under, l, ws).1, ws, p)
  {
    if !l.Done? { AdvanceFrame(m, a, l, ws, p); }
  }

  lemma RestoreFrame(m: Machine, a: Action, key: string, e: Entry, i: nat, ws: Tree, c: Cache, p: Path)
    requires a.command != [] && EntryFits(m, a, e, i, ws) && p !in a.outputs
    ensures SameAt(RestoreOne(m, key, e, i, ws, c).1, ws, p)
  {
    if i < |e.outputs| { NextOutput(m, a, e, i, ws); }
  }

  /** A step writes at most one declared output. */
  lemma StepFrame(m: Machine, a: Action, st: Stage, ws: Tree, cache: Option<Cache>, now: int, p: Path)
    requires Fits(m, a, st, ws, cache.Some?) && !st.Ready? && p !in a.outputs
    ensures SameAt(Step(m, a, st, ws, cache, now).1, ws, p)
  {
    match st {
      case Inside(under, l) => InsideFrame(m, a, under, l, ws, p);
      case Restoring(key, e, i) => RestoreFrame(m, a, key, e, i, ws, cache.value, p);
      case _ =>
    }
  }

  lemma RestoredEnd(m: Machine, a: Action, e: Entry, ws: Tree)
    requires a.command != [] && EntryFits(m, a, e, |e.outputs|, ws)
    ensures SameEnd(a, Ran(ws, RanOK), Execute(m, a, ws, false))
  {
    var files := m.w.exec(CoveredOf(m, a, View(ws))).files;
    HarvestAt(files, a.outputs, 0, ws, "");
    HarvestedIsPresent(files, a.outputs, ws);
    forall p | p in a.outputs ensures SameAt(ws, Execute(m, a, ws, false).ws, p) {
      assert ListsPath(e, p);
      HarvestAt(files, a.outputs, 0, ws, p);
    }
  }

  lemma RewrittenStep(ws: Tree, f: File, files: Tree, e: Entry, i: nat)
    requires Rewritten(ws, files, e, i) && i < |e.outputs|
    requires e.outputs[i].path in files && files[e.outputs[i].path] == f
    ensures Rewritten(ws[e.outputs[i].path := f], files, e, i + 1)
  {
    var ws' := ws[e.outputs[i].path := f];
    forall j | 0 <= j < i + 1 ensures SameAt(ws', files, e.outputs[j].path) {
      if j < i { assert SameAt(ws, files, e.outputs[j].path); }
    }
  }

  /** An output of its own that changes neither the view nor the end of a run that
      succeeds. */
  lemma OverwriteKeepsEnd(m: Machine, a: Action, ws: Tree, p: Path, f: File)
    requires a.command != [] && NoOverlap(a) && p in a.outputs
    requires var r := m.w.exec(CoveredOf(m, a, View(ws))); r.Exited? && AllMoved(r.files, a.outputs, 0)
    ensures CoveredOf(m, a, View(ws[p := f])) == CoveredOf(m, a, View(ws))
    ensures Execute(m, a, ws[p := f], false) == Execute(m, a, ws, false) || !NoDup(a.inputs)
  {
    LinksLocal(a, ws, ws[p := f]);
    HarvestOverwrites(m.w.exec(CoveredOf(m, a, View(ws))).files, a.outputs, ws[p := f], ws);
  }

  /** Restoring one more output changes neither the key nor where the run ends. */
  lemma RestoreStep(m: Machine, a: Action, key: string, e: Entry, i: nat, ws: Tree, c: Cache)
    requires GoodHash(m.w.hash) && a.command != [] && NoOverlap(a) && i < |e.outputs|
    requires KeyFits(m, a, key, ws) && EntryFits(m, a, e, i, ws) && Verified(c.cas, m.w.hash, e.outputs[i].digest)
    ensures var (st', ws') := RestoreOne(m, key, e, i, ws, c);
      Fits(m, a, st', ws', true) && Execute(m, a, ws', false) == Execute(m, a, ws, false)
  {
    var o := e.outputs[i];
    var f := File(c.cas[o.digest].bytes, o.mode);
    NextOutput(m, a, e, i, ws);
    KeyFitsLocal(m, a, key, ws, ws[o.path := f]);
    OverwriteKeepsEnd(m, a, ws, o.path, f);
    RewrittenStep(ws, f, m.w.exec(CoveredOf(m, a, View(ws))).files, e, i);
  }

  /** Nothing at the start of a run is decided by the cache. */
  lemma OpeningStep(m: Machine, a: Action, i: nat, ws: Tree, cached: bool)
    requires Fits(m, a, Opening(i), ws, cached)
    ensures var st' := CheckStep(a, i, ws, cached);
      Fits(m, a, st', ws, cached) && End(m, a, st', ws) == End(m, a, Opening(i), ws)
  {
    FinishCheckStep(m, a, Checking(i), ws);
    if i == |a.inputs| {
      forall p | p in a.inputs ensures p in View(ws) {}
    }
  }

  lemma KeyingStep(m: Machine, a: Action, ws: Tree)
    requires Fits(m, a, Keying, ws, true) && ToolOf(m, a).Some?
    ensures Fits(m, a, KeyStep(m, a, ws), ws, true) && End(m, a, KeyStep(m, a, ws), ws) == End(m, a, Keying, ws)
  {
  }

  /** An honest entry is worth restoring. */
  lemma LookingStep(m: Machine, a: Action, key: string, ws: Tree, c: Cache, now: int)
    requires Fits(m, a, Looking(key), ws, true) && Honest(m.w, c.ac)
    ensures var (st', c') := LookupStep(key, c, now);
      Fits(m, a, st', ws, true) && End(m, a, st', ws) == End(m, a, Looking(key), ws) && Honest(m.w, c'.ac)
  {
    TouchIsHonest(m.w, c.ac, key, now);
    if Usable(c.cas, c.ac, key).Some? {
      assert HonestKey(m.w, c.ac, key);
    }
  }

  lemma RestoringStep(m: Machine, a: Action, key: string, e: Entry, i: nat, ws: Tree, c: Cache)
    requires GoodHash(m.w.hash) && Fits(m, a, Restoring(key, e, i), ws, true) && NoOverlap(a)
    ensures var (st', ws') := RestoreOne(m, key, e, i, ws, c);
      Fits(m, a, st', ws', true) && SameEnd(a, End(m, a, st', ws'), End(m, a, Restoring(key, e, i), ws))
  {
    var (st', ws') := RestoreOne(m, key, e, i, ws, c);
    if i == |e.outputs| {
      RestoredEnd(m, a, e, ws);
    } else {
      if Verified(c.cas, m.w.hash, e.outputs[i].digest) { RestoreStep(m, a, key, e, i, ws, c); }
      EndIsExecute(m, a, st', ws');
      SameEndReflexive(a, Execute(m, a, ws, false));
    }
  }

  lemma EndIsExecute(m: Machine, a: Action, st: Stage, ws: Tree)
    requires a.command != []
    requires st.Restoring? || (st.Inside? && st.l == Linking)
    ensures End(m, a, st, ws) == Execute(m, a, ws, false)
  {
  }

  lemma SameEndReflexive(a: Action, r: Ran)
    ensures SameEnd(a, r, r)
  {
  }

  lemma InsideStepEnd(m: Machine, a: Action, under: Option<string>, l: Local, ws: Tree, cached: bool)
    requires Fits(m, a, Inside(under, l), ws, cached) && NoOverlap(a)
    ensures var (st', ws') := InsideStep(m, a, under, l, ws);
      Fits(m, a, st', ws', cached) && SameEnd(a, End(m, a, st', ws'), End(m, a, Inside(under, l), ws))
  {
    if !l.Done? {
      FinishStep(m, a, l, ws);
      var (l', ws') := Advance(m, a, l, ws);
      forall p | p in a.inputs ensures SameAt(ws, ws', p) { AdvanceFrame(m, a, l, ws, p); }
      if under.Some? { KeyFitsLocal(m, a, under.value, ws, ws'); }
    }
  }

  /** What is put is what the run, started on its own, leaves. */
  lemma PuttingStep(m: Machine, a: Action, key: string, ws: Tree, c: Cache, now: int, base: Tree)
    requires GoodHash(m.w.hash) && Fits(m, a, Putting(key), ws, true) && Honest(m.w, c.ac)
    requires Agree(ws, base, a.inputs) && SameEnd(a, Ran(ws, RanOK), RunPlain(m, a, base, false))
    ensures Honest(m.w, WithPut(m, a, key, ws, c, now).ac)
  {
    KeyFitsLocal(m, a, key, ws, base);
    RecordIsHonest(m, a, key, base);
    var ws' := Execute(m, a, base, false).ws;
    if AllPresent(ws, a.outputs) {
      SameRecords(m.w.hash, a, ws, ws');
      NewEntryIsHonest(m.w, c.ac, key, Entry(key, RecordsOf(m.w.hash, ws, a.outputs)), now);
    }
  }

  lemma SameRecords(hash: string -> string, a: Action, ws1: Tree, ws2: Tree)
    requires AllPresent(ws1, a.outputs) && AllPresent(ws2, a.outputs) && Agree(ws1, ws2, a.outputs)
    ensures RecordsOf(hash, ws1, a.outputs) == RecordsOf(hash, ws2, a.outputs)
  {
    forall i | 0 <= i < |a.outputs| ensures RecordOf(hash, ws1, a.outputs[i]) == RecordOf(hash, ws2, a.outputs[i]) {
      assert SameAt(ws1, ws2, a.outputs[i]);
    }
  }

  /** A step of its own, whatever is in the cache, does not change where a run ends, and
      keeps an honest cache honest. base is any workspace with the same inputs from which
      the run, on its own, would end in the same way. */
  lemma StepKeepsEnd(m: Machine, a: Action, st: Stage, ws: Tree, cache: Option<Cache>, now: int, base: Tree)
    requires Fits(m, a, st, ws, cache.Some?) && !st.Ready? && NoOverlap(a) && CacheHonest(m.w, cache)
    requires cache.Some? ==> GoodHash(m.w.hash) && ToolOf(m, a).Some?
    requires Agree(ws, base, a.inputs) && SameEnd(a, End(m, a, st, ws), RunPlain(m, a, base, false))
    ensures var (st', ws', cache') := Step(m, a, st, ws, cache, now);
      && Fits(m, a, st', ws', cache'.Some?) && SameEnd(a, End(m, a, st', ws'), End(m, a, st, ws))
      && cache'.Some? == cache.Some? && CacheHonest(m.w, cache')
  {
    match st {
      case Opening(i) => OpeningStep(m, a, i, ws, cache.Some?);
      case Keying => KeyingStep(m, a, ws);
      case Looking(key) => LookingStep(m, a, key, ws, cache.value, now);
      case Restoring(key, e, i) => RestoringStep(m, a, key, e, i, ws, cache.value);
      case Inside(under, l) => InsideStepEnd(m, a, under, l, ws, cache.Some?);
      case Putting(key) => PuttingStep(m, a, key, ws, cache.value, now, base);
    }
  }

  // ---- left alone, the steps are Run ----

  /** How a run with key ends once the command has ended as ran says. */
  function AfterRun(m: Machine, a: Action, under: Option<string>, ran: Ran, cache: Option<Cache>, now: int)
    : (Site, Outcome)
    requires under.Some? ==> cache.Some?
  {
    if ran.outcome.RanOK? && under.Some?
    then (Site(ran.ws, Some(WithPut(m, a, under.value, ran.ws, cache.value, now))), RanOK)
    else (Site(ran.ws, cache), ran.outcome)
  }

  ghost function AfterLookup(m: Machine, a: Action, key: string, e: Entry, i: nat, ws: Tree, c: Cache, now: int)
    : (Site, Outcome)
    requires a.command != [] && i <= |e.outputs|
  {
    var (ws', restored) := RestoreFrom(c.cas, m.w.hash, e.outputs, i, ws);
    if restored then (Site(ws', Some(c)), RanOK)
    else AfterRun(m, a, Some(key), Execute(m, a, ws', false), Some(c), now)
  }

  ghost function AfterKey(m: Machine, a: Action, key: string, ws: Tree, c: Cache, now: int): (Site, Outcome)
    requires a.command != []
  {
    match Usable(c.cas, c.ac, key)
    case None => AfterRun(m, a, Some(key), Execute(m, a, ws, false), Some(c), now)
    case Some(e) => AfterLookup(m, a, key, e, 0, ws, Cache(c.cas, Touch(c.ac, key, now)), now)
  }

  ghost function AfterInputs(m: Machine, a: Action, ws: Tree, cache: Option<Cache>, now: int): (Site, Outcome)
    requires a.command != []
  {
    if cache.None? then AfterRun(m, a, None, Execute(m, a, ws, false), None, now)
    else
      match SpecKey(a, m.platform, ToolOf(m, a), View(ws), m.w.hash)
      case None => (Site(ws, cache), Fails(a, false))
      case Some(key) => AfterKey(m, a, key, ws, cache.value, now)
  }

  /** Where a run ends, with the cache, if nobody else does anything. */
  ghost function CachedEnd(m: Machine, a: Action, st: Stage, ws: Tree, cache: Option<Cache>, now: int): (Site, Outcome)
    requires a.command != [] && StageInRange(a, st, cache.Some?)
  {
    match st
    case Opening(i) =>
      if PresentFrom(ws, a.inputs, i) then AfterInputs(m, a, ws, cache, now) else (Site(ws, cache), Fails(a, false))
    case Keying => AfterInputs(m, a, ws, cache, now)
    case Looking(key) => AfterKey(m, a, key, ws, cache.value, now)
    case Restoring(key, e, i) => AfterLookup(m, a, key, e, i, ws, cache.value, now)
    case Inside(under, l) => AfterRun(m, a, under, Finish(m, a, l, ws), cache, now)
    case Putting(key) => AfterRun(m, a, Some(key), Ran(ws, RanOK), cache, now)
    case Ready(outcome) => (Site(ws, cache), outcome)
  }

  lemma OpeningEnd(m: Machine, a: Action, i: nat, ws: Tree, cache: Option<Cache>, now: int)
    requires a.command != [] && i <= |a.inputs|
    ensures CachedEnd(m, a, CheckStep(a, i, ws, cache.Some?), ws, cache, now)
         == CachedEnd(m, a, Opening(i), ws, cache, now)
  {
    if i < |a.inputs| {
      assert PresentFrom(ws, a.inputs, i) <==> a.inputs[i] in ws && PresentFrom(ws, a.inputs, i + 1);
    }
  }

  lemma RestoringEnd(m: Machine, a: Action, key: string, e: Entry, i: nat, ws: Tree, c: Cache, now: int)
    requires a.command != [] && i <= |e.outputs|
    ensures var (st', ws') := RestoreOne(m, key, e, i, ws, c);
      CachedEnd(m, a, st', ws', Some(c), now) == AfterLookup(m, a, key, e, i, ws, c, now)
  {
  }

  lemma LookingEnd(m: Machine, a: Action, key: string, ws: Tree, c: Cache, now: int)
    requires a.command != []
    ensures var (st', c') := LookupStep(key, c, now);
      CachedEnd(m, a, st', ws, Some(c'), now) == AfterKey(m, a, key, ws, c, now)
  {
  }

  lemma InsideEnd(m: Machine, a: Action, under: Option<string>, l: Local, ws: Tree, cache: Option<Cache>, now: int)
    requires a.command != [] && StageInRange(a, Inside(under, l), cache.Some?)
    ensures var (st', ws') := InsideStep(m, a, under, l, ws);
      StageInRange(a, st', cache.Some?)
      && CachedEnd(m, a, st', ws', cache, now) == CachedEnd(m, a, Inside(under, l), ws, cache, now)
  {
    if !l.Done? { FinishStep(m, a, l, ws); }
  }

  /** One step more makes no difference to where workspace, cache and outcome end up. */
  lemma StepKeepsCachedEnd(m: Machine, a: Action, st: Stage, ws: Tree, cache: Option<Cache>, now: int)
    requires a.command != [] && StageInRange(a, st, cache.Some?) && !st.Ready?
    ensures var (st', ws', cache') := Step(m, a, st, ws, cache, now);
      StageInRange(a, st', cache'.Some?)
      && CachedEnd(m, a, st', ws', cache', now) == CachedEnd(m, a, st, ws, cache, now)
  {
    match st {
      case Opening(i) => OpeningEnd(m, a, i, ws, cache, now);
      case Keying =>
      case Looking(key) => LookingEnd(m, a, key, ws, cache.value, now);
      case Restoring(key, e, i) => RestoringEnd(m, a, key, e, i, ws, cache.value, now);
      case Inside(under, l) => InsideEnd(m, a, under, l, ws, cache, now);
      case Putting(_) =>
    }
  }

  /** From the first step on that is the run as a whole, with a cache and without: what it
      restores, what it puts and what it answers. */
  lemma StepsAreRun(m: Machine, a: Action, s: Site, now: int)
    requires a.command != []
    ensures CachedEnd(m, a, Opening(0), s.ws, s.cache, now) == RunSite(m, a, s, false, now)
  {
    if PresentFrom(s.ws, a.inputs, 0) {
      forall p | p in a.inputs ensures p in View(s.ws) {}
      if s.cache.Some? && ToolOf(m, a).Some? {
        CachedRunIsKeyed(m, a, s.ws, s.cache.value.cas, s.cache.value.ac, false, now);
        var key := KeyOf(a, m.platform, ToolOf(m, a).value, View(s.ws), m.w.hash);
        AfterKeyIsKeyed(m, a, key, s.ws, s.cache.value, now);
      }
    } else {
      var k :| 0 <= k < |a.inputs| && a.inputs[k] !in s.ws;
      assert a.inputs[k] in a.inputs && a.inputs[k] !in View(s.ws);
    }
  }

  lemma PutIsExecuteAndPut(m: Machine, a: Action, key: string, ws: Tree, c: Cache, now: int)
    requires a.command != []
    ensures var r := ExecuteAndPut(m, a, key, ws, c.cas, c.ac, false, now);
      AfterRun(m, a, Some(key), Execute(m, a, ws, false), Some(c), now)
      == (Site(r.ws, Some(Cache(r.cas, r.ac))), r.outcome)
  {
  }

  lemma AfterKeyIsKeyed(m: Machine, a: Action, key: string, ws: Tree, c: Cache, now: int)
    requires a.command != []
    ensures var r := RunKeyed(m, a, key, ws, c.cas, c.ac, false, now);
      AfterKey(m, a, key, ws, c, now) == (Site(r.ws, Some(Cache(r.cas, r.ac))), r.outcome)
  {
    match Usable(c.cas, c.ac, key) {
      case None => PutIsExecuteAndPut(m, a, key, ws, c, now);
      case Some(e) =>
        var ws' := RestoreFrom(c.cas, m.w.hash, e.outputs, 0, ws).0;
        PutIsExecuteAndPut(m, a, key, ws', Cache(c.cas, Touch(c.ac, key, now)), now);
    }
  }

  // ---- how long a run can take ----

  /** What is left of a run from the sandbox on, with the put and the return. */
  function SandboxWork(a: Action): nat { 6 + 3 * |a.outputs| + |a.inputs| }

  function Rest(n: nat, i: nat): nat { if i <= n then n - i else 0 }

  function StageWork(a: Action, st: Stage): nat {
    match st
    case Opening(i) => SandboxWork(a) + 4 + |a.outputs| + Rest(|a.inputs|, i)
    case Keying => SandboxWork(a) + 3 + |a.outputs|
    case Looking(_) => SandboxWork(a) + 2 + |a.outputs|
    case Restoring(_, e, i) => SandboxWork(a) + 1 + Rest(|e.outputs|, i)
    case Inside(_, l) => if InRange(a, l) then 2 + WorkLeft(a, l) else 0
    case Putting(_) => 1
    case Ready(_) => 0
  }

  /** An honest entry has as many outputs as the action declares. */
  lemma HonestLength(m: Machine, a: Action, key: string, ws: Tree, c: Cache)
    requires a.command != [] && KeyFits(m, a, key, ws) && Honest(m.w, c.ac) && Usable(c.cas, c.ac, key).Some?
    ensures |Usable(c.cas, c.ac, key).value.outputs| == |a.outputs|
  {
    assert HonestKey(m.w, c.ac, key);
    assert Produces(m.w, Usable(c.cas, c.ac, key).value, a, m.platform, ToolOf(m, a).value, View(ws));
  }

  lemma LookupDrops(m: Machine, a: Action, key: string, ws: Tree, c: Cache, now: int)
    requires a.command != [] && KeyFits(m, a, key, ws) && Honest(m.w, c.ac)
    ensures StageWork(a, LookupStep(key, c, now).0) < StageWork(a, Looking(key))
  {
    if Usable(c.cas, c.ac, key).Some? { HonestLength(m, a, key, ws, c); }
  }

  lemma OpeningDrops(m: Machine, a: Action, i: nat, ws: Tree, cached: bool)
    requires i <= |a.inputs|
    ensures StageWork(a, CheckStep(a, i, ws, cached)) < StageWork(a, Opening(i))
  {
  }

  lemma KeyingDrops(m: Machine, a: Action, ws: Tree)
    requires a.command != []
    ensures StageWork(a, KeyStep(m, a, ws)) < StageWork(a, Keying)
  {
  }

  lemma RestoringDrops(m: Machine, a: Action, key: string, e: Entry, i: nat, ws: Tree, c: Cache)
    requires i <= |e.outputs|
    ensures StageWork(a, RestoreOne(m, key, e, i, ws, c).0) < StageWork(a, Restoring(key, e, i))
  {
  }

  lemma InsideDrops(m: Machine, a: Action, under: Option<string>, l: Local, ws: Tree)
    requires a.command != [] && InRange(a, l)
    ensures StageWork(a, InsideStep(m, a, under, l, ws).0) < StageWork(a, Inside(under, l))
  {
    if !l.Done? { WorkDrops(m, a, l, ws); }
  }

  lemma OtherStepsDrop(m: Machine, a: Action, st: Stage, ws: Tree, cache: Option<Cache>, now: int)
    requires a.command != [] && StageInRange(a, st, cache.Some?) && !st.Ready? && !st.Looking?
    ensures StageWork(a, Step(m, a, st, ws, cache, now).0) < StageWork(a, st)
  {
    match st {
      case Opening(i) => OpeningDrops(m, a, i, ws, cache.Some?);
      case Keying => KeyingDrops(m, a, ws);
      case Restoring(key, e, i) => RestoringDrops(m, a, key, e, i, ws, cache.value);
      case Inside(under, l) => InsideDrops(m, a, under, l, ws);
      case Putting(_) => assert Step(m, a, st, ws, cache, now).0 == Ready(RanOK);
    }
  }

  /** Every step leaves less to do. */
  lemma StageWorkDrops(m: Machine, a: Action, st: Stage, ws: Tree, cache: Option<Cache>, now: int)
    requires Fits(m, a, st, ws, cache.Some?) && !st.Ready? && CacheHonest(m.w, cache)
    ensures StageWork(a, Step(m, a, st, ws, cache, now).0) < StageWork(a, st)
  {
    if st.Looking? {
      LookupDrops(m, a, st.key, ws, cache.value, now);
    } else {
      OtherStepsDrop(m, a, st, ws, cache, now);
    }
  }
}
