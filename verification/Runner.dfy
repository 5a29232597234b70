/** internal/runner/runner.go and sandbox.go: running one action in a sandbox, with and
    without a cache, as transitions of the workspace. A command is a function of what its
    cache key covers; running it is one step. */
module Runners {
  import opened Sorting
  import opened Graphs
  import opened Keys
  import opened Stores
  import opened Scheduler

  /** What the key covers, as the command experiences it. */
  datatype Covered = Covered(
    platform: string,
    command: seq<string>,
    env: seq<string>,
    tool: Option<string>,
    inputs: map<Path, string>,
    outputs: multiset<Path>)

  /** A command that could not run or exited with a nonzero status, or the files it left
      in its sandbox. */
  datatype ExecResult = Broke | Exited(files: Tree)

  /** What every build shares: the hash, the value of PATH, and what commands do. */
  datatype World = World(hash: string -> string, path: string, exec: Covered -> ExecResult)

  /** One machine with its tools. */
  datatype Machine = Machine(
    w: World,
    platform: string,
    resolve: string -> Option<string>,
    binary: string -> Option<string>)

  function View(ws: Tree): map<Path, string> { map p | p in ws :: ws[p].bytes }

  function ToolOf(m: Machine, a: Action): Option<string>
    requires a.command != []
  {
    ToolDigest(a.command[0], m.resolve, m.binary, m.w.hash)
  }

  /** The inputs as the sandbox links them. */
  function Links(a: Action, view: map<Path, string>): map<Path, string> {
    map p | p in view && p in a.inputs :: view[p]
  }

  ghost function CoveredBy(path: string, a: Action, platform: string, tool: Option<string>,
                           view: map<Path, string>): Covered
  {
    Covered(platform, a.command, Environ(path, a.env), tool, Links(a, view), multiset(a.outputs))
  }

  ghost function CoveredOf(m: Machine, a: Action, view: map<Path, string>): Covered
    requires a.command != []
  {
    CoveredBy(m.w.path, a, m.platform, ToolOf(m, a), view)
  }

  // ---- harvest ----

  /** Moving the declared outputs from i on out of the sandbox. A move takes the file out
      of the sandbox, so an output declared twice is missing the second time. */
  function Harvest(files: Tree, outputs: seq<Path>, i: nat, ws: Tree): (Tree, bool)
    requires i <= |outputs|
    decreases |outputs| - i
  {
    if i == |outputs| then (ws, true)
    else if outputs[i] !in files then (ws, false)
    else Harvest(files - {outputs[i]}, outputs, i + 1, ws[outputs[i] := files[outputs[i]]])
  }

  // ---- one run ----

  datatype Ran = Ran(ws: Tree, outcome: Outcome)

  function Fails(a: Action, hasResult: bool): Outcome { RunFailed(hasResult, ActionFailed(a.name)) }

  /** From the sandbox on. Linking the same input twice fails; killed says that the
      command was stopped because the context was cancelled. */
  ghost function Execute(m: Machine, a: Action, ws: Tree, killed: bool): Ran
    requires a.command != []
  {
    if !NoDup(a.inputs) then Ran(ws, Fails(a, false))
    else if killed then Ran(ws, RunFailed(true, ContextCancelled(a.name)))
    else
      match m.w.exec(CoveredOf(m, a, View(ws)))
      case Broke => Ran(ws, Fails(a, true))
      case Exited(files) =>
        var (ws', moved) := Harvest(files, a.outputs, 0, ws);
        Ran(ws', if moved && AllPresent(ws', a.outputs) then RanOK else Fails(a, true))
  }

  /** Run without a cache. */
  ghost function RunPlain(m: Machine, a: Action, ws: Tree, killed: bool): Ran
    requires a.command != []
  {
    if !Readable(a, View(ws)) then Ran(ws, Fails(a, false)) else Execute(m, a, ws, killed)
  }

  datatype CachedRan = CachedRan(ws: Tree, cas: CAS, ac: AC, outcome: Outcome, cached: bool)

  /** Run the command and record a success under the key. */
  ghost function ExecuteAndPut(m: Machine, a: Action, key: string, ws: Tree, cas: CAS, ac: AC, killed: bool,
                               now: int): CachedRan
    requires a.command != []
  {
    var ran := Execute(m, a, ws, killed);
    if ran.outcome.RanOK? && ValidName(key) && AllPresent(ran.ws, a.outputs) then
      CachedRan(ran.ws, Stored(cas, m.w.hash, ran.ws, a.outputs, now),
                ac[key := EntryFile(Some(Entry(key, RecordsOf(m.w.hash, ran.ws, a.outputs))), now)], RanOK, false)
    else CachedRan(ran.ws, cas, ac, ran.outcome, false)
  }

  /** With the key known: restore, or else run and put. */
  ghost function RunKeyed(m: Machine, a: Action, key: string, ws: Tree, cas: CAS, ac: AC, killed: bool,
                          now: int): CachedRan
    requires a.command != []
  {
    match Usable(cas, ac, key)
    case None => ExecuteAndPut(m, a, key, ws, cas, ac, killed, now)
    case Some(e) =>
      var (ws', restored) := RestoreFrom(cas, m.w.hash, e.outputs, 0, ws);
      if restored then CachedRan(ws', cas, Touch(ac, key, now), RanOK, true)
      else ExecuteAndPut(m, a, key, ws', cas, Touch(ac, key, now), killed, now)
  }

  /** Run with a cache. */
  ghost function RunCached(m: Machine, a: Action, ws: Tree, cas: CAS, ac: AC, killed: bool, now: int): CachedRan
    requires a.command != []
  {
    if !Readable(a, View(ws)) then CachedRan(ws, cas, ac, Fails(a, false), false)
    else
      match SpecKey(a, m.platform, ToolOf(m, a), View(ws), m.w.hash)
      case None => CachedRan(ws, cas, ac, Fails(a, false), false)
      case Some(key) => RunKeyed(m, a, key, ws, cas, ac, killed, now)
  }

  lemma RestoreKeepsReadable(a: Action, cas: CAS, hash: string -> string, outputs: seq<OutputFile>, ws: Tree)
    requires Readable(a, View(ws))
    ensures Readable(a, View(RestoreFrom(cas, hash, outputs, 0, ws).0))
  {
    forall p | p in a.inputs ensures p in RestoreFrom(cas, hash, outputs, 0, ws).0 {
      assert p in View(ws);
      RestoredFiles(cas, hash, outputs, 0, ws, p);
    }
  }

  /** A workspace, and the cache when there is one. */
  datatype Cache = Cache(cas: CAS, ac: AC)
  datatype Site = Site(ws: Tree, cache: Option<Cache>)

  ghost function RunSite(m: Machine, a: Action, s: Site, killed: bool, now: int): (Site, Outcome)
    requires a.command != []
  {
    match s.cache
    case None => var r := RunPlain(m, a, s.ws, killed); (Site(r.ws, None), r.outcome)
    case Some(c) =>
      var r := RunCached(m, a, s.ws, c.cas, c.ac, killed, now);
      (Site(r.ws, Some(Cache(r.cas, r.ac))), r.outcome)
  }

  // ---- when a run has no Result ----

  /** A hit whose blobs are all there and verify. */
  ghost predicate Restores(m: Machine, a: Action, ws: Tree, cas: CAS, ac: AC)
    requires a.command != []
  {
    var key := SpecKey(a, m.platform, ToolOf(m, a), View(ws), m.w.hash);
    && key.Some? && Usable(cas, ac, key.value).Some?
    && RestoreFrom(cas, m.w.hash, Usable(cas, ac, key.value).value.outputs, 0, ws).1
  }

  /** The guards Run passes before it has a Result: the inputs are there, the tool resolves
      when there is a cache to ask, and the sandbox can be linked unless a hit makes it
      unnecessary. */
  ghost predicate CanStart(m: Machine, a: Action, s: Site)
    requires a.command != []
  {
    && Readable(a, View(s.ws))
    && (s.cache.Some? ==> ToolOf(m, a).Some?)
    && (NoDup(a.inputs) || (s.cache.Some? && Restores(m, a, s.ws, s.cache.value.cas, s.cache.value.ac)))
  }

  /** Without a cache a run fails without a Result exactly when an input is missing or
      declared twice. */
  lemma PlainNoResult(m: Machine, a: Action, ws: Tree, killed: bool)
    requires a.command != []
    ensures NoResult(RunPlain(m, a, ws, killed).outcome) <==> !Readable(a, View(ws)) || !NoDup(a.inputs)
  {
  }

  lemma PutKeepsOutcome(m: Machine, a: Action, key: string, ws: Tree, cas: CAS, ac: AC, killed: bool, now: int)
    requires a.command != []
    ensures ExecuteAndPut(m, a, key, ws, cas, ac, killed, now).outcome == Execute(m, a, ws, killed).outcome
    ensures NoResult(Execute(m, a, ws, killed).outcome) <==> !NoDup(a.inputs)
  {
  }

  lemma KeyedNoResult(m: Machine, a: Action, key: string, ws: Tree, cas: CAS, ac: AC, killed: bool, now: int)
    requires a.command != []
    ensures NoResult(RunKeyed(m, a, key, ws, cas, ac, killed, now).outcome) <==>
      !NoDup(a.inputs)
      && !(Usable(cas, ac, key).Some? && RestoreFrom(cas, m.w.hash, Usable(cas, ac, key).value.outputs, 0, ws).1)
  {
    var hit := Usable(cas, ac, key);
    if hit.Some? {
      var ws' := RestoreFrom(cas, m.w.hash, hit.value.outputs, 0, ws).0;
      PutKeepsOutcome(m, a, key, ws', cas, Touch(ac, key, now), killed, now);
    } else {
      PutKeepsOutcome(m, a, key, ws, cas, ac, killed, now);
    }
  }

  /** With and without a cache, those guards are exactly what a Result needs. */
  lemma NoResultIff(m: Machine, a: Action, s: Site, killed: bool, now: int)
    requires a.command != []
    ensures NoResult(RunSite(m, a, s, killed, now).1) <==> !CanStart(m, a, s)
  {
    if s.cache.None? {
      PlainNoResult(m, a, s.ws, killed);
    } else if Readable(a, View(s.ws)) && ToolOf(m, a).Some? {
      var key := SpecKey(a, m.platform, ToolOf(m, a), View(s.ws), m.w.hash).value;
      KeyedNoResult(m, a, key, s.ws, s.cache.value.cas, s.cache.value.ac, killed, now);
    }
  }

  // ---- a cached run by cases ----

  lemma UnreadableFails(m: Machine, a: Action, ws: Tree, cas: CAS, ac: AC, killed: bool, now: int)
    requires a.command != [] && !Readable(a, View(ws))
    ensures RunCached(m, a, ws, cas, ac, killed, now) == CachedRan(ws, cas, ac, Fails(a, false), false)
    ensures RunPlain(m, a, ws, killed) == Ran(ws, Fails(a, false))
  {
  }

  lemma CachedRunIsKeyed(m: Machine, a: Action, ws: Tree, cas: CAS, ac: AC, killed: bool, now: int)
    requires a.command != [] && Readable(a, View(ws)) && ToolOf(m, a).Some?
    ensures var key := KeyOf(a, m.platform, ToolOf(m, a).value, View(ws), m.w.hash);
      && RunCached(m, a, ws, cas, ac, killed, now) == RunKeyed(m, a, key, ws, cas, ac, killed, now)
      && (Restores(m, a, ws, cas, ac) <==>
          Usable(cas, ac, key).Some? && RestoreFrom(cas, m.w.hash, Usable(cas, ac, key).value.outputs, 0, ws).1)
  {
  }

  // ---- what a run reads and writes ----

  /** Two trees hold the same file, or none, at p. */
  predicate SameAt(ws1: Tree, ws2: Tree, p: Path) {
    (p in ws1 <==> p in ws2) && (p in ws1 ==> ws1[p] == ws2[p])
  }

  ghost predicate AllMoved(files: Tree, outputs: seq<Path>, i: nat) {
    && (forall k :: i <= k < |outputs| ==> outputs[k] in files)
    && (forall j, k :: i <= j < k < |outputs| ==> outputs[j] != outputs[k])
  }

  lemma AllMovedTail(files: Tree, outputs: seq<Path>, i: nat)
    requires i < |outputs| && outputs[i] in files
    ensures AllMoved(files, outputs, i) <==> AllMoved(files - {outputs[i]}, outputs, i + 1)
  {
  }

  /** A harvest succeeds when every output is there and none is declared twice; it leaves
      everything that is not an output alone, and puts every output it reports on in
      place. */
  lemma {:induction false} HarvestAt(files: Tree, outputs: seq<Path>, i: nat, ws: Tree, p: Path)
    requires i <= |outputs|
    ensures Harvest(files, outputs, i, ws).1 <==> AllMoved(files, outputs, i)
    ensures (forall k :: i <= k < |outputs| ==> outputs[k] != p) ==> SameAt(Harvest(files, outputs, i, ws).0, ws, p)
    ensures Harvest(files, outputs, i, ws).1 && (exists k :: i <= k < |outputs| && outputs[k] == p) ==>
      p in files && SameAt(Harvest(files, outputs, i, ws).0, files, p)
    ensures p in ws ==> p in Harvest(files, outputs, i, ws).0
    decreases |outputs| - i
  {
    if i < |outputs| && outputs[i] in files {
      AllMovedTail(files, outputs, i);
      HarvestAt(files - {outputs[i]}, outputs, i + 1, ws[outputs[i] := files[outputs[i]]], p);
    }
  }

  /** What a harvest does at p depends on the workspace only at p. */
  lemma {:induction false} HarvestLocal(files: Tree, outputs: seq<Path>, i: nat, ws1: Tree, ws2: Tree, p: Path)
    requires i <= |outputs| && SameAt(ws1, ws2, p)
    ensures Harvest(files, outputs, i, ws1).1 == Harvest(files, outputs, i, ws2).1
    ensures SameAt(Harvest(files, outputs, i, ws1).0, Harvest(files, outputs, i, ws2).0, p)
    decreases |outputs| - i
  {
    if i < |outputs| && outputs[i] in files {
      var o := outputs[i];
      HarvestLocal(files - {o}, outputs, i + 1, ws1[o := files[o]], ws2[o := files[o]], p);
    }
  }

  /** After a successful harvest the check of the outputs cannot fail. */
  lemma HarvestedIsPresent(files: Tree, outputs: seq<Path>, ws: Tree)
    requires Harvest(files, outputs, 0, ws).1
    ensures AllPresent(Harvest(files, outputs, 0, ws).0, outputs)
  {
    forall k | 0 <= k < |outputs| ensures outputs[k] in Harvest(files, outputs, 0, ws).0 {
      HarvestAt(files, outputs, 0, ws, outputs[k]);
    }
  }

  /** A run touches nothing but the declared outputs. */
  lemma OnlyOutputsChange(m: Machine, a: Action, ws: Tree, killed: bool, p: Path)
    requires a.command != [] && p !in a.outputs
    ensures SameAt(Execute(m, a, ws, killed).ws, ws, p) && SameAt(RunPlain(m, a, ws, killed).ws, ws, p)
  {
    var result := m.w.exec(CoveredOf(m, a, View(ws)));
    if result.Exited? { HarvestAt(result.files, a.outputs, 0, ws, p); }
  }

  /** What a command is given: its own words, its environment, and under each declared path
      that exists the bytes there, and no other file. */
  lemma CommandReceives(m: Machine, a: Action, ws: Tree)
    requires a.command != []
    ensures var given := CoveredOf(m, a, View(ws));
      && given.command == a.command && given.platform == m.platform
      && (forall p :: p in given.inputs <==> p in a.inputs && p in ws)
      && (forall p :: p in given.inputs ==> given.inputs[p] == ws[p].bytes)
      && (forall p :: p in given.outputs <==> p in a.outputs)
      && given.env == Environ(m.w.path, a.env) && (forall s :: Declares(a.env, s) ==> s in given.env)
  {
    EnvironReaches(m.w.path, a.env);
  }

  /** A command stopped by a cancelled context is reported as cancelled, with a Result, and
      changes nothing. */
  lemma KilledIsCancelled(m: Machine, a: Action, ws: Tree)
    requires a.command != [] && Readable(a, View(ws)) && NoDup(a.inputs)
    ensures RunPlain(m, a, ws, true).ws == ws
    ensures var o := RunPlain(m, a, ws, true).outcome; o.RunFailed? && o.hasResult && o.err == ContextCancelled(a.name)
  {
  }

  /** The files a command leaves, when it is run and exits zero. */
  ghost predicate Leaves(m: Machine, a: Action, ws: Tree, files: Tree)
    requires a.command != []
  {
    m.w.exec(CoveredOf(m, a, View(ws))) == ExecResult.Exited(files)
  }

  /** A run that is not stopped is OK if and only if every input is there and declared once,
      the command exits zero, and every output is produced and declared once. Each output
      then has the bytes and the mode the command gave it. A run that fails fails in its
      own name. */
  lemma RunIsOKIff(m: Machine, a: Action, ws: Tree)
    requires a.command != []
    ensures var r := RunPlain(m, a, ws, false);
      && (r.outcome.RanOK? <==>
            Readable(a, View(ws)) && NoDup(a.inputs)
            && exists files :: Leaves(m, a, ws, files) && AllMoved(files, a.outputs, 0))
      && (forall files, p :: r.outcome.RanOK? && Leaves(m, a, ws, files) && p in a.outputs ==>
            p in files && SameAt(r.ws, files, p))
      && (r.outcome.RunFailed? ==> r.outcome.err == ActionFailed(a.name))
  {
    var result := m.w.exec(CoveredOf(m, a, View(ws)));
    if result.Exited? {
      assert Leaves(m, a, ws, result.files);
      HarvestAt(result.files, a.outputs, 0, ws, "");
      if AllMoved(result.files, a.outputs, 0) { HarvestedIsPresent(result.files, a.outputs, ws); }
      forall p | p in a.outputs && Harvest(result.files, a.outputs, 0, ws).1
        ensures p in result.files && SameAt(Harvest(result.files, a.outputs, 0, ws).0, result.files, p)
      {
        HarvestAt(result.files, a.outputs, 0, ws, p);
      }
    }
  }

  /** A run sees nothing but the bytes of the declared inputs: workspaces that agree on
      those give the same verdict and the same outputs, whatever else they hold. */
  lemma SeesOnlyInputs(m: Machine, a: Action, ws1: Tree, ws2: Tree, killed: bool, p: Path)
    requires a.command != [] && Links(a, View(ws1)) == Links(a, View(ws2)) && SameAt(ws1, ws2, p)
    ensures RunPlain(m, a, ws1, killed).outcome == RunPlain(m, a, ws2, killed).outcome
    ensures SameAt(RunPlain(m, a, ws1, killed).ws, RunPlain(m, a, ws2, killed).ws, p)
  {
    SameReadable(a, View(ws1), View(ws2));
    var result := m.w.exec(CoveredOf(m, a, View(ws1)));
    if result.Exited? {
      HarvestLocal(result.files, a.outputs, 0, ws1, ws2, p);
      HarvestAt(result.files, a.outputs, 0, ws1, p);
      HarvestAt(result.files, a.outputs, 0, ws2, p);
      if Harvest(result.files, a.outputs, 0, ws1).1 {
        HarvestedIsPresent(result.files, a.outputs, ws1);
        HarvestedIsPresent(result.files, a.outputs, ws2);
      }
    }
  }

  lemma SameReadable(a: Action, view1: map<Path, string>, view2: map<Path, string>)
    requires Links(a, view1) == Links(a, view2)
    ensures Readable(a, view1) <==> Readable(a, view2)
  {
    forall p | p in a.inputs ensures p in view1 <==> p in view2 {
      assert p in view1 <==> p in Links(a, view1);
      assert p in view2 <==> p in Links(a, view2);
    }
  }

  // ---- hits ----

  /** A usable entry whose blobs are undamaged is restored, into any workspace, whatever the
      command would do and even if it would be stopped; the result is marked as cached, and
      each path the entry lists gets the bytes and the mode recorded for it last. */
  lemma HitRestores(m: Machine, a: Action, ws: Tree, cas: CAS, ac: AC, killed: bool, now: int, key: string, e: Entry)
    requires a.command != [] && SpecKey(a, m.platform, ToolOf(m, a), View(ws), m.w.hash) == Some(key)
    requires Usable(cas, ac, key) == Some(e)
    requires forall k :: 0 <= k < |e.outputs| ==> Verified(cas, m.w.hash, e.outputs[k].digest)
    ensures var r := RunCached(m, a, ws, cas, ac, killed, now);
      && r.cached && r.outcome.RanOK? && r.cas == cas && r.ac == Touch(ac, key, now)
      && (forall p, k :: LastListed(e.outputs, 0, p, k) ==>
            p in r.ws && r.ws[p] == File(cas[e.outputs[k].digest].bytes, e.outputs[k].mode))
      && (forall p :: (forall k :: 0 <= k < |e.outputs| ==> e.outputs[k].path != p) ==> SameAt(r.ws, ws, p))
  {
    RestoreSucceeds(cas, m.w.hash, e.outputs, 0, ws);
    var ws' := RestoreFrom(cas, m.w.hash, e.outputs, 0, ws).0;
    forall p, k | LastListed(e.outputs, 0, p, k)
      ensures p in ws' && ws'[p] == File(cas[e.outputs[k].digest].bytes, e.outputs[k].mode)
    {
      RestoredAt(cas, m.w.hash, e.outputs, 0, ws, p, k);
    }
    forall p | forall k :: 0 <= k < |e.outputs| ==> e.outputs[k].path != p ensures SameAt(ws', ws, p) {
      RestoredFiles(cas, m.w.hash, e.outputs, 0, ws, p);
    }
  }

  /** And only then: a run is marked as cached if and only if a usable entry was restored. */
  lemma CachedIffRestored(m: Machine, a: Action, ws: Tree, cas: CAS, ac: AC, killed: bool, now: int)
    requires a.command != []
    ensures RunCached(m, a, ws, cas, ac, killed, now).cached <==> Restores(m, a, ws, cas, ac)
  {
    if !Readable(a, View(ws)) {
      UnreadableFails(m, a, ws, cas, ac, killed, now);
    } else if ToolOf(m, a).Some? {
      var key := KeyOf(a, m.platform, ToolOf(m, a).value, View(ws), m.w.hash);
      CachedRunIsKeyed(m, a, ws, cas, ac, killed, now);
      KeyedIsCached(m, a, key, ws, cas, ac, killed, now);
    }
  }

  lemma KeyedIsCached(m: Machine, a: Action, key: string, ws: Tree, cas: CAS, ac: AC, killed: bool, now: int)
    requires a.command != []
    ensures RunKeyed(m, a, key, ws, cas, ac, killed, now).cached <==>
      Usable(cas, ac, key).Some? && RestoreFrom(cas, m.w.hash, Usable(cas, ac, key).value.outputs, 0, ws).1
  {
  }

  // ---- how the code does it ----

  ghost predicate Bound(keys: seq<string>, env: map<string, string>) {
    forall i :: 0 <= i < |keys| ==> keys[i] in env
  }

  lemma {:induction false} EnvStringsAppend(a: seq<string>, b: seq<string>, env: map<string, string>)
    requires Bound(a, env) && Bound(b, env)
    ensures Bound(a + b, env) && EnvStrings(a + b, env) == EnvStrings(a, env) + EnvStrings(b, env)
    decreases |a|
  {
    if a == [] {
      assert a + b == b;
    } else {
      EnvStringsAppend(a[1..], b, env);
      assert (a + b)[1..] == a[1..] + b;
    }
  }

  /** Where a variable stands among the others does not matter to the multiset. */
  lemma EnvStringsMove(front: seq<string>, k: string, back: seq<string>, env: map<string, string>)
    requires Bound(front, env) && Bound(back, env) && k in env
    ensures Bound(front + ([k] + back), env) && Bound(front + back, env)
    ensures multiset(EnvStrings(front + ([k] + back), env))
      == multiset{k + "=" + env[k]} + multiset(EnvStrings(front + back, env))
  {
    EnvStringsAppend([k], back, env);
    EnvStringsAppend(front, [k] + back, env);
    EnvStringsAppend(front, back, env);
    assert [k][1..] == [];
  }

  lemma {:induction false} EnvStringsPermuted(a: seq<string>, b: seq<string>, env: map<string, string>)
    requires multiset(a) == multiset(b) && Bound(a, env) && Bound(b, env)
    ensures multiset(EnvStrings(a, env)) == multiset(EnvStrings(b, env))
    decreases |a|
  {
    assert |multiset(a)| == |multiset(b)|;
    if a != [] {
      assert a[0] in multiset(b);
      var i :| 0 <= i < |b| && b[i] == a[0];
      var front, back := b[..i], b[i + 1..];
      RemoveAt(a, b, i);
      EnvStringsMove(front, a[0], back, env);
      EnvStringsMove([], a[0], a[1..], env);
      assert [] + ([a[0]] + a[1..]) == a && [] + a[1..] == a[1..];
      EnvStringsPermuted(a[1..], front + back, env);
    }
  }

  lemma RemoveAt(a: seq<string>, b: seq<string>, i: nat)
    requires a != [] && multiset(a) == multiset(b) && i < |b| && b[i] == a[0]
    ensures b == b[..i] + ([a[0]] + b[i + 1..])
    ensures multiset(a[1..]) == multiset(b[..i] + b[i + 1..])
  {
    assert b == b[..i] + ([a[0]] + b[i + 1..]);
    TailMultiset(a);
    assert multiset(b) == multiset(b[..i]) + multiset{a[0]} + multiset(b[i + 1..]);
  }

  /** environ: PATH first, then the declared strings sorted, collected in whatever order Go
      ranges over the map. */
  method EnvironOf(path: string, env: map<string, string>) returns (r: seq<string>)
    ensures r == Environ(path, env)
  {
    r := if path != "" then ["PATH=" + path] else [];
    var declared: seq<string> := [];
    ghost var seen: seq<string> := [];
    var todo := env.Keys;
    while todo != {}
      invariant todo <= env.Keys && NoDup(seen)
      invariant forall k :: k in seen <==> k in env && k !in todo
      invariant Bound(seen, env) && declared == EnvStrings(seen, env)
      decreases todo
    {
      var k :| k in todo;
      EnvStringsAppend(seen, [k], env);
      assert EnvStrings([k], env) == [k + "=" + env[k]] by { assert [k][1..] == []; }
      declared := declared + [k + "=" + env[k]];
      seen := seen + [k];
      todo := todo - {k};
    }
    var sorted := SortStrings(declared);
    DeclaredSorted(env, seen, sorted);
    r := r + sorted;
  }

  lemma DeclaredSorted(env: map<string, string>, seen: seq<string>, sorted: seq<string>)
    requires NoDup(seen) && Bound(seen, env) && forall k :: k in seen <==> k in env
    requires SortedStrings(sorted, EnvStrings(seen, env))
    ensures sorted == SortSeq(EnvList(env))
  {
    SameMembers(seen, SeqOf(env.Keys));
    SortSeqMembers(SeqOf(env.Keys));
    EnvStringsPermuted(seen, SortedKeys(env), env);
    AtMostTotalOrder();
    SortCanonical(EnvStrings(seen, env), EnvList(env), AtMost);
    SortedIsSortSeq(sorted, EnvStrings(seen, env));
  }

  class Runner {
    const m: Machine
    const ws: Workspace
    const store: Store?
    const tools: ToolCache

    ghost predicate Valid()
      reads tools
    {
      && tools.Valid() && tools.resolve == m.resolve && tools.binary == m.binary && tools.hash == m.w.hash
      && (store != null ==> store.hash == m.w.hash)
    }

    ghost function CurrentSite(): Site
      reads ws, if store != null then {store} else {}
    {
      Site(ws.files, if store == null then None else Some(Cache(store.cas, store.ac)))
    }

    constructor (m: Machine, ws: Workspace, store: Store?)
      requires store != null ==> store.hash == m.w.hash
      ensures this.m == m && this.ws == ws && this.store == store && Valid() && fresh(tools)
    {
      this.m, this.ws, this.store := m, ws, store;
      tools := new ToolCache(m.resolve, m.binary, m.w.hash);
    }

    method CheckInputs(a: Action) returns (ok: bool)
      ensures ok <==> Readable(a, View(ws.files))
    {
      for i := 0 to |a.inputs|
        invariant forall k :: 0 <= k < i ==> a.inputs[k] in View(ws.files)
      {
        if a.inputs[i] !in ws.files {
          assert a.inputs[i] in a.inputs && a.inputs[i] !in View(ws.files);
          return false;
        }
      }
      return true;
    }

    /** newSandbox: one link for each input; linking the same path twice is an error. */
    method NewSandbox(a: Action) returns (links: Option<map<Path, string>>)
      requires Readable(a, View(ws.files))
      ensures links.Some? <==> NoDup(a.inputs)
      ensures links.Some? ==> links.value == Links(a, View(ws.files))
    {
      var made: map<Path, string> := map[];
      for i := 0 to |a.inputs|
        invariant NoDup(a.inputs[..i])
        invariant forall p :: p in made <==> p in a.inputs[..i]
        invariant forall p :: p in made ==> p in View(ws.files) && made[p] == View(ws.files)[p]
      {
        var p := a.inputs[i];
        assert p in a.inputs;
        if p in made {
          var k :| 0 <= k < |a.inputs[..i]| && a.inputs[..i][k] == p;
          assert a.inputs[k] == a.inputs[i];
          return None;
        }
        made := made[p := ws.files[p].bytes];
      }
      assert a.inputs[..|a.inputs|] == a.inputs;
      return Some(made);
    }

    method HarvestOutputs(box: Tree, outputs: seq<Path>) returns (ok: bool)
      modifies ws
      ensures (ws.files, ok) == Harvest(box, outputs, 0, old(ws.files))
    {
      var files := box;
      for i := 0 to |outputs|
        invariant Harvest(files, outputs, i, ws.files) == Harvest(box, outputs, 0, old(ws.files))
      {
        if outputs[i] !in files { return false; }
        ws.files := ws.files[outputs[i] := files[outputs[i]]];
        files := files - {outputs[i]};
      }
      return true;
    }

    method CheckOutputs(a: Action) returns (ok: bool)
      ensures ok <==> AllPresent(ws.files, a.outputs)
    {
      for i := 0 to |a.outputs|
        invariant forall k :: 0 <= k < i ==> a.outputs[k] in ws.files
      {
        if a.outputs[i] !in ws.files { return false; }
      }
      return true;
    }

    /** Run from the sandbox on. */
    method RunCommand(a: Action, killed: bool) returns (outcome: Outcome)
      requires a.command != [] && Readable(a, View(ws.files))
      modifies ws
      ensures Ran(ws.files, outcome) == Execute(m, a, old(ws.files), killed)
    {
      var links := NewSandbox(a);
      if links.None? { return Fails(a, false); }
      var env := EnvironOf(m.w.path, a.env);
      if killed { return RunFailed(true, ContextCancelled(a.name)); }
      var result := m.w.exec(Covered(m.platform, a.command, env, ToolOf(m, a), links.value, multiset(a.outputs)));
      if result.Broke? { return Fails(a, true); }
      var moved := HarvestOutputs(result.files, a.outputs);
      if !moved { return Fails(a, true); }
      var produced := CheckOutputs(a);
      if !produced { return Fails(a, true); }
      return RanOK;
    }

    /** tryRestore. A failed restore leaves what it had restored so far. */
    method TryRestore(key: string, now: int) returns (restored: bool)
      requires store != null && store.hash == m.w.hash && ValidName(key)
      modifies ws, store
      ensures store.cas == old(store.cas)
      ensures var hit := Usable(old(store.cas), old(store.ac), key);
        && (hit.None? ==> !restored && ws.files == old(ws.files) && store.ac == old(store.ac))
        && (hit.Some? ==>
              && (ws.files, restored) == RestoreFrom(old(store.cas), m.w.hash, hit.value.outputs, 0, old(ws.files))
              && store.ac == Touch(old(store.ac), key, now))
    {
      var hit := store.Lookup(key, now);
      if hit.Err? || hit.value.None? { return false; }
      restored := store.Restore(hit.value.value, ws);
    }

    method RunAndPut(a: Action, key: string, killed: bool, now: int) returns (outcome: Outcome)
      requires a.command != [] && Readable(a, View(ws.files))
      requires store != null && store.hash == m.w.hash && ValidName(key) && GoodHash(m.w.hash)
      modifies ws, store
      ensures CachedRan(ws.files, store.cas, store.ac, outcome, false)
           == ExecuteAndPut(m, a, key, old(ws.files), old(store.cas), old(store.ac), killed, now)
    {
      outcome := RunCommand(a, killed);
      if outcome.RanOK? {
        var put := store.Put(key, ws, a.outputs, now);
      }
    }

    method RunWithKey(a: Action, key: string, killed: bool, now: int) returns (outcome: Outcome, cached: bool)
      requires a.command != [] && Readable(a, View(ws.files))
      requires store != null && store.hash == m.w.hash && ValidName(key) && GoodHash(m.w.hash)
      modifies ws, store
      ensures CachedRan(ws.files, store.cas, store.ac, outcome, cached)
           == RunKeyed(m, a, key, old(ws.files), old(store.cas), old(store.ac), killed, now)
    {
      ghost var hit := Usable(store.cas, store.ac, key);
      if hit.Some? { RestoreKeepsReadable(a, store.cas, m.w.hash, hit.value.outputs, ws.files); }
      var restored := TryRestore(key, now);
      if restored { return RanOK, true; }
      outcome := RunAndPut(a, key, killed, now);
      return outcome, false;
    }

    /** Run: the workspace and the cache end up as the specification says. */
    method Run(a: Action, killed: bool, now: int) returns (outcome: Outcome, cached: bool)
      requires Valid() && a.command != [] && GoodHash(m.w.hash)
      modifies ws, tools, if store != null then {store} else {}
      ensures Valid()
      ensures (CurrentSite(), outcome) == RunSite(m, a, old(CurrentSite()), killed, now)
      ensures cached <==>
        store != null && RunCached(m, a, old(ws.files), old(store.cas), old(store.ac), killed, now).cached
    {
      cached := false;
      var readable := CheckInputs(a);
      if !readable { return Fails(a, false), false; }
      if store == null {
        outcome := RunCommand(a, killed);
        return outcome, false;
      }
      var key := Key(a, m.platform, tools, View(ws.files));
      if key.None? { return Fails(a, false), false; }
      outcome, cached := RunWithKey(a, key.value, killed, now);
    }
  }
}
