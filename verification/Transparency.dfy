/** Why a cache cannot be noticed: over any history of builds, edits, collections, damage
    and loss, a cached build leaves the workspace and the verdicts an uncached one does. */
module Transparency {
  import opened Graphs
  import opened Kahn
  import opened Keys
  import opened Stores
  import opened Scheduler
  import opened Runners
  import opened Sequential
  import opened SequentialBuild
  import Gc
  import Remote

  // ---- what an entry must say ----

  ghost predicate RecordedRight(hash: string -> string, files: Tree, o: OutputFile) {
    o.path in files && o.digest == hash(files[o.path].bytes) && o.mode == files[o.path].mode
  }

  ghost predicate ListsPath(e: Entry, p: Path) { exists i :: 0 <= i < |e.outputs| && e.outputs[i].path == p }

  /** The entry lists exactly the declared outputs, as the command left them. */
  ghost predicate Describes(hash: string -> string, e: Entry, a: Action, files: Tree) {
    && |e.outputs| == |a.outputs|
    && (forall i :: 0 <= i < |e.outputs| ==> RecordedRight(hash, files, e.outputs[i]))
    && (forall p :: ListsPath(e, p) <==> p in a.outputs)
  }

  /** On this view the action succeeds and e records what it leaves. */
  ghost predicate Produces(w: World, e: Entry, a: Action, platform: string, tool: string, view: map<Path, string>) {
    var r := w.exec(CoveredBy(w.path, a, platform, Some(tool), view));
    && NoDup(a.inputs) && NoDup(a.outputs)
    && r.Exited? && AllMoved(r.files, a.outputs, 0) && Describes(w.hash, e, a, r.files)
  }

  ghost predicate HasKey(w: World, key: string, a: Action, platform: string, tool: string, view: map<Path, string>) {
    Readable(a, view) && KeyOf(a, platform, tool, view, w.hash) == key
  }

  ghost predicate HonestEntry(w: World, key: string, e: Entry) {
    forall a, platform, tool, view :: HasKey(w, key, a, platform, tool, view) ==>
      Produces(w, e, a, platform, tool, view)
  }

  ghost predicate HonestKey(w: World, ac: AC, key: string) {
    key in ac && ac[key].entry.Some? ==> HonestEntry(w, key, ac[key].entry.value)
  }

  /** Every entry describes what any action with that key does. Nothing is asked of the
      blobs: a restore checks them. */
  ghost predicate Honest(w: World, ac: AC) { forall key :: HonestKey(w, ac, key) }

  // ---- one run ----

  ghost predicate NoOverlap(a: Action) { forall p :: p in a.inputs ==> p !in a.outputs }

  lemma {:induction false} RestoredContent(cas: CAS, hash: string -> string, outputs: seq<OutputFile>, i: nat, ws: Tree,
                                           files: Tree, p: Path)
    requires GoodHash(hash) && i <= |outputs| && RestoreFrom(cas, hash, outputs, i, ws).1
    requires forall k :: i <= k < |outputs| ==> RecordedRight(hash, files, outputs[k])
    requires exists k :: i <= k < |outputs| && outputs[k].path == p
    ensures p in files && SameAt(RestoreFrom(cas, hash, outputs, i, ws).0, files, p)
    decreases |outputs| - i
  {
    var o := outputs[i];
    var next := ws[o.path := File(cas[o.digest].bytes, o.mode)];
    assert cas[o.digest].bytes == files[o.path].bytes;
    if exists k :: i + 1 <= k < |outputs| && outputs[k].path == p {
      RestoredContent(cas, hash, outputs, i + 1, next, files, p);
    } else {
      RestoredFiles(cas, hash, outputs, i + 1, next, p);
    }
  }

  /** Restoring an honest entry does what running the command would have done. */
  lemma RestoreIsHarvest(w: World, e: Entry, a: Action, files: Tree, cas: CAS, ws: Tree)
    requires GoodHash(w.hash) && Describes(w.hash, e, a, files) && AllMoved(files, a.outputs, 0)
    requires RestoreFrom(cas, w.hash, e.outputs, 0, ws).1
    ensures RestoreFrom(cas, w.hash, e.outputs, 0, ws).0 == Harvest(files, a.outputs, 0, ws).0
  {
    var r, h := RestoreFrom(cas, w.hash, e.outputs, 0, ws).0, Harvest(files, a.outputs, 0, ws).0;
    forall p ensures SameAt(r, h, p) {
      HarvestAt(files, a.outputs, 0, ws, p);
      assert ListsPath(e, p) <==> p in a.outputs;
      if p in a.outputs {
        RestoredContent(cas, w.hash, e.outputs, 0, ws, files, p);
      } else {
        RestoredFiles(cas, w.hash, e.outputs, 0, ws, p);
      }
    }
    SameEverywhere(r, h);
  }

  lemma SameEverywhere(a: Tree, b: Tree)
    requires forall p :: SameAt(a, b, p)
    ensures a == b
  {
    forall p ensures (p in a <==> p in b) && (p in a ==> a[p] == b[p]) { assert SameAt(a, b, p); }
  }

  /** A complete harvest makes up for any difference in the outputs. */
  lemma HarvestOverwrites(files: Tree, outputs: seq<Path>, ws1: Tree, ws2: Tree)
    requires AllMoved(files, outputs, 0) && forall p :: p in outputs || SameAt(ws1, ws2, p)
    ensures Harvest(files, outputs, 0, ws1) == Harvest(files, outputs, 0, ws2)
  {
    var h1, h2 := Harvest(files, outputs, 0, ws1).0, Harvest(files, outputs, 0, ws2).0;
    forall p ensures SameAt(h1, h2, p) {
      HarvestAt(files, outputs, 0, ws1, p);
      HarvestAt(files, outputs, 0, ws2, p);
      assert p in outputs || SameAt(ws1, ws2, p);
    }
    SameEverywhere(h1, h2);
    HarvestAt(files, outputs, 0, ws1, "");
    HarvestAt(files, outputs, 0, ws2, "");
  }

  lemma RestoreWithinOutputs(e: Entry, a: Action, cas: CAS, hash: string -> string, ws: Tree)
    requires forall p :: ListsPath(e, p) ==> p in a.outputs
    ensures forall p :: p in a.outputs || SameAt(RestoreFrom(cas, hash, e.outputs, 0, ws).0, ws, p)
  {
    forall p | p !in a.outputs ensures SameAt(RestoreFrom(cas, hash, e.outputs, 0, ws).0, ws, p) {
      assert !ListsPath(e, p);
      RestoredFiles(cas, hash, e.outputs, 0, ws, p);
    }
  }

  /** A restore that failed part way changed only outputs the command will write again. */
  lemma RunAfterPartialRestore(m: Machine, e: Entry, a: Action, cas: CAS, ws: Tree)
    requires a.command != [] && NoOverlap(a) && NoDup(a.inputs)
    requires forall p :: ListsPath(e, p) ==> p in a.outputs
    requires var r := m.w.exec(CoveredOf(m, a, View(ws))); r.Exited? && AllMoved(r.files, a.outputs, 0)
    ensures Execute(m, a, RestoreFrom(cas, m.w.hash, e.outputs, 0, ws).0, false) == Execute(m, a, ws, false)
    ensures Execute(m, a, ws, false).outcome == RanOK
  {
    var ws' := RestoreFrom(cas, m.w.hash, e.outputs, 0, ws).0;
    var files := m.w.exec(CoveredOf(m, a, View(ws))).files;
    SameLinks(m, e, a, cas, ws);
    RestoreWithinOutputs(e, a, cas, m.w.hash, ws);
    HarvestOverwrites(files, a.outputs, ws', ws);
    HarvestAt(files, a.outputs, 0, ws, "");
    HarvestedIsPresent(files, a.outputs, ws);
  }

  lemma SameLinks(m: Machine, e: Entry, a: Action, cas: CAS, ws: Tree)
    requires NoOverlap(a) && forall p :: ListsPath(e, p) ==> p in a.outputs
    ensures Links(a, View(RestoreFrom(cas, m.w.hash, e.outputs, 0, ws).0)) == Links(a, View(ws))
  {
    var ws' := RestoreFrom(cas, m.w.hash, e.outputs, 0, ws).0;
    RestoreWithinOutputs(e, a, cas, m.w.hash, ws);
    assert forall p :: p in a.inputs ==> SameAt(ws', ws, p);
    var l, l' := Links(a, View(ws)), Links(a, View(ws'));
    forall p ensures (p in l <==> p in l') && (p in l ==> l[p] == l'[p]) {
      if p in a.inputs { assert SameAt(ws', ws, p); }
    }
  }

  // ---- recording a success ----

  /** Actions with the same key are the same to the command. */
  lemma SameCovered(w: World, a: Action, b: Action, platform1: string, platform2: string, tool1: string, tool2: string,
                    view1: map<Path, string>, view2: map<Path, string>)
    requires GoodHash(w.hash) && Readable(a, view1) && Readable(b, view2)
    requires KeyOf(a, platform1, tool1, view1, w.hash) == KeyOf(b, platform2, tool2, view2, w.hash)
    ensures CoveredBy(w.path, a, platform1, Some(tool1), view1) == CoveredBy(w.path, b, platform2, Some(tool2), view2)
    ensures multiset(a.inputs) == multiset(b.inputs) && multiset(a.outputs) == multiset(b.outputs)
  {
    KeyInjective(a, b, platform1, platform2, tool1, tool2, view1, view2, w.hash, w.path);
    SameReadings(a.inputs, b.inputs, view1, view2);
    assert CoveredBy(w.path, a, platform1, Some(tool1), view1).inputs
      == CoveredBy(w.path, b, platform2, Some(tool2), view2).inputs;
  }

  /** The same files under the same paths are the same links. */
  lemma SameReadings(inputs1: seq<Path>, inputs2: seq<Path>, view1: map<Path, string>, view2: map<Path, string>)
    requires multiset(inputs1) == multiset(inputs2)
    requires forall p :: p in inputs1 ==> p in view1
    requires forall p :: p in inputs2 ==> p in view2
    requires forall p :: p in inputs1 ==> p in inputs2 && view1[p] == view2[p]
    ensures (map p | p in view1 && p in inputs1 :: view1[p]) == (map p | p in view2 && p in inputs2 :: view2[p])
  {
    forall p ensures p in inputs1 <==> p in inputs2 {
      assert p in inputs1 <==> p in multiset(inputs1);
      assert p in inputs2 <==> p in multiset(inputs2);
    }
  }

  lemma SameProducts(w: World, e: Entry, a: Action, b: Action, platform1: string, platform2: string, tool1: string,
                     tool2: string,
                     view1: map<Path, string>, view2: map<Path, string>)
    requires GoodHash(w.hash) && Readable(a, view1) && Readable(b, view2)
    requires KeyOf(a, platform1, tool1, view1, w.hash) == KeyOf(b, platform2, tool2, view2, w.hash)
    requires Produces(w, e, a, platform1, tool1, view1)
    ensures Produces(w, e, b, platform2, tool2, view2)
  {
    SameCovered(w, a, b, platform1, platform2, tool1, tool2, view1, view2);
    NoDupMultiset(a.inputs, b.inputs);
    SameOutputs(w.hash, e, a, b, w.exec(CoveredBy(w.path, a, platform1, Some(tool1), view1)).files);
  }

  lemma SameOutputs(hash: string -> string, e: Entry, a: Action, b: Action, files: Tree)
    requires multiset(a.outputs) == multiset(b.outputs)
    requires NoDup(a.outputs) && AllMoved(files, a.outputs, 0) && Describes(hash, e, a, files)
    ensures NoDup(b.outputs) && AllMoved(files, b.outputs, 0) && Describes(hash, e, b, files)
  {
    NoDupMultiset(a.outputs, b.outputs);
    assert |multiset(a.outputs)| == |multiset(b.outputs)|;
    forall p ensures p in a.outputs <==> p in b.outputs {
      assert p in a.outputs <==> p in multiset(a.outputs);
      assert p in b.outputs <==> p in multiset(b.outputs);
    }
    forall k | 0 <= k < |b.outputs| ensures b.outputs[k] in files {
      assert b.outputs[k] in a.outputs;
    }
    forall p ensures ListsPath(e, p) <==> p in b.outputs { assert ListsPath(e, p) <==> p in a.outputs; }
  }

  /** One action with the key is enough to vouch for an entry. */
  lemma OneVouchesForAll(w: World, key: string, e: Entry, a: Action, platform: string, tool: string,
                         view: map<Path, string>)
    requires GoodHash(w.hash) && HasKey(w, key, a, platform, tool, view) && Produces(w, e, a, platform, tool, view)
    ensures HonestEntry(w, key, e)
  {
    forall b, platform2, tool2, view2 | HasKey(w, key, b, platform2, tool2, view2)
      ensures Produces(w, e, b, platform2, tool2, view2)
    {
      SameProducts(w, e, a, b, platform, platform2, tool, tool2, view, view2);
    }
  }

  /** The records of a harvest describe it. */
  lemma RecordsDescribe(hash: string -> string, key: string, a: Action, files: Tree, ws: Tree)
    requires Harvest(files, a.outputs, 0, ws).1
    ensures var ws' := Harvest(files, a.outputs, 0, ws).0;
      AllPresent(ws', a.outputs) && Describes(hash, Entry(key, RecordsOf(hash, ws', a.outputs)), a, files)
  {
    var ws' := Harvest(files, a.outputs, 0, ws).0;
    HarvestedIsPresent(files, a.outputs, ws);
    var e := Entry(key, RecordsOf(hash, ws', a.outputs));
    forall i | 0 <= i < |e.outputs| ensures RecordedRight(hash, files, e.outputs[i]) {
      HarvestAt(files, a.outputs, 0, ws, a.outputs[i]);
    }
    forall p ensures ListsPath(e, p) <==> p in a.outputs {
      if p in a.outputs {
        var i :| 0 <= i < |a.outputs| && a.outputs[i] == p;
        assert e.outputs[i].path == p;
      }
    }
  }

  /** What is recorded after a successful run is honest. */
  lemma RecordIsHonest(m: Machine, a: Action, key: string, ws: Tree)
    requires GoodHash(m.w.hash) && a.command != [] && ToolOf(m, a).Some?
    requires HasKey(m.w, key, a, m.platform, ToolOf(m, a).value, View(ws))
    requires Execute(m, a, ws, false).outcome.RanOK?
    ensures var ws' := Execute(m, a, ws, false).ws;
      AllPresent(ws', a.outputs) && HonestEntry(m.w, key, Entry(key, RecordsOf(m.w.hash, ws', a.outputs)))
  {
    var files := m.w.exec(CoveredOf(m, a, View(ws))).files;
    var e := Entry(key, RecordsOf(m.w.hash, Execute(m, a, ws, false).ws, a.outputs));
    HarvestAt(files, a.outputs, 0, ws, "");
    RecordsDescribe(m.w.hash, key, a, files, ws);
    OneVouchesForAll(m.w, key, e, a, m.platform, ToolOf(m, a).value, View(ws));
  }

  lemma {:induction false} DigestListed(outputs: seq<OutputFile>, path: Path)
    ensures DigestFor(outputs, path).Some? ==>
      exists j :: 0 <= j < |outputs| && outputs[j].path == path && outputs[j].digest == DigestFor(outputs, path).value
    decreases |outputs|
  {
    if outputs != [] && outputs[|outputs| - 1].path != path {
      DigestListed(outputs[..|outputs| - 1], path);
      if DigestFor(outputs, path).Some? {
        var j :| 0 <= j < |outputs| - 1 && outputs[..|outputs| - 1][j].path == path
                 && outputs[..|outputs| - 1][j].digest == DigestFor(outputs, path).value;
        assert outputs[j].path == path;
      }
    }
  }

  /** A deterministic action is never reported as nondeterministic: what it produces again
      is what an honest entry under its key already says. */
  lemma DeterministicNotReported(m: Machine, a: Action, key: string, prev: Entry, ws: Tree, i: nat)
    requires GoodHash(m.w.hash) && a.command != [] && ToolOf(m, a).Some? && HonestEntry(m.w, key, prev)
    requires HasKey(m.w, key, a, m.platform, ToolOf(m, a).value, View(ws))
    requires Execute(m, a, ws, false).outcome.RanOK? && i < |a.outputs|
    ensures var ws' := Execute(m, a, ws, false).ws;
      a.outputs[i] in ws' && !Differs(prev, RecordOf(m.w.hash, ws', a.outputs[i]))
  {
    assert Produces(m.w, prev, a, m.platform, ToolOf(m, a).value, View(ws));
    var files := m.w.exec(CoveredOf(m, a, View(ws))).files;
    HarvestAt(files, a.outputs, 0, ws, a.outputs[i]);
    DigestListed(prev.outputs, a.outputs[i]);
  }

  lemma NewEntryIsHonest(w: World, ac: AC, key: string, e: Entry, now: int)
    requires Honest(w, ac) && HonestEntry(w, key, e)
    ensures Honest(w, ac[key := EntryFile(Some(e), now)])
  {
    var ac' := ac[key := EntryFile(Some(e), now)];
    forall k ensures HonestKey(w, ac', k) { assert HonestKey(w, ac, k); }
  }

  lemma PutIsHonest(m: Machine, a: Action, key: string, ws: Tree, cas: CAS, ac: AC, now: int)
    requires GoodHash(m.w.hash) && Honest(m.w, ac) && a.command != [] && ToolOf(m, a).Some?
    requires HasKey(m.w, key, a, m.platform, ToolOf(m, a).value, View(ws))
    ensures Honest(m.w, ExecuteAndPut(m, a, key, ws, cas, ac, false, now).ac)
  {
    if Execute(m, a, ws, false).outcome.RanOK? {
      RecordIsHonest(m, a, key, ws);
      NewEntryIsHonest(m.w, ac, key, Entry(key, RecordsOf(m.w.hash, Execute(m, a, ws, false).ws, a.outputs)), now);
    }
  }

  lemma TouchIsHonest(w: World, ac: AC, key: string, now: int)
    requires Honest(w, ac)
    ensures Honest(w, Touch(ac, key, now))
  {
    forall k ensures HonestKey(w, Touch(ac, key, now), k) { assert HonestKey(w, ac, k); }
  }

  /** The key of an action depends on the workspace through its inputs alone. */
  lemma KeyFromLinks(w: World, key: string, a: Action, platform: string, tool: string, view1: map<Path, string>,
                     view2: map<Path, string>)
    requires HasKey(w, key, a, platform, tool, view1) && Links(a, view1) == Links(a, view2)
    ensures HasKey(w, key, a, platform, tool, view2)
  {
    SameReadable(a, view1, view2);
    forall p | p in a.inputs ensures view1[p] == view2[p] {
      assert Links(a, view1)[p] == Links(a, view2)[p];
    }
    KeyCanonical(a, a, platform, tool, view1, view2, w.hash);
  }

  /** A hit, whether its restore succeeds, fails part way, or never starts because a blob
      is gone or damaged, ends where running the command would have ended. */
  lemma HitIsRun(m: Machine, a: Action, key: string, e: Entry, ws: Tree, cas: CAS, ac: AC, now: int)
    requires GoodHash(m.w.hash) && Honest(m.w, ac) && a.command != [] && NoOverlap(a) && ToolOf(m, a).Some?
    requires HasKey(m.w, key, a, m.platform, ToolOf(m, a).value, View(ws)) && Usable(cas, ac, key) == Some(e)
    ensures var r := RunKeyed(m, a, key, ws, cas, ac, false, now);
      Ran(r.ws, r.outcome) == Execute(m, a, ws, false) && Honest(m.w, r.ac)
  {
    assert HonestKey(m.w, ac, key);
    assert Produces(m.w, e, a, m.platform, ToolOf(m, a).value, View(ws));
    var files := m.w.exec(CoveredOf(m, a, View(ws))).files;
    RunAfterPartialRestore(m, e, a, cas, ws);
    TouchIsHonest(m.w, ac, key, now);
    var (ws', restored) := RestoreFrom(cas, m.w.hash, e.outputs, 0, ws);
    if restored {
      RestoreIsHarvest(m.w, e, a, files, cas, ws);
    } else {
      SameLinks(m, e, a, cas, ws);
      KeyFromLinks(m.w, key, a, m.platform, ToolOf(m, a).value, View(ws), View(ws'));
      PutIsHonest(m, a, key, ws', cas, Touch(ac, key, now), now);
    }
  }

  /** One cached run leaves the workspace and has the outcome of the plain run, and keeps
      the cache honest, for any blobs at all. */
  lemma CachedRunIsPlain(m: Machine, a: Action, ws: Tree, cas: CAS, ac: AC, now: int)
    requires GoodHash(m.w.hash) && Honest(m.w, ac) && a.command != [] && NoOverlap(a) && ToolOf(m, a).Some?
    ensures var r := RunCached(m, a, ws, cas, ac, false, now);
      Ran(r.ws, r.outcome) == RunPlain(m, a, ws, false) && Honest(m.w, r.ac)
  {
    if Readable(a, View(ws)) {
      var key := KeyOf(a, m.platform, ToolOf(m, a).value, View(ws), m.w.hash);
      if Usable(cas, ac, key).Some? {
        HitIsRun(m, a, key, Usable(cas, ac, key).value, ws, cas, ac, now);
      } else {
        PutIsHonest(m, a, key, ws, cas, ac, now);
      }
    }
  }

  // ---- a second run is a hit ----

  /** After a run that ended OK in a store without damage, the store is still without damage
      and the entry under the key can be restored. */
  lemma RunLeavesEntry(m: Machine, a: Action, key: string, ws: Tree, cas: CAS, ac: AC, now: int)
    requires GoodHash(m.w.hash) && a.command != [] && ValidName(key) && Intact(cas, m.w.hash)
    requires RunKeyed(m, a, key, ws, cas, ac, false, now).outcome.RanOK?
    ensures var r := RunKeyed(m, a, key, ws, cas, ac, false, now);
      && Intact(r.cas, m.w.hash) && Usable(r.cas, r.ac, key).Some?
      && (Usable(cas, ac, key).Some? ==> Usable(r.cas, r.ac, key) == Usable(cas, ac, key))
      && (Usable(cas, ac, key).None? ==>
            AllPresent(r.ws, a.outputs)
            && Usable(r.cas, r.ac, key).value == Entry(key, RecordsOf(m.w.hash, r.ws, a.outputs)))
  {
    if Usable(cas, ac, key).Some? {
      UndamagedRestores(cas, m.w.hash, Usable(cas, ac, key).value, ws);
    } else {
      PutLeavesEntry(m, a, key, ws, cas, ac, now);
    }
  }

  lemma UndamagedRestores(cas: CAS, hash: string -> string, e: Entry, ws: Tree)
    requires Intact(cas, hash) && AllBlobs(cas, e.outputs)
    ensures RestoreFrom(cas, hash, e.outputs, 0, ws).1
  {
    RestoreSucceeds(cas, hash, e.outputs, 0, ws);
  }

  lemma PutLeavesEntry(m: Machine, a: Action, key: string, ws: Tree, cas: CAS, ac: AC, now: int)
    requires GoodHash(m.w.hash) && a.command != [] && ValidName(key) && Intact(cas, m.w.hash)
    requires ExecuteAndPut(m, a, key, ws, cas, ac, false, now).outcome.RanOK?
    ensures var r := ExecuteAndPut(m, a, key, ws, cas, ac, false, now);
      && Intact(r.cas, m.w.hash) && AllPresent(r.ws, a.outputs)
      && Usable(r.cas, r.ac, key) == Some(Entry(key, RecordsOf(m.w.hash, r.ws, a.outputs)))
  {
    var ran := Execute(m, a, ws, false);
    ExecutedIsPresent(m, a, ws);
    StoredIntact(cas, m.w.hash, ran.ws, a.outputs, now);
    PutThenLookup(cas, ac, m.w.hash, key, ran.ws, a.outputs, now);
  }

  lemma ExecutedIsPresent(m: Machine, a: Action, ws: Tree)
    requires a.command != [] && Execute(m, a, ws, false).outcome.RanOK?
    ensures AllPresent(Execute(m, a, ws, false).ws, a.outputs)
  {
  }

  /** What the cache is for: once an action has run, running it again anywhere its inputs
      have the same bytes restores its outputs, bytes and modes, and runs no command. */
  lemma SecondRunHits(m: Machine, a: Action, ws: Tree, cas: CAS, ac: AC, now: int, ws2: Tree, killed: bool, now2: int)
    requires GoodHash(m.w.hash) && Honest(m.w, ac) && Intact(cas, m.w.hash) && a.command != [] && NoOverlap(a)
    requires RunCached(m, a, ws, cas, ac, false, now).outcome.RanOK? && Links(a, View(ws)) == Links(a, View(ws2))
    ensures var r := RunCached(m, a, ws, cas, ac, false, now);
      var r2 := RunCached(m, a, ws2, r.cas, r.ac, killed, now2);
      r2.cached && r2.outcome.RanOK? && forall p :: p in a.outputs ==> p in r2.ws && SameAt(r2.ws, r.ws, p)
  {
    OKRunHasKey(m, a, ws, cas, ac, now);
    var tool := ToolOf(m, a).value;
    var key := KeyOf(a, m.platform, tool, View(ws), m.w.hash);
    CachedRunIsKeyed(m, a, ws, cas, ac, false, now);
    RunLeavesEntry(m, a, key, ws, cas, ac, now);
    CachedRunIsPlain(m, a, ws, cas, ac, now);
    var r := RunCached(m, a, ws, cas, ac, false, now);
    KeyFromLinks(m.w, key, a, m.platform, tool, View(ws), View(ws2));
    HitAgain(m, a, ws, ws2, r.cas, r.ac, key, killed, now2);
    RunIsOKIff(m, a, ws);
  }

  lemma OKRunHasKey(m: Machine, a: Action, ws: Tree, cas: CAS, ac: AC, now: int)
    requires a.command != [] && RunCached(m, a, ws, cas, ac, false, now).outcome.RanOK?
    ensures Readable(a, View(ws)) && ToolOf(m, a).Some?
  {
  }

  /** A hit on an honest, undamaged entry gives the outputs of the plain run. */
  lemma HitAgain(m: Machine, a: Action, ws: Tree, ws2: Tree, cas: CAS, ac: AC, key: string, killed: bool, now2: int)
    requires GoodHash(m.w.hash) && Honest(m.w, ac) && Intact(cas, m.w.hash) && a.command != [] && ToolOf(m, a).Some?
    requires HasKey(m.w, key, a, m.platform, ToolOf(m, a).value, View(ws2)) && Usable(cas, ac, key).Some?
    requires Links(a, View(ws)) == Links(a, View(ws2)) && Readable(a, View(ws))
    ensures var r2 := RunCached(m, a, ws2, cas, ac, killed, now2);
      && r2.cached && r2.outcome.RanOK?
      && forall p :: p in a.outputs ==> p in r2.ws && SameAt(r2.ws, RunPlain(m, a, ws, false).ws, p)
  {
    var e := Usable(cas, ac, key).value;
    assert HonestKey(m.w, ac, key);
    assert Produces(m.w, e, a, m.platform, ToolOf(m, a).value, View(ws2));
    UndamagedRestores(cas, m.w.hash, e, ws2);
    CachedRunIsKeyed(m, a, ws2, cas, ac, killed, now2);
    var files := m.w.exec(CoveredOf(m, a, View(ws2))).files;
    RestoreIsHarvest(m.w, e, a, files, cas, ws2);
    PlainOutputs(m, a, ws, ws2, files);
  }

  lemma PlainOutputs(m: Machine, a: Action, ws: Tree, ws2: Tree, files: Tree)
    requires a.command != [] && NoDup(a.inputs) && Readable(a, View(ws)) && Links(a, View(ws)) == Links(a, View(ws2))
    requires m.w.exec(CoveredOf(m, a, View(ws2))) == ExecResult.Exited(files) && AllMoved(files, a.outputs, 0)
    ensures forall p :: p in a.outputs ==>
      p in Harvest(files, a.outputs, 0, ws2).0
      && SameAt(Harvest(files, a.outputs, 0, ws2).0, RunPlain(m, a, ws, false).ws, p)
  {
    forall p | p in a.outputs
      ensures p in Harvest(files, a.outputs, 0, ws2).0
      ensures SameAt(Harvest(files, a.outputs, 0, ws2).0, RunPlain(m, a, ws, false).ws, p)
    {
      HarvestAt(files, a.outputs, 0, ws, p);
      HarvestAt(files, a.outputs, 0, ws2, p);
    }
  }

  lemma PutAfterKill(m: Machine, a: Action, key: string, ws: Tree, cas: CAS, ac: AC, now: int)
    requires a.command != []
    ensures var r := ExecuteAndPut(m, a, key, ws, cas, ac, true, now);
      r.ws == ws && r.ac == ac && r.outcome == Execute(m, a, ws, true).outcome && !r.outcome.RanOK?
  {
  }

  /** A restore that succeeds is not the command's, so it does not matter that the command
      would be stopped. */
  lemma KilledHit(m: Machine, a: Action, key: string, e: Entry, ws: Tree, cas: CAS, ac: AC, now: int)
    requires GoodHash(m.w.hash) && Honest(m.w, ac) && a.command != [] && NoOverlap(a) && ToolOf(m, a).Some?
    requires HasKey(m.w, key, a, m.platform, ToolOf(m, a).value, View(ws)) && Usable(cas, ac, key) == Some(e)
    ensures var r := RunKeyed(m, a, key, ws, cas, ac, true, now);
      && Honest(m.w, r.ac) && (forall p :: p in a.outputs || SameAt(r.ws, ws, p))
      && if RestoreFrom(cas, m.w.hash, e.outputs, 0, ws).1
         then Ran(r.ws, r.outcome) == Execute(m, a, ws, false) && r.outcome.RanOK?
         else r.outcome == Execute(m, a, ws, true).outcome && !r.outcome.RanOK?
  {
    assert HonestKey(m.w, ac, key);
    assert Produces(m.w, e, a, m.platform, ToolOf(m, a).value, View(ws));
    TouchIsHonest(m.w, ac, key, now);
    RestoreWithinOutputs(e, a, cas, m.w.hash, ws);
    var (ws', restored) := RestoreFrom(cas, m.w.hash, e.outputs, 0, ws);
    if restored {
      HitIsRun(m, a, key, e, ws, cas, ac, now);
    } else {
      PutAfterKill(m, a, key, ws', cas, Touch(ac, key, now), now);
    }
  }

  /** A cancelled context is where a cache can be noticed: a hit still succeeds, as the
      command would have if it had not been stopped. Otherwise the run fails as it does
      without a cache, and what a failed restore left behind is confined to the declared
      outputs. Either way the cache stays honest. */
  lemma KilledRun(m: Machine, a: Action, ws: Tree, cas: CAS, ac: AC, now: int)
    requires GoodHash(m.w.hash) && Honest(m.w, ac) && a.command != [] && NoOverlap(a) && ToolOf(m, a).Some?
    ensures var r := RunCached(m, a, ws, cas, ac, true, now);
      && Honest(m.w, r.ac) && (forall p :: p in a.outputs || SameAt(r.ws, ws, p))
      && if Readable(a, View(ws)) && Restores(m, a, ws, cas, ac)
         then Ran(r.ws, r.outcome) == RunPlain(m, a, ws, false) && r.outcome.RanOK?
         else r.outcome == RunPlain(m, a, ws, true).outcome && !r.outcome.RanOK?
  {
    if Readable(a, View(ws)) {
      var key := KeyOf(a, m.platform, ToolOf(m, a).value, View(ws), m.w.hash);
      CachedRunIsKeyed(m, a, ws, cas, ac, true, now);
      if Usable(cas, ac, key).Some? {
        KilledHit(m, a, key, Usable(cas, ac, key).value, ws, cas, ac, now);
      } else {
        PutAfterKill(m, a, key, ws, cas, ac, now);
      }
    } else {
      UnreadableFails(m, a, ws, cas, ac, true, now);
    }
  }

  /** With an honest cache a hit never makes up for an input declared twice, so a run has a
      Result exactly when its inputs are there, once each, and its tool resolves. */
  lemma HonestCanStart(m: Machine, a: Action, s: Site)
    requires GoodHash(m.w.hash) && a.command != [] && s.cache.Some? && Honest(m.w, s.cache.value.ac)
    ensures CanStart(m, a, s) <==> Readable(a, View(s.ws)) && ToolOf(m, a).Some? && NoDup(a.inputs)
  {
    var cas, ac := s.cache.value.cas, s.cache.value.ac;
    if Readable(a, View(s.ws)) && ToolOf(m, a).Some? && Restores(m, a, s.ws, cas, ac) {
      var tool := ToolOf(m, a).value;
      var key := KeyOf(a, m.platform, tool, View(s.ws), m.w.hash);
      assert HonestKey(m.w, ac, key) && HasKey(m.w, key, a, m.platform, tool, View(s.ws));
      assert Produces(m.w, ac[key].entry.value, a, m.platform, tool, View(s.ws));
    }
  }

  // ---- histories ----

  /** What may happen to a cache behind a build's back: blobs change in any way; entries
      disappear, stop decoding or get another time; and entries arrive that say what the
      actions with their key do, as those another machine recorded. */
  ghost predicate Weathers(w: World, c: Cache, c': Cache) {
    forall key :: key in c'.ac && c'.ac[key].entry.Some? ==>
      (key in c.ac && c'.ac[key].entry == c.ac[key].entry) || HonestEntry(w, key, c'.ac[key].entry.value)
  }

  lemma WeathersIsHonest(w: World, c: Cache, c': Cache)
    requires Weathers(w, c, c') && Honest(w, c.ac)
    ensures Honest(w, c'.ac)
  {
    forall key ensures HonestKey(w, c'.ac, key) { assert HonestKey(w, c.ac, key); }
  }

  type Storm = Cache -> Cache

  ghost predicate Harmless(w: World, f: Storm) { forall c :: Weathers(w, c, f(c)) }

  /** A collection is such a disturbance. */
  lemma GCWeathers(w: World, cas: CAS, ac: AC, es: seq<Gc.EntryInfo>, opts: Gc.GCOptions, cas': CAS, ac': AC)
    requires Gc.CollectedStore(cas, ac, es, opts, cas', ac')
    ensures Weathers(w, Cache(cas, ac), Cache(cas', ac'))
  {
    forall key | key in ac' && ac'[key].entry.Some? ensures key in ac && ac'[key].entry == ac[key].entry {}
  }

  /** And so is a tiered lookup, whatever bytes the server sends, as long as the entry it
      sends was recorded by an honest build; the blobs are not trusted. */
  lemma TieredWeathers(w: World, cas: CAS, ac: AC, key: string, reply: Remote.Reply<Option<Entry>>,
                       replies: nat -> Remote.Reply<string>, now: int)
    requires Remote.GetEntry(key, reply).Body? ==> HonestEntry(w, key, Remote.GetEntry(key, reply).value)
    ensures var r := Remote.LookupSpec(cas, ac, w.hash, true, key, reply, replies, now);
      Weathers(w, Cache(cas, ac), Cache(r.cas, r.ac))
  {
    var r := Remote.LookupSpec(cas, ac, w.hash, true, key, reply, replies, now);
    forall k | k in r.ac && r.ac[k].entry.Some?
      ensures (k in ac && r.ac[k].entry == ac[k].entry) || HonestEntry(w, k, r.ac[k].entry.value)
    {
      Remote.LookupInstalls(cas, ac, w.hash, true, key, reply, replies, now, k);
    }
  }

  /** One thing that happens to a checkout. A build has a storm before each action. */
  datatype Happening =
    | Edit(change: Tree -> Tree)
    | Disturb(storm: Storm)
    | Run(m: Machine, g: Graph, order: seq<string>, keepGoing: bool, stopAt: nat, nows: nat -> int,
      storms: nat -> Storm)

  ghost predicate ValidRun(w: World, h: Happening)
    requires h.Run?
  {
    && h.m.w == w && h.g.WellFormed() && IsTopological(h.g, h.order) && HasCommands(h.g)
    && (forall n :: n in h.g.actions ==> NoOverlap(h.g.actions[n]) && ToolFound(h.m, h.g.actions[n]))
    && (forall i :: Harmless(w, h.storms(i)))
  }

  ghost predicate ToolFound(m: Machine, a: Action) { a.command != [] && ToolOf(m, a).Some? }

  ghost predicate ValidHappening(w: World, h: Happening) {
    match h
    case Edit(_) => true
    case Disturb(f) => Harmless(w, f)
    case Run(_, _, _, _, _, _, _) => ValidRun(w, h)
  }

  function Struck(f: Storm, s: Site): Site {
    if s.cache.None? then s else Site(s.ws, Some(f(s.cache.value)))
  }

  /** The sequential driver with a storm before each action; no command is killed. */
  ghost function StormyDriver(h: Happening): Driver<Site>
    requires h.Run?
  {
    Driver(h.g, h.order, h.keepGoing, h.stopAt,
           (s: Site, i: nat, n: string) =>
             RunNamed(h.m, h.g, (j: nat) => Tick(false, h.nows(j)), Struck(h.storms(i), s), i, n))
  }

  /** What one happening does, and the books of the build if it is one. */
  ghost function After(h: Happening, s: Site): (Site, Option<Book>) {
    match h
    case Edit(change) => (Site(change(s.ws), s.cache), None)
    case Disturb(f) => (Struck(f, s), None)
    case Run(_, _, order, _, _, _, _) =>
      var p := Drive(StormyDriver(h), s, |order|);
      (p.world, Some(p.book))
  }

  ghost function Play(hs: seq<Happening>, s: Site): (Site, seq<Option<Book>>) {
    if hs == [] then (s, [])
    else
      var (s', b) := After(hs[0], s);
      var (s'', bs) := Play(hs[1..], s');
      (s'', [b] + bs)
  }

  /** The same workspace, one with an honest cache and one without any. */
  ghost predicate Alike(w: World, cached: Site, plain: Site) {
    cached.ws == plain.ws && cached.cache.Some? && plain.cache.None? && Honest(w, cached.cache.value.ac)
  }

  lemma StormKeepsAlike(w: World, f: Storm, cached: Site, plain: Site)
    requires Harmless(w, f) && Alike(w, cached, plain)
    ensures Alike(w, Struck(f, cached), Struck(f, plain))
  {
    assert Weathers(w, cached.cache.value, f(cached.cache.value));
    WeathersIsHonest(w, cached.cache.value, f(cached.cache.value));
  }

  /** The i-th run of d cannot tell a cached site from a plain one. */
  ghost predicate RunAlike(w: World, d: Driver<Site>, i: nat, cached: Site, plain: Site) {
    i < |d.order| && Alike(w, cached, plain) ==>
      && d.run(cached, i, d.order[i]).1 == d.run(plain, i, d.order[i]).1
      && Alike(w, d.run(cached, i, d.order[i]).0, d.run(plain, i, d.order[i]).0)
  }

  ghost predicate CacheBlind(w: World, d: Driver<Site>) {
    forall i, cached, plain :: RunAlike(w, d, i, cached, plain)
  }

  lemma StormyRunAlike(w: World, h: Happening, cached: Site, plain: Site, i: nat)
    requires GoodHash(w.hash) && h.Run? && ValidRun(w, h)
    ensures RunAlike(w, StormyDriver(h), i, cached, plain)
  {
    if i < |h.order| && Alike(w, cached, plain) {
      OrderNamed(h.g, h.order, i);
      var a := h.g.actions[h.order[i]];
      StormKeepsAlike(w, h.storms(i), cached, plain);
      var s := Struck(h.storms(i), cached);
      assert ToolFound(h.m, a);
      CachedRunIsPlain(h.m, a, s.ws, s.cache.value.cas, s.cache.value.ac, h.nows(i));
    }
  }

  lemma {:induction false} BuildKeepsAlike(w: World, d: Driver<Site>, cached: Site, plain: Site, k: nat)
    requires CacheBlind(w, d) && Alike(w, cached, plain) && k <= |d.order|
    ensures Drive(d, cached, k).book == Drive(d, plain, k).book
    ensures Alike(w, Drive(d, cached, k).world, Drive(d, plain, k).world)
    decreases k
  {
    if k > 0 {
      BuildKeepsAlike(w, d, cached, plain, k - 1);
      assert RunAlike(w, d, k - 1, Drive(d, cached, k - 1).world, Drive(d, plain, k - 1).world);
    }
  }

  lemma StormyBuildAlike(w: World, h: Happening, cached: Site, plain: Site)
    requires GoodHash(w.hash) && h.Run? && ValidRun(w, h) && Alike(w, cached, plain)
    ensures Alike(w, After(h, cached).0, After(h, plain).0) && After(h, cached).1 == After(h, plain).1
  {
    var d := StormyDriver(h);
    forall i, s1, s2 ensures RunAlike(w, d, i, s1, s2) { StormyRunAlike(w, h, s1, s2, i); }
    BuildKeepsAlike(w, d, cached, plain, |h.order|);
  }

  /** Over any history, whatever is edited, collected, damaged or lost between the builds
      or between two actions of a build, the cached checkout has the workspace of the
      uncached one, and every build reports the same. */
  lemma {:induction false} CacheTransparency(w: World, hs: seq<Happening>, cached: Site, plain: Site)
    requires GoodHash(w.hash) && Alike(w, cached, plain) && forall i :: 0 <= i < |hs| ==> ValidHappening(w, hs[i])
    ensures Play(hs, cached).0.ws == Play(hs, plain).0.ws
    ensures Play(hs, cached).1 == Play(hs, plain).1
    decreases |hs|
  {
    if hs != [] {
      var h := hs[0];
      assert ValidHappening(w, h);
      if h.Disturb? { StormKeepsAlike(w, h.storm, cached, plain); }
      if h.Run? { StormyBuildAlike(w, h, cached, plain); }
      CacheTransparency(w, hs[1..], After(h, cached).0, After(h, plain).0);
    }
  }

  /** In particular a cache that starts without entries, whatever blobs it holds, is never
      noticed. */
  lemma NewCacheIsTransparent(w: World, hs: seq<Happening>, ws: Tree, cas: CAS)
    requires GoodHash(w.hash) && forall i :: 0 <= i < |hs| ==> ValidHappening(w, hs[i])
    ensures Play(hs, Site(ws, Some(Cache(cas, map[])))).0.ws == Play(hs, Site(ws, None)).0.ws
    ensures Play(hs, Site(ws, Some(Cache(cas, map[])))).1 == Play(hs, Site(ws, None)).1
  {
    CacheTransparency(w, hs, Site(ws, Some(Cache(cas, map[]))), Site(ws, None));
  }
}
