/** What a collection promises: the entries it leaves stay usable, it evicts no more than
    it must, its books balance, and a second run finds nothing to do. */
module GcClaims {
  import opened Sorting
  import opened Graphs
  import opened Keys
  import opened Stores
  import opened Gc

  // ---- usability ----

  lemma {:induction false} OccursIfListed(es: seq<EntryInfo>, i: nat, j: nat)
    requires i < |es| && j < |es[i].digests|
    ensures Occurrences(es, es[i].digests[j]) >= 1
    decreases i
  {
    if i == 0 {
      assert es[0].digests[j] in multiset(es[0].digests);
    } else {
      assert es[1..][i - 1] == es[i];
      OccursIfListed(es[1..], i - 1, j);
    }
  }

  lemma EvictedKey(es: seq<EntryInfo>, ac: AC, k: nat, i: nat)
    requires IsScan(es, ac) && WellNamed(ac) && k <= |es| && i < |es|
    ensures es[i].key in KeysOf(es[..k]) <==> i < k
  {
    if i < k { assert es[..k][i].key == es[i].key; }
    if es[i].key in KeysOf(es[..k]) {
      var j :| 0 <= j < |es[..k]| && es[..k][j].key == es[i].key;
      assert InfoOf(ac, es[i]) && InfoOf(ac, es[j]);
    }
  }

  /** An entry that is still there was not among those evicted. */
  lemma SurvivorPosition(es: seq<EntryInfo>, ac: AC, k: nat, key: string) returns (i: nat)
    requires IsOrder(es, ac) && WellNamed(ac) && k <= |es|
    requires key in ac && ac[key].entry.Some? && key !in KeysOf(es[..k])
    ensures k <= i < |es| && InfoOf(ac, es[i]) && es[i].key == key
  {
    var e := InfoFor(key, ac[key]);
    assert InfoOf(ac, e);
    i :| 0 <= i < |es| && es[i] == e;
    EvictedKey(es, ac, k, i);
  }

  /** No blob of a surviving entry is lost: every digest it names is there after the
      collection if and only if it was there before, with the same bytes. */
  lemma SurvivorKeepsBlobs(cas: CAS, ac: AC, es: seq<EntryInfo>, opts: GCOptions, cas': CAS, ac': AC, key: string,
                           j: nat)
    requires IsOrder(es, ac) && WellNamed(ac) && CollectedStore(cas, ac, es, opts, cas', ac')
    requires key in ac' && ac'[key].entry.Some? && j < |ac'[key].entry.value.outputs|
    ensures key in ac && ac[key] == ac'[key]
    ensures var d := ac'[key].entry.value.outputs[j].digest;
      (d in cas' <==> d in cas) && (d in cas ==> cas'[d] == cas[d])
  {
    if !opts.dryRun {
      var k := Evictions(cas, es, opts);
      var i := SurvivorPosition(es, ac, k, key);
      assert es[k..][i - k] == es[i];
      OccursIfListed(es[k..], i - k, j);
    }
  }

  lemma SurvivorUsable(cas: CAS, ac: AC, es: seq<EntryInfo>, opts: GCOptions, cas': CAS, ac': AC, key: string)
    requires IsOrder(es, ac) && WellNamed(ac) && CollectedStore(cas, ac, es, opts, cas', ac')
    requires key in ac' && ac'[key].entry.Some?
    ensures key in ac && ac[key] == ac'[key]
    ensures AllBlobs(cas', ac'[key].entry.value.outputs) <==> AllBlobs(cas, ac'[key].entry.value.outputs)
  {
    var outputs := ac'[key].entry.value.outputs;
    forall j | 0 <= j < |outputs| ensures HasBlob(cas', outputs[j].digest) <==> HasBlob(cas, outputs[j].digest) {
      SurvivorKeepsBlobs(cas, ac, es, opts, cas', ac', key, j);
    }
  }

  /** A later lookup answers exactly as before for every entry that was not evicted, and
      misses for those that were. */
  lemma LookupAfterGC(cas: CAS, ac: AC, es: seq<EntryInfo>, opts: GCOptions, cas': CAS, ac': AC, key: string)
    requires IsOrder(es, ac) && WellNamed(ac) && CollectedStore(cas, ac, es, opts, cas', ac')
    ensures Usable(cas', ac', key) ==
      if !opts.dryRun && key in KeysOf(es[..Evictions(cas, es, opts)]) then None else Usable(cas, ac, key)
  {
    if key in ac' && ac'[key].entry.Some? { SurvivorUsable(cas, ac, es, opts, cas', ac', key); }
  }

  /** Whatever the entries are filed under, a lookup after a collection answers as before or
      misses. */
  lemma SameOrMiss(cas: CAS, ac: AC, es: seq<EntryInfo>, opts: GCOptions, cas': CAS, ac': AC, key: string)
    requires CollectedStore(cas, ac, es, opts, cas', ac')
    ensures Usable(cas', ac', key).Some? ==> Usable(cas', ac', key) == Usable(cas, ac, key)
  {
    if Usable(cas', ac', key).Some? {
      var outputs := Usable(cas', ac', key).value.outputs;
      forall i | 0 <= i < |outputs| ensures HasBlob(cas, outputs[i].digest) { assert HasBlob(cas', outputs[i].digest); }
    }
  }

  lemma {:induction false} SameRestore(cas: CAS, cas': CAS, hash: string -> string, outputs: seq<OutputFile>, i: nat,
                                       ws: Tree)
    requires i <= |outputs|
    requires forall j :: i <= j < |outputs| ==> (outputs[j].digest in cas' <==> outputs[j].digest in cas)
    requires forall j :: i <= j < |outputs| && outputs[j].digest in cas ==>
      cas'[outputs[j].digest] == cas[outputs[j].digest]
    ensures RestoreFrom(cas', hash, outputs, i, ws) == RestoreFrom(cas, hash, outputs, i, ws)
    decreases |outputs| - i
  {
    if i < |outputs| && Verified(cas, hash, outputs[i].digest) {
      SameRestore(cas, cas', hash, outputs, i + 1,
        ws[outputs[i].path := File(cas[outputs[i].digest].bytes, outputs[i].mode)]);
    }
  }

  /** And restoring a surviving entry does what it did before the collection. */
  lemma RestoreAfterGC(cas: CAS, ac: AC, es: seq<EntryInfo>, opts: GCOptions, cas': CAS, ac': AC, key: string,
                       hash: string -> string, ws: Tree)
    requires IsOrder(es, ac) && WellNamed(ac) && CollectedStore(cas, ac, es, opts, cas', ac')
      && Usable(cas', ac', key).Some?
    ensures Usable(cas, ac, key) == Usable(cas', ac', key)
    ensures var outputs := Usable(cas', ac', key).value.outputs;
      RestoreFrom(cas', hash, outputs, 0, ws) == RestoreFrom(cas, hash, outputs, 0, ws)
  {
    var outputs := Usable(cas', ac', key).value.outputs;
    SurvivorUsable(cas, ac, es, opts, cas', ac', key);
    forall j | 0 <= j < |outputs|
      ensures var d := outputs[j].digest; (d in cas' <==> d in cas) && (d in cas ==> cas'[d] == cas[d])
    {
      SurvivorKeepsBlobs(cas, ac, es, opts, cas', ac', key, j);
    }
    SameRestore(cas, cas', hash, outputs, 0, ws);
  }

  // ---- budget and least recently used ----

  /** Every entry evicted before the stop was over budget and not protected, and at the
      stop one of the reasons to stop holds. */
  lemma {:induction false} StopIsFirst(cas: CAS, es: seq<EntryInfo>, k: nat, opts: GCOptions)
    requires k <= |es|
    ensures var r := StopFrom(cas, es, k, opts);
      && (forall j :: k <= j < r ==> BytesLeft(cas, es, j, opts) > opts.maxBytes && !Protected(opts, es[j].modTime))
      && (r == |es| || BytesLeft(cas, es, r, opts) <= opts.maxBytes || Protected(opts, es[r].modTime))
    decreases |es| - k
  {
    if StopFrom(cas, es, k, opts) != k { StopIsFirst(cas, es, k + 1, opts); }
  }

  /** With nothing protected, evicting every entry frees every byte. */
  lemma EverythingGoes(cas: CAS, es: seq<EntryInfo>, opts: GCOptions)
    requires opts.minAge <= 0
    ensures BytesLeft(cas, es, |es|, opts) == 0
  {
    assert es[|es|..] == [];
    assert Collected(cas, es, |es|, opts) == cas.Keys;
  }

  /** Written less than MinAge ago. */
  predicate Young(opts: GCOptions, modTime: int) { opts.minAge > 0 && opts.now - opts.minAge < modTime }

  /** a was used before b, or at the same time and its key comes first. */
  predicate UsedBefore(a: EntryInfo, b: EntryInfo) {
    a.modTime < b.modTime || (a.modTime == b.modTime && (a.key == b.key || Less(a.key, b.key)))
  }

  /** The evicted entries are the first k in (modTime, key) order, so none was used more
      recently than one that stays, and none is younger than MinAge; with one entry fewer
      the store would still be over budget; afterwards it is within budget or every entry
      left is younger than MinAge; and without MinAge a positive budget is always met. */
  lemma EvictionIsMinimal(cas: CAS, ac: AC, es: seq<EntryInfo>, opts: GCOptions)
    requires IsOrder(es, ac)
    ensures var k := Evictions(cas, es, opts);
      && (k > 0 ==> opts.maxBytes > 0)
      && (forall j :: 0 <= j < k ==> BytesLeft(cas, es, j, opts) > opts.maxBytes && !Young(opts, es[j].modTime))
      && (forall i, j :: 0 <= i < k <= j < |es| ==> UsedBefore(es[i], es[j]))
      && (opts.maxBytes > 0 ==>
            || BytesLeft(cas, es, k, opts) <= opts.maxBytes
            || (forall j :: k <= j < |es| ==> Young(opts, es[j].modTime)))
      && (opts.maxBytes > 0 && opts.minAge <= 0 ==> BytesLeft(cas, es, k, opts) <= opts.maxBytes)
  {
    var k := Evictions(cas, es, opts);
    if opts.maxBytes > 0 { StopIsFirst(cas, es, 0, opts); }
    forall i, j | 0 <= i < k <= j < |es| ensures UsedBefore(es[i], es[j]) { assert InOrder(es, OlderEqual, i, j); }
    if opts.maxBytes > 0 && BytesLeft(cas, es, k, opts) > opts.maxBytes {
      forall j | k <= j < |es| ensures Young(opts, es[j].modTime) { Collector.ProtectedOnwards(es, k, j, opts); }
    }
    if opts.minAge <= 0 { EverythingGoes(cas, es, opts); }
  }

  // ---- age ----

  /** MinAge saves what was written recently: no blob and no entry younger than that goes. */
  lemma YoungStay(cas: CAS, ac: AC, es: seq<EntryInfo>, opts: GCOptions, cas': CAS, ac': AC)
    requires CollectedStore(cas, ac, es, opts, cas', ac')
    ensures forall d :: d in cas && Young(opts, cas[d].modTime) ==> d in cas' && cas'[d] == cas[d]
    ensures IsOrder(es, ac) && WellNamed(ac) ==>
      forall key :: key in ac && Young(opts, ac[key].modTime) ==> key in ac' && ac'[key] == ac[key]
  {
    var k := Evictions(cas, es, opts);
    if opts.maxBytes > 0 { StopIsFirst(cas, es, 0, opts); }
    if IsOrder(es, ac) && WellNamed(ac) {
      forall key | key in KeysOf(es[..k]) ensures key in ac && !Young(opts, ac[key].modTime) {
        var j :| 0 <= j < |es[..k]| && es[..k][j].key == key;
        assert es[j] in es && InfoOf(ac, es[j]);
      }
    }
  }

  /** Some entry of the action cache names d. */
  ghost predicate Referred(ac: AC, d: string) {
    exists key, j :: key in ac && ac[key].entry.Some? && NamesAt(ac[key].entry.value, j, d)
  }

  ghost predicate NamesAt(e: Entry, j: int, d: string) { 0 <= j < |e.outputs| && e.outputs[j].digest == d }

  ghost predicate ListedAt(es: seq<EntryInfo>, i: int, j: int, d: string) {
    0 <= i < |es| && 0 <= j < |es[i].digests| && es[i].digests[j] == d
  }

  lemma {:induction false} OccursIffListed(es: seq<EntryInfo>, d: string)
    ensures Occurrences(es, d) > 0 <==> exists i, j :: ListedAt(es, i, j, d)
    decreases |es|
  {
    if es != [] {
      OccursIffListed(es[1..], d);
      if Count(es[0].digests, d) > 0 {
        var j :| 0 <= j < |es[0].digests| && es[0].digests[j] == d;
        assert ListedAt(es, 0, j, d);
      }
      if i, j :| ListedAt(es[1..], i, j, d) { assert ListedAt(es, i + 1, j, d); }
      if i, j :| ListedAt(es, i, j, d) {
        if i > 0 { assert ListedAt(es[1..], i - 1, j, d); } else { assert d in multiset(es[0].digests); }
      }
    }
  }

  /** The entries a collection leaves name d exactly when their records do. */
  lemma SurvivorsRefer(ac: AC, es: seq<EntryInfo>, k: nat, d: string)
    requires IsOrder(es, ac) && WellNamed(ac) && k <= |es|
    ensures Referred(ac - KeysOf(es[..k]), d) <==> Occurrences(es[k..], d) > 0
  {
    var ac' := ac - KeysOf(es[..k]);
    OrderAfterGC(ac, es, k);
    OccursIffListed(es[k..], d);
    if key, j :| key in ac' && ac'[key].entry.Some? && NamesAt(ac'[key].entry.value, j, d) {
      assert InfoOf(ac', InfoFor(key, ac'[key]));
      var i :| 0 <= i < |es[k..]| && es[k..][i] == InfoFor(key, ac'[key]);
      assert ListedAt(es[k..], i, j, d);
    }
    if i, j :| ListedAt(es[k..], i, j, d) {
      assert InfoOf(ac', es[k..][i]);
      assert NamesAt(ac'[es[k..][i].file].entry.value, j, d);
    }
  }

  /** A real run removes a blob if and only if it is at least MinAge old, has a name that can
      be a path, and no entry that is left names it. */
  lemma BlobGoesIff(cas: CAS, ac: AC, es: seq<EntryInfo>, opts: GCOptions, cas': CAS, ac': AC, d: string)
    requires !opts.dryRun && IsOrder(es, ac) && WellNamed(ac) && CollectedStore(cas, ac, es, opts, cas', ac')
    requires d in cas
    ensures d !in cas' <==> ValidName(d) && !Young(opts, cas[d].modTime) && !Referred(ac', d)
  {
    var k := Evictions(cas, es, opts);
    RealEviction(ac, es, k, opts);
    SurvivorsRefer(ac, es, k, d);
  }

  lemma RealEviction(ac: AC, es: seq<EntryInfo>, k: nat, opts: GCOptions)
    requires !opts.dryRun && IsOrder(es, ac) && WellNamed(ac) && k <= |es|
    ensures AcAfter(ac, KeysOf(es[..k]), opts) == ac - KeysOf(es[..k])
  {
    forall key | key in KeysOf(es[..k]) ensures ValidName(key) {
      var j :| 0 <= j < |es[..k]| && es[..k][j].key == key;
      assert es[j] in es && InfoOf(ac, es[j]);
    }
  }

  /** The blobs that no entry names any more once the first k are gone, old and young. */
  ghost function Loose(cas: CAS, ac: AC, es: seq<EntryInfo>, k: nat, opts: GCOptions, young: bool): set<string>
    requires k <= |es|
  {
    set d | d in cas && !Referred(ac - KeysOf(es[..k]), d) && Young(opts, cas[d].modTime) == young
  }

  lemma LooseIsCollected(cas: CAS, ac: AC, es: seq<EntryInfo>, k: nat, opts: GCOptions)
    requires IsOrder(es, ac) && WellNamed(ac) && k <= |es|
    ensures Loose(cas, ac, es, k, opts, false) == Collected(cas, es, k, opts)
    ensures Loose(cas, ac, es, k, opts, true) == Kept(cas, es, k, opts)
  {
    forall d ensures Referred(ac - KeysOf(es[..k]), d) <==> Occurrences(es[k..], d) > 0 {
      SurvivorsRefer(ac, es, k, d);
    }
  }

  /** What the report counts: as unreferenced the old blobs no entry named to begin with, as
      evicted those that lost their last entry, as skipped the young ones among both and,
      if the store is still over budget, the entries left, all of which are young. */
  lemma ReportCounts(cas: CAS, ac: AC, es: seq<EntryInfo>, opts: GCOptions)
    requires IsOrder(es, ac) && WellNamed(ac)
    ensures var r, k := Report(cas, es, opts), Evictions(cas, es, opts);
      && r.entries == |es| && r.blobs == |cas| && r.evictedEntry == k
      && r.unreferenced == |Loose(cas, ac, es, 0, opts, false)|
      && r.unreferenced + r.evicted == |Loose(cas, ac, es, k, opts, false)|
      && r.skipped == |Loose(cas, ac, es, k, opts, true)|
                      + (if opts.maxBytes > 0 && r.bytesAfter > opts.maxBytes then |es| - k else 0)
      && r.bytesBefore == SizeSum(cas, cas.Keys)
      && r.bytesFreed == SizeSum(cas, Loose(cas, ac, es, k, opts, false))
  {
    LooseIsCollected(cas, ac, es, 0, opts);
    LooseIsCollected(cas, ac, es, Evictions(cas, es, opts), opts);
  }

  /** Sizes are counted in bytes. */
  lemma SizeOfOne(cas: CAS, d: string)
    requires d in cas
    ensures SizeSum(cas, {d}) == |cas[d].bytes|
  {
    SizeSumRemove(cas, {d}, d);
    assert {d} - {d} == {};
  }

  // ---- accounting ----

  /** Garbage that has no path to remove. */
  ghost function Stuck(cas: CAS, es: seq<EntryInfo>, opts: GCOptions): set<string> {
    set d | d in Collected(cas, es, Evictions(cas, es, opts), opts) && !ValidName(d)
  }

  lemma {:induction false} SizeSumEmpty(cas: CAS, s: set<string>)
    ensures SizeSum(cas, s) == 0 <==> forall d :: d in s ==> Size(cas, d) == 0
    decreases s
  {
    if s != {} {
      var x :| x in s && SizeSum(cas, s) == Size(cas, x) + SizeSum(cas, s - {x});
      SizeSumEmpty(cas, s - {x});
    }
  }

  lemma MoreGarbage(cas: CAS, es: seq<EntryInfo>, k: nat, opts: GCOptions)
    requires k <= |es|
    ensures Collected(cas, es, 0, opts) <= Collected(cas, es, k, opts)
  {
    assert es[0..] == es && es == es[..k] + es[k..];
    forall d ensures Occurrences(es, d) == Occurrences(es[..k], d) + Occurrences(es[k..], d) {
      OccurrencesSplit(es[..k], es[k..], d);
    }
  }

  /** The books balance: bytes before are bytes freed plus bytes after, and the blobs
      scanned are the unreferenced, the evicted and those still on the books. */
  lemma BooksBalance(cas: CAS, es: seq<EntryInfo>, opts: GCOptions)
    ensures var r := Report(cas, es, opts);
      && r.bytesBefore == r.bytesFreed + r.bytesAfter
      && r.bytesAfter >= 0 && r.evicted >= 0
      && r.blobs == r.unreferenced + r.evicted + |cas.Keys - Collected(cas, es, Evictions(cas, es, opts), opts)|
  {
    var c := Collected(cas, es, Evictions(cas, es, opts), opts);
    assert cas.Keys == c + (cas.Keys - c);
    SizeSumSplit(cas, c, cas.Keys - c);
    MoreGarbage(cas, es, Evictions(cas, es, opts), opts);
    assert c == Collected(cas, es, 0, opts) + (c - Collected(cas, es, 0, opts));
  }

  /** What a real run leaves on disk is what it reports plus the garbage it cannot name:
      BytesAfter is the size of the store if and only if that garbage is empty files. */
  lemma DiskAfterGC(cas: CAS, ac: AC, es: seq<EntryInfo>, opts: GCOptions, cas': CAS, ac': AC)
    requires !opts.dryRun && CollectedStore(cas, ac, es, opts, cas', ac')
    ensures SizeSum(cas', cas'.Keys) == Report(cas, es, opts).bytesAfter + SizeSum(cas, Stuck(cas, es, opts))
    ensures SizeSum(cas', cas'.Keys) == Report(cas, es, opts).bytesAfter
       <==> forall d :: d in Stuck(cas, es, opts) ==> cas[d].bytes == ""
    ensures |cas'| == |cas.Keys - Collected(cas, es, Evictions(cas, es, opts), opts)| + |Stuck(cas, es, opts)|
  {
    var c, stuck := Collected(cas, es, Evictions(cas, es, opts), opts), Stuck(cas, es, opts);
    Remaining(cas, cas', c, opts);
    LeftOnDisk(cas, cas', c, stuck);
    SizeSumEmpty(cas, stuck);
  }

  lemma Remaining(cas: CAS, cas': CAS, c: set<string>, opts: GCOptions)
    requires !opts.dryRun && c <= cas.Keys && cas' == CasAfter(cas, c, opts)
    ensures cas' == cas - (c - set d | d in c && !ValidName(d))
  {
  }

  /** Removing all of c but what is stuck. */
  lemma LeftOnDisk(cas: CAS, cas': CAS, c: set<string>, stuck: set<string>)
    requires stuck <= c <= cas.Keys && cas' == cas - (c - stuck)
    ensures |cas'| == |cas.Keys - c| + |stuck|
    ensures SizeSum(cas', cas'.Keys) == SizeSum(cas, cas.Keys) - SizeSum(cas, c) + SizeSum(cas, stuck)
  {
    var rest := cas.Keys - c;
    KeysLeft(cas, cas', c, stuck, rest);
    SizesLeft(cas, cas', c, stuck, rest, cas.Keys, cas'.Keys);
  }

  lemma SizesLeft(cas: CAS, cas': CAS, c: set<string>, stuck: set<string>, rest: set<string>, before: set<string>,
                  after: set<string>)
    requires c !! rest && rest !! stuck && before == c + rest && after == rest + stuck
    requires forall d :: d in rest || d in stuck ==> Size(cas, d) == Size(cas', d)
    ensures SizeSum(cas', after) == SizeSum(cas, before) - SizeSum(cas, c) + SizeSum(cas, stuck)
  {
    SizeSumSplit(cas, c, rest);
    SizeSumSplit(cas', rest, stuck);
    SizeSumSame(cas, cas', rest);
    SizeSumSame(cas, cas', stuck);
  }

  lemma KeysLeft(cas: CAS, cas': CAS, c: set<string>, stuck: set<string>, rest: set<string>)
    requires stuck <= c <= cas.Keys && cas' == cas - (c - stuck) && rest == cas.Keys - c
    ensures cas.Keys == c + rest && c !! rest && rest !! stuck
    ensures cas'.Keys == rest + stuck && |cas'| == |rest| + |stuck|
    ensures forall d :: d in rest || d in stuck ==> Size(cas, d) == Size(cas', d)
  {
    assert cas.Keys == c + rest;
    assert cas'.Keys == rest + stuck;
    assert |cas'| == |cas'.Keys|;
  }

  // ---- the stray file, at one input ----

  const STRAY := "ab.tmp-1"

  function StrayStore(): CAS { map[STRAY := BlobFile("bytes", 0)] }

  lemma StrayIsGarbage(opts: GCOptions)
    requires opts == GCOptions(0, 0, false, 0)
    ensures Collected(StrayStore(), [], 0, opts) == {STRAY} == StrayStore().Keys
    ensures SizeSum(StrayStore(), {STRAY}) == 5 && !ValidName(STRAY)
  {
    var none: seq<EntryInfo> := [];
    assert none[0..] == none && STRAY[2] == '.';
    SizeSumRemove(StrayStore(), {STRAY}, STRAY);
    assert {STRAY} - {STRAY} == {};
  }

  /** A store with one file an interrupted write left behind: the collection reports its
      five bytes as freed and nothing left, the file stays, and a second collection reports
      it again. */
  lemma StrayFileIsCountedAgain(cas': CAS, ac': AC)
    requires CollectedStore(StrayStore(), map[], [], GCOptions(0, 0, false, 0), cas', ac')
    ensures cas' == StrayStore() && ac' == map[] && SizeSum(cas', cas'.Keys) == 5
    ensures Report(StrayStore(), [], GCOptions(0, 0, false, 0)).bytesFreed == 5
    ensures Report(StrayStore(), [], GCOptions(0, 0, false, 0)).bytesAfter == 0
    ensures Report(cas', [], GCOptions(0, 0, false, 0)).unreferenced == 1
  {
    StrayIsGarbage(GCOptions(0, 0, false, 0));
  }

  // ---- dry runs and second runs ----

  lemma {:induction false} StopIgnoresDryRun(cas: CAS, es: seq<EntryInfo>, k: nat, opts: GCOptions, dryRun: bool)
    requires k <= |es|
    ensures StopFrom(cas, es, k, opts.(dryRun := dryRun)) == StopFrom(cas, es, k, opts)
    decreases |es| - k
  {
    SameBytesLeft(cas, es, k, opts, dryRun);
    if k < |es| { StopIgnoresDryRun(cas, es, k + 1, opts, dryRun); }
  }

  lemma SameBytesLeft(cas: CAS, es: seq<EntryInfo>, k: nat, opts: GCOptions, dryRun: bool)
    requires k <= |es|
    ensures Collected(cas, es, k, opts.(dryRun := dryRun)) == Collected(cas, es, k, opts)
    ensures Kept(cas, es, k, opts.(dryRun := dryRun)) == Kept(cas, es, k, opts)
  {
  }

  /** A dry run of a store reports what the real run reports, and changes nothing. */
  lemma DryRunPredicts(cas: CAS, ac: AC, opts: GCOptions, dry: seq<EntryInfo>, es: seq<EntryInfo>, cas': CAS, ac': AC)
    requires IsOrder(dry, ac) && IsOrder(es, ac) && WellNamed(ac)
    requires CollectedStore(cas, ac, dry, opts.(dryRun := true), cas', ac')
    ensures cas' == cas && ac' == ac
    ensures Report(cas, dry, opts.(dryRun := true)) == Report(cas, es, opts)
  {
    OrderUnique(dry, es, ac);
    StopIgnoresDryRun(cas, es, 0, opts, true);
    SameBytesLeft(cas, es, 0, opts, true);
    SameBytesLeft(cas, es, Evictions(cas, es, opts), opts, true);
  }

  /** The entries left, in the order the next collection would take them. */
  lemma OrderAfterGC(ac: AC, es: seq<EntryInfo>, k: nat)
    requires IsOrder(es, ac) && WellNamed(ac) && k <= |es|
    ensures WellNamed(ac - KeysOf(es[..k])) && IsOrder(es[k..], ac - KeysOf(es[..k]))
  {
    var rest, ac' := es[k..], ac - KeysOf(es[..k]);
    forall i | 0 <= i < |es| ensures es[i].key in KeysOf(es[..k]) <==> i < k { EvictedKey(es, ac, k, i); }
    forall e | InfoOf(ac', e) ensures e in rest {
      assert InfoOf(ac, e);
      var i :| 0 <= i < |es| && es[i] == e;
      assert rest[i - k] == e;
    }
    forall e | e in rest ensures InfoOf(ac', e) {
      var i :| 0 <= i < |rest| && rest[i] == e;
      assert es[i + k] == e && InfoOf(ac, e);
    }
    forall i, j ensures InOrder(rest, OlderEqual, i, j) { assert InOrder(es, OlderEqual, i + k, j + k); }
  }

  /** After a real run only the garbage that has no path is still garbage. */
  lemma GarbageAfterGC(cas: CAS, ac: AC, es: seq<EntryInfo>, opts: GCOptions, cas': CAS, ac': AC)
    requires !opts.dryRun && CollectedStore(cas, ac, es, opts, cas', ac')
    ensures var k := Evictions(cas, es, opts);
      && Collected(cas', es[k..], 0, opts) == Stuck(cas, es, opts)
      && BytesLeft(cas', es[k..], 0, opts) == BytesLeft(cas, es, k, opts)
  {
    var k := Evictions(cas, es, opts);
    assert es[k..][0..] == es[k..];
    assert Collected(cas', es[k..], 0, opts) == Stuck(cas, es, opts);
    DiskAfterGC(cas, ac, es, opts, cas', ac');
    SizeSumSame(cas, cas', Stuck(cas, es, opts));
  }

  /** A second run with the same clock and options changes nothing. It also reports
      nothing collected, if and only if the first run left no garbage it cannot name. */
  lemma SecondRunFindsNothing(cas: CAS, ac: AC, es: seq<EntryInfo>, opts: GCOptions, cas': CAS, ac': AC,
                              es': seq<EntryInfo>, cas'': CAS, ac'': AC)
    requires !opts.dryRun && IsOrder(es, ac) && WellNamed(ac) && CollectedStore(cas, ac, es, opts, cas', ac')
    requires IsOrder(es', ac') && CollectedStore(cas', ac', es', opts, cas'', ac'')
    ensures cas'' == cas' && ac'' == ac'
    ensures var r := Report(cas', es', opts);
      && r.evicted == 0 && r.evictedEntry == 0
      && (r.unreferenced == 0 <==> Stuck(cas, es, opts) == {})
      && r.bytesAfter == Report(cas, es, opts).bytesAfter
  {
    SecondOrder(cas, ac, es, opts, cas', ac', es');
    GarbageAfterGC(cas, ac, es, opts, cas', ac');
    NothingMore(cas, es, opts, cas', es');
    OnlyStuckLeft(cas, es, opts, cas', ac', es', cas'', ac'');
  }

  lemma SecondOrder(cas: CAS, ac: AC, es: seq<EntryInfo>, opts: GCOptions, cas': CAS, ac': AC, es': seq<EntryInfo>)
    requires !opts.dryRun && IsOrder(es, ac) && WellNamed(ac) && CollectedStore(cas, ac, es, opts, cas', ac')
      && IsOrder(es', ac')
    ensures es' == es[Evictions(cas, es, opts)..]
  {
    var k := Evictions(cas, es, opts);
    OrderAfterGC(ac, es, k);
    OrderUnique(es', es[k..], ac');
  }

  lemma OnlyStuckLeft(cas: CAS, es: seq<EntryInfo>, opts: GCOptions, cas': CAS, ac': AC, es': seq<EntryInfo>,
                      cas'': CAS, ac'': AC)
    requires !opts.dryRun && CollectedStore(cas', ac', es', opts, cas'', ac'')
    requires Collected(cas', es', 0, opts) == Stuck(cas, es, opts) && Evictions(cas', es', opts) == 0
    ensures cas'' == cas' && ac'' == ac'
  {
    assert KeysOf(es'[..0]) == {};
  }

  /** The second run stops where it starts. */
  lemma NothingMore(cas: CAS, es: seq<EntryInfo>, opts: GCOptions, cas': CAS, es': seq<EntryInfo>)
    requires es' == es[Evictions(cas, es, opts)..]
    requires BytesLeft(cas', es', 0, opts) == BytesLeft(cas, es, Evictions(cas, es, opts), opts)
    ensures Evictions(cas', es', opts) == 0
  {
    if opts.maxBytes > 0 { StopIsFirst(cas, es, 0, opts); }
  }
}
