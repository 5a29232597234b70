/** internal/cache/gc.go: unreferenced blobs are garbage; then whole entries go, least
    recently used first, until the store fits its budget. */
module Gc {
  import opened Sorting
  import opened Graphs
  import opened Keys
  import opened Stores

  datatype GCOptions = GCOptions(maxBytes: int, minAge: int, dryRun: bool, now: int)

  datatype GCResult = GCResult(
    entries: nat,
    blobs: nat,
    bytesBefore: int,
    unreferenced: int,
    evicted: int,
    evictedEntry: int,
    skipped: int,
    bytesFreed: int,
    bytesAfter: int)

  /** key is what the entry says; file, under which it was read, serves the specification. */
  datatype EntryInfo = EntryInfo(file: string, key: string, digests: seq<string>, modTime: int)

  /** MinAge protects recently written files. */
  predicate Protected(opts: GCOptions, modTime: int) {
    opts.minAge > 0 && opts.now - modTime < opts.minAge
  }

  // ---- sizes of sets of blobs ----

  function Size(cas: CAS, d: string): nat { if d in cas then |cas[d].bytes| else 0 }

  ghost function SizeSum(cas: CAS, s: set<string>): nat {
    if s == {} then 0 else
      var x :| x in s;
      Size(cas, x) + SizeSum(cas, s - {x})
  }

  lemma {:induction false} SizeSumRemove(cas: CAS, s: set<string>, x: string)
    requires x in s
    ensures SizeSum(cas, s) == Size(cas, x) + SizeSum(cas, s - {x})
    decreases s
  {
    var y :| y in s && SizeSum(cas, s) == Size(cas, y) + SizeSum(cas, s - {y});
    if x != y {
      SizeSumRemove(cas, s - {y}, x);
      SizeSumRemove(cas, s - {x}, y);
      assert s - {y} - {x} == s - {x} - {y};
    }
  }

  lemma {:induction false} SizeSumSplit(cas: CAS, a: set<string>, b: set<string>)
    requires a !! b
    ensures SizeSum(cas, a + b) == SizeSum(cas, a) + SizeSum(cas, b)
    decreases a
  {
    if a == {} {
      assert a + b == b;
    } else {
      var x :| x in a;
      SizeSumRemove(cas, a, x);
      SizeSumRemove(cas, a + b, x);
      assert a + b - {x} == (a - {x}) + b;
      SizeSumSplit(cas, a - {x}, b);
    }
  }

  lemma {:induction false} SizeSumSame(cas: CAS, cas': CAS, s: set<string>)
    requires forall d :: d in s ==> Size(cas, d) == Size(cas', d)
    ensures SizeSum(cas, s) == SizeSum(cas', s)
    decreases s
  {
    if s != {} {
      var x :| x in s;
      SizeSumRemove(cas, s, x);
      SizeSumRemove(cas', s, x);
      SizeSumSame(cas, cas', s - {x});
    }
  }

  // ---- references ----

  /** How often the entries refer to d, duplicates counted. */
  ghost function Occurrences(es: seq<EntryInfo>, d: string): nat {
    if es == [] then 0 else Count(es[0].digests, d) + Occurrences(es[1..], d)
  }

  /** What the collector may drop when nothing but the given counts is left. */
  ghost function Garbage(cas: CAS, refs: map<string, int>, opts: GCOptions): set<string> {
    set d | d in cas && RefsOf(refs, d) == 0 && !Protected(opts, cas[d].modTime)
  }

  /** Unreferenced blobs left alone because of their age. */
  ghost function Spared(cas: CAS, refs: map<string, int>, opts: GCOptions): set<string> {
    set d | d in cas && RefsOf(refs, d) == 0 && Protected(opts, cas[d].modTime)
  }

  function RefsOf(refs: map<string, int>, d: string): int { if d in refs then refs[d] else 0 }

  /** The reference counts once the first k entries are gone. */
  ghost predicate CountsAfter(refs: map<string, int>, es: seq<EntryInfo>, k: nat) {
    k <= |es| && forall d :: CountedRef(refs, es, k, d)
  }

  ghost predicate CountedRef(refs: map<string, int>, es: seq<EntryInfo>, k: nat, d: string) {
    k <= |es| && RefsOf(refs, d) == Occurrences(es[k..], d)
  }

  /** The garbage once the first k entries are gone. */
  ghost function Collected(cas: CAS, es: seq<EntryInfo>, k: nat, opts: GCOptions): set<string>
    requires k <= |es|
  {
    set d | d in cas && Occurrences(es[k..], d) == 0 && !Protected(opts, cas[d].modTime)
  }

  ghost function Kept(cas: CAS, es: seq<EntryInfo>, k: nat, opts: GCOptions): set<string>
    requires k <= |es|
  {
    set d | d in cas && Occurrences(es[k..], d) == 0 && Protected(opts, cas[d].modTime)
  }

  /** The bytes accounted for once the first k entries and their garbage are gone. */
  ghost function BytesLeft(cas: CAS, es: seq<EntryInfo>, k: nat, opts: GCOptions): int
    requires k <= |es|
  {
    SizeSum(cas, cas.Keys) - SizeSum(cas, Collected(cas, es, k, opts))
  }

  /** Where eviction stops: within budget, at the first protected entry, or at the end. */
  ghost function StopFrom(cas: CAS, es: seq<EntryInfo>, k: nat, opts: GCOptions): (r: nat)
    requires k <= |es|
    ensures k <= r <= |es|
    decreases |es| - k
  {
    if k == |es| || BytesLeft(cas, es, k, opts) <= opts.maxBytes || Protected(opts, es[k].modTime) then k
    else StopFrom(cas, es, k + 1, opts)
  }

  /** How many entries a collection evicts. */
  ghost function Evictions(cas: CAS, es: seq<EntryInfo>, opts: GCOptions): (r: nat)
    ensures r <= |es|
  {
    if opts.maxBytes <= 0 then 0 else StopFrom(cas, es, 0, opts)
  }

  /** Phase two walks past every entry that is too young while it is still over budget. */
  ghost function YoungEntries(cas: CAS, es: seq<EntryInfo>, opts: GCOptions): nat {
    var k := Evictions(cas, es, opts);
    if opts.maxBytes > 0 && BytesLeft(cas, es, k, opts) > opts.maxBytes then |es| - k else 0
  }

  /** The report of a collection: a function of what was scanned, not of DryRun. */
  ghost function Report(cas: CAS, es: seq<EntryInfo>, opts: GCOptions): GCResult {
    var k := Evictions(cas, es, opts);
    var total := SizeSum(cas, cas.Keys);
    GCResult(|es|, |cas|, total, |Collected(cas, es, 0, opts)|,
             |Collected(cas, es, k, opts)| - |Collected(cas, es, 0, opts)|, k,
             |Kept(cas, es, k, opts)| + YoungEntries(cas, es, opts),
             SizeSum(cas, Collected(cas, es, k, opts)), BytesLeft(cas, es, k, opts))
  }

  // ---- the order of the entries ----

  /** Least recently used first, ties by key. */
  predicate OlderEqual(a: EntryInfo, b: EntryInfo) {
    a.modTime < b.modTime || (a.modTime == b.modTime && AtMost(a.key, b.key))
  }

  lemma OlderEqualPreorder()
    ensures TotalPreorder(OlderEqual)
  {
    AtMostTotalOrder();
    forall a: EntryInfo, b: EntryInfo ensures OlderEqual(a, b) || OlderEqual(b, a) {
      assert AtMost(a.key, b.key) || AtMost(b.key, a.key);
    }
    forall a: EntryInfo, b: EntryInfo, c: EntryInfo | OlderEqual(a, b) && OlderEqual(b, c) ensures OlderEqual(a, c) {
      assert AtMost(a.key, b.key) && AtMost(b.key, c.key) ==> AtMost(a.key, c.key);
    }
  }

  function DigestsOf(outputs: seq<OutputFile>): (r: seq<string>)
    ensures |r| == |outputs| && forall i :: 0 <= i < |r| ==> r[i] == outputs[i].digest
  {
    seq(|outputs|, i requires 0 <= i < |outputs| => outputs[i].digest)
  }

  function InfoFor(file: string, f: EntryFile): EntryInfo
    requires f.entry.Some?
  {
    EntryInfo(file, f.entry.value.key, DigestsOf(f.entry.value.outputs), f.modTime)
  }

  predicate InfoOf(ac: AC, e: EntryInfo) {
    e.file in ac && ac[e.file].entry.Some? && e == InfoFor(e.file, ac[e.file])
  }

  /** One record for each entry that decodes. */
  ghost predicate IsScan(es: seq<EntryInfo>, ac: AC) {
    NoDup(es) && forall e :: e in es <==> InfoOf(ac, e)
  }

  ghost predicate IsOrder(es: seq<EntryInfo>, ac: AC) {
    IsScan(es, ac) && Sorted(es, OlderEqual)
  }

  lemma SortedScan(es: seq<EntryInfo>, ac: AC)
    requires IsScan(es, ac)
    ensures IsOrder(Sort(es, OlderEqual), ac)
  {
    var r := Sort(es, OlderEqual);
    OlderEqualPreorder();
    SortSorted(es, OlderEqual);
    NoDupMultiset(es, r);
    assert forall e :: e in es <==> e in multiset(es);
    assert forall e :: e in r <==> e in multiset(r);
  }

  lemma SameHead(a: seq<EntryInfo>, b: seq<EntryInfo>, ac: AC)
    requires Sorted(a, OlderEqual) && Sorted(b, OlderEqual) && a != [] && b != []
    requires a[0] in multiset(b) && b[0] in multiset(a) && InfoOf(ac, a[0]) && InfoOf(ac, b[0]) && WellNamed(ac)
    ensures a[0] == b[0]
  {
    OlderEqualPreorder();
    HeadIsLeast(a, b[0], OlderEqual);
    HeadIsLeast(b, a[0], OlderEqual);
    LessTotal(a[0].key, b[0].key);
  }

  ghost predicate AllInfo(es: seq<EntryInfo>, ac: AC) { forall i :: 0 <= i < |es| ==> InfoOf(ac, es[i]) }

  lemma {:induction false} OrderUniqueSteps(a: seq<EntryInfo>, b: seq<EntryInfo>, ac: AC)
    requires Sorted(a, OlderEqual) && Sorted(b, OlderEqual) && multiset(a) == multiset(b)
    requires AllInfo(a, ac) && AllInfo(b, ac) && WellNamed(ac)
    ensures a == b
    decreases |a|
  {
    assert |multiset(a)| == |multiset(b)|;
    if a != [] {
      assert a[0] in multiset(a) && b[0] in multiset(b);
      SameHead(a, b, ac);
      TailMultiset(a);
      TailMultiset(b);
      SortedTail(a, OlderEqual);
      SortedTail(b, OlderEqual);
      OrderUniqueSteps(a[1..], b[1..], ac);
      assert a == [a[0]] + a[1..] && b == [b[0]] + b[1..];
    }
  }

  /** With every entry filed under its key the order of eviction is a function of the store:
      ties are settled by the keys. */
  lemma OrderUnique(a: seq<EntryInfo>, b: seq<EntryInfo>, ac: AC)
    requires IsOrder(a, ac) && IsOrder(b, ac) && WellNamed(ac)
    ensures a == b
  {
    SameMembers(a, b);
    forall i | 0 <= i < |a| ensures InfoOf(ac, a[i]) { assert a[i] in a; }
    forall i | 0 <= i < |b| ensures InfoOf(ac, b[i]) { assert b[i] in b; }
    OrderUniqueSteps(a, b, ac);
  }

  /** What the store guarantees about its own files: an entry is filed under its key. */
  ghost predicate WellNamed(ac: AC) {
    forall key :: key in ac ==> ValidName(key) && (ac[key].entry.Some? ==> ac[key].entry.value.key == key)
  }

  // ---- what eviction leaves ----

  /** Putting an entry under its own key and refreshing one keep that so. */
  lemma StaysWellNamed(ac: AC, e: Entry, key: string, now: int)
    requires WellNamed(ac) && ValidName(e.key)
    ensures WellNamed(ac[e.key := EntryFile(Some(e), now)]) && WellNamed(Touch(ac, key, now))
  {
  }

  ghost function KeysOf(es: seq<EntryInfo>): set<string> { set i | 0 <= i < |es| :: es[i].key }

  function CasAfter(cas: CAS, gone: set<string>, opts: GCOptions): CAS {
    if opts.dryRun then cas else cas - set d | d in gone && ValidName(d)
  }

  function AcAfter(ac: AC, gone: set<string>, opts: GCOptions): AC {
    if opts.dryRun then ac else ac - set k | k in gone && ValidName(k)
  }

  /** The store a collection leaves: without the garbage and the evicted entries. A file
      whose name is no digest (a temporary file an interrupted write left behind) is
      counted as garbage but has no path to remove. */
  ghost predicate CollectedStore(cas: CAS, ac: AC, es: seq<EntryInfo>, opts: GCOptions, cas': CAS, ac': AC) {
    var k := Evictions(cas, es, opts);
    cas' == CasAfter(cas, Collected(cas, es, k, opts), opts) && ac' == AcAfter(ac, KeysOf(es[..k]), opts)
  }

  // ---- how the code does it ----

  datatype BlobInfo = BlobInfo(size: nat, modTime: int)

  ghost predicate Scanned(cas: CAS, gone: set<string>, blobs: map<string, BlobInfo>) {
    && gone <= cas.Keys
    && blobs.Keys == cas.Keys - gone
    && forall d :: d in blobs ==> blobs[d] == BlobInfo(|cas[d].bytes|, cas[d].modTime)
  }

  /** The totals once the blobs in gone are off the books. */
  ghost predicate Balanced(cas: CAS, gone: set<string>, res: GCResult) {
    && gone <= cas.Keys
    && res.blobs == |cas|
    && res.bytesBefore == SizeSum(cas, cas.Keys)
    && res.bytesFreed == SizeSum(cas, gone)
    && res.bytesAfter == res.bytesBefore - res.bytesFreed
    && res.unreferenced + res.evicted == |gone|
  }

  /** The books once a blob of this size has been struck off. */
  function Strike(res: GCResult, size: nat, evicting: bool): GCResult {
    var counted := if evicting then res.(evicted := res.evicted + 1) else res.(unreferenced := res.unreferenced + 1);
    counted.(bytesFreed := res.bytesFreed + size, bytesAfter := res.bytesAfter - size)
  }

  lemma BalancedStep(cas: CAS, gone: set<string>, res: GCResult, d: string, evicting: bool)
    requires Balanced(cas, gone, res) && d in cas && d !in gone
    ensures Balanced(cas, gone + {d}, Strike(res, |cas[d].bytes|, evicting))
  {
    SizeSumRemove(cas, gone + {d}, d);
    assert gone + {d} - {d} == gone;
  }

  lemma ScannedStep(cas: CAS, gone: set<string>, blobs: map<string, BlobInfo>, d: string)
    requires Scanned(cas, gone, blobs) && d in blobs
    ensures d in cas && d !in gone && blobs[d] == BlobInfo(|cas[d].bytes|, cas[d].modTime)
    ensures Scanned(cas, gone + {d}, blobs - {d})
  {
  }

  /** The references to d that are left when the first j digests of an entry have been
      counted off and the entries in rest remain. */
  ghost predicate RefsLeft(refs: map<string, int>, digests: seq<string>, j: nat, rest: seq<EntryInfo>, d: string) {
    j <= |digests| && RefsOf(refs, d) == Count(digests[j..], d) + Occurrences(rest, d)
  }

  ghost predicate Counts(refs: map<string, int>, digests: seq<string>, j: nat, rest: seq<EntryInfo>) {
    forall d :: RefsLeft(refs, digests, j, rest, d)
  }

  lemma CountTail(s: seq<string>, j: nat, d: string)
    requires j < |s|
    ensures Count(s[j..], d) == Count(s[j + 1..], d) + (if s[j] == d then 1 else 0)
  {
    assert s[j..] == [s[j]] + s[j + 1..];
  }

  lemma CountsStep(refs: map<string, int>, digests: seq<string>, j: nat, rest: seq<EntryInfo>)
    requires Counts(refs, digests, j, rest) && j < |digests|
    ensures RefsOf(refs, digests[j]) >= 1
    ensures Counts(refs[digests[j] := RefsOf(refs, digests[j]) - 1], digests, j + 1, rest)
  {
    var d, k := digests[j], j + 1;
    assert RefsLeft(refs, digests, j, rest, d);
    CountTail(digests, j, d);
    var refs' := refs[d := RefsOf(refs, d) - 1];
    forall x ensures RefsLeft(refs', digests, k, rest, x) {
      assert RefsLeft(refs, digests, j, rest, x);
      CountTail(digests, j, x);
    }
  }

  lemma CountsEnter(refs: map<string, int>, es: seq<EntryInfo>, k: nat)
    requires CountsAfter(refs, es, k) && k < |es|
    ensures Counts(refs, es[k].digests, 0, es[k + 1..])
  {
    var digests, rest := es[k].digests, es[k + 1..];
    assert digests[0..] == digests && es[k..][1..] == rest;
    forall d ensures RefsLeft(refs, digests, 0, rest, d) {
      assert CountedRef(refs, es, k, d);
    }
  }

  lemma CountsLeave(refs: map<string, int>, es: seq<EntryInfo>, k: nat)
    requires k < |es| && Counts(refs, es[k].digests, |es[k].digests|, es[k + 1..])
    ensures CountsAfter(refs, es, k + 1)
  {
    var next := k + 1;
    assert es[k].digests[|es[k].digests|..] == [];
    forall d ensures CountedRef(refs, es, next, d) {
      assert RefsLeft(refs, es[k].digests, |es[k].digests|, es[k + 1..], d);
    }
  }

  /** The references counted up so far: whole entries, then some digests of the next. */
  ghost predicate RefTaken(refs: map<string, int>, es: seq<EntryInfo>, digests: seq<string>, d: string) {
    RefsOf(refs, d) == Occurrences(es, d) + Count(digests, d)
  }

  ghost predicate RefsTaken(refs: map<string, int>, es: seq<EntryInfo>, digests: seq<string>) {
    forall d :: RefTaken(refs, es, digests, d)
  }

  lemma TakenStep(refs: map<string, int>, es: seq<EntryInfo>, digests: seq<string>, j: nat)
    requires j < |digests| && RefsTaken(refs, es, digests[..j])
    ensures RefsTaken(refs[digests[j] := RefsOf(refs, digests[j]) + 1], es, digests[..j + 1])
  {
    var refs', now, next := refs[digests[j] := RefsOf(refs, digests[j]) + 1], digests[..j], digests[..j + 1];
    assert next == now + [digests[j]];
    forall d ensures RefTaken(refs', es, next, d) { assert RefTaken(refs, es, now, d); }
  }

  lemma {:induction false} OccurrencesSnoc(es: seq<EntryInfo>, e: EntryInfo, d: string)
    ensures Occurrences(es + [e], d) == Occurrences(es, d) + Count(e.digests, d)
    decreases |es|
  {
    if es != [] {
      OccurrencesSnoc(es[1..], e, d);
      assert (es + [e])[1..] == es[1..] + [e];
    }
  }

  lemma TakenEntry(refs: map<string, int>, es: seq<EntryInfo>, k: nat)
    requires k < |es| && RefsTaken(refs, es[..k], es[k].digests[..|es[k].digests|])
    ensures RefsTaken(refs, es[..k + 1], [])
  {
    var now, next, digests := es[..k], es[..k + 1], es[k].digests;
    assert digests[..|digests|] == digests && next == now + [es[k]];
    forall d ensures RefTaken(refs, next, [], d) {
      assert RefTaken(refs, now, digests, d);
      OccurrencesSnoc(now, es[k], d);
    }
  }

  /** One reference less: at zero, the blob becomes garbage, or is spared for its age. */
  lemma GarbageStep(cas: CAS, refs: map<string, int>, d: string, opts: GCOptions)
    requires RefsOf(refs, d) >= 1
    ensures var refs' := refs[d := RefsOf(refs, d) - 1];
      && d !in Garbage(cas, refs, opts) && d !in Spared(cas, refs, opts)
      && Garbage(cas, refs', opts) == (if RefsOf(refs', d) == 0 && d in cas && !Protected(opts, cas[d].modTime)
                                       then Garbage(cas, refs, opts) + {d} else Garbage(cas, refs, opts))
      && Spared(cas, refs', opts) == (if RefsOf(refs', d) == 0 && d in cas && Protected(opts, cas[d].modTime)
                                      then Spared(cas, refs, opts) + {d} else Spared(cas, refs, opts))
  {
  }

  /** With exact counts, garbage is what no remaining entry refers to. */
  lemma GarbageIsCollected(cas: CAS, refs: map<string, int>, es: seq<EntryInfo>, k: nat, opts: GCOptions)
    requires CountsAfter(refs, es, k)
    ensures Garbage(cas, refs, opts) == Collected(cas, es, k, opts)
    ensures Spared(cas, refs, opts) == Kept(cas, es, k, opts)
  {
    forall d ensures RefsOf(refs, d) == Occurrences(es[k..], d) { assert CountedRef(refs, es, k, d); }
  }

  /** GC with its closure: the counts, the blobs still on the books and the result are
      shared by the two phases. */
  class Collector {
    const store: Store
    const opts: GCOptions
    var refs: map<string, int>
    var blobs: map<string, BlobInfo>
    var res: GCResult
    ghost const cas0: CAS
    ghost var gone: set<string>

    ghost predicate Valid()
      reads this, store
    {
      Scanned(cas0, gone, blobs) && Balanced(cas0, gone, res) && store.cas == CasAfter(cas0, gone, opts)
    }

    /** Everything that is garbage by the current counts is off the books, and nothing
        else; skipped exceeds the spared blobs by the entries passed over. */
    ghost predicate Swept(young: nat)
      reads this, store
    {
      && Valid()
      && gone == Garbage(cas0, refs, opts)
      && res.skipped == |Spared(cas0, refs, opts)| + young
    }

    constructor (store: Store, opts: GCOptions, entries: seq<EntryInfo>)
      ensures this.store == store && this.opts == opts && cas0 == store.cas && gone == {}
      ensures Valid() && CountsAfter(refs, entries, 0)
      ensures res == GCResult(|entries|, |store.cas|, SizeSum(store.cas, store.cas.Keys), 0, 0, 0, 0, 0, res.bytesAfter)
    {
      this.store, this.opts, cas0 := store, opts, store.cas;
      gone := {};
      new;
      blobs := map d | d in store.cas :: BlobInfo(|store.cas[d].bytes|, store.cas[d].modTime);
      var total := TotalSize(store.cas);
      res := GCResult(|entries|, |blobs|, total, 0, 0, 0, 0, 0, total);
      assert blobs.Keys == store.cas.Keys;
      assert store.cas - {} == store.cas;
      refs := CountRefs(entries);
    }

    static method TotalSize(cas: CAS) returns (total: nat)
      ensures total == SizeSum(cas, cas.Keys)
    {
      total := 0;
      var todo := cas.Keys;
      while todo != {}
        invariant todo <= cas.Keys && total + SizeSum(cas, todo) == SizeSum(cas, cas.Keys)
        decreases todo
      {
        var d :| d in todo;
        SizeSumRemove(cas, todo, d);
        total := total + |cas[d].bytes|;
        todo := todo - {d};
      }
    }

    static method CountRefs(entries: seq<EntryInfo>) returns (refs: map<string, int>)
      ensures CountsAfter(refs, entries, 0)
    {
      refs := map[];
      for k := 0 to |entries|
        invariant RefsTaken(refs, entries[..k], [])
      {
        var digests := entries[k].digests;
        for j := 0 to |digests|
          invariant RefsTaken(refs, entries[..k], digests[..j])
        {
          TakenStep(refs, entries[..k], digests, j);
          refs := refs[digests[j] := RefsOf(refs, digests[j]) + 1];
        }
        TakenEntry(refs, entries, k);
      }
      assert entries[..|entries|] == entries && entries[0..] == entries;
      forall d ensures CountedRef(refs, entries, 0, d) { assert RefTaken(refs, entries[..|entries|], [], d); }
    }

    /** The remove closure. */
    method Remove(d: string, evicting: bool)
      requires Valid() && d in blobs
      modifies this`blobs, this`res, this`gone, store`cas
      ensures Valid()
      ensures Protected(opts, cas0[d].modTime) ==>
        gone == old(gone) && res == old(res).(skipped := old(res).skipped + 1)
      ensures !Protected(opts, cas0[d].modTime) ==> gone == old(gone) + {d}
      ensures res.skipped == old(res).skipped + if Protected(opts, cas0[d].modTime) then 1 else 0
      ensures res.evictedEntry == old(res).evictedEntry && res.entries == old(res).entries
      ensures evicting ==> res.unreferenced == old(res).unreferenced
      ensures !evicting ==> res.evicted == old(res).evicted
    {
      var b := blobs[d];
      ScannedStep(cas0, gone, blobs, d);
      if Protected(opts, b.modTime) {
        res := res.(skipped := res.skipped + 1);
        return;
      }
      BalancedStep(cas0, gone, res, d, evicting);
      CasAfterStep(cas0, gone, d, opts);
      if !opts.dryRun && ValidName(d) { store.cas := store.cas - {d}; }
      res := Strike(res, b.size, evicting);
      blobs := blobs - {d};
      gone := gone + {d};
    }

    static lemma CasAfterStep(cas: CAS, gone: set<string>, d: string, opts: GCOptions)
      ensures CasAfter(cas, gone + {d}, opts)
           == if !opts.dryRun && ValidName(d) then CasAfter(cas, gone, opts) - {d} else CasAfter(cas, gone, opts)
    {
    }

    /** Phase one has dealt with every blob but those in todo. */
    ghost predicate SweptBut(todo: set<string>)
      reads this, store
    {
      Valid() && todo <= cas0.Keys && res.evicted == 0 && Progress(cas0, refs, opts, todo, gone, res.skipped)
    }

    static ghost predicate Progress(cas: CAS, refs: map<string, int>, opts: GCOptions, todo: set<string>,
                                    gone: set<string>, skipped: int)
    {
      todo !! gone && gone == Garbage(cas, refs, opts) - todo && skipped == |Spared(cas, refs, opts) - todo|
    }

    /** Unreachable blobs, in whatever order Go ranges over the map. */
    method PhaseOne()
      requires Valid() && gone == {} && res.skipped == 0 && res.evicted == 0
      modifies this`blobs, this`res, this`gone, store`cas
      ensures Swept(0)
      ensures res.evicted == 0 && res.evictedEntry == old(res).evictedEntry && res.entries == old(res).entries
    {
      var todo := blobs.Keys;
      NothingSwept();
      while todo != {}
        invariant SweptBut(todo)
        invariant res.evictedEntry == old(res).evictedEntry && res.entries == old(res).entries
        decreases todo
      {
        var d :| d in todo;
        Sweep(todo, d);
        todo := todo - {d};
      }
      AllSwept();
    }

    lemma NothingSwept()
      requires Valid() && gone == {} && res.skipped == 0 && res.evicted == 0
      ensures SweptBut(blobs.Keys)
    {
      assert Garbage(cas0, refs, opts) - blobs.Keys == {};
      assert Spared(cas0, refs, opts) - blobs.Keys == {};
    }

    lemma AllSwept()
      requires SweptBut({})
      ensures Swept(0)
    {
      assert Garbage(cas0, refs, opts) - {} == Garbage(cas0, refs, opts);
      assert Spared(cas0, refs, opts) - {} == Spared(cas0, refs, opts);
    }

    /** One round of phase one. */
    method Sweep(ghost todo: set<string>, d: string)
      requires SweptBut(todo) && d in todo
      modifies this`blobs, this`res, this`gone, store`cas
      ensures SweptBut(todo - {d})
      ensures res.evictedEntry == old(res).evictedEntry && res.entries == old(res).entries
    {
      ghost var gone0, skipped0 := gone, res.skipped;
      if RefsOf(refs, d) == 0 { Remove(d, false); }
      SweepStep(cas0, refs, opts, todo, d, gone0, skipped0);
    }

    static lemma SweepStep(cas: CAS, refs: map<string, int>, opts: GCOptions, todo: set<string>, d: string,
                           gone: set<string>, skipped: int)
      requires d in todo && d in cas && Progress(cas, refs, opts, todo, gone, skipped)
      ensures var young, dead := Protected(opts, cas[d].modTime), RefsOf(refs, d) == 0;
        Progress(cas, refs, opts, todo - {d}, if dead && !young then gone + {d} else gone,
                 if dead && young then skipped + 1 else skipped)
    {
      Peel(Garbage(cas, refs, opts), todo, d);
      Peel(Spared(cas, refs, opts), todo, d);
    }

    static ghost predicate Peeled(s: set<string>, todo: set<string>, d: string) {
      && s - (todo - {d}) == (if d in s then s - todo + {d} else s - todo)
      && |s - (todo - {d})| == |s - todo| + (if d in s then 1 else 0)
    }

    static lemma Peel(s: set<string>, todo: set<string>, d: string)
      requires d in todo
      ensures Peeled(s, todo, d)
    {
      assert s - (todo - {d}) == (if d in s then s - todo + {d} else s - todo);
    }

    /** Drop one entry, then the blobs whose count falls to zero. */
    method EvictEntry(es: seq<EntryInfo>, k: nat)
      requires Swept(0) && k < |es| && CountsAfter(refs, es, k)
      modifies this`refs, this`blobs, this`res, this`gone, store`cas, store`ac
      ensures Swept(0) && CountsAfter(refs, es, k + 1)
      ensures store.ac == if opts.dryRun || !ValidName(es[k].key) then old(store.ac) else old(store.ac) - {es[k].key}
      ensures res.evictedEntry == old(res).evictedEntry + 1
      ensures res.unreferenced == old(res).unreferenced && res.entries == old(res).entries
    {
      if !opts.dryRun && ValidName(es[k].key) { store.ac := store.ac - {es[k].key}; }
      res := res.(evictedEntry := res.evictedEntry + 1);
      CountsEnter(refs, es, k);
      var digests := es[k].digests;
      ghost var rest := es[k + 1..];
      for j := 0 to |digests|
        invariant Swept(0) && Counts(refs, digests, j, rest)
        invariant store.ac ==
          if opts.dryRun || !ValidName(es[k].key) then old(store.ac) else old(store.ac) - {es[k].key}
        invariant res.evictedEntry == old(res).evictedEntry + 1
        invariant res.unreferenced == old(res).unreferenced && res.entries == old(res).entries
      {
        Release(digests, j, rest);
      }
      CountsLeave(refs, es, k);
    }

    /** One reference is gone, and with the last one the blob. */
    method Release(digests: seq<string>, j: nat, ghost rest: seq<EntryInfo>)
      requires Swept(0) && j < |digests| && Counts(refs, digests, j, rest)
      modifies this`refs, this`blobs, this`res, this`gone, store`cas
      ensures Swept(0) && Counts(refs, digests, j + 1, rest)
      ensures res.evictedEntry == old(res).evictedEntry
      ensures res.unreferenced == old(res).unreferenced && res.entries == old(res).entries
    {
      var d := digests[j];
      CountsStep(refs, digests, j, rest);
      GarbageStep(cas0, refs, d, opts);
      refs := refs[d := RefsOf(refs, d) - 1];
      if refs[d] > 0 { return; }
      if d in blobs { Remove(d, true); }
    }

    /** Where phase two stands before looking at entry i: cut entries are evicted, and any
        it passed over since are too young, with the budget still exceeded. */
    ghost predicate Evicting(ac: AC, es: seq<EntryInfo>, cut: nat, i: nat)
      reads this, store
    {
      && cut <= i <= |es|
      && Swept(i - cut) && CountsAfter(refs, es, cut)
      && StopFrom(cas0, es, 0, opts) == StopFrom(cas0, es, cut, opts)
      && (cut < i ==> Protected(opts, es[cut].modTime) && res.bytesAfter > opts.maxBytes)
      && store.ac == AcAfter(ac, KeysOf(es[..cut]), opts)
      && res.evictedEntry == cut
    }

    lemma BytesAfterIsLeft(es: seq<EntryInfo>, k: nat, young: nat)
      requires Swept(young) && CountsAfter(refs, es, k)
      ensures res.bytesAfter == BytesLeft(cas0, es, k, opts)
    {
      GarbageIsCollected(cas0, refs, es, k, opts);
    }

    /** What the two phases leave is what the specification says. */
    lemma ReportIsExact(es: seq<EntryInfo>, cut: nat)
      requires Swept(YoungEntries(cas0, es, opts)) && CountsAfter(refs, es, cut) && cut == Evictions(cas0, es, opts)
      requires res.evictedEntry == cut && res.entries == |es| && res.unreferenced == |Collected(cas0, es, 0, opts)|
      ensures res == Report(cas0, es, opts)
      ensures store.cas == CasAfter(cas0, Collected(cas0, es, cut, opts), opts)
    {
      GarbageIsCollected(cas0, refs, es, cut, opts);
    }

    /** Nothing is evicted without a budget or within it. */
    static lemma NothingToEvict(cas: CAS, es: seq<EntryInfo>, opts: GCOptions)
      requires opts.maxBytes <= 0 || BytesLeft(cas, es, 0, opts) <= opts.maxBytes
      ensures Evictions(cas, es, opts) == 0 && YoungEntries(cas, es, opts) == 0
    {
    }

    static lemma ProtectedOnwards(es: seq<EntryInfo>, i: nat, j: nat, opts: GCOptions)
      requires Sorted(es, OlderEqual) && i <= j < |es| && Protected(opts, es[i].modTime)
      ensures Protected(opts, es[j].modTime)
    {
      assert InOrder(es, OlderEqual, i, j);
    }

    static lemma AcAfterStep(ac: AC, es: seq<EntryInfo>, i: nat, opts: GCOptions)
      requires i < |es|
      ensures AcAfter(ac, KeysOf(es[..i + 1]), opts)
           == if opts.dryRun || !ValidName(es[i].key) then AcAfter(ac, KeysOf(es[..i]), opts)
              else AcAfter(ac, KeysOf(es[..i]), opts) - {es[i].key}
    {
      var now, next := es[..i], es[..i + 1];
      assert next == now + [es[i]];
      forall key ensures key in KeysOf(next) <==> key in KeysOf(now) || key == es[i].key {
        if key in KeysOf(now) { var j :| 0 <= j < |now| && now[j].key == key; assert next[j].key == key; }
        if key == es[i].key { assert next[i].key == key; }
      }
    }

    static lemma NoneEvicted(ac: AC, es: seq<EntryInfo>, opts: GCOptions)
      ensures AcAfter(ac, KeysOf(es[..0]), opts) == ac
    {
      assert KeysOf(es[..0]) == {};
    }

    /** Phase two looks at one more entry, with the budget still exceeded. */
    method Consider(ghost ac: AC, es: seq<EntryInfo>, ghost cut0: nat, i: nat) returns (ghost cut: nat)
      requires Evicting(ac, es, cut0, i) && i < |es| && Sorted(es, OlderEqual)
      requires res.bytesAfter > opts.maxBytes
      modifies this`refs, this`blobs, this`res, this`gone, store`cas, store`ac
      ensures Evicting(ac, es, cut, i + 1)
      ensures res.unreferenced == old(res).unreferenced && res.entries == old(res).entries
    {
      BytesAfterIsLeft(es, cut0, i - cut0);
      if cut0 < i { ProtectedOnwards(es, cut0, i, opts); }
      if Protected(opts, es[i].modTime) {
        res := res.(skipped := res.skipped + 1);
        return cut0;
      }
      EvictEntry(es, i);
      AcAfterStep(ac, es, i, opts);
      return i + 1;
    }

    method PhaseTwo(es: seq<EntryInfo>) returns (ghost cut: nat)
      requires Swept(0) && CountsAfter(refs, es, 0) && Sorted(es, OlderEqual) && opts.maxBytes > 0
      requires res.evicted == 0 && res.evictedEntry == 0
      modifies this`refs, this`blobs, this`res, this`gone, store`cas, store`ac
      ensures cut == Evictions(cas0, es, opts) && CountsAfter(refs, es, cut)
      ensures Swept(YoungEntries(cas0, es, opts))
      ensures store.ac == AcAfter(old(store.ac), KeysOf(es[..cut]), opts)
      ensures res.evictedEntry == cut
      ensures res.unreferenced == old(res).unreferenced && res.entries == old(res).entries
    {
      cut := 0;
      var i := 0;
      NoneEvicted(store.ac, es, opts);
      while i < |es|
        invariant Evicting(old(store.ac), es, cut, i)
        invariant res.unreferenced == old(res).unreferenced && res.entries == old(res).entries
      {
        if res.bytesAfter <= opts.maxBytes { break; }
        cut := Consider(old(store.ac), es, cut, i);
        i := i + 1;
      }
      BytesAfterIsLeft(es, cut, i - cut);
    }
  }

  /** The scan of the action cache, in whatever order the directory is walked. */
  method ScanEntries(ac: AC) returns (es: seq<EntryInfo>)
    ensures IsScan(es, ac)
  {
    es := [];
    var todo := ac.Keys;
    while todo != {}
      invariant todo <= ac.Keys && NoDup(es)
      invariant forall e :: e in es <==> InfoOf(ac, e) && e.file !in todo
      decreases todo
    {
      var file :| file in todo;
      if ac[file].entry.Some? { es := es + [InfoFor(file, ac[file])]; }
      todo := todo - {file};
    }
  }

  /** A collection. The entries are evicted least recently used first, and the report and
      the store left behind are those of the specification. */
  method GC(store: Store, opts: GCOptions) returns (res: GCResult, ghost es: seq<EntryInfo>)
    modifies store
    ensures IsOrder(es, old(store.ac))
    ensures res == Report(old(store.cas), es, opts)
    ensures CollectedStore(old(store.cas), old(store.ac), es, opts, store.cas, store.ac)
  {
    var entries := ScanEntries(store.ac);
    SortedScan(entries, store.ac);
    var sorted := Sort(entries, OlderEqual);
    es := sorted;
    var c := new Collector(store, opts, entries);
    c.PhaseOne();
    CountsPermuted(c.refs, entries, sorted);
    c.BytesAfterIsLeft(sorted, 0, 0);
    GarbageIsCollected(c.cas0, c.refs, sorted, 0, opts);
    if opts.maxBytes <= 0 || c.res.bytesAfter <= opts.maxBytes {
      Collector.NothingToEvict(c.cas0, sorted, opts);
      Collector.NoneEvicted(store.ac, sorted, opts);
      c.ReportIsExact(sorted, 0);
      return c.res, es;
    }
    ghost var cut := c.PhaseTwo(sorted);
    c.ReportIsExact(sorted, cut);
    return c.res, es;
  }

  lemma {:induction false} OccurrencesSplit(a: seq<EntryInfo>, b: seq<EntryInfo>, d: string)
    ensures Occurrences(a + b, d) == Occurrences(a, d) + Occurrences(b, d)
    decreases |a|
  {
    if a == [] {
      assert a + b == b;
    } else {
      assert (a + b)[1..] == a[1..] + b;
      OccurrencesSplit(a[1..], b, d);
    }
  }

  lemma {:induction false} OccurrencesPermuted(a: seq<EntryInfo>, b: seq<EntryInfo>, d: string)
    requires multiset(a) == multiset(b)
    ensures Occurrences(a, d) == Occurrences(b, d)
    decreases |a|
  {
    assert |multiset(a)| == |multiset(b)|;
    if a != [] {
      assert a[0] in multiset(b);
      var i :| 0 <= i < |b| && b[i] == a[0];
      var front, back := b[..i], b[i + 1..];
      assert b == front + ([a[0]] + back);
      OccurrencesSplit(front, [a[0]] + back, d);
      assert ([a[0]] + back)[1..] == back;
      OccurrencesSplit(front, back, d);
      TailMultiset(a);
      assert multiset(b) == multiset(front) + multiset{a[0]} + multiset(back);
      OccurrencesPermuted(a[1..], front + back, d);
    }
  }

  lemma CountsPermuted(refs: map<string, int>, a: seq<EntryInfo>, b: seq<EntryInfo>)
    requires CountsAfter(refs, a, 0) && multiset(a) == multiset(b)
    ensures CountsAfter(refs, b, 0)
  {
    assert a[0..] == a && b[0..] == b;
    forall d ensures CountedRef(refs, b, 0, d) {
      assert CountedRef(refs, a, 0, d);
      OccurrencesPermuted(a, b, d);
    }
  }
}
