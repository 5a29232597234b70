/** internal/cache/store.go: the action cache and the content-addressed store. Files are
    map entries, so a write is atomic; what a failing disk would add is left to the
    histories that damage or drop entries and blobs at will. */
module Stores {
  import opened Graphs
  import opened Keys

  datatype File = File(bytes: string, mode: int)
  type Tree = map<Path, File>

  datatype OutputFile = OutputFile(path: Path, digest: string, mode: int)
  datatype Entry = Entry(key: string, outputs: seq<OutputFile>)

  datatype BlobFile = BlobFile(bytes: string, modTime: int)

  /** entry is None when the file no longer decodes. */
  datatype EntryFile = EntryFile(entry: Option<Entry>, modTime: int)

  type CAS = map<string, BlobFile>
  type AC = map<string, EntryFile>

  // ---- Lookup ----

  predicate HasBlob(cas: CAS, d: string) { ValidName(d) && d in cas }

  predicate AllBlobs(cas: CAS, outputs: seq<OutputFile>) {
    forall i :: 0 <= i < |outputs| ==> HasBlob(cas, outputs[i].digest)
  }

  /** The entry a lookup answers with: present, decodable, every blob there. */
  function Usable(cas: CAS, ac: AC, key: string): Option<Entry> {
    if ValidName(key) && key in ac && ac[key].entry.Some? && AllBlobs(cas, ac[key].entry.value.outputs)
    then ac[key].entry
    else None
  }

  /** A lookup is a hit on e exactly when the key is well formed, e is on file under it, and
      each digest e names is well formed and has a blob. */
  lemma HitIff(cas: CAS, ac: AC, key: string, e: Entry)
    ensures Usable(cas, ac, key) == Some(e) <==>
      IsHex(key) && key in ac && ac[key].entry == Some(e)
      && forall i :: 0 <= i < |e.outputs| ==> IsHex(e.outputs[i].digest) && e.outputs[i].digest in cas
  {
    NamesAreHex(key);
    forall i | 0 <= i < |e.outputs| ensures ValidName(e.outputs[i].digest) <==> IsHex(e.outputs[i].digest) {
      NamesAreHex(e.outputs[i].digest);
    }
  }

  const TOUCH_GRANULARITY := 3_600_000_000_000

  /** touchEntry: an entry touched less than an hour ago keeps its time. Afterwards its
      recorded use is less than an hour old, and nothing else has changed. */
  function Touch(ac: AC, key: string, now: int): (r: AC)
    ensures r.Keys == ac.Keys
    ensures forall k :: k in ac ==> r[k].entry == ac[k].entry && (k != key ==> r[k] == ac[k])
    ensures key in ac ==> ac[key].modTime <= r[key].modTime && now - r[key].modTime < TOUCH_GRANULARITY
    ensures key in ac ==> r[key].modTime == ac[key].modTime || r[key].modTime == now
    ensures key in ac && now - ac[key].modTime < TOUCH_GRANULARITY ==> r == ac
  {
    if key !in ac || now - ac[key].modTime < TOUCH_GRANULARITY then ac
    else ac[key := ac[key].(modTime := now)]
  }

  /** In nanoseconds, an hour is what separates a use that is recorded from one that is not. */
  lemma TouchedAfterAnHour(ac: AC, key: string, now: int)
    requires key in ac
    ensures Touch(ac, key, now)[key].modTime ==
      if now - ac[key].modTime < 60 * 60 * 1_000_000_000 then ac[key].modTime else now
  {
  }

  // ---- Restore ----

  /** A blob whose bytes do not hash to its name is refused. */
  predicate Verified(cas: CAS, hash: string -> string, d: string) {
    HasBlob(cas, d) && hash(cas[d].bytes) == d
  }

  /** The workspace after restoring outputs from i on, and whether all were restored. A
      failure leaves the ones before it in place. */
  function RestoreFrom(cas: CAS, hash: string -> string, outputs: seq<OutputFile>, i: nat, ws: Tree): (Tree, bool)
    requires i <= |outputs|
    decreases |outputs| - i
  {
    if i == |outputs| then (ws, true)
    else
      var o := outputs[i];
      if !Verified(cas, hash, o.digest) then (ws, false)
      else RestoreFrom(cas, hash, outputs, i + 1, ws[o.path := File(cas[o.digest].bytes, o.mode)])
  }

  // ---- Put ----

  function RecordOf(hash: string -> string, ws: Tree, path: Path): OutputFile
    requires path in ws
  {
    OutputFile(path, hash(ws[path].bytes), ws[path].mode)
  }

  predicate AllPresent(ws: Tree, outputs: seq<Path>) { forall i :: 0 <= i < |outputs| ==> outputs[i] in ws }

  function RecordsOf(hash: string -> string, ws: Tree, outputs: seq<Path>): (r: seq<OutputFile>)
    requires AllPresent(ws, outputs)
    ensures |r| == |outputs| && forall i :: 0 <= i < |r| ==> r[i] == RecordOf(hash, ws, outputs[i])
  {
    seq(|outputs|, i requires 0 <= i < |outputs| => RecordOf(hash, ws, outputs[i]))
  }

  /** putBlob: content already present is left alone. */
  function WithBlob(cas: CAS, d: string, bytes: string, now: int): CAS {
    if d in cas then cas else cas[d := BlobFile(bytes, now)]
  }

  /** The blobs once these outputs are stored. */
  function Stored(cas: CAS, hash: string -> string, ws: Tree, outputs: seq<Path>, now: int): CAS
    requires AllPresent(ws, outputs)
  {
    if outputs == [] then cas
    else
      var p := outputs[|outputs| - 1];
      WithBlob(Stored(cas, hash, ws, outputs[..|outputs| - 1], now), hash(ws[p].bytes), ws[p].bytes, now)
  }

  /** The store only gained blobs, each filed under its own digest. */
  ghost predicate Gained(cas: CAS, cas': CAS, hash: string -> string) {
    && (forall d :: d in cas ==> d in cas' && cas'[d] == cas[d])
    && (forall d :: d in cas' && d !in cas ==> hash(cas'[d].bytes) == d)
  }

  /** The digest an entry records for a path; a path listed twice keeps the last. */
  function DigestFor(outputs: seq<OutputFile>, path: Path): Option<string> {
    if outputs == [] then None
    else if outputs[|outputs| - 1].path == path then Some(outputs[|outputs| - 1].digest)
    else DigestFor(outputs[..|outputs| - 1], path)
  }

  predicate Differs(prev: Entry, o: OutputFile) {
    var was := DigestFor(prev.outputs, o.path);
    was.Some? && was.value != o.digest
  }

  lemma GainedOne(cas: CAS, cas': CAS, hash: string -> string, bytes: string, now: int)
    requires Gained(cas, cas', hash)
    ensures Gained(cas, WithBlob(cas', hash(bytes), bytes, now), hash)
  {
  }

  lemma {:induction false} StoredKeeps(cas: CAS, hash: string -> string, ws: Tree, outputs: seq<Path>, now: int)
    requires GoodHash(hash) && AllPresent(ws, outputs)
    ensures Gained(cas, Stored(cas, hash, ws, outputs, now), hash)
    ensures forall p :: p in outputs ==> p in ws && HasBlob(Stored(cas, hash, ws, outputs, now), hash(ws[p].bytes))
    decreases |outputs|
  {
    if outputs != [] {
      var init, last := outputs[..|outputs| - 1], outputs[|outputs| - 1];
      StoredKeeps(cas, hash, ws, init, now);
      GainedOne(cas, Stored(cas, hash, ws, init, now), hash, ws[last].bytes, now);
      assert forall p :: p in outputs <==> p in init || p == last;
    }
  }

  datatype PutResult = PutResult(entry: Entry, nondeterministic: seq<Path>)

  class Workspace {
    var files: Tree

    constructor (files: Tree)
      ensures this.files == files
    {
      this.files := files;
    }
  }

  class Store {
    const hash: string -> string
    var cas: CAS
    var ac: AC

    constructor (hash: string -> string)
      ensures this.hash == hash && cas == map[] && ac == map[]
    {
      this.hash := hash;
      cas, ac := map[], map[];
    }

    /** An error only for a malformed key; otherwise the usable entry, whose time is then
        refreshed, or nothing. */
    method Lookup(key: string, now: int) returns (r: Result<Option<Entry>>)
      modifies this`ac
      ensures r.Ok? <==> ValidName(key)
      ensures r.Ok? ==> r.value == old(Usable(cas, ac, key))
      ensures ac == if r.Ok? && r.value.Some? then Touch(old(ac), key, now) else old(ac)
    {
      if !ValidName(key) { return Err("bad name"); }
      if key !in ac { return Ok(None); }
      var e := ac[key].entry;
      if e.None? { return Ok(None); }
      for i := 0 to |e.value.outputs|
        invariant forall k :: 0 <= k < i ==> HasBlob(cas, e.value.outputs[k].digest)
      {
        if !HasBlob(cas, e.value.outputs[i].digest) { return Ok(None); }
      }
      ac := Touch(ac, key, now);
      return Ok(e);
    }

    method PutBlob(d: string, bytes: string, now: int) returns (ok: bool)
      modifies this`cas
      ensures ok <==> ValidName(d)
      ensures cas == if ok then WithBlob(old(cas), d, bytes, now) else old(cas)
    {
      if !ValidName(d) { return false; }
      if d !in cas { cas := cas[d := BlobFile(bytes, now)]; }
      return true;
    }

    /** Put's first loop. */
    method PutOutputs(ws: Workspace, outputs: seq<Path>, now: int) returns (r: Option<seq<OutputFile>>)
      requires GoodHash(hash)
      modifies this`cas
      ensures r.Some? <==> AllPresent(ws.files, outputs)
      ensures Gained(old(cas), cas, hash)
      ensures r.Some? ==>
        && r.value == RecordsOf(hash, ws.files, outputs) && AllBlobs(cas, r.value)
        && cas == Stored(old(cas), hash, ws.files, outputs, now)
    {
      var list: seq<OutputFile> := [];
      for i := 0 to |outputs|
        invariant AllPresent(ws.files, outputs[..i])
        invariant list == RecordsOf(hash, ws.files, outputs[..i])
        invariant cas == Stored(old(cas), hash, ws.files, outputs[..i], now)
      {
        StoredKeeps(old(cas), hash, ws.files, outputs[..i], now);
        if outputs[i] !in ws.files { return None; }
        assert outputs[..i + 1] == outputs[..i] + [outputs[i]] && outputs[..i + 1][..i] == outputs[..i];
        var o := RecordOf(hash, ws.files, outputs[i]);
        var stored := PutBlob(o.digest, ws.files[outputs[i]].bytes, now);
        list := list + [o];
      }
      assert outputs[..|outputs|] == outputs;
      StoredKeeps(old(cas), hash, ws.files, outputs, now);
      forall i | 0 <= i < |list| ensures HasBlob(cas, list[i].digest) { assert outputs[i] in outputs; }
      return Some(list);
    }

    /** Store the declared outputs of an action. The entry is written last, holds exactly
        what the workspace holds, and every blob it names is present. */
    method Put(key: string, ws: Workspace, outputs: seq<Path>, now: int) returns (r: Result<PutResult>)
      requires GoodHash(hash)
      modifies this
      ensures r.Ok? <==> AllPresent(ws.files, outputs) && ValidName(key)
      ensures Gained(old(cas), cas, hash)
      ensures r.Err? ==> ac == old(ac)
      ensures r.Ok? ==> cas == Stored(old(cas), hash, ws.files, outputs, now)
      ensures r.Ok? ==>
        && r.value.entry == Entry(key, RecordsOf(hash, ws.files, outputs))
        && ac == old(ac)[key := EntryFile(Some(r.value.entry), now)]
        && AllBlobs(cas, r.value.entry.outputs)
      ensures r.Ok? ==> forall p :: p in r.value.nondeterministic <==>
        Usable(cas, old(ac), key).Some?
        && (exists i :: 0 <= i < |outputs| && outputs[i] == p
              && Differs(Usable(cas, old(ac), key).value, RecordOf(hash, ws.files, outputs[i])))
    {
      var stored := PutOutputs(ws, outputs, now);
      if stored.None? { return Err("missing output"); }
      var list := stored.value;
      var e := Entry(key, list);
      var prev := Lookup(key, now);
      var nondeterministic: seq<Path> := [];
      if prev.Ok? && prev.value.Some? { nondeterministic := Compare(prev.value.value, list); }
      if !ValidName(key) { return Err("bad name"); }
      ac := ac[key := EntryFile(Some(e), now)];
      return Ok(PutResult(e, nondeterministic));
    }

    /** The comparison with the previous entry. */
    method Compare(prev: Entry, list: seq<OutputFile>) returns (paths: seq<Path>)
      ensures forall p :: p in paths <==> exists i :: 0 <= i < |list| && list[i].path == p && Differs(prev, list[i])
    {
      paths := [];
      for i := 0 to |list|
        invariant forall p :: p in paths <==> exists k :: 0 <= k < i && list[k].path == p && Differs(prev, list[k])
      {
        if Differs(prev, list[i]) { paths := paths + [list[i].path]; }
      }
    }

    method Restore(e: Entry, ws: Workspace) returns (ok: bool)
      modifies ws
      ensures (ws.files, ok) == RestoreFrom(cas, hash, e.outputs, 0, old(ws.files))
    {
      for i := 0 to |e.outputs|
        invariant RestoreFrom(cas, hash, e.outputs, i, ws.files) == RestoreFrom(cas, hash, e.outputs, 0, old(ws.files))
      {
        var o := e.outputs[i];
        if !HasBlob(cas, o.digest) { return false; }
        if hash(cas[o.digest].bytes) != o.digest { return false; }
        ws.files := ws.files[o.path := File(cas[o.digest].bytes, o.mode)];
      }
      return true;
    }

    /** ReadBlob: only bytes that hash to the name are ever returned. */
    method ReadBlob(d: string) returns (r: Option<string>)
      ensures r.Some? <==> Verified(cas, hash, d)
      ensures r.Some? ==> r.value == cas[d].bytes && hash(r.value) == d
    {
      if !HasBlob(cas, d) || hash(cas[d].bytes) != d { return None; }
      return Some(cas[d].bytes);
    }

    /** WriteBlob: the digest is recomputed; a name already present is left as it is. */
    method WriteBlob(d: string, bytes: string, now: int) returns (ok: bool)
      requires GoodHash(hash)
      modifies this`cas
      ensures ok <==> hash(bytes) == d
      ensures ok ==> HasBlob(cas, d)
      ensures cas == if ok then WithBlob(old(cas), d, bytes, now) else old(cas)
      ensures Gained(old(cas), cas, hash)
    {
      if hash(bytes) != d { return false; }
      ok := PutBlob(d, bytes, now);
    }

    method PutEntry(e: Entry, now: int) returns (ok: bool)
      modifies this`ac
      ensures ok <==> ValidName(e.key)
      ensures ac == if ok then old(ac)[e.key := EntryFile(Some(e), now)] else old(ac)
    {
      if !ValidName(e.key) { return false; }
      ac := ac[e.key := EntryFile(Some(e), now)];
      return true;
    }
  }

  /** What a restore puts at p: the bytes whose digest the entry names, and its mode. */
  lemma {:induction false} RestoredFiles(cas: CAS, hash: string -> string, outputs: seq<OutputFile>, i: nat, ws: Tree,
                                         p: Path)
    requires i <= |outputs|
    ensures var (ws', ok) := RestoreFrom(cas, hash, outputs, i, ws);
      && ((forall k :: i <= k < |outputs| ==> outputs[k].path != p) ==>
            (p in ws' <==> p in ws) && (p in ws ==> ws'[p] == ws[p]))
      && (ok ==> forall k :: i <= k < |outputs| ==> Verified(cas, hash, outputs[k].digest))
      && (p in ws ==> p in ws')
    decreases |outputs| - i
  {
    if i < |outputs| && Verified(cas, hash, outputs[i].digest) {
      RestoredFiles(cas, hash, outputs, i + 1,
        ws[outputs[i].path := File(cas[outputs[i].digest].bytes, outputs[i].mode)], p);
    }
  }

  /** A restore succeeds if and only if every blob it needs is there and undamaged; the
      workspace has no say in it. */
  lemma {:induction false} RestoreSucceeds(cas: CAS, hash: string -> string, outputs: seq<OutputFile>, i: nat, ws: Tree)
    requires i <= |outputs|
    ensures RestoreFrom(cas, hash, outputs, i, ws).1 <==>
      forall k :: i <= k < |outputs| ==> Verified(cas, hash, outputs[k].digest)
    decreases |outputs| - i
  {
    if i < |outputs| && Verified(cas, hash, outputs[i].digest) {
      RestoreSucceeds(cas, hash, outputs, i + 1,
        ws[outputs[i].path := File(cas[outputs[i].digest].bytes, outputs[i].mode)]);
    }
  }

  /** k is the last output from i on with path p. */
  ghost predicate LastListed(outputs: seq<OutputFile>, i: nat, p: Path, k: int) {
    i <= k < |outputs| && outputs[k].path == p && forall j :: k < j < |outputs| ==> outputs[j].path != p
  }

  /** Then p gets the bytes and the mode the entry records for it last. */
  lemma {:induction false} RestoredAt(cas: CAS, hash: string -> string, outputs: seq<OutputFile>, i: nat, ws: Tree,
                                      p: Path, k: nat)
    requires LastListed(outputs, i, p, k) && RestoreFrom(cas, hash, outputs, i, ws).1
    ensures Verified(cas, hash, outputs[k].digest)
    ensures var ws' := RestoreFrom(cas, hash, outputs, i, ws).0;
      p in ws' && ws'[p] == File(cas[outputs[k].digest].bytes, outputs[k].mode)
    decreases |outputs| - i
  {
    var next := ws[outputs[i].path := File(cas[outputs[i].digest].bytes, outputs[i].mode)];
    if k == i {
      RestoredFiles(cas, hash, outputs, i + 1, next, p);
    } else {
      RestoredAt(cas, hash, outputs, i + 1, next, p, k);
    }
  }

  /** Up to the first blob that is missing or damaged, a restore that fails has done what a
      complete one does. */
  lemma {:induction false} RestoredPartly(cas: CAS, hash: string -> string, outputs: seq<OutputFile>, i: nat, ws: Tree,
                                          k: nat)
    requires i <= k < |outputs| && !Verified(cas, hash, outputs[k].digest)
    requires forall j :: i <= j < k ==> Verified(cas, hash, outputs[j].digest)
    ensures RestoreFrom(cas, hash, outputs, i, ws) == (RestoreFrom(cas, hash, outputs[..k], i, ws).0, false)
    decreases |outputs| - i
  {
    if i < k {
      RestoredPartly(cas, hash, outputs, i + 1,
        ws[outputs[i].path := File(cas[outputs[i].digest].bytes, outputs[i].mode)], k);
    }
  }

  // ---- a put is found again ----

  /** No blob has been damaged. */
  ghost predicate Intact(cas: CAS, hash: string -> string) { forall d :: d in cas ==> hash(cas[d].bytes) == d }

  lemma PutOneIntact(cas: CAS, hash: string -> string, bytes: string, now: int)
    requires Intact(cas, hash)
    ensures Intact(WithBlob(cas, hash(bytes), bytes, now), hash)
  {
  }

  lemma {:induction false} StoredIntact(cas: CAS, hash: string -> string, ws: Tree, outputs: seq<Path>, now: int)
    requires AllPresent(ws, outputs) && Intact(cas, hash)
    ensures Intact(Stored(cas, hash, ws, outputs, now), hash)
    decreases |outputs|
  {
    if outputs != [] {
      var p := outputs[|outputs| - 1];
      StoredIntact(cas, hash, ws, outputs[..|outputs| - 1], now);
      PutOneIntact(Stored(cas, hash, ws, outputs[..|outputs| - 1], now), hash, ws[p].bytes, now);
    }
  }

  /** A blob that is new carries the time it was written; the others keep theirs. */
  lemma {:induction false} StoredTimes(cas: CAS, hash: string -> string, ws: Tree, outputs: seq<Path>, now: int,
                                       d: string)
    requires AllPresent(ws, outputs) && d in Stored(cas, hash, ws, outputs, now)
    ensures Stored(cas, hash, ws, outputs, now)[d].modTime == if d in cas then cas[d].modTime else now
    decreases |outputs|
  {
    if outputs != [] {
      var front := outputs[..|outputs| - 1];
      if d in Stored(cas, hash, ws, front, now) { StoredTimes(cas, hash, ws, front, now, d); }
      if d in cas { StoredHolds(cas, hash, ws, front, now, d); }
    }
  }

  lemma {:induction false} StoredHolds(cas: CAS, hash: string -> string, ws: Tree, outputs: seq<Path>, now: int,
                                       d: string)
    requires AllPresent(ws, outputs) && d in cas
    ensures d in Stored(cas, hash, ws, outputs, now)
    decreases |outputs|
  {
    if outputs != [] { StoredHolds(cas, hash, ws, outputs[..|outputs| - 1], now, d); }
  }

  /** Put, then Lookup: the entry just stored is what the lookup answers with. */
  lemma PutThenLookup(cas: CAS, ac: AC, hash: string -> string, key: string, ws: Tree, outputs: seq<Path>, now: int)
    requires GoodHash(hash) && AllPresent(ws, outputs) && ValidName(key)
    ensures var e := Entry(key, RecordsOf(hash, ws, outputs));
      Usable(Stored(cas, hash, ws, outputs, now), ac[key := EntryFile(Some(e), now)], key) == Some(e)
  {
    StoredKeeps(cas, hash, ws, outputs, now);
    var list := RecordsOf(hash, ws, outputs);
    forall i | 0 <= i < |list| ensures HasBlob(Stored(cas, hash, ws, outputs, now), list[i].digest) {
      assert outputs[i] in outputs;
    }
  }

  /** And Restore: unless a blob was damaged, every stored output comes back. */
  lemma PutIsRestorable(cas: CAS, hash: string -> string, ws: Tree, outputs: seq<Path>, now: int, target: Tree)
    requires GoodHash(hash) && AllPresent(ws, outputs) && Intact(cas, hash)
    ensures RestoreFrom(Stored(cas, hash, ws, outputs, now), hash, RecordsOf(hash, ws, outputs), 0, target).1
  {
    var cas', list := Stored(cas, hash, ws, outputs, now), RecordsOf(hash, ws, outputs);
    StoredKeeps(cas, hash, ws, outputs, now);
    StoredIntact(cas, hash, ws, outputs, now);
    forall k | 0 <= k < |list| ensures Verified(cas', hash, list[k].digest) { assert outputs[k] in outputs; }
    RestoreSucceeds(cas', hash, list, 0, target);
  }

  /** A path whose recorded digest is another one now is reported as nondeterministic, and
      no other path is; of a path an entry lists twice the last record counts. */
  lemma {:induction false} DigestOfLast(outputs: seq<OutputFile>, path: Path)
    ensures DigestFor(outputs, path).None? <==> forall k :: 0 <= k < |outputs| ==> outputs[k].path != path
    ensures forall k :: LastListed(outputs, 0, path, k) ==> DigestFor(outputs, path) == Some(outputs[k].digest)
    decreases |outputs|
  {
    if outputs != [] {
      var last, front := |outputs| - 1, outputs[..|outputs| - 1];
      DigestOfLast(front, path);
      forall k | LastListed(outputs, 0, path, k) ensures DigestFor(outputs, path) == Some(outputs[k].digest) {
        if k < last { assert LastListed(front, 0, path, k); }
      }
      assert forall k :: 0 <= k < last ==> front[k] == outputs[k];
    }
  }

  lemma ReportedIffChanged(prev: Entry, o: OutputFile, k: nat)
    requires LastListed(prev.outputs, 0, o.path, k)
    ensures Differs(prev, o) <==> prev.outputs[k].digest != o.digest
  {
    DigestOfLast(prev.outputs, o.path);
  }

  lemma NewPathNotReported(prev: Entry, o: OutputFile)
    requires forall k :: 0 <= k < |prev.outputs| ==> prev.outputs[k].path != o.path
    ensures !Differs(prev, o)
  {
    DigestOfLast(prev.outputs, o.path);
  }

  /** Lookup after Put: the entry just stored is found, and restoring it into any
      workspace gives back the stored bytes and modes, however damaged the rest is. */
  lemma {:induction false} PutThenRestore(cas: CAS, hash: string -> string, ws: Tree, outputs: seq<Path>,
                                          target: Tree, i: nat, p: Path)
    requires GoodHash(hash) && AllPresent(ws, outputs) && i <= |outputs|
    requires RestoreFrom(cas, hash, RecordsOf(hash, ws, outputs), i, target).1
    requires p in outputs[i..]
    ensures var ws' := RestoreFrom(cas, hash, RecordsOf(hash, ws, outputs), i, target).0; p in ws' && ws'[p] == ws[p]
    decreases |outputs| - i
  {
    var list := RecordsOf(hash, ws, outputs);
    var o := list[i];
    var next := target[o.path := File(cas[o.digest].bytes, o.mode)];
    assert o == RecordOf(hash, ws, outputs[i]);
    assert hash(cas[o.digest].bytes) == hash(ws[outputs[i]].bytes);
    if p in outputs[i + 1..] {
      PutThenRestore(cas, hash, ws, outputs, next, i + 1, p);
    } else {
      assert outputs[i..] == [outputs[i]] + outputs[i + 1..];
      RestoredFiles(cas, hash, list, i + 1, next, p);
    }
  }
}
