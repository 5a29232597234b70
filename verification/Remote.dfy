/** internal/remote: the handlers of the cache server, the checks of the client, and the
    tiered cache that must never fail a build whatever the server answers. */
module Remote {
  import opened Graphs
  import opened Keys
  import opened Stores

  // ---- the server ----

  datatype Verb = GET | PUT | OtherVerb

  class Server {
    const store: Store

    constructor (store: Store)
      ensures this.store == store
    {
      this.store := store;
    }

    /** handleCAS: only bytes that hash to the name are served, and only such bytes are
        taken in. */
    method HandleCAS(verb: Verb, name: string, body: string, now: int) returns (status: nat, bytes: Option<string>)
      requires GoodHash(store.hash)
      modifies store`cas
      ensures verb.GET? ==> status == (if Verified(store.cas, store.hash, name) then 200 else 404)
      ensures bytes.Some? <==> verb.GET? && status == 200
      ensures bytes.Some? ==> bytes.value == store.cas[name].bytes && store.hash(bytes.value) == name
      ensures verb.PUT? ==> status == (if store.hash(body) == name then 201 else 400)
      ensures verb.PUT? && status == 201 ==> HasBlob(store.cas, name)
      ensures verb.OtherVerb? ==> status == 405
      ensures store.cas == if status == 201 then WithBlob(old(store.cas), name, body, now) else old(store.cas)
    {
      match verb {
        case GET =>
          var b := store.ReadBlob(name);
          if b.None? { return 404, None; }
          return 200, b;
        case PUT =>
          var ok := store.WriteBlob(name, body, now);
          if !ok { return 400, None; }
          return 201, None;
        case OtherVerb => return 405, None;
      }
    }

    /** handleAC: an entry is stored only under its own key. body is None when it does not
        decode. */
    method HandleAC(verb: Verb, key: string, body: Option<Entry>, now: int) returns (status: nat, entry: Option<Entry>)
      modifies store`ac
      ensures verb.GET? ==>
        entry == Usable(store.cas, old(store.ac), key) && status == (if entry.Some? then 200 else 404)
      ensures !verb.GET? ==> entry.None?
      ensures verb.PUT? ==> status == (if body.Some? && body.value.key == key && ValidName(key) then 201 else 400)
      ensures verb.OtherVerb? ==> status == 405
      ensures status == 200 ==> store.ac == Touch(old(store.ac), key, now)
      ensures status == 201 ==> store.ac == old(store.ac)[key := EntryFile(body, now)]
      ensures status >= 400 ==> store.ac == old(store.ac)
    {
      match verb {
        case GET =>
          var found := store.Lookup(key, now);
          if found.Err? || found.value.None? { return 404, None; }
          return 200, found.value;
        case PUT =>
          if body.None? || body.value.key != key { return 400, None; }
          var ok := store.PutEntry(body.value, now);
          if !ok { return 400, None; }
          return 201, None;
        case OtherVerb => return 405, None;
      }
    }
  }

  // ---- the client ----

  /** What comes back over the network: nothing usable, not found, or a body. */
  datatype Reply<T> = Failed | NotFound | Body(value: T)

  /** GetEntry: an entry that does not decode or is filed under another key is an error. */
  function GetEntry(key: string, reply: Reply<Option<Entry>>): Reply<Entry> {
    match reply
    case Failed => Failed
    case NotFound => NotFound
    case Body(e) => if e.None? || e.value.key != key then Failed else Body(e.value)
  }

  /** GetBlob: bytes that do not hash to the digest asked for are an error. */
  function GetBlob(hash: string -> string, d: string, reply: Reply<string>): Reply<string> {
    match reply
    case Failed => Failed
    case NotFound => NotFound
    case Body(b) => if hash(b) != d then Failed else Body(b)
  }

  // ---- the tiered cache ----

  datatype Counter = LocalHit | RemoteHit | Miss | Upload | Error

  datatype Stats = Stats(localHits: nat, remoteHits: nat, misses: nat, uploads: nat, errors: nat)

  function Bump(s: Stats, c: Counter): Stats {
    match c
    case LocalHit => s.(localHits := s.localHits + 1)
    case RemoteHit => s.(remoteHits := s.remoteHits + 1)
    case Miss => s.(misses := s.misses + 1)
    case Upload => s.(uploads := s.uploads + 1)
    case Error => s.(errors := s.errors + 1)
  }

  /** Exactly one counter moves, by one. */
  ghost predicate OneMoved(before: Stats, after: Stats, c: Counter) {
    && after.localHits == before.localHits + (if c == LocalHit then 1 else 0)
    && after.remoteHits == before.remoteHits + (if c == RemoteHit then 1 else 0)
    && after.misses == before.misses + (if c == Miss then 1 else 0)
    && after.uploads == before.uploads + (if c == Upload then 1 else 0)
    && after.errors == before.errors + (if c == Error then 1 else 0)
  }

  /** The blobs downloaded from i on; replies(i) answers the request for the i-th. It
      stops at the first that cannot be had. */
  function Fetch(cas: CAS, hash: string -> string, outputs: seq<OutputFile>, i: nat, replies: nat -> Reply<string>,
                 now: int): (CAS, bool)
    requires i <= |outputs|
    decreases |outputs| - i
  {
    if i == |outputs| then (cas, true)
    else
      var d := outputs[i].digest;
      if HasBlob(cas, d) then Fetch(cas, hash, outputs, i + 1, replies, now)
      else
        var b := GetBlob(hash, d, replies(i));
        if !b.Body? then (cas, false)
        else Fetch(WithBlob(cas, d, b.value, now), hash, outputs, i + 1, replies, now)
  }

  datatype Looked = Looked(cas: CAS, ac: AC, entry: Option<Entry>, counter: Counter)

  /** Lookup, whatever the server answers; there is no error to return. */
  function LookupSpec(cas: CAS, ac: AC, hash: string -> string, remote: bool, key: string,
                      reply: Reply<Option<Entry>>, replies: nat -> Reply<string>, now: int): Looked
  {
    var here := Usable(cas, ac, key);
    if here.Some? then Looked(cas, Touch(ac, key, now), here, LocalHit)
    else if !remote then Looked(cas, ac, None, Miss)
    else
      match GetEntry(key, reply)
      case Failed => Looked(cas, ac, None, Error)
      case NotFound => Looked(cas, ac, None, Miss)
      case Body(e) =>
        var (cas', got) := Fetch(cas, hash, e.outputs, 0, replies, now);
        if !got || !ValidName(key) then Looked(cas', ac, None, Error)
        else Looked(cas', ac[key := EntryFile(Some(e), now)], Some(e), RemoteHit)
  }

  /** Downloads add only blobs that hash to their names, keep every blob there was, and
      when they all succeed every blob is held. */
  lemma {:induction false} FetchHolds(cas: CAS, hash: string -> string, outputs: seq<OutputFile>, i: nat,
                                      replies: nat -> Reply<string>, now: int)
    requires GoodHash(hash) && i <= |outputs|
    ensures var (cas', got) := Fetch(cas, hash, outputs, i, replies, now);
      && Gained(cas, cas', hash)
      && (got ==> forall k :: i <= k < |outputs| ==> HasBlob(cas', outputs[k].digest))
    decreases |outputs| - i
  {
    if i < |outputs| {
      var d := outputs[i].digest;
      var b := GetBlob(hash, d, replies(i));
      if HasBlob(cas, d) {
        FetchHolds(cas, hash, outputs, i + 1, replies, now);
      } else if b.Body? {
        FetchHolds(WithBlob(cas, d, b.value, now), hash, outputs, i + 1, replies, now);
      }
    }
  }

  // ---- when a shared cache helps ----

  /** The request for the j-th output, if one is made at all, is the first for its digest. */
  ghost predicate FirstAsked(outputs: seq<OutputFile>, i: nat, j: int) {
    i <= j < |outputs| && forall l :: i <= l < j ==> outputs[l].digest != outputs[j].digest
  }

  ghost predicate Served(hash: string -> string, d: string, reply: Reply<string>) {
    reply.Body? && hash(reply.value) == d
  }

  /** The blob is here already, or the first reply for it is the right one. */
  ghost predicate Obtainable(cas: CAS, hash: string -> string, outputs: seq<OutputFile>, i: nat,
                             replies: nat -> Reply<string>, j: nat)
  {
    FirstAsked(outputs, i, j) ==> HasBlob(cas, outputs[j].digest) || Served(hash, outputs[j].digest, replies(j))
  }

  ghost predicate AllObtainable(cas: CAS, hash: string -> string, outputs: seq<OutputFile>, i: nat,
                                replies: nat -> Reply<string>)
  {
    forall j :: Obtainable(cas, hash, outputs, i, replies, j)
  }

  lemma ObtainableHere(cas: CAS, hash: string -> string, outputs: seq<OutputFile>, i: nat,
                       replies: nat -> Reply<string>)
    requires i < |outputs| && HasBlob(cas, outputs[i].digest)
    ensures AllObtainable(cas, hash, outputs, i, replies) <==> AllObtainable(cas, hash, outputs, i + 1, replies)
  {
    var next := i + 1;
    if AllObtainable(cas, hash, outputs, next, replies) {
      forall j: nat ensures Obtainable(cas, hash, outputs, i, replies, j) {
        assert Obtainable(cas, hash, outputs, next, replies, j);
      }
    }
    if AllObtainable(cas, hash, outputs, i, replies) {
      forall j: nat ensures Obtainable(cas, hash, outputs, next, replies, j) {
        assert Obtainable(cas, hash, outputs, i, replies, j);
      }
    }
  }

  lemma ObtainableServed(cas: CAS, hash: string -> string, outputs: seq<OutputFile>, i: nat,
                         replies: nat -> Reply<string>, now: int)
    requires GoodHash(hash) && i < |outputs| && Served(hash, outputs[i].digest, replies(i))
    ensures AllObtainable(cas, hash, outputs, i, replies) <==>
      AllObtainable(WithBlob(cas, outputs[i].digest, replies(i).value, now), hash, outputs, i, replies)
  {
    var cas' := WithBlob(cas, outputs[i].digest, replies(i).value, now);
    forall j: nat
      ensures Obtainable(cas, hash, outputs, i, replies, j) <==> Obtainable(cas', hash, outputs, i, replies, j)
    {
      if FirstAsked(outputs, i, j) && j != i { assert outputs[i].digest != outputs[j].digest; }
    }
  }

  /** A download succeeds if and only if every blob is here already or the first reply for
      it is the right one. */
  lemma {:induction false} FetchSucceeds(cas: CAS, hash: string -> string, outputs: seq<OutputFile>, i: nat,
                                         replies: nat -> Reply<string>, now: int)
    requires GoodHash(hash) && i <= |outputs|
    ensures Fetch(cas, hash, outputs, i, replies, now).1 <==> AllObtainable(cas, hash, outputs, i, replies)
    decreases |outputs| - i
  {
    if i < |outputs| {
      var d := outputs[i].digest;
      assert FirstAsked(outputs, i, i);
      if HasBlob(cas, d) {
        ObtainableHere(cas, hash, outputs, i, replies);
        FetchSucceeds(cas, hash, outputs, i + 1, replies, now);
      } else if Served(hash, d, replies(i)) {
        var cas' := WithBlob(cas, d, replies(i).value, now);
        ObtainableServed(cas, hash, outputs, i, replies, now);
        ObtainableHere(cas', hash, outputs, i, replies);
        FetchSucceeds(cas', hash, outputs, i + 1, replies, now);
      } else {
        assert !Obtainable(cas, hash, outputs, i, replies, i);
      }
    }
  }

  /** What a lookup answers and counts, in every case. A remote hit happens exactly when
      the server sends the entry for the key with every blob that is not here yet. */
  lemma LookupCases(cas: CAS, ac: AC, hash: string -> string, remote: bool, key: string,
                    reply: Reply<Option<Entry>>, replies: nat -> Reply<string>, now: int)
    requires GoodHash(hash)
    ensures var r := LookupSpec(cas, ac, hash, remote, key, reply, replies, now);
      && (r.counter.LocalHit? <==> Usable(cas, ac, key).Some?)
      && (r.counter.LocalHit? ==> r.entry == Usable(cas, ac, key))
      && (forall e :: r.entry == Some(e) && r.counter.RemoteHit? <==>
            Usable(cas, ac, key).None? && remote && Sent(cas, hash, key, reply, replies, e))
      && (r.counter.RemoteHit? ==> r.entry.Some? && r.ac == ac[key := EntryFile(r.entry, now)])
      && (r.counter.Miss? <==> Usable(cas, ac, key).None? && (!remote || reply.NotFound?))
      && !r.counter.Upload?
  {
    if reply.Body? && reply.value.Some? { FetchSucceeds(cas, hash, reply.value.value.outputs, 0, replies, now); }
  }

  /** The server sends e for the key, and every blob of e that is not here. */
  ghost predicate Sent(cas: CAS, hash: string -> string, key: string, reply: Reply<Option<Entry>>,
                       replies: nat -> Reply<string>, e: Entry)
  {
    reply == Body(Some(e)) && e.key == key && ValidName(key) && AllObtainable(cas, hash, e.outputs, 0, replies)
  }

  /** What a server with this store answers (Server.HandleAC and Server.HandleCAS). */
  function AnswerEntry(cas: CAS, ac: AC, key: string): Reply<Option<Entry>> {
    if Usable(cas, ac, key).Some? then Body(Usable(cas, ac, key)) else NotFound
  }

  function AnswerBlob(cas: CAS, hash: string -> string, d: string): Reply<string> {
    if Verified(cas, hash, d) then Body(cas[d].bytes) else NotFound
  }

  /** Every request for a blob of e is answered by the server. */
  ghost predicate Answers(cas: CAS, hash: string -> string, e: Entry, replies: nat -> Reply<string>) {
    forall j :: 0 <= j < |e.outputs| ==> replies(j) == AnswerBlob(cas, hash, e.outputs[j].digest)
  }

  lemma AnsweredIsSent(cas: CAS, hash: string -> string, sCas: CAS, e: Entry, replies: nat -> Reply<string>)
    requires Answers(sCas, hash, e, replies)
    requires forall j :: 0 <= j < |e.outputs| ==> Verified(sCas, hash, e.outputs[j].digest)
    ensures AllObtainable(cas, hash, e.outputs, 0, replies)
  {
    forall j: nat ensures Obtainable(cas, hash, e.outputs, 0, replies, j) {
      if FirstAsked(e.outputs, 0, j) { assert replies(j) == AnswerBlob(sCas, hash, e.outputs[j].digest); }
    }
  }

  lemma {:induction false} FetchIntact(cas: CAS, hash: string -> string, outputs: seq<OutputFile>, i: nat,
                                       replies: nat -> Reply<string>, now: int)
    requires GoodHash(hash) && Intact(cas, hash) && i <= |outputs|
    ensures Intact(Fetch(cas, hash, outputs, i, replies, now).0, hash)
    decreases |outputs| - i
  {
    if i < |outputs| {
      var d := outputs[i].digest;
      var b := GetBlob(hash, d, replies(i));
      if HasBlob(cas, d) {
        FetchIntact(cas, hash, outputs, i + 1, replies, now);
      } else if b.Body? {
        PutOneIntact(cas, hash, b.value, now);
        FetchIntact(WithBlob(cas, d, b.value, now), hash, outputs, i + 1, replies, now);
      }
    }
  }

  /** One machine's work serves another: when the server has a usable entry with undamaged
      blobs, a machine that has no entry of its own and no damaged blob gets it, and can
      restore it into any workspace. */
  lemma SharedHit(cas: CAS, ac: AC, hash: string -> string, key: string, sCas: CAS, sAc: AC, e: Entry,
                  replies: nat -> Reply<string>, now: int, ws: Tree)
    requires GoodHash(hash) && Intact(cas, hash) && Usable(cas, ac, key).None?
    requires Usable(sCas, sAc, key) == Some(e) && e.key == key && Answers(sCas, hash, e, replies)
    requires forall j :: 0 <= j < |e.outputs| ==> Verified(sCas, hash, e.outputs[j].digest)
    ensures var r := LookupSpec(cas, ac, hash, true, key, AnswerEntry(sCas, sAc, key), replies, now);
      r.entry == Some(e) && r.counter.RemoteHit? && RestoreFrom(r.cas, hash, e.outputs, 0, ws).1
  {
    AnsweredIsSent(cas, hash, sCas, e, replies);
    LookupCases(cas, ac, hash, true, key, AnswerEntry(sCas, sAc, key), replies, now);
    var r := LookupSpec(cas, ac, hash, true, key, AnswerEntry(sCas, sAc, key), replies, now);
    assert Sent(cas, hash, key, AnswerEntry(sCas, sAc, key), replies, e);
    FetchHolds(cas, hash, e.outputs, 0, replies, now);
    FetchIntact(cas, hash, e.outputs, 0, replies, now);
    RestoreSucceeds(r.cas, hash, e.outputs, 0, ws);
  }

  /** For arbitrary replies: an entry that is returned has all its blobs in the local store,
      the next lookup is a local hit on the same entry, a failed download leaves the
      action cache as it was, and nothing but verified blobs is ever added. */
  lemma LookupIsSafe(cas: CAS, ac: AC, hash: string -> string, remote: bool, key: string,
                     reply: Reply<Option<Entry>>, replies: nat -> Reply<string>, now: int,
                     remote2: bool, reply2: Reply<Option<Entry>>, replies2: nat -> Reply<string>, now2: int)
    requires GoodHash(hash)
    ensures var r := LookupSpec(cas, ac, hash, remote, key, reply, replies, now);
      && Gained(cas, r.cas, hash)
      && (r.entry.Some? <==> r.counter.LocalHit? || r.counter.RemoteHit?)
      && (r.entry.Some? ==> AllBlobs(r.cas, r.entry.value.outputs) && Usable(r.cas, r.ac, key) == r.entry)
      && (r.entry.None? ==> r.ac == ac)
      && (r.entry.Some? ==>
            var again := LookupSpec(r.cas, r.ac, hash, remote2, key, reply2, replies2, now2);
            again.entry == r.entry && again.counter.LocalHit?)
  {
    var e := GetEntry(key, reply);
    if e.Body? { FetchHolds(cas, hash, e.value.outputs, 0, replies, now); }
  }

  /** The only entry a lookup can add is the one the server sent for the key. */
  lemma LookupInstalls(cas: CAS, ac: AC, hash: string -> string, remote: bool, key: string,
                       reply: Reply<Option<Entry>>, replies: nat -> Reply<string>, now: int, k: string)
    ensures var r := LookupSpec(cas, ac, hash, remote, key, reply, replies, now);
      k in r.ac && r.ac[k].entry.Some? ==>
        || (k in ac && r.ac[k].entry == ac[k].entry)
        || (k == key && GetEntry(key, reply).Body? && r.ac[k].entry == Some(GetEntry(key, reply).value))
  {
  }

  /** A blob on its way to the server, or the entry. */
  datatype Request = SendBlob(digest: string, bytes: string) | SendEntry(entry: Entry)

  class Tiered {
    const local: Store
    const remote: bool
    var stats: Stats

    constructor (local: Store, remote: bool)
      ensures this.local == local && this.remote == remote && stats == Stats(0, 0, 0, 0, 0)
    {
      this.local, this.remote := local, remote;
      stats := Stats(0, 0, 0, 0, 0);
    }

    /** Exactly one counter moves, the one the specification names. */
    method Lookup(key: string, reply: Reply<Option<Entry>>, replies: nat -> Reply<string>, now: int)
      returns (entry: Option<Entry>, ghost counter: Counter)
      requires GoodHash(local.hash)
      modifies this`stats, local
      ensures Looked(local.cas, local.ac, entry, counter)
           == LookupSpec(old(local.cas), old(local.ac), local.hash, remote, key, reply, replies, now)
      ensures OneMoved(old(stats), stats, counter)
    {
      var here := local.Lookup(key, now);
      if here.Ok? && here.value.Some? {
        stats := Bump(stats, LocalHit);
        return here.value, LocalHit;
      }
      if !remote {
        stats := Bump(stats, Miss);
        return None, Miss;
      }
      match GetEntry(key, reply) {
        case Failed =>
          stats := Bump(stats, Error);
          return None, Error;
        case NotFound =>
          stats := Bump(stats, Miss);
          return None, Miss;
        case Body(e) =>
          var stored := Install(e, replies, now);
          if !stored {
            stats := Bump(stats, Error);
            return None, Error;
          }
          stats := Bump(stats, RemoteHit);
          return Some(e), RemoteHit;
      }
    }

    /** Download the blobs, then install the entry. */
    method Install(e: Entry, replies: nat -> Reply<string>, now: int) returns (stored: bool)
      requires GoodHash(local.hash)
      modifies local
      ensures var (cas, got) := Fetch(old(local.cas), local.hash, e.outputs, 0, replies, now);
        && local.cas == cas && (stored <==> got && ValidName(e.key))
        && local.ac == if stored then old(local.ac)[e.key := EntryFile(Some(e), now)] else old(local.ac)
    {
      for i := 0 to |e.outputs|
        invariant Fetch(local.cas, local.hash, e.outputs, i, replies, now)
          == Fetch(old(local.cas), local.hash, e.outputs, 0, replies, now)
        invariant local.ac == old(local.ac)
      {
        var d := e.outputs[i].digest;
        if !HasBlob(local.cas, d) {
          var b := GetBlob(local.hash, d, replies(i));
          if !b.Body? { return false; }
          var written := local.WriteBlob(d, b.value, now);
        }
      }
      stored := local.PutEntry(e, now);
    }

    /** Put: the local result is returned whatever becomes of the upload. */
    method Put(key: string, ws: Workspace, outputs: seq<Path>, acks: nat -> bool, now: int)
      returns (r: Result<PutResult>, sent: seq<Request>)
      requires GoodHash(local.hash)
      modifies this`stats, local
      ensures r.Ok? <==> AllPresent(ws.files, outputs) && ValidName(key)
      ensures r.Ok? ==>
        && r.value.entry == Entry(key, RecordsOf(local.hash, ws.files, outputs))
        && local.cas == Stored(old(local.cas), local.hash, ws.files, outputs, now)
        && local.ac == old(local.ac)[key := EntryFile(Some(r.value.entry), now)]
      ensures r.Err? || !remote ==> sent == [] && stats == old(stats)
      ensures r.Ok? && remote ==> Published(local.cas, local.hash, r.value.entry, sent, acks, old(stats), stats)
    {
      r := local.Put(key, ws, outputs, now);
      if r.Err? || !remote { return r, []; }
      sent := Publish(r.value.entry, acks);
    }

    /** The upload: it ends at the first blob that cannot be read back or is not accepted. */
    method Publish(e: Entry, acks: nat -> bool) returns (sent: seq<Request>)
      modifies this`stats
      ensures Published(local.cas, local.hash, e, sent, acks, old(stats), stats)
    {
      sent := [];
      for i := 0 to |e.outputs|
        invariant BlobsSent(local.hash, e, sent, acks) && |sent| == i && (i > 0 ==> acks(i - 1))
        invariant stats == old(stats)
      {
        var b := local.ReadBlob(e.outputs[i].digest);
        if b.None? {
          stats := Bump(stats, Error);
          return sent;
        }
        OneMoreSent(local.hash, e, sent, acks, b.value);
        sent := sent + [SendBlob(e.outputs[i].digest, b.value)];
        if !acks(i) {
          stats := Bump(stats, Error);
          return sent;
        }
      }
      assert (sent + [SendEntry(e)])[..|e.outputs|] == sent;
      sent := sent + [SendEntry(e)];
      stats := Bump(stats, if acks(|e.outputs|) then Upload else Error);
    }
  }

  /** Only blobs of e, in order, with bytes that hash to their names, all acknowledged but
      possibly the last. */
  ghost predicate BlobsSent(hash: string -> string, e: Entry, sent: seq<Request>, acks: nat -> bool) {
    |sent| <= |e.outputs| && forall i :: 0 <= i < |sent| ==> BlobSent(hash, e, sent, acks, i)
  }

  ghost predicate BlobSent(hash: string -> string, e: Entry, sent: seq<Request>, acks: nat -> bool, i: nat) {
    && i < |sent| && i < |e.outputs|
    && sent[i].SendBlob? && sent[i].digest == e.outputs[i].digest && hash(sent[i].bytes) == sent[i].digest
    && (i + 1 < |sent| ==> acks(i))
  }

  lemma OneMoreSent(hash: string -> string, e: Entry, sent: seq<Request>, acks: nat -> bool, bytes: string)
    requires BlobsSent(hash, e, sent, acks) && |sent| < |e.outputs| && (sent != [] ==> acks(|sent| - 1))
    requires hash(bytes) == e.outputs[|sent|].digest
    ensures BlobsSent(hash, e, sent + [SendBlob(e.outputs[|sent|].digest, bytes)], acks)
  {
    var sent' := sent + [SendBlob(e.outputs[|sent|].digest, bytes)];
    forall i | 0 <= i < |sent'| ensures BlobSent(hash, e, sent', acks, i) {
      if i < |sent| { assert BlobSent(hash, e, sent, acks, i); }
    }
  }

  /** Why an upload ended early: the last blob sent was not accepted, or the next one cannot
      be read back. */
  ghost predicate EndsEarly(cas: CAS, hash: string -> string, e: Entry, sent: seq<Request>, acks: nat -> bool) {
    || (sent != [] && !acks(|sent| - 1))
    || (|sent| < |e.outputs| && !Verified(cas, hash, e.outputs[|sent|].digest))
  }

  /** The entry was sent last, after every one of its blobs was acknowledged, or there was a
      reason not to; acks(i) tells whether the server accepted the i-th request, and one
      counter says which it was. */
  ghost predicate Published(cas: CAS, hash: string -> string, e: Entry, sent: seq<Request>, acks: nat -> bool,
                            before: Stats, after: Stats)
  {
    var n := |e.outputs|;
    if |sent| == n + 1
    then sent[n] == SendEntry(e) && BlobsSent(hash, e, sent[..n], acks) && (n > 0 ==> acks(n - 1))
         && OneMoved(before, after, if acks(n) then Upload else Error)
    else BlobsSent(hash, e, sent, acks) && EndsEarly(cas, hash, e, sent, acks) && OneMoved(before, after, Error)
  }

  /** What was just stored in an undamaged store is uploaded whole when the server accepts
      everything. */
  lemma PutIsUploaded(cas: CAS, hash: string -> string, key: string, ws: Tree, outputs: seq<Path>, now: int,
                      sent: seq<Request>, acks: nat -> bool, before: Stats, after: Stats)
    requires GoodHash(hash) && AllPresent(ws, outputs) && Intact(cas, hash) && forall i :: acks(i)
    requires Published(Stored(cas, hash, ws, outputs, now), hash, Entry(key, RecordsOf(hash, ws, outputs)), sent, acks,
                       before, after)
    ensures |sent| == |outputs| + 1 && sent[|outputs|] == SendEntry(Entry(key, RecordsOf(hash, ws, outputs)))
    ensures forall i :: 0 <= i < |outputs| ==> sent[i] == SendBlob(hash(ws[outputs[i]].bytes), ws[outputs[i]].bytes)
    ensures after.uploads == before.uploads + 1 && after.errors == before.errors
  {
    var cas', e := Stored(cas, hash, ws, outputs, now), Entry(key, RecordsOf(hash, ws, outputs));
    PutIsRestorable(cas, hash, ws, outputs, now, ws);
    RestoreSucceeds(cas', hash, e.outputs, 0, ws);
    forall i | 0 <= i < |outputs| ensures sent[i] == SendBlob(hash(ws[outputs[i]].bytes), ws[outputs[i]].bytes) {
      assert BlobSent(hash, e, sent[..|outputs|], acks, i);
    }
  }
}
