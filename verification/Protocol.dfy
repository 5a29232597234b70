/** internal/remote/server.go with internal/remote/tiered.go, Put: any number of clients
    publish entries on one server, blobs first, and may stop or lose the connection at any
    point; the handlers of their requests live on. A handler's write is not one step:
    writeAtomic removes the old file before it renames the new one into place. */
module Protocol {
  import opened Graphs
  import opened Keys
  import opened Stores

  /** One request being served. */
  datatype Handler =
    | BlobReceived(digest: string, bytes: string)
    | BlobChecked(digest: string, bytes: string)
    | BlobRemoved(digest: string, bytes: string)
    | BlobDone(digest: string, ok: bool)
    | EntryReceived(key: string, entry: Entry)
    | EntryRemoved(key: string, entry: Entry)
    | EntryDone(ok: bool)

  /** A Put that has had its first sent blobs acknowledged and may be waiting for a reply. */
  datatype Client = Uploading(entry: Entry, sent: nat, waiting: Option<nat>) | Stopped

  datatype Net = Net(
    blobs: map<string, string>,
    entries: map<string, Entry>,
    clients: map<nat, Client>,
    handlers: map<nat, Handler>)

  datatype Move =
    | Begin(c: nat, entry: Entry)
    | SendBlob(c: nat, h: nat, bytes: string)
    | SendEntry(c: nat, h: nat)
    | Hear(c: nat)
    | Stop(c: nat)
    | Stranger(h: nat, digest: string, bytes: string)
    | Check(h: nat)
    | Refuse(h: nat)
    | Remove(h: nat)
    | Rename(h: nat)

  const EMPTY_NET := Net(map[], map[], map[], map[])

  predicate Busy(net: Net, c: nat) { c in net.clients && net.clients[c].Uploading? }

  predicate Answered(net: Net, c: nat) {
    && Busy(net, c) && net.clients[c].waiting.Some?
    && net.clients[c].waiting.value in net.handlers
    && (net.handlers[net.clients[c].waiting.value].BlobDone? || net.handlers[net.clients[c].waiting.value].EntryDone?)
  }

  predicate Serving(net: Net, h: nat) { h in net.handlers }

  ghost predicate Allowed(hash: string -> string, net: Net, e: Move) {
    match e
    case Begin(c, _) => c !in net.clients
    case SendBlob(c, h, bytes) =>
      // ReadBlob hands out nothing that does not hash to the digest asked for
      && Busy(net, c) && net.clients[c].waiting.None? && net.clients[c].sent < |net.clients[c].entry.outputs|
      && h !in net.handlers && hash(bytes) == net.clients[c].entry.outputs[net.clients[c].sent].digest
    case SendEntry(c, h) =>
      && Busy(net, c) && net.clients[c].waiting.None? && net.clients[c].sent == |net.clients[c].entry.outputs|
      && h !in net.handlers
    case Hear(c) => Answered(net, c)
    case Stop(c) => Busy(net, c)
    case Stranger(h, _, _) => h !in net.handlers
    case Check(h) => Serving(net, h) && net.handlers[h].BlobReceived?
    case Refuse(h) => Serving(net, h) && (net.handlers[h].BlobChecked? || net.handlers[h].EntryReceived?)
    case Remove(h) =>
      && Serving(net, h)
      && (net.handlers[h].BlobChecked? || (net.handlers[h].EntryReceived? && ValidName(net.handlers[h].key)))
    case Rename(h) => Serving(net, h) && (net.handlers[h].BlobRemoved? || net.handlers[h].EntryRemoved?)
  }

  /** What a client makes of its reply: on to the next blob, or the end. */
  function Heard(cl: Client, done: Handler): Client
    requires cl.Uploading?
  {
    if done.BlobDone? && done.ok then Uploading(cl.entry, cl.sent + 1, None) else Stopped
  }

  function Checked(hash: string -> string, net: Net, h: Handler): Handler
    requires h.BlobReceived?
  {
    if hash(h.bytes) != h.digest || !ValidName(h.digest) then BlobDone(h.digest, false)
    else if h.digest in net.blobs then BlobDone(h.digest, true)
    else BlobChecked(h.digest, h.bytes)
  }

  ghost function Moved(hash: string -> string, net: Net, e: Move): Net
    requires Allowed(hash, net, e)
  {
    match e
    case Begin(c, entry) => net.(clients := net.clients[c := Uploading(entry, 0, None)])
    case SendBlob(c, h, bytes) =>
      var cl := net.clients[c];
      net.(clients := net.clients[c := cl.(waiting := Some(h))],
           handlers := net.handlers[h := BlobReceived(cl.entry.outputs[cl.sent].digest, bytes)])
    case SendEntry(c, h) =>
      var cl := net.clients[c];
      net.(clients := net.clients[c := cl.(waiting := Some(h))],
           handlers := net.handlers[h := EntryReceived(cl.entry.key, cl.entry)])
    case Hear(c) =>
      var cl := net.clients[c];
      net.(clients := net.clients[c := Heard(cl, net.handlers[cl.waiting.value])])
    case Stop(c) => net.(clients := net.clients[c := Stopped])
    case Stranger(h, digest, bytes) => net.(handlers := net.handlers[h := BlobReceived(digest, bytes)])
    case Check(h) => net.(handlers := net.handlers[h := Checked(hash, net, net.handlers[h])])
    case Refuse(h) =>
      net.(handlers := net.handlers[h :=
        if net.handlers[h].BlobChecked? then BlobDone(net.handlers[h].digest, false) else EntryDone(false)])
    case Remove(h) =>
      (match net.handlers[h]
       case BlobChecked(d, b) => net.(blobs := net.blobs - {d}, handlers := net.handlers[h := BlobRemoved(d, b)])
       case EntryReceived(k, en) =>
         net.(entries := net.entries - {k}, handlers := net.handlers[h := EntryRemoved(k, en)])
       case _ => net)
    case Rename(h) =>
      (match net.handlers[h]
       case BlobRemoved(d, b) => net.(blobs := net.blobs[d := b], handlers := net.handlers[h := BlobDone(d, true)])
       case EntryRemoved(k, en) => net.(entries := net.entries[k := en], handlers := net.handlers[h := EntryDone(true)])
       case _ => net)
  }

  ghost predicate Possible(hash: string -> string, es: seq<Move>)
    decreases |es|, 0
  {
    es == [] || (Possible(hash, es[..|es| - 1]) && Allowed(hash, Reached(hash, es[..|es| - 1]), es[|es| - 1]))
  }

  ghost function Reached(hash: string -> string, es: seq<Move>): Net
    requires Possible(hash, es)
    decreases |es|, 1
  {
    if es == [] then EMPTY_NET else Moved(hash, Reached(hash, es[..|es| - 1]), es[|es| - 1])
  }

  // ---- what every step keeps ----

  ghost predicate InGap(net: Net, d: string, h: nat) {
    h in net.handlers && net.handlers[h].BlobRemoved? && net.handlers[h].digest == d
  }

  /** The blob is there, or an upload of that very blob stands between its remove and its
      rename. */
  ghost predicate Backed(net: Net, d: string) { d in net.blobs || exists h :: InGap(net, d, h) }

  /** Every digest of the first k outputs is in held. */
  ghost predicate HeldTo(held: iset<string>, e: Entry, k: nat) {
    k <= |e.outputs| && forall i :: 0 <= i < k ==> e.outputs[i].digest in held
  }

  ghost predicate BlobTrue(hash: string -> string, net: Net, d: string) {
    d in net.blobs ==> hash(net.blobs[d]) == d && ValidName(d)
  }

  /** held is what an acknowledgement is worth: the digests it vouches for. */
  ghost predicate HandlerTrue(hash: string -> string, net: Net, held: iset<string>, h: nat) {
    h in net.handlers ==>
      match net.handlers[h]
      case BlobChecked(d, b) => hash(b) == d && ValidName(d)
      case BlobRemoved(d, b) => hash(b) == d && ValidName(d)
      case BlobDone(d, ok) => ok ==> d in held
      case EntryReceived(_, e) => HeldTo(held, e, |e.outputs|)
      case EntryRemoved(_, e) => HeldTo(held, e, |e.outputs|)
      case _ => true
  }

  /** The blob a client waits to hear about is the next one it has to send. */
  ghost predicate Awaits(cl: Client, h: Handler)
    requires cl.Uploading?
  {
    match h
    case BlobDone(d, _) => cl.sent < |cl.entry.outputs| && d == cl.entry.outputs[cl.sent].digest
    case BlobReceived(d, _) => cl.sent < |cl.entry.outputs| && d == cl.entry.outputs[cl.sent].digest
    case BlobChecked(d, _) => cl.sent < |cl.entry.outputs| && d == cl.entry.outputs[cl.sent].digest
    case BlobRemoved(d, _) => cl.sent < |cl.entry.outputs| && d == cl.entry.outputs[cl.sent].digest
    case _ => true
  }

  ghost predicate ClientTrue(net: Net, held: iset<string>, c: nat) {
    Busy(net, c) ==>
      var cl := net.clients[c];
      && HeldTo(held, cl.entry, cl.sent)
      && (cl.waiting.Some? ==> cl.waiting.value in net.handlers && Awaits(cl, net.handlers[cl.waiting.value]))
  }

  ghost predicate EntryTrue(net: Net, held: iset<string>, k: string) {
    k in net.entries ==> HeldTo(held, net.entries[k], |net.entries[k].outputs|)
  }

  /** Blobs hash to their names, and every acknowledgement, every client that has moved on
      and every published entry is vouched for by held. */
  ghost predicate NetInv(hash: string -> string, net: Net, held: iset<string>) {
    && (forall d :: BlobTrue(hash, net, d))
    && (forall h :: HandlerTrue(hash, net, held, h))
    && (forall c :: ClientTrue(net, held, c))
    && (forall k :: EntryTrue(net, held, k))
  }

  /** What held may become in one step: no less, and with all blobs the step sees. */
  ghost predicate Vouches(hash: string -> string, net: Net, e: Move, held: iset<string>, held': iset<string>)
    requires Allowed(hash, net, e)
  {
    held <= held' && forall d :: d in net.blobs || d in Moved(hash, net, e).blobs ==> d in held'
  }

  lemma BlobsStep(hash: string -> string, net: Net, e: Move, held: iset<string>, d: string)
    requires NetInv(hash, net, held) && Allowed(hash, net, e)
    ensures BlobTrue(hash, Moved(hash, net, e), d)
  {
    assert BlobTrue(hash, net, d);
    if e.Rename? { assert HandlerTrue(hash, net, held, e.h); }
  }

  /** A handler that moves on is right to. */
  lemma HandlerMoves(hash: string -> string, net: Net, e: Move, held: iset<string>, held': iset<string>)
    requires Allowed(hash, net, e) && Vouches(hash, net, e, held, held')
    requires e.Check? || e.Refuse? || e.Remove? || e.Rename?
    requires HandlerTrue(hash, net, held, e.h)
    ensures HandlerTrue(hash, Moved(hash, net, e), held', e.h)
  {
  }

  lemma HandlersStep(hash: string -> string, net: Net, e: Move, held: iset<string>, held': iset<string>, h: nat)
    requires NetInv(hash, net, held) && Allowed(hash, net, e) && Vouches(hash, net, e, held, held')
    ensures HandlerTrue(hash, Moved(hash, net, e), held', h)
  {
    assert HandlerTrue(hash, net, held, h);
    match e {
      case SendEntry(c, _) => assert ClientTrue(net, held, c);
      case Check(x) => if x == h { HandlerMoves(hash, net, e, held, held'); }
      case Refuse(x) => if x == h { HandlerMoves(hash, net, e, held, held'); }
      case Remove(x) => if x == h { HandlerMoves(hash, net, e, held, held'); }
      case Rename(x) => if x == h { HandlerMoves(hash, net, e, held, held'); }
      case _ =>
    }
  }

  lemma HearStep(hash: string -> string, net: Net, held: iset<string>, held': iset<string>, c: nat)
    requires NetInv(hash, net, held) && Answered(net, c) && held <= held'
    ensures ClientTrue(Moved(hash, net, Hear(c)), held', c)
  {
    assert ClientTrue(net, held, c) && HandlerTrue(hash, net, held, net.clients[c].waiting.value);
  }

  lemma ClientsStep(hash: string -> string, net: Net, e: Move, held: iset<string>, held': iset<string>, c: nat)
    requires NetInv(hash, net, held) && Allowed(hash, net, e) && held <= held'
    ensures ClientTrue(Moved(hash, net, e), held', c)
  {
    assert ClientTrue(net, held, c);
    if e.Hear? && e.c == c {
      HearStep(hash, net, held, held', c);
    } else if Busy(net, c) && net.clients[c].waiting.Some? {
      AwaitsStays(hash, net, e, net.clients[c], net.clients[c].waiting.value);
    }
  }

  lemma AwaitsStays(hash: string -> string, net: Net, e: Move, cl: Client, h: nat)
    requires Allowed(hash, net, e) && cl.Uploading? && h in net.handlers && Awaits(cl, net.handlers[h])
    ensures var net' := Moved(hash, net, e); h in net'.handlers && Awaits(cl, net'.handlers[h])
  {
  }

  lemma EntriesStep(hash: string -> string, net: Net, e: Move, held: iset<string>, held': iset<string>, k: string)
    requires NetInv(hash, net, held) && Allowed(hash, net, e) && held <= held'
    ensures EntryTrue(Moved(hash, net, e), held', k)
  {
    assert EntryTrue(net, held, k);
    if e.Rename? { assert HandlerTrue(hash, net, held, e.h); }
  }

  lemma NetStep(hash: string -> string, net: Net, e: Move, held: iset<string>, held': iset<string>)
    requires NetInv(hash, net, held) && Allowed(hash, net, e) && Vouches(hash, net, e, held, held')
    ensures NetInv(hash, Moved(hash, net, e), held')
  {
    forall d ensures BlobTrue(hash, Moved(hash, net, e), d) { BlobsStep(hash, net, e, held, d); }
    forall h ensures HandlerTrue(hash, Moved(hash, net, e), held', h) { HandlersStep(hash, net, e, held, held', h); }
    forall c ensures ClientTrue(Moved(hash, net, e), held', c) { ClientsStep(hash, net, e, held, held', c); }
    forall k ensures EntryTrue(Moved(hash, net, e), held', k) { EntriesStep(hash, net, e, held, held', k); }
  }

  // ---- acknowledged blobs stay backed ----

  ghost function Backing(net: Net): iset<string> { iset d | Backed(net, d) }

  /** Once backed, always backed. */
  lemma BackedStays(hash: string -> string, net: Net, e: Move, d: string)
    requires Allowed(hash, net, e) && Backed(net, d)
    ensures Backed(Moved(hash, net, e), d)
  {
    var net' := Moved(hash, net, e);
    if d in net.blobs {
      if d !in net'.blobs { assert InGap(net', d, e.h); }
    } else {
      var h :| InGap(net, d, h);
      if e.Rename? && e.h == h { assert d in net'.blobs; } else { assert InGap(net', d, h); }
    }
  }

  /** In every reachable state an acknowledged blob is a file or in the gap of an upload of
      the same bytes. */
  lemma {:induction false} NetReachable(hash: string -> string, es: seq<Move>)
    requires Possible(hash, es)
    ensures NetInv(hash, Reached(hash, es), Backing(Reached(hash, es)))
    decreases |es|
  {
    if es != [] {
      var net, e := Reached(hash, es[..|es| - 1]), es[|es| - 1];
      NetReachable(hash, es[..|es| - 1]);
      forall d | Backed(net, d) ensures Backed(Moved(hash, net, e), d) { BackedStays(hash, net, e, d); }
      NetStep(hash, net, e, Backing(net), Backing(Moved(hash, net, e)));
    }
  }

  // ---- what the server offers ----

  /** The blob is there under its own digest. */
  ghost predicate Held(hash: string -> string, net: Net, d: string) { d in net.blobs && hash(net.blobs[d]) == d }

  /** No blob write stands between its remove and its rename. */
  ghost predicate NoGap(net: Net) { forall h :: h in net.handlers ==> !net.handlers[h].BlobRemoved? }

  /** Whoever uploads, stops or fails, and however requests interleave: every blob on the
      server hashes to its name, and whenever no blob write is in its gap every published
      entry has all its blobs there. */
  lemma PublishedIsComplete(hash: string -> string, es: seq<Move>)
    requires Possible(hash, es)
    ensures var net := Reached(hash, es);
      && (forall d :: d in net.blobs ==> hash(net.blobs[d]) == d)
      && (NoGap(net) ==> forall k, i :: k in net.entries && 0 <= i < |net.entries[k].outputs| ==>
        Held(hash, net, net.entries[k].outputs[i].digest))
  {
    NetReachable(hash, es);
    var net := Reached(hash, es);
    forall d | d in net.blobs ensures hash(net.blobs[d]) == d { assert BlobTrue(hash, net, d); }
    if NoGap(net) {
      forall k, i | k in net.entries && 0 <= i < |net.entries[k].outputs|
        ensures Held(hash, net, net.entries[k].outputs[i].digest)
      {
        assert EntryTrue(net, Backing(net), k);
        assert Backed(net, net.entries[k].outputs[i].digest);
        assert BlobTrue(hash, net, net.entries[k].outputs[i].digest);
      }
    }
  }

  /** A blob of a published entry is only ever missing while an upload of the same bytes
      is in its gap, and that upload's next step puts it back. */
  lemma MissingIsBeingReplaced(hash: string -> string, es: seq<Move>, k: string, i: nat) returns (h: nat)
    requires Possible(hash, es)
    requires k in Reached(hash, es).entries && i < |Reached(hash, es).entries[k].outputs|
    requires Reached(hash, es).entries[k].outputs[i].digest !in Reached(hash, es).blobs
    ensures var net := Reached(hash, es);
      && Allowed(hash, net, Rename(h))
      && Held(hash, Moved(hash, net, Rename(h)), net.entries[k].outputs[i].digest)
  {
    NetReachable(hash, es);
    var net := Reached(hash, es);
    var d := net.entries[k].outputs[i].digest;
    assert EntryTrue(net, Backing(net), k);
    assert Backed(net, d);
    h :| InGap(net, d, h);
    assert HandlerTrue(hash, net, Backing(net), h);
  }

  ghost predicate Referenced(net: Net, d: string) {
    exists k, i :: k in net.entries && 0 <= i < |net.entries[k].outputs| && net.entries[k].outputs[i].digest == d
  }

  ghost predicate Complete(hash: string -> string, net: Net) {
    forall k, i :: k in net.entries && 0 <= i < |net.entries[k].outputs| ==>
      Held(hash, net, net.entries[k].outputs[i].digest)
  }

  /** Exactly when publishing last is enough: every published entry is complete if and only
      if each upload in its gap is of a blob that is there anyway or that no entry names. */
  lemma CompleteIff(hash: string -> string, es: seq<Move>)
    requires Possible(hash, es)
    ensures var net := Reached(hash, es);
      Complete(hash, net) <==> forall d, h :: InGap(net, d, h) ==> d in net.blobs || !Referenced(net, d)
  {
    NetReachable(hash, es);
    var net := Reached(hash, es);
    if forall d, h :: InGap(net, d, h) ==> d in net.blobs || !Referenced(net, d) {
      forall k, i | k in net.entries && 0 <= i < |net.entries[k].outputs|
        ensures Held(hash, net, net.entries[k].outputs[i].digest)
      {
        var d := net.entries[k].outputs[i].digest;
        assert EntryTrue(net, Backing(net), k) && BlobTrue(hash, net, d);
        assert Backed(net, d);
        assert Referenced(net, d);
      }
    }
  }

  // ---- which runs show an incomplete entry ----

  /** The guard that makes the difference: a Remove whose handler, having checked that the
      blob was absent, finds it present. */
  ghost predicate Overwrites(net: Net, e: Move, d: string) {
    e.Remove? && Serving(net, e.h) && net.handlers[e.h].BlobChecked? && net.handlers[e.h].digest == d && d in net.blobs
  }

  ghost predicate Restores(net: Net, e: Move, d: string) { e.Rename? && InGap(net, d, e.h) }

  /** Such a Remove of d has happened, and no Rename of d since. */
  ghost predicate Lost(hash: string -> string, es: seq<Move>, d: string)
    requires Possible(hash, es)
    decreases |es|
  {
    es != [] &&
      var net, e := Reached(hash, es[..|es| - 1]), es[|es| - 1];
      Overwrites(net, e, d) || (!Restores(net, e, d) && Lost(hash, es[..|es| - 1], d))
  }

  /** d has been on the server at some point of the run. */
  ghost predicate Seen(hash: string -> string, es: seq<Move>, d: string)
    requires Possible(hash, es)
    decreases |es|
  {
    d in Reached(hash, es).blobs || (es != [] && Seen(hash, es[..|es| - 1], d))
  }

  lemma {:induction false} LostIff(hash: string -> string, es: seq<Move>, d: string)
    requires Possible(hash, es)
    ensures Lost(hash, es, d) <==> Seen(hash, es, d) && d !in Reached(hash, es).blobs
    decreases |es|
  {
    if es != [] { LostIff(hash, es[..|es| - 1], d); }
  }

  ghost function SeenSet(hash: string -> string, es: seq<Move>): iset<string>
    requires Possible(hash, es)
  {
    iset d | Seen(hash, es, d)
  }

  /** Every blob an entry names was on the server before the entry was. */
  lemma {:induction false} PublishedWasSeen(hash: string -> string, es: seq<Move>)
    requires Possible(hash, es)
    ensures NetInv(hash, Reached(hash, es), SeenSet(hash, es))
    decreases |es|
  {
    if es != [] {
      var p := es[..|es| - 1];
      PublishedWasSeen(hash, p);
      NetStep(hash, Reached(hash, p), es[|es| - 1], SeenSet(hash, p), SeenSet(hash, es));
    }
  }

  /** A run ends with an incomplete entry if and only if some Remove in it took away a blob
      that was there, no Rename has brought that blob back, and a published entry names
      it. Every prefix of a run is a run, so this covers every state. */
  lemma IncompleteIffLost(hash: string -> string, es: seq<Move>)
    requires Possible(hash, es)
    ensures Complete(hash, Reached(hash, es)) <==> forall d :: Lost(hash, es, d) ==> !Referenced(Reached(hash, es), d)
  {
    PublishedWasSeen(hash, es);
    var net := Reached(hash, es);
    forall d ensures Lost(hash, es, d) <==> Seen(hash, es, d) && d !in net.blobs { LostIff(hash, es, d); }
    if forall d :: Lost(hash, es, d) ==> !Referenced(net, d) {
      forall k, i | k in net.entries && 0 <= i < |net.entries[k].outputs|
        ensures Held(hash, net, net.entries[k].outputs[i].digest)
      {
        var d := net.entries[k].outputs[i].digest;
        assert EntryTrue(net, SeenSet(hash, es), k) && BlobTrue(hash, net, d);
        assert Referenced(net, d);
      }
    }
  }

  /** No upload's Remove finds its blob already there: no two uploads of one blob overlap
      between their check and their rename. */
  ghost predicate NeverOverwrites(hash: string -> string, es: seq<Move>)
    requires Possible(hash, es)
    decreases |es|
  {
    es != [] ==>
      var net, e := Reached(hash, es[..|es| - 1]), es[|es| - 1];
      NeverOverwrites(hash, es[..|es| - 1]) && forall d :: !Overwrites(net, e, d)
  }

  /** Then publishing the entry last is enough: it is complete in every state. */
  lemma {:induction false} WithoutOverwritesComplete(hash: string -> string, es: seq<Move>)
    requires Possible(hash, es) && NeverOverwrites(hash, es)
    ensures Complete(hash, Reached(hash, es))
    ensures forall d :: !Lost(hash, es, d)
    decreases |es|
  {
    if es != [] { WithoutOverwritesComplete(hash, es[..|es| - 1]); }
    IncompleteIffLost(hash, es);
  }

  // ---- the gap is real ----

  lemma Go(hash: string -> string, es: seq<Move>, e: Move) returns (es': seq<Move>)
    requires Possible(hash, es) && Allowed(hash, Reached(hash, es), e)
    ensures es' == es + [e] && Possible(hash, es') && Reached(hash, es') == Moved(hash, Reached(hash, es), e)
  {
    es' := es + [e];
    assert es'[..|es'| - 1] == es;
  }

  /** Both clients have uploaded the blob's bytes; neither handler has looked yet. */
  lemma TwoUploads(hash: string -> string, e: Entry, bytes: string) returns (es: seq<Move>)
    requires |e.outputs| == 1 && hash(bytes) == e.outputs[0].digest
    ensures Possible(hash, es)
    ensures Reached(hash, es) == Net(map[], map[],
      map[0 := Uploading(e, 0, Some(0)), 1 := Uploading(e, 0, Some(1))],
      map[0 := BlobReceived(hash(bytes), bytes), 1 := BlobReceived(hash(bytes), bytes)])
  {
    es := Go(hash, [], Begin(0, e));
    es := Go(hash, es, Begin(1, e));
    es := Go(hash, es, SendBlob(0, 0, bytes));
    es := Go(hash, es, SendBlob(1, 1, bytes));
  }

  /** Both handlers find the blob absent. */
  lemma BothChecked(hash: string -> string, e: Entry, bytes: string) returns (es: seq<Move>)
    requires |e.outputs| == 1 && hash(bytes) == e.outputs[0].digest && ValidName(hash(bytes))
    ensures Possible(hash, es)
    ensures Reached(hash, es) == Net(map[], map[],
      map[0 := Uploading(e, 0, Some(0)), 1 := Uploading(e, 0, Some(1))],
      map[0 := BlobChecked(hash(bytes), bytes), 1 := BlobChecked(hash(bytes), bytes)])
  {
    es := TwoUploads(hash, e, bytes);
    es := Go(hash, es, Check(0));
    es := Go(hash, es, Check(1));
  }

  /** The first writes it and its client goes on. */
  lemma FirstStored(hash: string -> string, e: Entry, bytes: string) returns (es: seq<Move>)
    requires |e.outputs| == 1 && hash(bytes) == e.outputs[0].digest && ValidName(hash(bytes))
    ensures Possible(hash, es)
    ensures Reached(hash, es) == Net(map[hash(bytes) := bytes], map[],
      map[0 := Uploading(e, 1, None), 1 := Uploading(e, 0, Some(1))],
      map[0 := BlobDone(hash(bytes), true), 1 := BlobChecked(hash(bytes), bytes)])
  {
    es := BothChecked(hash, e, bytes);
    es := Go(hash, es, Remove(0));
    es := Go(hash, es, Rename(0));
    es := Go(hash, es, Hear(0));
    assert Reached(hash, es).blobs == map[hash(bytes) := bytes];
  }

  /** The first client publishes its entry. */
  lemma FirstPublished(hash: string -> string, e: Entry, bytes: string) returns (es: seq<Move>)
    requires |e.outputs| == 1 && hash(bytes) == e.outputs[0].digest && ValidName(hash(bytes)) && ValidName(e.key)
    ensures Possible(hash, es)
    ensures var net := Reached(hash, es);
      && e.key in net.entries && net.entries[e.key] == e
      && 1 in net.handlers && net.handlers[1] == BlobChecked(hash(bytes), bytes)
  {
    es := FirstStored(hash, e, bytes);
    es := Go(hash, es, SendEntry(0, 2));
    es := Go(hash, es, Remove(2));
    es := Go(hash, es, Rename(2));
  }

  /** A reader can find an entry whose blob is not there: the second of two simultaneous
      uploads of the same blob removes it again after the first client has published. */
  lemma PublishedButAbsent(hash: string -> string, e: Entry, bytes: string) returns (es: seq<Move>)
    requires |e.outputs| == 1 && hash(bytes) == e.outputs[0].digest && ValidName(hash(bytes)) && ValidName(e.key)
    ensures Possible(hash, es)
    ensures e.key in Reached(hash, es).entries && Reached(hash, es).entries[e.key] == e
    ensures e.outputs[0].digest !in Reached(hash, es).blobs
  {
    es := FirstPublished(hash, e, bytes);
    es := Go(hash, es, Remove(1));
  }

  // ---- publishing can succeed ----

  lemma {:induction false} Below(s: set<nat>) returns (m: nat)
    ensures forall x :: x in s ==> x < m
    decreases s
  {
    if s == {} {
      m := 0;
    } else {
      var x :| x in s;
      var rest := Below(s - {x});
      m := if rest <= x then x + 1 else rest;
      assert forall y :: y in s ==> y == x || y in s - {x};
    }
  }

  lemma Unused(net: Net) returns (h: nat)
    ensures h !in net.handlers
  {
    h := Below(net.handlers.Keys);
  }

  /** Client c uploads e; its first k blobs are on the server and it waits for nothing. */
  ghost predicate Uploaded(net: Net, c: nat, e: Entry, k: nat) {
    && k <= |e.outputs| && c in net.clients && net.clients[c] == Uploading(e, k, None)
    && forall i :: 0 <= i < k ==> e.outputs[i].digest in net.blobs
  }

  /** bytes of each output, hashing to its digest. */
  ghost predicate Contents(hash: string -> string, e: Entry, bytes: nat -> string) {
    forall i :: 0 <= i < |e.outputs| ==> hash(bytes(i)) == e.outputs[i].digest && ValidName(e.outputs[i].digest)
  }

  /** The handler of a blob, left alone, ends with the blob on the server. */
  lemma BlobServed(hash: string -> string, es: seq<Move>, h: nat, d: string, b: string) returns (es': seq<Move>)
    requires Possible(hash, es) && Serving(Reached(hash, es), h) && hash(b) == d && ValidName(d)
    requires Reached(hash, es).handlers[h] == BlobReceived(d, b)
    ensures Possible(hash, es')
    ensures var net, net' := Reached(hash, es), Reached(hash, es');
      && h in net'.handlers && net'.handlers[h] == BlobDone(d, true) && net'.clients == net.clients
      && d in net'.blobs && (forall x :: x in net.blobs ==> x in net'.blobs) && net'.entries == net.entries
  {
    es' := Go(hash, es, Check(h));
    if d !in Reached(hash, es).blobs {
      es' := Go(hash, es', Remove(h));
      es' := Go(hash, es', Rename(h));
    }
  }

  lemma OneBlob(hash: string -> string, es: seq<Move>, c: nat, e: Entry, k: nat, bytes: nat -> string)
    returns (es': seq<Move>)
    requires Possible(hash, es) && Uploaded(Reached(hash, es), c, e, k) && k < |e.outputs| && Contents(hash, e, bytes)
    ensures Possible(hash, es') && Uploaded(Reached(hash, es'), c, e, k + 1)
  {
    var h := Unused(Reached(hash, es));
    es' := Go(hash, es, SendBlob(c, h, bytes(k)));
    es' := BlobServed(hash, es', h, e.outputs[k].digest, bytes(k));
    es' := Go(hash, es', Hear(c));
  }

  lemma {:induction false} AllBlobsSent(hash: string -> string, es: seq<Move>, c: nat, e: Entry, k: nat,
                                        bytes: nat -> string)
    returns (es': seq<Move>)
    requires Possible(hash, es) && Uploaded(Reached(hash, es), c, e, k) && Contents(hash, e, bytes)
    ensures Possible(hash, es') && Uploaded(Reached(hash, es'), c, e, |e.outputs|)
    decreases |e.outputs| - k
  {
    if k == |e.outputs| {
      es' := es;
    } else {
      es' := OneBlob(hash, es, c, e, k, bytes);
      es' := AllBlobsSent(hash, es', c, e, k + 1, bytes);
    }
  }

  lemma EntryServed(hash: string -> string, es: seq<Move>, c: nat, e: Entry) returns (es': seq<Move>)
    requires Possible(hash, es) && Uploaded(Reached(hash, es), c, e, |e.outputs|) && ValidName(e.key)
    ensures Possible(hash, es') && Reached(hash, es').blobs == Reached(hash, es).blobs
    ensures e.key in Reached(hash, es').entries && Reached(hash, es').entries[e.key] == e
  {
    var h := Unused(Reached(hash, es));
    es' := Go(hash, es, SendEntry(c, h));
    es' := Go(hash, es', Remove(h));
    es' := Go(hash, es', Rename(h));
  }

  /** In whatever state the server and the other clients are, a client that can read its
      blobs and is not interrupted publishes its entry, with all of its blobs there. */
  lemma UploadPublishes(hash: string -> string, es: seq<Move>, c: nat, e: Entry, bytes: nat -> string)
    returns (es': seq<Move>)
    requires Possible(hash, es) && c !in Reached(hash, es).clients && Contents(hash, e, bytes) && ValidName(e.key)
    ensures Possible(hash, es')
    ensures e.key in Reached(hash, es').entries && Reached(hash, es').entries[e.key] == e
    ensures forall i :: 0 <= i < |e.outputs| ==> Held(hash, Reached(hash, es'), e.outputs[i].digest)
  {
    es' := Go(hash, es, Begin(c, e));
    es' := AllBlobsSent(hash, es', c, e, 0, bytes);
    es' := EntryServed(hash, es', c, e);
    PublishedIsComplete(hash, es');
  }
}
