/** The cache between transaction selection and block execution. Selection fills it,
    a sweeper ages entries out, and pushing an ordered block consumes it. None of
    that may show in what is sent to execution. */
module ExecutionCache {
  import opened Wrappers
  import opened Transactions
  import opened Mempool

  const TXN_CACHE_ENTRY_TTL: nat := 300_000_000_000 // 5 minutes, in nanoseconds

  datatype Conversion =
    | Converted(sender: Address, tx: Transaction)
    | DecodeFailed
    | RecoverSignerFailed

  function TxnToSigned(c: Codec, bytes: Bytes): Conversion {
    match c.decode(bytes)
    case None => DecodeFailed
    case Some(tx) =>
      match c.recover(tx)
      case None => RecoverSignerFailed
      case Some(sender) => Converted(sender, tx)
  }

  // ---------------------------------------------------------------- reference

  /** Decode and recover each transaction in block order, dropping the failures. */
  function Reference(c: Codec, txns: seq<Bytes>): seq<(Address, Transaction)> {
    if txns == [] then []
    else
      var n := |txns| - 1;
      Reference(c, txns[..n]) +
      match TxnToSigned(c, txns[n])
      case Converted(sender, tx) => [(sender, tx)]
      case _ => []
  }

  /** The reference keeps block order and decides each transaction by itself: what
      decodes to a transaction with a recoverable signer is kept with that signer. */
  lemma {:induction false} ReferenceJoins(c: Codec, xs: seq<Bytes>, ys: seq<Bytes>)
    ensures Reference(c, xs + ys) == Reference(c, xs) + Reference(c, ys)
    decreases |ys|
  {
    if ys == [] {
      assert xs + ys == xs;
    } else {
      var n := |ys| - 1;
      assert (xs + ys)[..|xs| + n] == xs + ys[..n];
      ReferenceJoins(c, xs, ys[..n]);
    }
  }

  lemma ReferenceOfOne(c: Codec, bytes: Bytes)
    ensures var tx := c.decode(bytes);
      Reference(c, [bytes]) ==
        if tx.Some? && c.recover(tx.value).Some? then [(c.recover(tx.value).value, tx.value)] else []
  {
  }

  /** Two lists of equal length hold these pairs. */
  predicate Pairs(senders: seq<Address>, txs: seq<Transaction>, pairs: seq<(Address, Transaction)>) {
    |senders| == |txs| == |pairs| && forall i :: 0 <= i < |pairs| ==> pairs[i] == (senders[i], txs[i])
  }

  /** Each entry is filed under the hash of its own transaction and holds the sender
      that signing would recover. */
  ghost predicate CacheSound(c: Codec, cache: TxnCache) {
    forall h :: h in cache ==> h == c.HashOf(cache[h].txn.tx) && Genuine(c, cache[h].txn)
  }

  function Age(now: Instant, at: Instant): nat {
    if now > at then now - at else 0
  }

  /** A sweep of some of the entries, such as one shard of the map. */
  function Swept(cache: TxnCache, keys: set<TxHash>, now: Instant): TxnCache {
    map h | h in cache && !(h in keys && Age(now, cache[h].insertedAt) >= TXN_CACHE_ENTRY_TTL) :: cache[h]
  }

  /** A sweep drops exactly the swept entries that are five minutes old or older. */
  lemma SweptMeans(cache: TxnCache, keys: set<TxHash>, now: Instant, h: TxHash)
    ensures h in Swept(cache, keys, now) <==>
      h in cache && (h in keys ==> now - cache[h].insertedAt < 300_000_000_000)
    ensures h in Swept(cache, keys, now) ==> Swept(cache, keys, now)[h] == cache[h]
  {
  }

  /** What a cache hit supplies is what decoding would have supplied. */
  lemma HitEqualsDecode(c: Codec, cache: TxnCache, bytes: Bytes)
    requires c.Sound() && CacheSound(c, cache) && c.hash(bytes) in cache
    ensures var t := cache[c.hash(bytes)].txn;
      TxnToSigned(c, bytes) == Converted(t.sender, t.tx)
  {
    var t := cache[c.hash(bytes)].txn;
    assert c.hash(bytes) == c.hash(c.encode(t.tx));
  }

  // ---------------------------------------------------------------- interleavings

  /** The atomic accesses to the shared map: selection files one transaction, the
      sweeper clears some keys, a push removes one hash. No lock spans two of them. */
  datatype CacheOp =
    | File(txn: PoolTxn, at: Instant)
    | Clear(keys: set<TxHash>, now: Instant)
    | Take(key: TxHash)

  function Apply(c: Codec, cache: TxnCache, op: CacheOp): TxnCache {
    match op
    case File(t, at) => cache[c.HashOf(t.tx) := CacheEntry(at, t)]
    case Clear(keys, now) => Swept(cache, keys, now)
    case Take(key) => cache - {key}
  }

  function CacheAfter(c: Codec, cache: TxnCache, trace: seq<CacheOp>): TxnCache {
    if trace == [] then cache
    else Apply(c, CacheAfter(c, cache, trace[..|trace| - 1]), trace[|trace| - 1])
  }

  /** A push inside a trace: the removal for each transaction of the block happens at
      the given position, in block order, with anything in between. */
  predicate IsPush(c: Codec, trace: seq<CacheOp>, txns: seq<Bytes>, at: seq<nat>) {
    && |at| == |txns|
    && (forall i :: 0 <= i < |at| ==> at[i] < |trace| && trace[at[i]] == Take(c.hash(txns[i])))
    && (forall i, j :: 0 <= i < j < |at| ==> at[i] < at[j])
  }

  function CacheSlot(cache: TxnCache, h: TxHash): Option<(Address, Transaction)> {
    if h in cache then Some((cache[h].txn.sender, cache[h].txn.tx)) else None
  }

  function DecodeSlot(c: Codec, bytes: Bytes): Option<(Address, Transaction)> {
    match TxnToSigned(c, bytes)
    case Converted(sender, tx) => Some((sender, tx))
    case _ => None
  }

  /** What the removal at a position of the trace finds. */
  function HitAt(c: Codec, cache: TxnCache, trace: seq<CacheOp>, pos: nat, bytes: Bytes)
    : Option<(Address, Transaction)>
    requires pos <= |trace|
  {
    CacheSlot(CacheAfter(c, cache, trace[..pos]), c.hash(bytes))
  }

  /** A miss is decoded. */
  function Filled(c: Codec, hit: Option<(Address, Transaction)>, bytes: Bytes): Option<(Address, Transaction)> {
    if hit.Some? then hit else DecodeSlot(c, bytes)
  }

  /** What the push sends to execution for its first `n` transactions. */
  function Pushed(c: Codec, cache: TxnCache, trace: seq<CacheOp>, txns: seq<Bytes>, at: seq<nat>, n: nat)
    : seq<(Address, Transaction)>
    requires IsPush(c, trace, txns, at) && n <= |txns|
  {
    if n == 0 then []
    else
      var slot := Filled(c, HitAt(c, cache, trace, at[n - 1], txns[n - 1]), txns[n - 1]);
      Pushed(c, cache, trace, txns, at, n - 1) + (if slot.Some? then [slot.value] else [])
  }

  lemma {:induction false} CacheAfterJoin(c: Codec, cache: TxnCache, xs: seq<CacheOp>, ys: seq<CacheOp>)
    ensures CacheAfter(c, cache, xs + ys) == CacheAfter(c, CacheAfter(c, cache, xs), ys)
  {
    if ys == [] {
      assert xs + ys == xs;
    } else {
      var n := |ys| - 1;
      assert (xs + ys)[..|xs| + n] == xs + ys[..n];
      CacheAfterJoin(c, cache, xs, ys[..n]);
    }
  }

  // ---------------------------------------------------------------- implementation

  class RethCli {
    const codec: Codec
    var txnCache: TxnCache

    constructor (codec: Codec, txnCache: TxnCache)
      ensures this.codec == codec && this.txnCache == txnCache
    {
      this.codec := codec;
      this.txnCache := txnCache;
    }

    /** The conversion part of pushing an ordered block: a slot per transaction is
        filled from the cache, the empty slots by decoding, and the full ones kept.
        `trace` is everything that happens to the shared map meanwhile, with the push's
        own removals at the positions `at`. */
    method PushOrderedBlock(txns: seq<Bytes>, trace: seq<CacheOp>, at: seq<nat>)
      returns (senders: seq<Address>, transactions: seq<Transaction>)
      requires IsPush(codec, trace, txns, at)
      modifies this
      ensures Pairs(senders, transactions, Pushed(codec, old(txnCache), trace, txns, at, |txns|))
      ensures txnCache == CacheAfter(codec, old(txnCache), trace)
    {
      var slots := new Option<(Address, Transaction)>[|txns|](_ => None);
      TakeHits(txns, slots, trace, at);
      DecodeMisses(txns, slots);
      senders, transactions := [], [];
      for i := 0 to |txns|
        invariant txnCache == CacheAfter(codec, old(txnCache), trace)
        invariant Pairs(senders, transactions, Pushed(codec, old(txnCache), trace, txns, at, i))
      {
        match slots[i] {
          case Some(pair) =>
            senders := senders + [pair.0];
            transactions := transactions + [pair.1];
          case None =>
        }
      }
    }

    method TakeHits(
      txns: seq<Bytes>, slots: array<Option<(Address, Transaction)>>, trace: seq<CacheOp>, at: seq<nat>)
      requires IsPush(codec, trace, txns, at)
      requires slots.Length == |txns| && forall i :: 0 <= i < |txns| ==> slots[i] == None
      modifies this, slots
      ensures txnCache == CacheAfter(codec, old(txnCache), trace)
      ensures forall i :: 0 <= i < |txns| ==> slots[i] == HitAt(codec, old(txnCache), trace, at[i], txns[i])
    {
      var pos := 0;
      for i := 0 to |txns|
        invariant pos <= |trace| && forall j :: i <= j < |txns| ==> pos <= at[j]
        invariant txnCache == CacheAfter(codec, old(txnCache), trace[..pos])
        invariant forall j :: 0 <= j < i ==> slots[j] == HitAt(codec, old(txnCache), trace, at[j], txns[j])
        invariant forall j :: i <= j < |txns| ==> slots[j] == None
      {
        Meanwhile(trace[pos..at[i]]);
        Advance(codec, old(txnCache), trace, pos, at[i]);
        slots[i] := Remove(codec.hash(txns[i]));
        pos := at[i] + 1;
        assert trace[..pos][..at[i]] == trace[..at[i]];
      }
      Meanwhile(trace[pos..]);
      Advance(codec, old(txnCache), trace, pos, |trace|);
      assert trace[..|trace|] == trace && trace[pos..|trace|] == trace[pos..];
    }

    /** One atomic removal. */
    method Remove(key: TxHash) returns (hit: Option<(Address, Transaction)>)
      modifies this
      ensures hit == CacheSlot(old(txnCache), key)
      ensures txnCache == Apply(codec, old(txnCache), Take(key))
    {
      hit := None;
      if key in txnCache {
        var entry := txnCache[key];
        hit := Some((entry.txn.sender, entry.txn.tx));
        txnCache := txnCache - {key};
      }
    }

    /** What selection, the sweeper and other pushes do to the map. */
    method Meanwhile(ops: seq<CacheOp>)
      modifies this
      ensures txnCache == CacheAfter(codec, old(txnCache), ops)
    {
      for i := 0 to |ops|
        invariant txnCache == CacheAfter(codec, old(txnCache), ops[..i])
      {
        assert ops[..i + 1][..i] == ops[..i];
        txnCache := Apply(codec, txnCache, ops[i]);
      }
      assert ops[..|ops|] == ops;
    }

    method DecodeMisses(txns: seq<Bytes>, slots: array<Option<(Address, Transaction)>>)
      requires slots.Length == |txns|
      modifies slots
      ensures forall i :: 0 <= i < |txns| ==> slots[i] == Filled(codec, old(slots[i]), txns[i])
    {
      for i := 0 to |txns|
        invariant forall j :: 0 <= j < i ==> slots[j] == Filled(codec, old(slots[j]), txns[j])
        invariant forall j :: i <= j < |txns| ==> slots[j] == old(slots[j])
      {
        if slots[i].None? {
          match TxnToSigned(codec, txns[i]) {
            case Converted(sender, tx) => slots[i] := Some((sender, tx));
            case DecodeFailed =>
            case RecoverSignerFailed =>
          }
        }
      }
    }

    method Sweep(keys: set<TxHash>, now: Instant)
      modifies this
      ensures txnCache == Swept(old(txnCache), keys, now)
    {
      txnCache := map h | h in txnCache && !(h in keys && Age(now, txnCache[h].insertedAt) >= TXN_CACHE_ENTRY_TTL)
        :: txnCache[h];
    }
  }

  lemma Advance(c: Codec, cache: TxnCache, trace: seq<CacheOp>, pos: nat, next: nat)
    requires pos <= next <= |trace|
    ensures CacheAfter(c, CacheAfter(c, cache, trace[..pos]), trace[pos..next]) == CacheAfter(c, cache, trace[..next])
  {
    CacheAfterJoin(c, cache, trace[..pos], trace[pos..next]);
    assert trace[..pos] + trace[pos..next] == trace[..next];
  }

  // ---------------------------------------------------------------- transparency

  /** Selection files transactions with the sender the pool recovered. */
  ghost predicate OpValid(c: Codec, op: CacheOp) {
    op.File? ==> Genuine(c, op.txn)
  }

  ghost predicate TraceValid(c: Codec, trace: seq<CacheOp>) {
    forall i :: 0 <= i < |trace| ==> OpValid(c, trace[i])
  }

  /** A selection is a row of filings, which other accesses may separate. */
  function Filings(ts: seq<PoolTxn>, at: nat -> Instant): seq<CacheOp> {
    seq(|ts|, i requires 0 <= i < |ts| => File(ts[i], at(i)))
  }

  lemma {:induction false} SelectionFiles(c: Codec, cache: TxnCache, ts: seq<PoolTxn>, at: nat -> Instant)
    ensures CacheAfter(c, cache, Filings(ts, at)) == Cached(c, cache, ts, at)
  {
    if ts != [] {
      var n := |ts| - 1;
      SelectionFiles(c, cache, ts[..n], at);
      assert Filings(ts, at)[..n] == Filings(ts[..n], at);
    }
  }

  /** However the accesses interleave, each entry stays filed under its own hash. */
  lemma {:induction false} CacheStaysSound(c: Codec, cache: TxnCache, trace: seq<CacheOp>)
    requires CacheSound(c, cache) && TraceValid(c, trace)
    ensures CacheSound(c, CacheAfter(c, cache, trace))
  {
    if trace != [] {
      CacheStaysSound(c, cache, trace[..|trace| - 1]);
    }
  }

  lemma {:induction false} PushedIsReference(
    c: Codec, cache: TxnCache, trace: seq<CacheOp>, txns: seq<Bytes>, at: seq<nat>, n: nat)
    requires c.Sound() && CacheSound(c, cache) && TraceValid(c, trace)
    requires IsPush(c, trace, txns, at) && n <= |txns|
    ensures Pushed(c, cache, trace, txns, at, n) == Reference(c, txns[..n])
  {
    if n > 0 {
      PushedIsReference(c, cache, trace, txns, at, n - 1);
      assert txns[..n][..n - 1] == txns[..n - 1];
      var found := CacheAfter(c, cache, trace[..at[n - 1]]);
      CacheStaysSound(c, cache, trace[..at[n - 1]]);
      if c.hash(txns[n - 1]) in found { HitEqualsDecode(c, found, txns[n - 1]); }
    }
  }

  /** Transparency: in every trace of filings, clearings and removals by any number of
      pushes, what a block sends to execution is the in-order decode-and-recover filter
      of that block alone, duplicates included. */
  lemma CacheIsInvisible(c: Codec, trace: seq<CacheOp>, txns: seq<Bytes>, at: seq<nat>)
    requires c.Sound() && TraceValid(c, trace) && IsPush(c, trace, txns, at)
    ensures Pushed(c, map[], trace, txns, at, |txns|) == Reference(c, txns)
  {
    PushedIsReference(c, map[], trace, txns, at, |txns|);
    assert txns[..|txns|] == txns;
  }

  /** The access leaves the entry of a hash alone. */
  predicate Spares(c: Codec, op: CacheOp, h: TxHash, filedAt: Instant) {
    match op
    case File(t, _) => c.hash(c.encode(t.tx)) != h
    case Clear(keys, now) => h in keys ==> now - filedAt < 300_000_000_000
    case Take(key) => key != h
  }

  /** The cache is of use: a filed transaction is served to the next push that asks for
      it, unless it was filed again, taken or swept after five minutes meanwhile. */
  lemma {:induction false} FiledIsServed(
    c: Codec, cache: TxnCache, before: seq<CacheOp>, t: PoolTxn, at: Instant, after: seq<CacheOp>)
    requires forall i :: 0 <= i < |after| ==> Spares(c, after[i], c.hash(c.encode(t.tx)), at)
    ensures var h, last := c.hash(c.encode(t.tx)), CacheAfter(c, cache, before + [File(t, at)] + after);
      h in last && last[h] == CacheEntry(at, t) && CacheSlot(last, h) == Some((t.sender, t.tx))
    decreases |after|
  {
    var trace := before + [File(t, at)] + after;
    if after == [] {
      assert trace[..|trace| - 1] == before;
    } else {
      var n := |after| - 1;
      FiledIsServed(c, cache, before, t, at, after[..n]);
      assert trace[..|trace| - 1] == before + [File(t, at)] + after[..n];
      assert Spares(c, after[n], c.hash(c.encode(t.tx)), at);
    }
  }
}
