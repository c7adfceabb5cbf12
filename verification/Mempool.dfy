/** Selecting transactions for a proposal: a cached pool iterator drained under a
    count and a byte budget, with one nonce per sender kept across calls. */
module Mempool {
  import opened Wrappers
  import opened Transactions

  type Filter = Option<(Address, nat, TxHash) -> bool>

  function Accepts(c: Codec, f: Filter, t: PoolTxn): bool {
    f.Some? ==> f.value(t.sender, t.tx.nonce, c.HashOf(t.tx))
  }

  type Nonces = map<Address, nat>

  /** A sender's first transaction is in order; a later one must follow the last. */
  predicate InOrder(nonces: Nonces, t: PoolTxn) {
    t.sender in nonces ==> t.tx.nonce == nonces[t.sender] + 1
  }

  /** An item in order moves its sender's nonce, whatever the filter then says. */
  function WithAnchor(nonces: Nonces, t: PoolTxn): Nonces {
    if InOrder(nonces, t) then nonces[t.sender := t.tx.nonce] else nonces
  }

  predicate Selects(c: Codec, f: Filter, nonces: Nonces, t: PoolTxn) {
    InOrder(nonces, t) && Accepts(c, f, t)
  }

  // ---------------------------------------------------------------- reference

  /** A pool item together with the answer of the filter of the call that pulls it. */
  datatype Offer = Offer(t: PoolTxn, accepted: bool)

  function Offered(c: Codec, items: seq<PoolTxn>, f: Filter): seq<Offer> {
    seq(|items|, i requires 0 <= i < |items| => Offer(items[i], Accepts(c, f, items[i])))
  }

  /** One unbounded pass: the items in nonce order, which are the ones whose filter is
      asked, whatever it then answers. */
  function Anchors(offers: seq<Offer>, nonces: Nonces): seq<Offer> {
    if offers == [] then []
    else
      var o := offers[0];
      if !InOrder(nonces, o.t) then Anchors(offers[1..], nonces)
      else [o] + Anchors(offers[1..], WithAnchor(nonces, o.t))
  }

  function LastNonces(offers: seq<Offer>, nonces: Nonces): Nonces {
    if offers == [] then nonces
    else
      LastNonces(offers[1..], WithAnchor(nonces, offers[0].t))
  }

  /** The offers their filters let through. */
  function Accepted(offers: seq<Offer>): seq<PoolTxn> {
    if offers == [] then []
    else (if offers[0].accepted then [offers[0].t] else []) + Accepted(offers[1..])
  }

  function TotalBytes(c: Codec, ts: seq<PoolTxn>): nat {
    if ts == [] then 0 else |c.encode(ts[0].tx)| + TotalBytes(c, ts[1..])
  }

  // ---------------------------------------------------------------- budgeted pass

  datatype Pull = Pull(taken: seq<PoolTxn>, rest: seq<PoolTxn>, nonces: Nonces)

  /** The pass stopped by the budgets, which are looked at before each item. */
  function Drain(c: Codec, f: Filter, limit: nat, bytes: int, items: seq<PoolTxn>, nonces: Nonces): Pull
    decreases |items|
  {
    if limit == 0 || bytes <= 0 || items == [] then Pull([], items, nonces)
    else
      var t := items[0];
      if Selects(c, f, nonces, t) then
        After([t], Drain(c, f, limit - 1, bytes - |c.encode(t.tx)|, items[1..], WithAnchor(nonces, t)))
      else Drain(c, f, limit, bytes, items[1..], WithAnchor(nonces, t))
  }

  function After(taken: seq<PoolTxn>, p: Pull): Pull {
    p.(taken := taken + p.taken)
  }

  /** The same pass with what it has taken so far, one item per step. */
  function DrainFrom(
    c: Codec, f: Filter, limit: nat, bytes: int, items: seq<PoolTxn>, nonces: Nonces, taken: seq<PoolTxn>): Pull
    decreases |items|
  {
    if limit == 0 || bytes <= 0 || items == [] then Pull(taken, items, nonces)
    else
      var t := items[0];
      if Selects(c, f, nonces, t) then
        DrainFrom(c, f, limit - 1, bytes - |c.encode(t.tx)|, items[1..], WithAnchor(nonces, t), taken + [t])
      else DrainFrom(c, f, limit, bytes, items[1..], WithAnchor(nonces, t), taken)
  }

  lemma {:induction false} DrainFromIsDrain(
    c: Codec, f: Filter, limit: nat, bytes: int, items: seq<PoolTxn>, nonces: Nonces, taken: seq<PoolTxn>)
    ensures DrainFrom(c, f, limit, bytes, items, nonces, taken)
         == After(taken, Drain(c, f, limit, bytes, items, nonces))
    decreases |items|
  {
    if limit == 0 || bytes <= 0 || items == [] {
    } else {
      var t, next := items[0], WithAnchor(nonces, items[0]);
      if Selects(c, f, nonces, t) {
        DrainFromIsDrain(c, f, limit - 1, bytes - |c.encode(t.tx)|, items[1..], next, taken + [t]);
        var p := Drain(c, f, limit - 1, bytes - |c.encode(t.tx)|, items[1..], next);
        assert taken + ([t] + p.taken) == (taken + [t]) + p.taken;
      } else {
        DrainFromIsDrain(c, f, limit, bytes, items[1..], next, taken);
      }
    }
  }

  /** The cache after filing transactions; `at` is the time each one is filed. */
  function Cached(c: Codec, cache: TxnCache, ts: seq<PoolTxn>, at: nat -> Instant): TxnCache {
    if ts == [] then cache
    else
      var n := |ts| - 1;
      Cached(c, cache, ts[..n], at)[c.HashOf(ts[n].tx) := CacheEntry(at(n), ts[n])]
  }

  datatype CachedBest = CachedBest(best: Option<seq<PoolTxn>>, createdAt: Instant, lastNonces: Nonces)

  const NO_ITERATOR: CachedBest := CachedBest(None, 0, map[])

  /** The clock readings of one call: when expiry is looked at, when a new iterator is
      stamped, when each selected transaction is filed, when an iterator is dropped. */
  datatype Times = Times(asked: Instant, created: Instant, filed: nat -> Instant, dropped: Instant)

  predicate Refreshes(b: CachedBest, asked: Instant, ttl: nat) {
    asked > b.createdAt + ttl || b.best.None?
  }

  /** A missing or expired iterator is replaced by a fresh one from the pool. */
  function Refreshed(b: CachedBest, times: Times, ttl: nat, pool: seq<PoolTxn>): CachedBest {
    if Refreshes(b, times.asked, ttl) then CachedBest(Some(pool), times.created, map[]) else b
  }

  /** An empty batch throws the iterator away. */
  function AfterBatch(b: CachedBest, p: Pull, times: Times): CachedBest {
    if p.taken == [] then CachedBest(None, times.dropped, map[]) else CachedBest(Some(p.rest), b.createdAt, p.nonces)
  }

  /** The batch carries these pool items, in order: the bytes are the encoding of each
      transaction, beside its sender and its nonce. */
  predicate Carries(c: Codec, batch: seq<VerifiedTxn>, ts: seq<PoolTxn>) {
    && |batch| == |ts|
    && forall i :: 0 <= i < |ts| ==>
         && batch[i].bytes == c.encode(ts[i].tx)
         && batch[i].sender == ts[i].sender
         && batch[i].nonce == ts[i].tx.nonce
  }

  lemma FiledOneMore(c: Codec, cache: TxnCache, ts: seq<PoolTxn>, t: PoolTxn, at: nat -> Instant)
    ensures Cached(c, cache, ts + [t], at) == Cached(c, cache, ts, at)[c.HashOf(t.tx) := CacheEntry(at(|ts|), t)]
  {
    assert (ts + [t])[..|ts|] == ts;
  }

  /** Of the transactions filed under one hash the last one stays, with its own time. */
  lemma {:induction false} FiledLast(c: Codec, cache: TxnCache, ts: seq<PoolTxn>, at: nat -> Instant, i: nat)
    requires i < |ts| && forall j :: i < j < |ts| ==> c.HashOf(ts[j].tx) != c.HashOf(ts[i].tx)
    ensures var after, h := Cached(c, cache, ts, at), c.hash(c.encode(ts[i].tx));
      h in after && after[h].txn == ts[i] && after[h].insertedAt == at(i)
  {
    if i < |ts| - 1 { FiledLast(c, cache, ts[..|ts| - 1], at, i); }
  }

  /** What is filed under other hashes is left alone. */
  lemma {:induction false} FiledElsewhere(c: Codec, cache: TxnCache, ts: seq<PoolTxn>, at: nat -> Instant, h: TxHash)
    requires forall i :: 0 <= i < |ts| ==> c.HashOf(ts[i].tx) != h
    ensures var after := Cached(c, cache, ts, at);
      (h in after <==> h in cache) && (h in cache ==> after[h] == cache[h])
  {
    if ts != [] { FiledElsewhere(c, cache, ts[..|ts| - 1], at, h); }
  }

  class Mempool {
    const codec: Codec
    var cachedBest: CachedBest
    var txnCache: TxnCache

    constructor (codec: Codec)
      ensures this.codec == codec && cachedBest == NO_ITERATOR && txnCache == map[]
    {
      this.codec := codec;
      cachedBest := NO_ITERATOR;
      txnCache := map[];
    }

    /** `pool` is what a fresh iterator would yield. */
    method BestTxns(f: Filter, limit: nat, maxBytes: nat, times: Times, ttl: nat, pool: seq<PoolTxn>)
      returns (result: seq<VerifiedTxn>)
      modifies this
      ensures
        var b := Refreshed(old(cachedBest), times, ttl, pool);
        var p := Drain(codec, f, limit, maxBytes, b.best.value, b.lastNonces);
        && Carries(codec, result, p.taken)
        && cachedBest == AfterBatch(b, p, times)
        && txnCache == Cached(codec, old(txnCache), p.taken, times.filed)
    {
      if times.asked > cachedBest.createdAt + ttl || cachedBest.best.None? {
        cachedBest := CachedBest(Some(pool), times.created, map[]);
      }
      var rest, lastNonces;
      ghost var taken;
      result, rest, lastNonces, taken :=
        Fill(f, limit, maxBytes, times.filed, cachedBest.best.value, cachedBest.lastNonces);
      cachedBest := cachedBest.(best := Some(rest), lastNonces := lastNonces);
      if result == [] {
        cachedBest := CachedBest(None, times.dropped, map[]);
      }
    }

    /** The selection loop: pulls items until a budget is spent or none are left. */
    method Fill(f: Filter, limit: nat, maxBytes: nat, at: nat -> Instant, items: seq<PoolTxn>, nonces: Nonces)
      returns (result: seq<VerifiedTxn>, iter: seq<PoolTxn>, lastNonces: Nonces, ghost taken: seq<PoolTxn>)
      modifies this`txnCache
      ensures Pull(taken, iter, lastNonces) == Drain(codec, f, limit, maxBytes, items, nonces)
      ensures Carries(codec, result, taken)
      ensures txnCache == Cached(codec, old(txnCache), taken, at)
    {
      iter, lastNonces := items, nonces;
      taken := [];
      ghost var goal := DrainFrom(codec, f, limit, maxBytes, items, nonces, taken);
      result := [];
      var totalBytes := 0;
      while |result| < limit && totalBytes < maxBytes && iter != []
        invariant Carries(codec, result, taken) && |result| == |taken| <= limit
        invariant txnCache == Cached(codec, old(txnCache), taken, at)
        invariant goal == DrainFrom(codec, f, limit - |result|, maxBytes - totalBytes, iter, lastNonces, taken)
        decreases |iter|
      {
        var t := iter[0];
        iter := iter[1..];
        var selected;
        lastNonces, selected := Consider(f, t, lastNonces);
        if selected {
          var verified := ToVerified(codec, t);
          totalBytes := totalBytes + |verified.bytes|;
          FileTxn(t, at(|result|), old(txnCache), taken, at);
          taken := taken + [t];
          result := result + [verified];
        }
      }
      DrainFromIsDrain(codec, f, limit, maxBytes, items, nonces, []);
    }

    /** Files one more selected transaction under its own hash. */
    method FileTxn(t: PoolTxn, now: Instant, ghost base: TxnCache, ghost ts: seq<PoolTxn>, ghost at: nat -> Instant)
      requires txnCache == Cached(codec, base, ts, at) && now == at(|ts|)
      modifies this`txnCache
      ensures txnCache == Cached(codec, base, ts + [t], at)
    {
      FiledOneMore(codec, base, ts, t, at);
      txnCache := txnCache[codec.HashOf(t.tx) := CacheEntry(now, t)];
    }

    /** The nonce check, the anchor and the filter, in that order, for one item. */
    method Consider(f: Filter, t: PoolTxn, nonces: Nonces) returns (lastNonces: Nonces, selected: bool)
      ensures lastNonces == WithAnchor(nonces, t) && selected == Selects(codec, f, nonces, t)
    {
      if t.sender in nonces && t.tx.nonce != nonces[t.sender] + 1 {
        return nonces, false;
      }
      lastNonces := nonces[t.sender := t.tx.nonce];
      selected := Accepts(codec, f, t);
    }
  }

  // ---------------------------------------------------------------- one batch

  /** The items a batch pulls, selected or not: all but those it leaves. */
  function Consumed(items: seq<PoolTxn>, p: Pull): seq<PoolTxn> {
    if |p.rest| <= |items| then items[..|items| - |p.rest|] else []
  }

  /** The batch is the unbounded pass over exactly the items it consumed. */
  predicate IsPass(c: Codec, f: Filter, items: seq<PoolTxn>, nonces: Nonces, p: Pull) {
    var offers := Offered(c, Consumed(items, p), f);
    && items == Consumed(items, p) + p.rest
    && p.taken == Accepted(Anchors(offers, nonces))
    && p.nonces == LastNonces(offers, nonces)
  }

  lemma {:induction false} DrainIsPass(
    c: Codec, f: Filter, limit: nat, bytes: int, items: seq<PoolTxn>, nonces: Nonces)
    ensures IsPass(c, f, items, nonces, Drain(c, f, limit, bytes, items, nonces))
    decreases |items|
  {
    if limit == 0 || bytes <= 0 || items == [] {
      NoItems(c, f, items, nonces);
    } else {
      var t, next := items[0], WithAnchor(nonces, items[0]);
      if Selects(c, f, nonces, t) {
        DrainIsPass(c, f, limit - 1, bytes - |c.encode(t.tx)|, items[1..], next);
        OneItem(c, f, items, nonces, Drain(c, f, limit - 1, bytes - |c.encode(t.tx)|, items[1..], next));
      } else {
        DrainIsPass(c, f, limit, bytes, items[1..], next);
        OneItem(c, f, items, nonces, Drain(c, f, limit, bytes, items[1..], next));
      }
    }
  }

  lemma NoItems(c: Codec, f: Filter, items: seq<PoolTxn>, nonces: Nonces)
    ensures IsPass(c, f, items, nonces, Pull([], items, nonces))
  {
    assert Offered(c, Consumed(items, Pull([], items, nonces)), f) == [];
  }

  lemma OneItem(c: Codec, f: Filter, items: seq<PoolTxn>, nonces: Nonces, q: Pull)
    requires items != [] && IsPass(c, f, items[1..], WithAnchor(nonces, items[0]), q)
    ensures IsPass(c, f, items, nonces, if Selects(c, f, nonces, items[0]) then After([items[0]], q) else q)
  {
    var t, next := items[0], WithAnchor(nonces, items[0]);
    var tail, offers := Offered(c, Consumed(items[1..], q), f), Offered(c, Consumed(items, q), f);
    assert items == Consumed(items, q) + q.rest;
    assert offers == [Offer(t, Accepts(c, f, t))] + tail;
    assert offers[1..] == tail;
    if InOrder(nonces, t) {
      assert Anchors(offers, nonces)[1..] == Anchors(tail, next);
    }
    assert [] + q.taken == q.taken;
  }

  /** The budgets are respected, only the last transaction may cross the byte budget,
      and the batch stops early only when the iterator has run dry. */
  lemma {:induction false} DrainBudgets(
    c: Codec, f: Filter, limit: nat, bytes: int, items: seq<PoolTxn>, nonces: Nonces)
    ensures var p := Drain(c, f, limit, bytes, items, nonces);
      && |p.taken| <= limit
      && (p.taken != [] ==> TotalBytes(c, p.taken[..|p.taken| - 1]) < bytes)
      && (p.rest != [] ==> |p.taken| == limit || TotalBytes(c, p.taken) >= bytes)
    decreases |items|
  {
    if limit == 0 || bytes <= 0 || items == [] {
    } else {
      var t := items[0];
      var nonces' := WithAnchor(nonces, t);
      if Selects(c, f, nonces, t) {
        DrainBudgets(c, f, limit - 1, bytes - |c.encode(t.tx)|, items[1..], nonces');
        BytesOfMore(c, t, Drain(c, f, limit - 1, bytes - |c.encode(t.tx)|, items[1..], nonces').taken);
      } else {
        DrainBudgets(c, f, limit, bytes, items[1..], nonces');
      }
    }
  }

  lemma BytesOfMore(c: Codec, t: PoolTxn, ts: seq<PoolTxn>)
    ensures var all := [t] + ts;
      && TotalBytes(c, all) == |c.encode(t.tx)| + TotalBytes(c, ts)
      && TotalBytes(c, all[..|all| - 1])
         == if ts == [] then 0 else |c.encode(t.tx)| + TotalBytes(c, ts[..|ts| - 1])
  {
    var all := [t] + ts;
    assert all[1..] == ts;
    if ts != [] {
      assert all[..|all| - 1][1..] == ts[..|ts| - 1];
    }
  }

  /** The batch is empty, so the iterator goes, although it still holds items. */
  predicate Discards(p: Pull) {
    p.taken == [] && p.rest != []
  }

  /** An empty batch leaves items behind exactly when a budget was zero, so with
      positive budgets the iterator is thrown away only once it is dry. */
  lemma EmptyBatchMeansDry(c: Codec, f: Filter, limit: nat, maxBytes: nat, items: seq<PoolTxn>, nonces: Nonces)
    ensures Discards(Drain(c, f, limit, maxBytes, items, nonces))
       <==> items != [] && (limit == 0 || maxBytes == 0)
  {
    DrainBudgets(c, f, limit, maxBytes, items, nonces);
  }

  /** What a caller can check: a call never throws items away, whatever the iterator
      holds, exactly when both its budgets are positive. */
  lemma NeverDiscardsIff(c: Codec, f: Filter, limit: nat, maxBytes: nat)
    ensures (forall items, nonces :: !Discards(Drain(c, f, limit, maxBytes, items, nonces)))
       <==> limit > 0 && maxBytes > 0
  {
    forall items: seq<PoolTxn>, nonces: Nonces
      ensures Discards(Drain(c, f, limit, maxBytes, items, nonces))
         <==> items != [] && (limit == 0 || maxBytes == 0)
    {
      EmptyBatchMeansDry(c, f, limit, maxBytes, items, nonces);
    }
    var some: seq<PoolTxn> := [PoolTxn(Address(0), Transaction(0, []))];
    assert Discards(Drain(c, f, limit, maxBytes, some, map[])) <==> limit == 0 || maxBytes == 0;
  }

  // ---------------------------------------------------------------- joining passes

  lemma {:induction false} PassesJoin(xs: seq<Offer>, ys: seq<Offer>, nonces: Nonces)
    ensures Anchors(xs + ys, nonces) == Anchors(xs, nonces) + Anchors(ys, LastNonces(xs, nonces))
    ensures LastNonces(xs + ys, nonces) == LastNonces(ys, LastNonces(xs, nonces))
  {
    if xs == [] {
      assert xs + ys == ys;
    } else {
      assert (xs + ys)[1..] == xs[1..] + ys;
      PassesJoin(xs[1..], ys, WithAnchor(nonces, xs[0].t));
    }
  }

  lemma {:induction false} AcceptedJoin(xs: seq<Offer>, ys: seq<Offer>)
    ensures Accepted(xs + ys) == Accepted(xs) + Accepted(ys)
  {
    if xs == [] {
      assert xs + ys == ys;
    } else {
      assert (xs + ys)[1..] == xs[1..] + ys;
      AcceptedJoin(xs[1..], ys);
      var head := if xs[0].accepted then [xs[0].t] else [];
      assert head + (Accepted(xs[1..]) + Accepted(ys)) == (head + Accepted(xs[1..])) + Accepted(ys);
    }
  }

  // ---------------------------------------------------------------- nonces

  /** Each anchor follows the anchor of its sender before it, or the nonces given. */
  ghost predicate Chained(a: seq<Offer>, nonces: Nonces) {
    |a| > 0 ==> InOrder(nonces, a[0].t) && Chained(a[1..], nonces[a[0].t.sender := a[0].t.tx.nonce])
  }

  lemma {:induction false} AnchorsAreChained(offers: seq<Offer>, nonces: Nonces)
    ensures Chained(Anchors(offers, nonces), nonces)
  {
    if offers != [] {
      var t := offers[0].t;
      if InOrder(nonces, t) {
        var tail := Anchors(offers[1..], nonces[t.sender := t.tx.nonce]);
        AnchorsAreChained(offers[1..], nonces[t.sender := t.tx.nonce]);
        assert Anchors(offers, nonces)[1..] == tail;
      } else {
        AnchorsAreChained(offers[1..], nonces);
      }
    }
  }

  predicate IsAt(o: Offer, sender: Address, nonce: int) {
    o.t.sender == sender && o.t.tx.nonce == nonce
  }

  /** Above a sender's last nonce no nonce up to an anchor is left out. */
  lemma {:induction false} FilledAboveLast(a: seq<Offer>, nonces: Nonces, q: nat, nonce: nat) returns (k: nat)
    requires Chained(a, nonces) && q < |a| && a[q].t.sender in nonces
    requires nonces[a[q].t.sender] < nonce <= a[q].t.tx.nonce
    ensures k <= q && IsAt(a[k], a[q].t.sender, nonce)
    decreases |a|
  {
    var t := a[0].t;
    if t.sender == a[q].t.sender && t.tx.nonce == nonce {
      k := 0;
    } else {
      var rest := FilledAboveLast(a[1..], nonces[t.sender := t.tx.nonce], q - 1, nonce);
      k := rest + 1;
    }
  }

  lemma {:induction false} AboveLastNonce(a: seq<Offer>, nonces: Nonces, q: nat)
    requires Chained(a, nonces) && q < |a| && a[q].t.sender in nonces
    ensures a[q].t.tx.nonce > nonces[a[q].t.sender]
    decreases |a|
  {
    if q > 0 { AboveLastNonce(a[1..], nonces[a[0].t.sender := a[0].t.tx.nonce], q - 1); }
  }

  /** A sender's anchors rise, and every nonce between two of them is an anchor that
      lies between the two. */
  lemma {:induction false} AnchorsRise(a: seq<Offer>, nonces: Nonces, p: nat, q: nat)
    requires Chained(a, nonces) && p < q < |a| && a[p].t.sender == a[q].t.sender
    ensures a[p].t.tx.nonce < a[q].t.tx.nonce
    decreases |a|
  {
    var nonces' := nonces[a[0].t.sender := a[0].t.tx.nonce];
    if p == 0 { AboveLastNonce(a[1..], nonces', q - 1); } else { AnchorsRise(a[1..], nonces', p - 1, q - 1); }
  }

  lemma {:induction false} AnchorsHaveNoGap(a: seq<Offer>, nonces: Nonces, p: nat, q: nat, nonce: nat)
    returns (k: nat)
    requires Chained(a, nonces) && p < q < |a| && a[p].t.sender == a[q].t.sender
    requires a[p].t.tx.nonce < nonce < a[q].t.tx.nonce
    ensures p < k < q && IsAt(a[k], a[q].t.sender, nonce)
    decreases |a|
  {
    var nonces' := nonces[a[0].t.sender := a[0].t.tx.nonce];
    var rest;
    if p == 0 {
      rest := FilledAboveLast(a[1..], nonces', q - 1, nonce);
    } else {
      rest := AnchorsHaveNoGap(a[1..], nonces', p - 1, q - 1, nonce);
    }
    k := rest + 1;
  }

  /** Two neighbouring anchors of a sender have consecutive nonces. */
  lemma NeighboursConsecutive(offers: seq<Offer>, nonces: Nonces, p: nat, q: nat)
    requires var a := Anchors(offers, nonces);
      && p < q < |a| && a[p].t.sender == a[q].t.sender
      && forall k :: p < k < q ==> a[k].t.sender != a[q].t.sender
    ensures var a := Anchors(offers, nonces); a[q].t.tx.nonce == a[p].t.tx.nonce + 1
  {
    var a := Anchors(offers, nonces);
    AnchorsAreChained(offers, nonces);
    AnchorsRise(a, nonces, p, q);
    if a[q].t.tx.nonce > a[p].t.tx.nonce + 1 {
      var k := AnchorsHaveNoGap(a, nonces, p, q, a[p].t.tx.nonce + 1);
    }
  }

  /** A sender's last nonce after a pass is that of its last anchor, or the one given. */
  lemma {:induction false} LastNonceOf(offers: seq<Offer>, nonces: Nonces, s: Address) returns (k: int)
    ensures var a, last := Anchors(offers, nonces), LastNonces(offers, nonces);
      && -1 <= k < |a| && (forall m :: k < m < |a| ==> a[m].t.sender != s)
      && (k >= 0 ==> a[k].t.sender == s && s in last && last[s] == a[k].t.tx.nonce)
      && (k < 0 ==> (s in last <==> s in nonces) && (s in nonces ==> last[s] == nonces[s]))
  {
    if offers == [] {
      k := -1;
    } else {
      var t := offers[0].t;
      k := LastNonceOf(offers[1..], WithAnchor(nonces, t), s);
      if InOrder(nonces, t) {
        assert Anchors(offers, nonces) == [offers[0]] + Anchors(offers[1..], WithAnchor(nonces, t));
        k := if k < 0 && t.sender != s then -1 else k + 1;
      }
    }
  }

  /** An item is in order exactly when its sender has no anchor yet or its nonce is one
      above that of the sender's last anchor. */
  lemma AnchoredIff(offers: seq<Offer>, o: Offer)
    ensures var a := Anchors(offers, map[]);
      Anchors(offers + [o], map[]) == a +
        if || (forall k :: 0 <= k < |a| ==> a[k].t.sender != o.t.sender)
           || (exists k :: && 0 <= k < |a| && IsAt(a[k], o.t.sender, o.t.tx.nonce - 1)
                           && forall m :: k < m < |a| ==> a[m].t.sender != o.t.sender)
        then [o] else []
  {
    PassesJoin(offers, [o], map[]);
    var a := Anchors(offers, map[]);
    var last := LastNonces(offers, map[]);
    var k := LastNonceOf(offers, map[], o.t.sender);
    assert Anchors([o], last) == if InOrder(last, o.t) then [o] else [];
    if k >= 0 && a[k].t.tx.nonce + 1 == o.t.tx.nonce {
      assert IsAt(a[k], o.t.sender, o.t.tx.nonce - 1);
    }
  }

  // ---------------------------------------------------------------- yields

  /** Anchor `p` is the yield at index `i`. */
  ghost predicate YieldsAt(a: seq<Offer>, p: nat, i: nat) {
    && p < |a| && a[p].accepted
    && |Accepted(a[..p])| == i < |Accepted(a)| && Accepted(a)[i] == a[p].t
  }

  lemma AcceptedIsYielded(a: seq<Offer>, p: nat)
    requires p < |a| && a[p].accepted
    ensures YieldsAt(a, p, |Accepted(a[..p])|)
  {
    assert a == a[..p] + a[p..];
    AcceptedJoin(a[..p], a[p..]);
  }

  lemma {:induction false} YieldIsAnchor(a: seq<Offer>, i: nat) returns (p: nat)
    requires i < |Accepted(a)|
    ensures YieldsAt(a, p, i)
  {
    var n := |a| - 1;
    assert a == a[..n] + [a[n]];
    AcceptedJoin(a[..n], [a[n]]);
    if i < |Accepted(a[..n])| {
      p := YieldIsAnchor(a[..n], i);
      assert a[..n][..p] == a[..p];
      AcceptedIsYielded(a, p);
    } else {
      p := n;
    }
  }

  /** Yields keep the order of the anchors. */
  lemma YieldOrder(a: seq<Offer>, p: nat, q: nat)
    requires p < q < |a| && a[p].accepted
    ensures |Accepted(a[..p])| < |Accepted(a[..q])|
  {
    var b := a[..q];
    assert b == b[..p] + b[p..] && b[..p] == a[..p];
    AcceptedJoin(b[..p], b[p..]);
  }

  /** A nonce strictly between two yields of a sender is an anchor strictly between
      them: it was yielded between them, or its filter was asked and rejected it. */
  lemma MissingNonceRejected(offers: seq<Offer>, nonces: Nonces, i: nat, j: nat, nonce: nat)
    returns (p: nat, k: nat, q: nat)
    requires var ts := Accepted(Anchors(offers, nonces));
      && i < j < |ts| && ts[i].sender == ts[j].sender && ts[i].tx.nonce < nonce < ts[j].tx.nonce
    ensures var a := Anchors(offers, nonces);
      && p < k < q && YieldsAt(a, p, i) && YieldsAt(a, q, j)
      && IsAt(a[k], a[q].t.sender, nonce)
      && (a[k].accepted ==>
            exists m :: i < m < j && YieldsAt(a, k, m))
  {
    var a := Anchors(offers, nonces);
    AnchorsAreChained(offers, nonces);
    p := YieldIsAnchor(a, i);
    q := YieldIsAnchor(a, j);
    if q < p { YieldOrder(a, q, p); }
    k := AnchorsHaveNoGap(a, nonces, p, q, nonce);
    if a[k].accepted {
      AcceptedIsYielded(a, k);
      YieldOrder(a, p, k);
      YieldOrder(a, k, q);
    }
  }

  /** The nonces yielded for a sender strictly rise. */
  lemma NoncesRise(offers: seq<Offer>, nonces: Nonces, i: nat, j: nat)
    requires var ts := Accepted(Anchors(offers, nonces)); i < j < |ts| && ts[i].sender == ts[j].sender
    ensures var ts := Accepted(Anchors(offers, nonces)); ts[i].tx.nonce < ts[j].tx.nonce
  {
    var a := Anchors(offers, nonces);
    AnchorsAreChained(offers, nonces);
    var p := YieldIsAnchor(a, i);
    var q := YieldIsAnchor(a, j);
    if q < p { YieldOrder(a, q, p); }
    AnchorsRise(a, nonces, p, q);
  }
}
