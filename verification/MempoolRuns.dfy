/** Successive selections on one mempool: which calls share an iterator, what their
    batches are when joined, and when items are thrown away. */
module MempoolRuns {
  import opened Wrappers
  import opened Transactions
  import opened Mempool

  /** One call with its own filter, budgets and clock; `pool` is what an iterator
      created by this call would yield. */
  datatype Call = Call(f: Filter, limit: nat, maxBytes: nat, times: Times, pool: seq<PoolTxn>)

  function Before(b: CachedBest, call: Call, ttl: nat): (r: CachedBest)
    ensures r.best.Some?
  {
    Refreshed(b, call.times, ttl, call.pool)
  }

  function PullFrom(c: Codec, b: CachedBest, call: Call): Pull
    requires b.best.Some?
  {
    Drain(c, call.f, call.limit, call.maxBytes, b.best.value, b.lastNonces)
  }

  /** The cached iterator after a run of calls. */
  function RunCalls(c: Codec, ttl: nat, calls: seq<Call>): CachedBest {
    if |calls| == 0 then NO_ITERATOR
    else
      var n := |calls| - 1;
      var b := Before(RunCalls(c, ttl, calls[..n]), calls[n], ttl);
      AfterBatch(b, PullFrom(c, b, calls[n]), calls[n].times)
  }

  /** The iterator that call `k` pulls from, and what it pulls. */
  function Held(c: Codec, ttl: nat, calls: seq<Call>, k: nat): (b: CachedBest)
    requires k < |calls|
    ensures b.best.Some?
  {
    Before(RunCalls(c, ttl, calls[..k]), calls[k], ttl)
  }

  function PullAt(c: Codec, ttl: nat, calls: seq<Call>, k: nat): Pull
    requires k < |calls|
  {
    PullFrom(c, Held(c, ttl, calls, k), calls[k])
  }

  predicate RefreshesAt(c: Codec, ttl: nat, calls: seq<Call>, k: nat)
    requires k < |calls|
  {
    Refreshes(RunCalls(c, ttl, calls[..k]), calls[k].times.asked, ttl)
  }

  /** Calls `i` to `j` pull from one iterator, which call `i` created. */
  ghost predicate OneIterator(c: Codec, ttl: nat, calls: seq<Call>, i: nat, j: nat) {
    && i < j <= |calls| && RefreshesAt(c, ttl, calls, i)
    && forall k :: i < k < j ==> !RefreshesAt(c, ttl, calls, k)
  }

  /** The batches of calls `i` to `j`, joined. */
  function Joined(c: Codec, ttl: nat, calls: seq<Call>, i: nat, j: nat): seq<PoolTxn>
    requires i <= j <= |calls|
  {
    if i == j then [] else Joined(c, ttl, calls, i, j - 1) + PullAt(c, ttl, calls, j - 1).taken
  }

  /** The items call `k` pulls, selected or not. */
  function ConsumedAt(c: Codec, ttl: nat, calls: seq<Call>, k: nat): seq<PoolTxn>
    requires k < |calls|
  {
    Consumed(Held(c, ttl, calls, k).best.value, PullAt(c, ttl, calls, k))
  }

  function ConsumedBy(c: Codec, ttl: nat, calls: seq<Call>, i: nat, j: nat): seq<PoolTxn>
    requires i <= j <= |calls|
  {
    if i == j then [] else ConsumedBy(c, ttl, calls, i, j - 1) + ConsumedAt(c, ttl, calls, j - 1)
  }

  /** The same items, each with the answer of its own call's filter. */
  function OffersBy(c: Codec, ttl: nat, calls: seq<Call>, i: nat, j: nat): seq<Offer>
    requires i <= j <= |calls|
  {
    if i == j then []
    else OffersBy(c, ttl, calls, i, j - 1) + Offered(c, ConsumedAt(c, ttl, calls, j - 1), calls[j - 1].f)
  }

  lemma CallStep(c: Codec, ttl: nat, calls: seq<Call>, k: nat)
    requires k < |calls|
    ensures RunCalls(c, ttl, calls[..k + 1])
         == AfterBatch(Held(c, ttl, calls, k), PullAt(c, ttl, calls, k), calls[k].times)
  {
    assert calls[..k + 1][..k] == calls[..k];
  }

  /** The batches carry what the calls of the run pull. */
  ghost predicate Serves(c: Codec, ttl: nat, calls: seq<Call>, batches: seq<seq<VerifiedTxn>>) {
    |batches| <= |calls| && forall k :: 0 <= k < |batches| ==> Carries(c, batches[k], PullAt(c, ttl, calls, k).taken)
  }

  method ServeOne(m: Mempool, ttl: nat, calls: seq<Call>, k: nat) returns (batch: seq<VerifiedTxn>)
    requires k < |calls| && m.cachedBest == RunCalls(m.codec, ttl, calls[..k])
    modifies m
    ensures m.cachedBest == RunCalls(m.codec, ttl, calls[..k + 1])
    ensures Carries(m.codec, batch, PullAt(m.codec, ttl, calls, k).taken)
  {
    CallStep(m.codec, ttl, calls, k);
    var call := calls[k];
    batch := m.BestTxns(call.f, call.limit, call.maxBytes, call.times, ttl, call.pool);
  }

  /** The calls, made one after the other on a mempool, leave and return what the run
      says. */
  method Serve(m: Mempool, ttl: nat, calls: seq<Call>) returns (batches: seq<seq<VerifiedTxn>>)
    requires m.cachedBest == NO_ITERATOR
    modifies m
    ensures m.cachedBest == RunCalls(m.codec, ttl, calls)
    ensures |batches| == |calls| && Serves(m.codec, ttl, calls, batches)
  {
    batches := [];
    for i := 0 to |calls|
      invariant m.cachedBest == RunCalls(m.codec, ttl, calls[..i])
      invariant |batches| == i && Serves(m.codec, ttl, calls, batches)
    {
      var batch := ServeOne(m, ttl, calls, i);
      batches := batches + [batch];
    }
    assert calls[..|calls|] == calls;
  }

  // ---------------------------------------------------------------- one stretch

  /** A later call of a stretch starts from what the call before it left. */
  lemma HeldNext(c: Codec, ttl: nat, calls: seq<Call>, k: nat)
    requires k + 1 < |calls| && !RefreshesAt(c, ttl, calls, k + 1)
    ensures var b, p := Held(c, ttl, calls, k), PullAt(c, ttl, calls, k);
      p.taken != [] && Held(c, ttl, calls, k + 1) == CachedBest(Some(p.rest), b.createdAt, p.nonces)
  {
    CallStep(c, ttl, calls, k);
  }

  /** The iterator of a stretch keeps the time stamp of the call that created it. */
  lemma {:induction false} StretchAge(c: Codec, ttl: nat, calls: seq<Call>, i: nat, j: nat)
    requires OneIterator(c, ttl, calls, i, j)
    ensures Held(c, ttl, calls, j - 1).createdAt == calls[i].times.created
    decreases j
  {
    if j > i + 1 {
      StretchAge(c, ttl, calls, i, j - 1);
      HeldNext(c, ttl, calls, j - 2);
    }
  }

  /** The batches of calls `i` to `j`, joined, are one unbounded pass over the items
      consumed, each under the filter of its call, and those items with the ones left
      are what the iterator yields. */
  ghost predicate OnePass(c: Codec, ttl: nat, calls: seq<Call>, i: nat, j: nat)
    requires i < j <= |calls|
  {
    var offers, p := OffersBy(c, ttl, calls, i, j), PullAt(c, ttl, calls, j - 1);
    && ConsumedBy(c, ttl, calls, i, j) + p.rest == calls[i].pool
    && Joined(c, ttl, calls, i, j) == Accepted(Anchors(offers, map[]))
    && p.nonces == LastNonces(offers, map[])
  }

  /** Splitting loses nothing: every stretch is one pass. */
  lemma {:induction false} StretchIsOnePass(c: Codec, ttl: nat, calls: seq<Call>, i: nat, j: nat)
    requires OneIterator(c, ttl, calls, i, j)
    ensures OnePass(c, ttl, calls, i, j)
    decreases j
  {
    if j == i + 1 {
      FirstBatch(c, ttl, calls, i);
    } else {
      StretchIsOnePass(c, ttl, calls, i, j - 1);
      HeldNext(c, ttl, calls, j - 2);
      JoinOne(c, ttl, calls, i, j);
    }
  }

  lemma BatchIsPass(c: Codec, ttl: nat, calls: seq<Call>, k: nat)
    requires k < |calls|
    ensures var b, p := Held(c, ttl, calls, k), PullAt(c, ttl, calls, k);
      var offers := Offered(c, ConsumedAt(c, ttl, calls, k), calls[k].f);
      && b.best.value == ConsumedAt(c, ttl, calls, k) + p.rest
      && p.taken == Accepted(Anchors(offers, b.lastNonces)) && p.nonces == LastNonces(offers, b.lastNonces)
  {
    var b, call := Held(c, ttl, calls, k), calls[k];
    DrainIsPass(c, call.f, call.limit, call.maxBytes, b.best.value, b.lastNonces);
  }

  lemma FirstBatch(c: Codec, ttl: nat, calls: seq<Call>, i: nat)
    requires i < |calls| && RefreshesAt(c, ttl, calls, i)
    ensures OnePass(c, ttl, calls, i, i + 1)
  {
    BatchIsPass(c, ttl, calls, i);
    assert OffersBy(c, ttl, calls, i, i + 1) == Offered(c, ConsumedAt(c, ttl, calls, i), calls[i].f);
    assert Joined(c, ttl, calls, i, i + 1) == PullAt(c, ttl, calls, i).taken;
    assert ConsumedBy(c, ttl, calls, i, i + 1) == ConsumedAt(c, ttl, calls, i);
  }

  /** One more batch, given that it starts from what the stretch has left. */
  lemma JoinOne(c: Codec, ttl: nat, calls: seq<Call>, i: nat, j: nat)
    requires i < j - 1 < j <= |calls| && OnePass(c, ttl, calls, i, j - 1)
    requires Held(c, ttl, calls, j - 1).best.value == PullAt(c, ttl, calls, j - 2).rest
    requires Held(c, ttl, calls, j - 1).lastNonces == PullAt(c, ttl, calls, j - 2).nonces
    ensures OnePass(c, ttl, calls, i, j)
  {
    var n := j - 1;
    BatchIsPass(c, ttl, calls, n);
    var offers, more := OffersBy(c, ttl, calls, i, n), Offered(c, ConsumedAt(c, ttl, calls, n), calls[n].f);
    PassesJoin(offers, more, map[]);
    AcceptedJoin(Anchors(offers, map[]), Anchors(more, LastNonces(offers, map[])));
    var done, now, rest := ConsumedBy(c, ttl, calls, i, n), ConsumedAt(c, ttl, calls, n), PullAt(c, ttl, calls, n).rest;
    assert (done + now) + rest == done + (now + rest);
  }

  /** A stretch ends exactly on expiry or on an empty batch. */
  lemma StretchEndsIff(c: Codec, ttl: nat, calls: seq<Call>, i: nat, j: nat)
    requires OneIterator(c, ttl, calls, i, j) && j < |calls|
    ensures RefreshesAt(c, ttl, calls, j)
       <==> calls[j].times.asked > calls[i].times.created + ttl || PullAt(c, ttl, calls, j - 1).taken == []
  {
    StretchAge(c, ttl, calls, i, j);
    CallStep(c, ttl, calls, j - 1);
  }

  // ---------------------------------------------------------------- what is thrown away

  /** When an empty batch ends a stretch, the whole of what the iterator yields has been
      offered, unless that last call had a zero budget while items were left. */
  lemma WholePoolIff(c: Codec, ttl: nat, calls: seq<Call>, i: nat, j: nat)
    requires OneIterator(c, ttl, calls, i, j) && PullAt(c, ttl, calls, j - 1).taken == []
    ensures ConsumedBy(c, ttl, calls, i, j) == calls[i].pool
       <==> Held(c, ttl, calls, j - 1).best.value == [] || (calls[j - 1].limit > 0 && calls[j - 1].maxBytes > 0)
  {
    StretchIsOnePass(c, ttl, calls, i, j);
    var b, call := Held(c, ttl, calls, j - 1), calls[j - 1];
    EmptyBatchMeansDry(c, call.f, call.limit, call.maxBytes, b.best.value, b.lastNonces);
    var p := PullAt(c, ttl, calls, j - 1);
    if p.rest == [] {
      assert ConsumedBy(c, ttl, calls, i, j) + p.rest == ConsumedBy(c, ttl, calls, i, j);
    } else {
      assert |ConsumedBy(c, ttl, calls, i, j)| < |calls[i].pool|;
    }
  }

  /** With positive budgets and no expiry, a call starts a new iterator only after the
      joined batches have become one pass over everything the old one yields. */
  lemma PositiveBudgetsLoseNothing(c: Codec, ttl: nat, calls: seq<Call>, i: nat, j: nat)
    requires OneIterator(c, ttl, calls, i, j) && j < |calls| && RefreshesAt(c, ttl, calls, j)
    requires calls[j].times.asked <= calls[i].times.created + ttl
    requires forall k :: i <= k < j ==> calls[k].limit > 0 && calls[k].maxBytes > 0
    ensures ConsumedBy(c, ttl, calls, i, j) == calls[i].pool
    ensures Joined(c, ttl, calls, i, j) == Accepted(Anchors(OffersBy(c, ttl, calls, i, j), map[]))
  {
    StretchEndsIff(c, ttl, calls, i, j);
    WholePoolIff(c, ttl, calls, i, j);
    StretchIsOnePass(c, ttl, calls, i, j);
  }

  /** Every iterator dropped on an empty batch has offered all it yields. */
  ghost predicate LosesNothing(c: Codec, ttl: nat, calls: seq<Call>) {
    forall i: nat, j: nat :: OneIterator(c, ttl, calls, i, j) && PullAt(c, ttl, calls, j - 1).taken == []
      ==> ConsumedBy(c, ttl, calls, i, j) == calls[i].pool
  }

  datatype Budget = Budget(limit: nat, maxBytes: nat)

  ghost predicate Spends(calls: seq<Call>, budgets: seq<Budget>) {
    |calls| == |budgets| && forall k :: 0 <= k < |calls| ==> Budget(calls[k].limit, calls[k].maxBytes) == budgets[k]
  }

  predicate AllPositive(budgets: seq<Budget>) {
    forall k :: 0 <= k < |budgets| ==> budgets[k].limit > 0 && budgets[k].maxBytes > 0
  }

  /** The exact condition on the budgets: whatever the pools, filters and clocks, no run
      of calls with these budgets drops an unfinished iterator on an empty batch, if and
      only if every budget is positive. */
  lemma LosesNothingIff(c: Codec, ttl: nat, budgets: seq<Budget>)
    ensures (forall calls :: Spends(calls, budgets) ==> LosesNothing(c, ttl, calls)) <==> AllPositive(budgets)
  {
    if AllPositive(budgets) {
      forall calls | Spends(calls, budgets)
        ensures LosesNothing(c, ttl, calls)
      {
        PositiveLosesNothing(c, ttl, calls, budgets);
      }
    } else {
      var k :| 0 <= k < |budgets| && (budgets[k].limit == 0 || budgets[k].maxBytes == 0);
      var calls := Expiring(budgets, ttl);
      ExpiringLoses(c, ttl, budgets, k);
      assert Spends(calls, budgets) && !LosesNothing(c, ttl, calls);
    }
  }

  lemma PositiveLosesNothing(c: Codec, ttl: nat, calls: seq<Call>, budgets: seq<Budget>)
    requires Spends(calls, budgets) && AllPositive(budgets)
    ensures LosesNothing(c, ttl, calls)
  {
    forall i: nat, j: nat | OneIterator(c, ttl, calls, i, j) && PullAt(c, ttl, calls, j - 1).taken == []
      ensures ConsumedBy(c, ttl, calls, i, j) == calls[i].pool
    {
      WholePoolIff(c, ttl, calls, i, j);
      assert Budget(calls[j - 1].limit, calls[j - 1].maxBytes) == budgets[j - 1];
    }
  }

  /** Calls so far apart that each creates its own iterator, over a pool of one. */
  ghost function Expiring(budgets: seq<Budget>, ttl: nat): seq<Call> {
    seq(|budgets|, k requires 0 <= k < |budgets| =>
      Call(None, budgets[k].limit, budgets[k].maxBytes, Times(ttl + 1, 0, _ => 0, 0),
           [PoolTxn(Address(0), Transaction(0, []))]))
  }

  lemma {:induction false} ExpiringAge(c: Codec, ttl: nat, budgets: seq<Budget>, k: nat)
    requires k <= |budgets|
    ensures RunCalls(c, ttl, Expiring(budgets, ttl)[..k]).createdAt == 0
  {
    if k > 0 {
      ExpiringAge(c, ttl, budgets, k - 1);
      CallStep(c, ttl, Expiring(budgets, ttl), k - 1);
    }
  }

  lemma ExpiringLoses(c: Codec, ttl: nat, budgets: seq<Budget>, k: nat)
    requires k < |budgets| && (budgets[k].limit == 0 || budgets[k].maxBytes == 0)
    ensures !LosesNothing(c, ttl, Expiring(budgets, ttl))
  {
    var calls := Expiring(budgets, ttl);
    ExpiringAge(c, ttl, budgets, k);
    assert OneIterator(c, ttl, calls, k, k + 1);
    assert PullAt(c, ttl, calls, k + 1 - 1).taken == [];
    WholePoolIff(c, ttl, calls, k, k + 1);
  }

  /** With a single filter the offers are the consumed items under that filter. */
  lemma {:induction false} OneFilter(c: Codec, ttl: nat, calls: seq<Call>, i: nat, j: nat, f: Filter)
    requires i <= j <= |calls| && forall k :: i <= k < j ==> calls[k].f == f
    ensures OffersBy(c, ttl, calls, i, j) == Offered(c, ConsumedBy(c, ttl, calls, i, j), f)
    decreases j
  {
    if i < j {
      OneFilter(c, ttl, calls, i, j - 1, f);
      OfferedJoin(c, ConsumedBy(c, ttl, calls, i, j - 1), ConsumedAt(c, ttl, calls, j - 1), f);
    }
  }

  lemma OfferedJoin(c: Codec, xs: seq<PoolTxn>, ys: seq<PoolTxn>, f: Filter)
    ensures Offered(c, xs + ys, f) == Offered(c, xs, f) + Offered(c, ys, f)
  {
  }

  /** Any two ways to split the same consumed items under one filter yield the same. */
  lemma BudgetsIrrelevant(
    c: Codec, ttl: nat, calls: seq<Call>, i: nat, j: nat, calls': seq<Call>, i': nat, j': nat, f: Filter)
    requires OneIterator(c, ttl, calls, i, j) && OneIterator(c, ttl, calls', i', j')
    requires forall k :: i <= k < j ==> calls[k].f == f
    requires forall k :: i' <= k < j' ==> calls'[k].f == f
    requires ConsumedBy(c, ttl, calls, i, j) == ConsumedBy(c, ttl, calls', i', j')
    ensures Joined(c, ttl, calls, i, j) == Joined(c, ttl, calls', i', j')
  {
    StretchIsOnePass(c, ttl, calls, i, j);
    StretchIsOnePass(c, ttl, calls', i', j');
    OneFilter(c, ttl, calls, i, j, f);
    OneFilter(c, ttl, calls', i', j', f);
  }

  /** A zero budget between two calls loses an item: on a pool of two transactions the
      calls return the first, nothing, and the first again. */
  lemma ZeroBudgetRestarts(c: Codec, ttl: nat, times: Times, t: PoolTxn, u: PoolTxn)
    requires times.asked <= times.created + ttl
    ensures var calls := [Call(None, 1, 1, times, [t, u]), Call(None, 0, 1, times, [t, u]),
                          Call(None, 1, 1, times, [t, u])];
      && PullAt(c, ttl, calls, 0).taken == [t]
      && PullAt(c, ttl, calls, 1).taken == [] && PullAt(c, ttl, calls, 1).rest == [u]
      && PullAt(c, ttl, calls, 2).taken == [t]
  {
    var one, none := Call(None, 1, 1, times, [t, u]), Call(None, 0, 1, times, [t, u]);
    var calls := [one, none, one];
    OneOfTwo(c, ttl, calls, 0, times, t, u);
    CallStep(c, ttl, calls, 0);
    CallStep(c, ttl, calls, 1);
    OneOfTwo(c, ttl, calls, 2, times, t, u);
  }

  lemma OneOfTwo(c: Codec, ttl: nat, calls: seq<Call>, k: nat, times: Times, t: PoolTxn, u: PoolTxn)
    requires k < |calls| && calls[k] == Call(None, 1, 1, times, [t, u]) && RunCalls(c, ttl, calls[..k]).best.None?
    ensures var p := PullAt(c, ttl, calls, k);
      p.taken == [t] && p.rest == [u] && Held(c, ttl, calls, k).createdAt == times.created
  {
    assert [t, u][1..] == [u];
    assert Drain(c, None, 1, 1, [t, u], map[]).taken == [t];
  }

  // ---------------------------------------------------------------- nonces across calls

  /** Every offer of a stretch was pulled by one of its calls, under that call's filter. */
  lemma {:induction false} OfferedByCall(c: Codec, ttl: nat, calls: seq<Call>, i: nat, j: nat, o: Offer)
    returns (m: nat)
    requires i <= j <= |calls| && o in OffersBy(c, ttl, calls, i, j)
    ensures i <= m < j && o.accepted == Accepts(c, calls[m].f, o.t) && o.t in ConsumedAt(c, ttl, calls, m)
    decreases j
  {
    if o in OffersBy(c, ttl, calls, i, j - 1) {
      m := OfferedByCall(c, ttl, calls, i, j - 1, o);
    } else {
      m := j - 1;
    }
  }

  lemma {:induction false} AnchorWasOffered(offers: seq<Offer>, nonces: Nonces, k: nat)
    requires k < |Anchors(offers, nonces)|
    ensures Anchors(offers, nonces)[k] in offers
    decreases |offers|
  {
    var t := offers[0].t;
    if !InOrder(nonces, t) {
      AnchorWasOffered(offers[1..], nonces, k);
    } else if k > 0 {
      AnchorWasOffered(offers[1..], nonces[t.sender := t.tx.nonce], k - 1);
    }
  }

  /** Across the calls of a stretch, each with its own filter, a nonce missing between
      two yields of a sender is an anchor between them that the filter of the call
      that pulled it rejected. */
  lemma GapsWereRejected(c: Codec, ttl: nat, calls: seq<Call>, i: nat, j: nat, x: nat, y: nat, nonce: nat)
    returns (p: nat, k: nat, q: nat, m: nat)
    requires OneIterator(c, ttl, calls, i, j)
    requires var ts := Joined(c, ttl, calls, i, j);
      && x < y < |ts| && ts[x].sender == ts[y].sender && ts[x].tx.nonce < nonce < ts[y].tx.nonce
      && forall z :: x < z < y && ts[z].sender == ts[y].sender ==> ts[z].tx.nonce != nonce
    ensures var a := Anchors(OffersBy(c, ttl, calls, i, j), map[]);
      && p < k < q && YieldsAt(a, p, x) && YieldsAt(a, q, y)
      && IsAt(a[k], a[q].t.sender, nonce)
      && i <= m < j && a[k].t in ConsumedAt(c, ttl, calls, m) && !Accepts(c, calls[m].f, a[k].t)
  {
    var offers := OffersBy(c, ttl, calls, i, j);
    StretchIsOnePass(c, ttl, calls, i, j);
    p, k, q := MissingNonceRejected(offers, map[], x, y, nonce);
    AnchorWasOffered(offers, map[], k);
    m := OfferedByCall(c, ttl, calls, i, j, Anchors(offers, map[])[k]);
  }

  /** Across the calls of a stretch a sender's yielded nonces strictly rise. */
  lemma StretchNoncesRise(c: Codec, ttl: nat, calls: seq<Call>, i: nat, j: nat, x: nat, y: nat)
    requires OneIterator(c, ttl, calls, i, j)
    requires var ts := Joined(c, ttl, calls, i, j); x < y < |ts| && ts[x].sender == ts[y].sender
    ensures Joined(c, ttl, calls, i, j)[x].tx.nonce < Joined(c, ttl, calls, i, j)[y].tx.nonce
  {
    StretchIsOnePass(c, ttl, calls, i, j);
    NoncesRise(OffersBy(c, ttl, calls, i, j), map[], x, y);
  }

  // ---------------------------------------------------------------- the batches returned

  /** Batches `i` to `j`, one after the other. */
  function Flat(batches: seq<seq<VerifiedTxn>>, i: nat, j: nat): seq<VerifiedTxn>
    requires i <= j <= |batches|
  {
    if i == j then [] else Flat(batches, i, j - 1) + batches[j - 1]
  }

  lemma {:induction false} FlatCarries(
    c: Codec, ttl: nat, calls: seq<Call>, batches: seq<seq<VerifiedTxn>>, i: nat, j: nat)
    requires Serves(c, ttl, calls, batches) && i <= j <= |batches|
    ensures Carries(c, Flat(batches, i, j), Joined(c, ttl, calls, i, j))
    decreases j
  {
    if i < j { FlatCarries(c, ttl, calls, batches, i, j - 1); }
  }

  /** In what the calls of a stretch return, a sender's nonces strictly rise. */
  lemma ReturnedNoncesRise(
    c: Codec, ttl: nat, calls: seq<Call>, batches: seq<seq<VerifiedTxn>>, i: nat, j: nat, x: nat, y: nat)
    requires Serves(c, ttl, calls, batches) && j <= |batches| && OneIterator(c, ttl, calls, i, j)
    requires var r := Flat(batches, i, j); x < y < |r| && r[x].sender == r[y].sender
    ensures Flat(batches, i, j)[x].nonce < Flat(batches, i, j)[y].nonce
  {
    FlatCarries(c, ttl, calls, batches, i, j);
    StretchNoncesRise(c, ttl, calls, i, j, x, y);
  }

  /** A nonce missing between two returned transactions of a sender was pulled by one of
      the calls, whose filter was asked about it and refused it. */
  lemma ReturnedGapsRejected(
    c: Codec, ttl: nat, calls: seq<Call>, batches: seq<seq<VerifiedTxn>>, i: nat, j: nat,
    x: nat, y: nat, nonce: nat)
    returns (m: nat, t: PoolTxn)
    requires Serves(c, ttl, calls, batches) && j <= |batches| && OneIterator(c, ttl, calls, i, j)
    requires var r := Flat(batches, i, j);
      && x < y < |r| && r[x].sender == r[y].sender && r[x].nonce < nonce < r[y].nonce
      && forall z :: x < z < y && r[z].sender == r[y].sender ==> r[z].nonce != nonce
    ensures i <= m < j && t in ConsumedAt(c, ttl, calls, m)
    ensures t.sender == Flat(batches, i, j)[y].sender && t.tx.nonce == nonce
    ensures calls[m].f.Some? && !calls[m].f.value(t.sender, t.tx.nonce, c.hash(c.encode(t.tx)))
  {
    FlatCarries(c, ttl, calls, batches, i, j);
    var p, k, q;
    p, k, q, m := GapsWereRejected(c, ttl, calls, i, j, x, y, nonce);
    StretchIsOnePass(c, ttl, calls, i, j);
    t := Anchors(OffersBy(c, ttl, calls, i, j), map[])[k].t;
  }

  /** What a batch takes was pulled by the call and let through by its filter. */
  lemma TakenIsAccepted(c: Codec, ttl: nat, calls: seq<Call>, k: nat, x: nat)
    requires k < |calls| && x < |PullAt(c, ttl, calls, k).taken|
    ensures var t := PullAt(c, ttl, calls, k).taken[x];
      t in ConsumedAt(c, ttl, calls, k) && Accepts(c, calls[k].f, t)
  {
    BatchIsPass(c, ttl, calls, k);
    var b := Held(c, ttl, calls, k);
    var offers := Offered(c, ConsumedAt(c, ttl, calls, k), calls[k].f);
    var p := YieldIsAnchor(Anchors(offers, b.lastNonces), x);
    AnchorWasOffered(offers, b.lastNonces, p);
  }

  /** Every returned transaction passed the filter of its call. */
  lemma ReturnedPassedFilter(
    c: Codec, ttl: nat, calls: seq<Call>, batches: seq<seq<VerifiedTxn>>, k: nat, x: nat)
    requires Serves(c, ttl, calls, batches) && k < |batches| && x < |batches[k]| && calls[k].f.Some?
    ensures var r := batches[k][x]; calls[k].f.value(r.sender, r.nonce, c.hash(r.bytes))
  {
    TakenIsAccepted(c, ttl, calls, k, x);
  }

  lemma {:induction false} HeldFromPools(c: Codec, ttl: nat, calls: seq<Call>, k: nat, t: PoolTxn)
    requires k < |calls| && t in Held(c, ttl, calls, k).best.value
    ensures exists m :: 0 <= m <= k && t in calls[m].pool
  {
    if !RefreshesAt(c, ttl, calls, k) && k > 0 {
      HeldNext(c, ttl, calls, k - 1);
      BatchIsPass(c, ttl, calls, k - 1);
      HeldFromPools(c, ttl, calls, k - 1, t);
    }
  }

  /** With a sound codec and a pool of genuine transactions, every returned transaction
      decodes to one with its nonce, from which its sender is recovered. */
  lemma ReturnedDecodes(
    c: Codec, ttl: nat, calls: seq<Call>, batches: seq<seq<VerifiedTxn>>, k: nat, x: nat)
    requires c.Sound() && Serves(c, ttl, calls, batches) && k < |batches| && x < |batches[k]|
    requires forall m, t :: 0 <= m < |calls| && t in calls[m].pool ==> Genuine(c, t)
    ensures var r := batches[k][x];
      var tx := c.decode(r.bytes);
      tx.Some? && tx.value.nonce == r.nonce && c.recover(tx.value) == Some(r.sender)
  {
    TakenIsAccepted(c, ttl, calls, k, x);
    BatchIsPass(c, ttl, calls, k);
    var t := PullAt(c, ttl, calls, k).taken[x];
    HeldFromPools(c, ttl, calls, k, t);
    var m :| 0 <= m <= k && t in calls[m].pool;
    assert Genuine(c, t);
    assert c.decode(c.encode(t.tx)) == Some(t.tx);
  }
}
