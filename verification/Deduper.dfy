/** Dropping repeated transactions before execution. The fast form hashes only the
    transactions whose (sender, sequence number) occurs more than once. */
module Deduper {
  import opened Wrappers

  datatype SignedTxn = SignedTxn(sender: nat, sequence: nat, body: nat, authenticator: nat) {
    function Slot(): (nat, nat) {
      (sender, sequence)
    }
  }

  type Hasher = SignedTxn -> nat

  /** What makes two transactions the same: hash and authenticator. */
  function Id(h: Hasher, t: SignedTxn): (nat, nat) {
    (h(t), t.authenticator)
  }

  // ---------------------------------------------------------------- reference

  predicate SeenBefore(h: Hasher, txns: seq<SignedTxn>, i: nat)
    requires i < |txns|
  {
    exists j :: 0 <= j < i && Id(h, txns[j]) == Id(h, txns[i])
  }

  /** Keep the first of each identity, in order. */
  function KeepFirst(h: Hasher, txns: seq<SignedTxn>, n: nat): seq<SignedTxn>
    requires n <= |txns|
  {
    if n == 0 then []
    else KeepFirst(h, txns, n - 1) + (if SeenBefore(h, txns, n - 1) then [] else [txns[n - 1]])
  }

  // ---------------------------------------------------------------- the fast form

  /** The slot of transaction `i` occurs again among the first `n`. */
  predicate Flagged(txns: seq<SignedTxn>, n: nat, i: nat)
    requires i < n <= |txns|
  {
    exists j :: 0 <= j < n && j != i && txns[j].Slot() == txns[i].Slot()
  }

  predicate FlaggedBefore(h: Hasher, txns: seq<SignedTxn>, i: nat)
    requires i < |txns|
  {
    exists j :: 0 <= j < i && Flagged(txns, |txns|, j) && Id(h, txns[j]) == Id(h, txns[i])
  }

  /** Keep everything except a flagged transaction whose identity an earlier flagged
      transaction had. */
  function KeepUnflagged(h: Hasher, txns: seq<SignedTxn>, n: nat): seq<SignedTxn>
    requires n <= |txns|
  {
    if n == 0 then []
    else
      KeepUnflagged(h, txns, n - 1) +
      (if Flagged(txns, |txns|, n - 1) && FlaggedBefore(h, txns, n - 1) then [] else [txns[n - 1]])
  }

  method Dedup(h: Hasher, txns: seq<SignedTxn>) returns (kept: seq<SignedTxn>)
    ensures kept == KeepUnflagged(h, txns, |txns|)
  {
    // 1. Mark possible duplicates.
    var possible, any := MarkPossibleDuplicates(txns);
    if !any {
      NothingFlagged(h, txns, |txns|);
      return txns;
    }
    // 2. Hash the marked ones.
    var ids := HashMarked(h, txns, possible);
    // 3. Drop those already seen.
    kept := DropSeen(h, txns, ids);
  }

  /** The identity of each flagged transaction; the others are not hashed. */
  ghost predicate IdsOf(h: Hasher, txns: seq<SignedTxn>, ids: seq<Option<(nat, nat)>>) {
    |ids| <= |txns| && forall j :: 0 <= j < |ids| ==>
      ids[j] == if Flagged(txns, |txns|, j) then Some(Id(h, txns[j])) else None
  }

  method HashMarked(h: Hasher, txns: seq<SignedTxn>, possible: array<bool>) returns (ids: seq<Option<(nat, nat)>>)
    requires possible.Length == |txns|
    requires forall i :: 0 <= i < |txns| ==> (possible[i] <==> Flagged(txns, |txns|, i))
    ensures |ids| == |txns| && IdsOf(h, txns, ids)
  {
    ids := [];
    for i := 0 to |txns|
      invariant |ids| == i && IdsOf(h, txns, ids)
    {
      ids := ids + [if possible[i] then Some(Id(h, txns[i])) else None];
    }
  }

  ghost function FlaggedIds(h: Hasher, txns: seq<SignedTxn>, n: nat): set<(nat, nat)>
    requires n <= |txns|
  {
    if n == 0 then {}
    else FlaggedIds(h, txns, n - 1) + (if Flagged(txns, |txns|, n - 1) then {Id(h, txns[n - 1])} else {})
  }

  lemma {:induction false} FlaggedIdsAre(h: Hasher, txns: seq<SignedTxn>, n: nat, id: (nat, nat))
    requires n <= |txns|
    ensures id in FlaggedIds(h, txns, n)
       <==> exists j :: 0 <= j < n && Flagged(txns, |txns|, j) && Id(h, txns[j]) == id
  {
    if n > 0 { FlaggedIdsAre(h, txns, n - 1, id); }
  }

  lemma DropStep(h: Hasher, txns: seq<SignedTxn>, i: nat)
    requires i < |txns|
    ensures KeepUnflagged(h, txns, i + 1) == KeepUnflagged(h, txns, i) +
      if Flagged(txns, |txns|, i) && Id(h, txns[i]) in FlaggedIds(h, txns, i) then [] else [txns[i]]
    ensures FlaggedIds(h, txns, i + 1) == FlaggedIds(h, txns, i) +
      if Flagged(txns, |txns|, i) then {Id(h, txns[i])} else {}
  {
    FlaggedIdsAre(h, txns, i, Id(h, txns[i]));
  }

  lemma IdAt(h: Hasher, txns: seq<SignedTxn>, ids: seq<Option<(nat, nat)>>, i: nat)
    requires IdsOf(h, txns, ids) && i < |ids|
    ensures ids[i] == if Flagged(txns, |txns|, i) then Some(Id(h, txns[i])) else None
  {
  }

  method DropSeen(h: Hasher, txns: seq<SignedTxn>, ids: seq<Option<(nat, nat)>>) returns (kept: seq<SignedTxn>)
    requires |ids| == |txns| && IdsOf(h, txns, ids)
    ensures kept == KeepUnflagged(h, txns, |txns|)
  {
    kept := [];
    var seenHashes: set<(nat, nat)> := {};
    for i := 0 to |txns|
      invariant kept == KeepUnflagged(h, txns, i)
      invariant seenHashes == FlaggedIds(h, txns, i)
    {
      DropStep(h, txns, i);
      IdAt(h, txns, ids, i);
      if ids[i].None? {
        kept := kept + [txns[i]];
      } else if ids[i].value !in seenHashes {
        seenHashes := seenHashes + {ids[i].value};
        kept := kept + [txns[i]];
      } else {
        assert seenHashes + {ids[i].value} == seenHashes && kept + [] == kept;
      }
    }
  }

  method MarkPossibleDuplicates(txns: seq<SignedTxn>) returns (possible: array<bool>, any: bool)
    ensures fresh(possible) && possible.Length == |txns|
    ensures forall i :: 0 <= i < |txns| ==> (possible[i] <==> Flagged(txns, |txns|, i))
    ensures any <==> exists i :: 0 <= i < |txns| && possible[i]
  {
    possible := new bool[|txns|](_ => false);
    any := false;
    var seen: map<(nat, nat), nat> := map[];
    for i := 0 to |txns|
      invariant fresh(possible) && possible.Length == |txns|
      invariant forall j :: 0 <= j < i ==> txns[j].Slot() in seen
      invariant forall s :: s in seen ==> seen[s] < i && txns[seen[s]].Slot() == s
      invariant forall j :: 0 <= j < i ==> (possible[j] <==> Flagged(txns, i, j))
      invariant forall j :: i <= j < |txns| ==> !possible[j]
      invariant any <==> exists j :: 0 <= j < |txns| && possible[j]
    {
      var slot := txns[i].Slot();
      ghost var before := possible[..];
      if slot !in seen {
        seen := seen[slot := i];
      } else {
        any := true;
        possible[seen[slot]] := true;
        possible[i] := true;
      }
      forall j | 0 <= j < i + 1
        ensures possible[j] <==> Flagged(txns, i + 1, j)
      {
        FlaggedOneMore(txns, i, j);
        if j < i { assert before[j] <==> Flagged(txns, i, j); }
      }
    }
  }

  lemma FlaggedOneMore(txns: seq<SignedTxn>, n: nat, i: nat)
    requires i <= n < |txns|
    ensures i < n ==> (Flagged(txns, n + 1, i) <==> Flagged(txns, n, i) || txns[n].Slot() == txns[i].Slot())
    ensures i == n ==> (Flagged(txns, n + 1, i) <==> exists j :: 0 <= j < n && txns[j].Slot() == txns[n].Slot())
  {
    if i < n && Flagged(txns, n, i) {
      var j :| 0 <= j < n && j != i && txns[j].Slot() == txns[i].Slot();
      assert Flagged(txns, n + 1, i);
    }
  }

  lemma {:induction false} NothingFlagged(h: Hasher, txns: seq<SignedTxn>, n: nat)
    requires n <= |txns| && forall i :: 0 <= i < |txns| ==> !Flagged(txns, |txns|, i)
    ensures KeepUnflagged(h, txns, n) == txns[..n]
  {
    if n > 0 { NothingFlagged(h, txns, n - 1); }
  }

  // ---------------------------------------------------------------- equivalence

  /** Transactions with one identity share their (sender, sequence number). */
  ghost predicate IdentityFixesSlot(h: Hasher) {
    forall t, u :: h(t) == h(u) && t.authenticator == u.authenticator
      ==> t.sender == u.sender && t.sequence == u.sequence
  }

  lemma {:induction false} FastFormKeepsFirst(h: Hasher, txns: seq<SignedTxn>, n: nat)
    requires IdentityFixesSlot(h) && n <= |txns|
    ensures KeepUnflagged(h, txns, n) == KeepFirst(h, txns, n)
  {
    if n > 0 {
      FastFormKeepsFirst(h, txns, n - 1);
      var i := n - 1;
      if SeenBefore(h, txns, i) {
        var j :| 0 <= j < i && Id(h, txns[j]) == Id(h, txns[i]);
        assert txns[j].Slot() == txns[i].Slot();
        assert Flagged(txns, |txns|, i) && Flagged(txns, |txns|, j);
      }
    }
  }

  /** The fast form is the naive one on every input exactly when an identity fixes
      the (sender, sequence number). */
  lemma FastFormIsNaiveIff(h: Hasher)
    ensures IdentityFixesSlot(h)
       <==> forall txns :: KeepUnflagged(h, txns, |txns|) == KeepFirst(h, txns, |txns|)
  {
    if IdentityFixesSlot(h) {
      forall txns: seq<SignedTxn>
        ensures KeepUnflagged(h, txns, |txns|) == KeepFirst(h, txns, |txns|)
      {
        FastFormKeepsFirst(h, txns, |txns|);
      }
    } else {
      var t, u :| && h(t) == h(u) && t.authenticator == u.authenticator
                  && (t.sender != u.sender || t.sequence != u.sequence);
      TwoSlotsOneIdentity(h, t, u);
    }
  }

  lemma TwoSlotsOneIdentity(h: Hasher, t: SignedTxn, u: SignedTxn)
    requires Id(h, t) == Id(h, u) && t.Slot() != u.Slot()
    ensures var txns := [t, u]; KeepUnflagged(h, txns, |txns|) == [t, u] && KeepFirst(h, txns, |txns|) == [t]
  {
    var txns := [t, u];
    assert Id(h, txns[0]) == Id(h, txns[1]);
    assert SeenBefore(h, txns, 1) && !SeenBefore(h, txns, 0);
    assert !Flagged(txns, 2, 0) && !Flagged(txns, 2, 1);
    assert KeepFirst(h, txns, 1) == [t] && KeepUnflagged(h, txns, 1) == [t];
  }

  /** No earlier transaction has the same hash and the same authenticator. */
  predicate IsNew(h: Hasher, txns: seq<SignedTxn>, i: nat)
    requires i < |txns|
  {
    forall j :: 0 <= j < i ==> h(txns[j]) != h(txns[i]) || txns[j].authenticator != txns[i].authenticator
  }

  lemma NewIsNotSeen(h: Hasher, txns: seq<SignedTxn>, i: nat)
    requires i < |txns|
    ensures IsNew(h, txns, i) <==> !SeenBefore(h, txns, i)
  {
    if j :| 0 <= j < i && h(txns[j]) == h(txns[i]) && txns[j].authenticator == txns[i].authenticator {
      assert Id(h, txns[j]) == Id(h, txns[i]);
    }
  }

  /** The positions are those of the new transactions, in rising order. */
  ghost predicate NewOnes(h: Hasher, txns: seq<SignedTxn>, n: nat, at: seq<nat>)
    requires n <= |txns|
  {
    && (forall a, b :: 0 <= a < b < |at| ==> at[a] < at[b])
    && (forall k :: 0 <= k < |at| ==> at[k] < n)
    && (forall i :: 0 <= i < n ==> (i in at <==> IsNew(h, txns, i)))
  }

  function NewAt(h: Hasher, txns: seq<SignedTxn>, n: nat): seq<nat>
    requires n <= |txns|
  {
    if n == 0 then [] else NewAt(h, txns, n - 1) + (if IsNew(h, txns, n - 1) then [n - 1] else [])
  }

  lemma {:induction false} NewAtAreNew(h: Hasher, txns: seq<SignedTxn>, n: nat)
    requires n <= |txns|
    ensures NewOnes(h, txns, n, NewAt(h, txns, n))
  {
    if n > 0 {
      NewAtAreNew(h, txns, n - 1);
      OneMoreNew(h, txns, n - 1, NewAt(h, txns, n - 1));
    }
  }

  predicate Picks(kept: seq<SignedTxn>, txns: seq<SignedTxn>, at: seq<nat>) {
    |kept| == |at| && forall k :: 0 <= k < |at| ==> at[k] < |txns| && kept[k] == txns[at[k]]
  }

  lemma {:induction false} KeepFirstPicks(h: Hasher, txns: seq<SignedTxn>, n: nat)
    requires n <= |txns|
    ensures Picks(KeepFirst(h, txns, n), txns, NewAt(h, txns, n))
  {
    if n > 0 {
      KeepFirstPicks(h, txns, n - 1);
      KeepStep(h, txns, n - 1);
      PicksMore(KeepFirst(h, txns, n - 1), txns, NewAt(h, txns, n - 1), n - 1);
    }
  }

  lemma PicksMore(kept: seq<SignedTxn>, txns: seq<SignedTxn>, at: seq<nat>, i: nat)
    requires Picks(kept, txns, at) && i < |txns|
    ensures Picks(kept + [txns[i]], txns, at + [i]) && Picks(kept + [], txns, at + [])
  {
    assert kept + [] == kept && at + [] == at;
  }

  lemma KeepStep(h: Hasher, txns: seq<SignedTxn>, i: nat)
    requires i < |txns|
    ensures || (&& KeepFirst(h, txns, i + 1) == KeepFirst(h, txns, i) + [txns[i]]
                && NewAt(h, txns, i + 1) == NewAt(h, txns, i) + [i])
            || (&& KeepFirst(h, txns, i + 1) == KeepFirst(h, txns, i) + []
                && NewAt(h, txns, i + 1) == NewAt(h, txns, i) + [])
  {
    NewIsNotSeen(h, txns, i);
  }

  /** The reference in the fields of the transactions: it keeps, in order, exactly those
      before which none has the same hash and authenticator. */
  lemma KeepFirstMeans(h: Hasher, txns: seq<SignedTxn>) returns (at: seq<nat>)
    ensures NewOnes(h, txns, |txns|, at) && Picks(KeepFirst(h, txns, |txns|), txns, at)
  {
    at := NewAt(h, txns, |txns|);
    NewAtAreNew(h, txns, |txns|);
    KeepFirstPicks(h, txns, |txns|);
  }

  lemma OneMoreNew(h: Hasher, txns: seq<SignedTxn>, n: nat, at: seq<nat>)
    requires n < |txns| && NewOnes(h, txns, n, at)
    ensures NewOnes(h, txns, n + 1, at + if IsNew(h, txns, n) then [n] else [])
  {
    if IsNew(h, txns, n) {
      assert n in at + [n];
    } else {
      assert at + [] == at;
      assert n !in at;
    }
  }

  /** Flagged: another transaction has the same sender and the same sequence number. */
  lemma FlaggedMeans(txns: seq<SignedTxn>, i: nat)
    requires i < |txns|
    ensures Flagged(txns, |txns|, i) <==>
      exists j :: 0 <= j < |txns| && j != i
               && txns[j].sender == txns[i].sender && txns[j].sequence == txns[i].sequence
  {
    if Flagged(txns, |txns|, i) {
      var j :| 0 <= j < |txns| && j != i && txns[j].Slot() == txns[i].Slot();
      assert txns[j].sender == txns[i].sender && txns[j].sequence == txns[i].sequence;
    }
    if j :| 0 <= j < |txns| && j != i && txns[j].sender == txns[i].sender && txns[j].sequence == txns[i].sequence {
      assert txns[j].Slot() == txns[i].Slot();
    }
  }
}
