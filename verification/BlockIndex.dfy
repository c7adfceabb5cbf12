/** Rebuilding the block-number index at start-up: epochs are scanned newest first,
    the first entry for a number wins, and the scan stops once every number in the
    window has an entry. */
module BlockIndex {
  import opened Wrappers

  type BlockId = nat
  type BlockNumber = nat

  const RECENT_BLOCKS_RANGE: nat := 256
  const GENESIS_BLOCK_ID: BlockId := 0

  /** One row of the block-number table of an epoch, in key order. */
  datatype Row = Row(id: BlockId, number: BlockNumber)

  /** The table of each epoch. */
  type Database = nat -> seq<Row>

  type Index = map<BlockNumber, (nat, BlockId)>

  function WindowStart(latest: BlockNumber): BlockNumber {
    if latest >= RECENT_BLOCKS_RANGE then latest - RECENT_BLOCKS_RANGE else 0
  }

  predicate InWindow(latest: BlockNumber, n: BlockNumber) {
    WindowStart(latest) <= n <= latest
  }

  // ---------------------------------------------------------------- reference

  /** The first row of an epoch for a block number. */
  function FirstRow(rows: seq<Row>, n: BlockNumber): Option<BlockId> {
    if rows == [] then None
    else if rows[0].number == n then Some(rows[0].id)
    else FirstRow(rows[1..], n)
  }

  /** The greatest epoch up to `e` that knows the number, with its first row. */
  function Newest(db: Database, e: nat, n: BlockNumber): Option<(nat, BlockId)> {
    if e == 0 then None
    else match FirstRow(db(e), n)
      case Some(id) => Some((e, id))
      case None => Newest(db, e - 1, n)
  }

  /** What scanning every epoch gives for the number. */
  function FullScan(db: Database, maxEpoch: nat, latest: BlockNumber, n: BlockNumber): Option<(nat, BlockId)> {
    if !InWindow(latest, n) then None
    else if n == 0 then Some((0, GENESIS_BLOCK_ID))
    else Newest(db, maxEpoch, n)
  }

  /** `Newest` really is about the greatest epoch. */
  lemma {:induction false} NewestIsGreatest(db: Database, e: nat, n: BlockNumber, e': nat)
    requires 1 <= e' <= e && FirstRow(db(e'), n).Some?
    ensures Newest(db, e, n).Some? && e' <= Newest(db, e, n).value.0 <= e
    ensures FirstRow(db(Newest(db, e, n).value.0), n) == Some(Newest(db, e, n).value.1)
  {
    if FirstRow(db(e), n).None? { NewestIsGreatest(db, e - 1, n, e'); }
  }

  // ---------------------------------------------------------------- early exit

  function Get(index: Index, n: BlockNumber): Option<(nat, BlockId)> {
    if n in index then Some(index[n]) else None
  }

  /** The entry for `n` once the epochs above `e` have been scanned. */
  function Scanned(db: Database, maxEpoch: nat, e: nat, n: BlockNumber): Option<(nat, BlockId)>
    requires e <= maxEpoch
    decreases maxEpoch - e
  {
    if e == maxEpoch then None
    else
      var above := Scanned(db, maxEpoch, e + 1, n);
      if above.Some? then above
      else match FirstRow(db(e + 1), n)
        case Some(id) => Some((e + 1, id))
        case None => None
  }

  lemma {:induction false} ScannedThenRest(db: Database, maxEpoch: nat, e: nat, n: BlockNumber)
    requires e <= maxEpoch
    ensures Newest(db, maxEpoch, n) ==
      (var s := Scanned(db, maxEpoch, e, n); if s.Some? then s else Newest(db, e, n))
    decreases maxEpoch - e
  {
    if e < maxEpoch { ScannedThenRest(db, maxEpoch, e + 1, n); }
  }

  ghost predicate IndexOf(index: Index, db: Database, maxEpoch: nat, e: nat, latest: BlockNumber)
    requires e <= maxEpoch
  {
    forall n :: Get(index, n) == if InWindow(latest, n) then Scanned(db, maxEpoch, e, n) else None
  }

  method InitBlockIndex(db: Database, maxEpoch: nat, latest: BlockNumber) returns (index: Index)
    ensures forall n :: Get(index, n) == FullScan(db, maxEpoch, latest, n)
  {
    var start := WindowStart(latest);
    index := map[];
    var e: nat := maxEpoch;
    while e > 0
      invariant e <= maxEpoch && IndexOf(index, db, maxEpoch, e, latest)
    {
      index := ScanEpoch(db, maxEpoch, e, latest, index);
      e := e - 1;
      if |index| >= latest - start + 1 {
        WindowFull(index, db, maxEpoch, e, latest);
        break;
      }
    }
    forall n | InWindow(latest, n)
      ensures Get(index, n) == Newest(db, maxEpoch, n)
    {
      ScannedThenRest(db, maxEpoch, e, n);
    }
    if start == 0 {
      index := index[0 := (0, GENESIS_BLOCK_ID)];
    }
  }

  method ScanEpoch(db: Database, maxEpoch: nat, e: nat, latest: BlockNumber, index: Index) returns (index': Index)
    requires 0 < e <= maxEpoch && IndexOf(index, db, maxEpoch, e, latest)
    ensures IndexOf(index', db, maxEpoch, e - 1, latest)
  {
    index' := index;
    var rows := db(e);
    for i := 0 to |rows|
      invariant IsMerged(index', index, rows[..i], e, latest)
    {
      ghost var before := index';
      if InWindow(latest, rows[i].number) && rows[i].number !in index' {
        index' := index'[rows[i].number := (e, rows[i].id)];
      }
      MergeOne(before, index', index, rows, i, e, latest);
    }
    assert rows[..|rows|] == rows;
  }

  /** Insert if absent, over the rows that fall in the window. */
  function Merged(index: Index, rows: seq<Row>, e: nat, latest: BlockNumber, n: BlockNumber): Option<(nat, BlockId)> {
    if n in index then Some(index[n])
    else if !InWindow(latest, n) then None
    else match FirstRow(rows, n)
      case Some(id) => Some((e, id))
      case None => None
  }

  ghost predicate IsMerged(index': Index, index: Index, rows: seq<Row>, e: nat, latest: BlockNumber) {
    forall n :: Get(index', n) == Merged(index, rows, e, latest, n)
  }

  lemma MergeOne(before: Index, after: Index, index: Index, rows: seq<Row>, i: nat, e: nat, latest: BlockNumber)
    requires i < |rows| && IsMerged(before, index, rows[..i], e, latest)
    requires after == if InWindow(latest, rows[i].number) && rows[i].number !in before
                      then before[rows[i].number := (e, rows[i].id)] else before
    ensures IsMerged(after, index, rows[..i + 1], e, latest)
  {
    assert rows[..i + 1] == rows[..i] + [rows[i]];
    forall n: BlockNumber
      ensures Get(after, n) == Merged(index, rows[..i + 1], e, latest, n)
    {
      FirstRowAppend(rows[..i], rows[i], n);
      assert Get(before, n) == Merged(index, rows[..i], e, latest, n);
    }
  }

  lemma {:induction false} FirstRowAppend(rows: seq<Row>, r: Row, n: BlockNumber)
    ensures FirstRow(rows + [r], n) ==
      var before := FirstRow(rows, n);
      if before.Some? then before else if r.number == n then Some(r.id) else None
  {
    if rows != [] {
      assert (rows + [r])[1..] == rows[1..] + [r];
      FirstRowAppend(rows[1..], r, n);
    }
  }

  // ---------------------------------------------------------------- pigeonhole

  function Interval(lo: nat, hi: nat): set<nat>
    requires lo <= hi
    decreases hi
  {
    if lo == hi then {} else Interval(lo, hi - 1) + {hi - 1}
  }

  lemma {:induction false} IntervalSize(lo: nat, hi: nat)
    requires lo <= hi
    ensures |Interval(lo, hi)| == hi - lo
    ensures forall n :: n in Interval(lo, hi) <==> lo <= n < hi
    decreases hi
  {
    if lo < hi { IntervalSize(lo, hi - 1); }
  }

  lemma SubsetOfSameSize<T>(a: set<T>, b: set<T>)
    requires a <= b && |a| >= |b|
    ensures a == b
  {
    assert b == (b - a) + a;
    assert |b - a| == 0;
  }

  /** Once the index has as many entries as the window has numbers, every number in
      the window has one. */
  lemma WindowFull(index: Index, db: Database, maxEpoch: nat, e: nat, latest: BlockNumber)
    requires e <= maxEpoch && IndexOf(index, db, maxEpoch, e, latest)
    requires |index| >= latest - WindowStart(latest) + 1
    ensures forall n :: InWindow(latest, n) ==> n in index
  {
    var window := Interval(WindowStart(latest), latest + 1);
    IntervalSize(WindowStart(latest), latest + 1);
    forall n | n in index.Keys
      ensures n in window
    {
      assert Get(index, n).Some?;
    }
    SubsetOfSameSize(index.Keys, window);
    forall n | InWindow(latest, n)
      ensures n in index
    {
      assert n in window;
    }
  }

  // ---------------------------------------------------------------- what an entry means

  lemma {:induction false} FirstRowMeans(rows: seq<Row>, n: BlockNumber)
    ensures FirstRow(rows, n).Some? ==>
      exists i :: && 0 <= i < |rows| && rows[i] == Row(FirstRow(rows, n).value, n)
                  && forall j :: 0 <= j < i ==> rows[j].number != n
    ensures FirstRow(rows, n).None? ==> forall i :: 0 <= i < |rows| ==> rows[i].number != n
  {
    if rows != [] && rows[0].number != n {
      FirstRowMeans(rows[1..], n);
      if FirstRow(rows, n).Some? {
        var i :| 0 <= i < |rows[1..]| && rows[1..][i] == Row(FirstRow(rows[1..], n).value, n)
                 && forall j :: 0 <= j < i ==> rows[1..][j].number != n;
        assert rows[i + 1] == rows[1..][i];
        forall j | 0 <= j < i + 1
          ensures rows[j].number != n
        {
          if j > 0 { assert rows[j] == rows[1..][j - 1]; }
        }
      }
    }
  }

  predicate Knows(rows: seq<Row>, n: BlockNumber) {
    exists i :: 0 <= i < |rows| && rows[i].number == n
  }

  /** The window is the latest block and the 256 before it, as far as there are so many. */
  lemma WindowMeans(latest: BlockNumber, n: BlockNumber)
    ensures InWindow(latest, n) <==> n <= latest && latest <= n + 256
  {
  }

  lemma {:induction false} NewestMeans(db: Database, e: nat, n: BlockNumber)
    ensures Newest(db, e, n).None? <==> forall k :: 1 <= k <= e ==> !Knows(db(k), n)
    ensures Newest(db, e, n).Some? ==>
      var (k, id) := Newest(db, e, n).value;
      && 1 <= k <= e && FirstRow(db(k), n) == Some(id) && Knows(db(k), n)
      && forall k' :: k < k' <= e ==> !Knows(db(k'), n)
  {
    if e > 0 {
      FirstRowMeans(db(e), n);
      if FirstRow(db(e), n).None? { NewestMeans(db, e - 1, n); }
    }
  }

  /** The index in the rows of the database: a number has an entry exactly when it is at
      most 256 behind the latest and is zero or known to some epoch; zero maps to the
      genesis, any other to the first row for it in the greatest epoch that knows it. */
  lemma EntryMeans(db: Database, maxEpoch: nat, latest: BlockNumber, n: BlockNumber)
    ensures var entry := FullScan(db, maxEpoch, latest, n);
      && (entry.Some? <==> && n <= latest <= n + 256
                           && (n == 0 || exists e :: 1 <= e <= maxEpoch && Knows(db(e), n)))
      && (entry.Some? && n == 0 ==> entry.value == (0, GENESIS_BLOCK_ID))
      && (entry.Some? && n > 0 ==>
            var (e, id) := entry.value;
            && 1 <= e <= maxEpoch && (forall e' :: e < e' <= maxEpoch ==> !Knows(db(e'), n))
            && exists i :: 0 <= i < |db(e)| && db(e)[i] == Row(id, n)
                        && forall j :: 0 <= j < i ==> db(e)[j].number != n)
  {
    WindowMeans(latest, n);
    NewestMeans(db, maxEpoch, n);
    var newest := Newest(db, maxEpoch, n);
    if newest.Some? { FirstRowMeans(db(newest.value.0), n); }
  }
}
