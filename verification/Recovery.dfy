/** Restart: from the blocks in the database, keep the tree below the root in one
    pass over the blocks in (epoch, round) order. */
module Recovery {
  import opened Filters

  type BlockId = nat

  datatype StoredBlock = StoredBlock(id: BlockId, parentId: BlockId, epoch: nat, round: nat)

  /** A stored certificate, by the block it certifies. */
  datatype StoredQc = StoredQc(certified: BlockId, signature: nat)

  /** The order of the sort key (epoch, round). */
  predicate Before(a: StoredBlock, b: StoredBlock) {
    a.epoch < b.epoch || (a.epoch == b.epoch && a.round < b.round)
  }

  predicate SortedByRound(blocks: seq<StoredBlock>) {
    forall i, j :: 0 <= i < j < |blocks| ==> !Before(blocks[j], blocks[i])
  }

  /** A block comes in a later round than the parent it names. */
  predicate RoundsGrow(blocks: seq<StoredBlock>) {
    forall c, b :: c in blocks && b in blocks && b.parentId == c.id ==> Before(c, b)
  }

  // ---------------------------------------------------------------- reference

  /** A chain of stored blocks that starts at a child of the root. */
  predicate Chain(root: BlockId, blocks: seq<StoredBlock>, p: seq<StoredBlock>) {
    && p != [] && p[0].parentId == root
    && (forall i :: 0 <= i < |p| ==> p[i] in blocks)
    && (forall i :: 0 < i < |p| ==> p[i].parentId == p[i - 1].id)
  }

  /** The parent chain of the block reaches the root. */
  ghost predicate Descends(root: BlockId, blocks: seq<StoredBlock>, b: StoredBlock) {
    exists p :: Chain(root, blocks, p) && p[|p| - 1] == b
  }

  // ---------------------------------------------------------------- the single pass

  function Tree(root: BlockId, blocks: seq<StoredBlock>): set<BlockId> {
    if blocks == [] then {root}
    else
      var n := |blocks| - 1;
      var t := Tree(root, blocks[..n]);
      if blocks[n].parentId in t then t + {blocks[n].id} else t
  }

  function Kept(root: BlockId, blocks: seq<StoredBlock>): seq<StoredBlock> {
    if blocks == [] then []
    else
      var n := |blocks| - 1;
      Kept(root, blocks[..n]) + (if blocks[n].parentId in Tree(root, blocks[..n]) then [blocks[n]] else [])
  }

  function Dropped(root: BlockId, blocks: seq<StoredBlock>): set<BlockId> {
    if blocks == [] then {}
    else
      var n := |blocks| - 1;
      Dropped(root, blocks[..n]) + (if blocks[n].parentId in Tree(root, blocks[..n]) then {} else {blocks[n].id})
  }

  function KeptQcs(tree: set<BlockId>, qcs: seq<StoredQc>): seq<StoredQc> {
    if qcs == [] then []
    else
      var n := |qcs| - 1;
      KeptQcs(tree, qcs[..n]) + (if qcs[n].certified in tree then [qcs[n]] else [])
  }

  function DroppedQcs(tree: set<BlockId>, qcs: seq<StoredQc>): set<BlockId> {
    if qcs == [] then {}
    else
      var n := |qcs| - 1;
      DroppedQcs(tree, qcs[..n]) + (if qcs[n].certified in tree then {} else {qcs[n].certified})
  }

  method FindBlocksToPrune(root: BlockId, blocks: seq<StoredBlock>, qcs: seq<StoredQc>)
    returns (kept: seq<StoredBlock>, keptQcs: seq<StoredQc>, toRemove: set<BlockId>)
    ensures kept == Kept(root, blocks)
    ensures keptQcs == KeptQcs(Tree(root, blocks), qcs)
    ensures toRemove == Dropped(root, blocks) + DroppedQcs(Tree(root, blocks), qcs)
  {
    var tree := {root};
    toRemove := {};
    kept := [];
    for i := 0 to |blocks|
      invariant tree == Tree(root, blocks[..i])
      invariant kept == Kept(root, blocks[..i]) && toRemove == Dropped(root, blocks[..i])
    {
      assert blocks[..i + 1][..i] == blocks[..i];
      if blocks[i].parentId in tree {
        tree := tree + {blocks[i].id};
        kept := kept + [blocks[i]];
      } else {
        toRemove := toRemove + {blocks[i].id};
      }
    }
    assert blocks[..|blocks|] == blocks;
    keptQcs := [];
    for i := 0 to |qcs|
      invariant keptQcs == KeptQcs(tree, qcs[..i])
      invariant toRemove == Dropped(root, blocks) + DroppedQcs(tree, qcs[..i])
    {
      assert qcs[..i + 1][..i] == qcs[..i];
      if qcs[i].certified in tree {
        keptQcs := keptQcs + [qcs[i]];
      } else {
        toRemove := toRemove + {qcs[i].certified};
      }
    }
    assert qcs[..|qcs|] == qcs;
  }

  // ---------------------------------------------------------------- exactness

  lemma {:induction false} TreeGrows(root: BlockId, blocks: seq<StoredBlock>, i: nat)
    requires i <= |blocks|
    ensures root in Tree(root, blocks) && Tree(root, blocks[..i]) <= Tree(root, blocks)
    decreases |blocks|
  {
    if blocks != [] {
      var n := |blocks| - 1;
      if i <= n {
        TreeGrows(root, blocks[..n], i);
        assert blocks[..n][..i] == blocks[..i];
      } else {
        TreeGrows(root, blocks[..n], n);
        assert blocks[..i] == blocks;
      }
    }
  }

  predicate KeptAt(root: BlockId, blocks: seq<StoredBlock>, j: nat)
    requires j < |blocks|
  {
    blocks[j].parentId in Tree(root, blocks[..j])
  }

  lemma KeptInTree(root: BlockId, blocks: seq<StoredBlock>, j: nat)
    requires j < |blocks| && KeptAt(root, blocks, j)
    ensures blocks[j].id in Tree(root, blocks)
  {
    assert blocks[..j + 1][..j] == blocks[..j];
    TreeGrows(root, blocks, j + 1);
  }

  /** A chain is kept link by link, because each parent has been seen before. */
  lemma {:induction false} ChainIsKept(root: BlockId, blocks: seq<StoredBlock>, p: seq<StoredBlock>, j: nat)
    requires SortedByRound(blocks) && RoundsGrow(blocks) && Chain(root, blocks, p)
    requires j < |blocks| && blocks[j] == p[|p| - 1]
    ensures KeptAt(root, blocks, j)
    decreases |p|
  {
    TreeGrows(root, blocks[..j], 0);
    var n := |p| - 1;
    if n > 0 {
      assert p[n - 1] in blocks;
      var i :| 0 <= i < |blocks| && blocks[i] == p[n - 1];
      assert Before(blocks[i], blocks[j]);
      assert i < j;
      assert Chain(root, blocks, p[..n]);
      ChainIsKept(root, blocks, p[..n], i);
      assert blocks[..j][..i] == blocks[..i];
      KeptInTree(root, blocks[..j], i);
    }
  }

  /** Everything in the tree is the root or hangs from it by a chain. */
  lemma {:induction false} TreeDescends(root: BlockId, blocks: seq<StoredBlock>, id: BlockId)
    requires id in Tree(root, blocks)
    ensures InTree(root, blocks, id)
    decreases |blocks|, 0
  {
    if blocks != [] {
      var n := |blocks| - 1;
      if id in Tree(root, blocks[..n]) {
        TreeDescends(root, blocks[..n], id);
        if id != root {
          var b :| b in blocks[..n] && b.id == id && Descends(root, blocks[..n], b);
          DescendsInMore(root, blocks, n, b);
        }
      } else {
        KeptDescends(root, blocks, n);
      }
    }
  }

  lemma DescendsInMore(root: BlockId, blocks: seq<StoredBlock>, n: nat, b: StoredBlock)
    requires n <= |blocks| && Descends(root, blocks[..n], b)
    ensures Descends(root, blocks, b)
  {
    var p :| Chain(root, blocks[..n], p) && p[|p| - 1] == b;
    assert Chain(root, blocks, p);
  }

  lemma {:induction false} KeptDescends(root: BlockId, blocks: seq<StoredBlock>, j: nat)
    requires j < |blocks| && KeptAt(root, blocks, j)
    ensures Descends(root, blocks, blocks[j])
    decreases j, 1
  {
    var b := blocks[j];
    if b.parentId == root {
      assert Chain(root, blocks, [b]);
    } else {
      TreeDescends(root, blocks[..j], b.parentId);
      var c :| c in blocks[..j] && c.id == b.parentId && Descends(root, blocks[..j], c);
      DescendsInMore(root, blocks, j, c);
      var p :| Chain(root, blocks, p) && p[|p| - 1] == c;
      assert Chain(root, blocks, p + [b]);
      assert (p + [b])[|p|] == b;
    }
  }

  /** The single pass over sorted blocks keeps exactly the descendants of the root. */
  lemma KeptIffDescends(root: BlockId, blocks: seq<StoredBlock>, j: nat)
    requires SortedByRound(blocks) && RoundsGrow(blocks) && j < |blocks|
    ensures KeptAt(root, blocks, j) <==> Descends(root, blocks, blocks[j])
  {
    if KeptAt(root, blocks, j) { KeptDescends(root, blocks, j); }
    if Descends(root, blocks, blocks[j]) {
      var p :| Chain(root, blocks, p) && p[|p| - 1] == blocks[j];
      ChainIsKept(root, blocks, p, j);
    }
  }

  /** The descendants among some of the stored blocks, in order. */
  ghost function Below(root: BlockId, blocks: seq<StoredBlock>, some: seq<StoredBlock>): seq<StoredBlock> {
    Filter(b => Descends(root, blocks, b), some)
  }

  lemma {:induction false} KeptIsBelow(root: BlockId, blocks: seq<StoredBlock>, n: nat)
    requires SortedByRound(blocks) && RoundsGrow(blocks) && n <= |blocks|
    ensures Kept(root, blocks[..n]) == Below(root, blocks, blocks[..n])
  {
    if n > 0 {
      KeptIsBelow(root, blocks, n - 1);
      assert blocks[..n][..n - 1] == blocks[..n - 1];
      KeptIffDescends(root, blocks, n - 1);
    }
  }

  /** The id of the root or of a descendant. */
  ghost predicate InTree(root: BlockId, blocks: seq<StoredBlock>, id: BlockId) {
    id == root || exists b :: b in blocks && b.id == id && Descends(root, blocks, b)
  }

  /** The certificates of the root and of its descendants, in order. */
  ghost function QcsBelow(root: BlockId, blocks: seq<StoredBlock>, qcs: seq<StoredQc>): seq<StoredQc> {
    Filter((qc: StoredQc) => InTree(root, blocks, qc.certified), qcs)
  }

  /** Over sorted blocks the two passes return the descendants of the root and the
      certificates of the root and the descendants, both in their order, and report
      exactly the ids of the other blocks and of the other certified blocks. */
  lemma PruneIsExact(root: BlockId, blocks: seq<StoredBlock>, qcs: seq<StoredQc>)
    requires SortedByRound(blocks) && RoundsGrow(blocks)
    ensures Kept(root, blocks) == Below(root, blocks, blocks)
    ensures KeptQcs(Tree(root, blocks), qcs) == QcsBelow(root, blocks, qcs)
    ensures forall id :: id in Dropped(root, blocks) + DroppedQcs(Tree(root, blocks), qcs) <==>
              || (exists b :: b in blocks && b.id == id && !Descends(root, blocks, b))
              || (exists qc :: qc in qcs && qc.certified == id && !InTree(root, blocks, id))
    ensures forall id :: id in Tree(root, blocks) <==> InTree(root, blocks, id)
  {
    KeptIsBelow(root, blocks, |blocks|);
    assert blocks[..|blocks|] == blocks;
    forall id { TreeIffBelow(root, blocks, id); }
    QcsAreBelow(root, blocks, qcs);
    forall id
      ensures id in Dropped(root, blocks) + DroppedQcs(Tree(root, blocks), qcs) <==>
              || (exists b :: b in blocks && b.id == id && !Descends(root, blocks, b))
              || (exists qc :: qc in qcs && qc.certified == id && !InTree(root, blocks, id))
    {
      DroppedIffNotBelow(root, blocks, id);
      DroppedQcsAre(Tree(root, blocks), qcs, id);
    }
  }

  lemma {:induction false} QcsAreBelow(root: BlockId, blocks: seq<StoredBlock>, qcs: seq<StoredQc>)
    requires forall id :: id in Tree(root, blocks) <==> InTree(root, blocks, id)
    ensures KeptQcs(Tree(root, blocks), qcs) == QcsBelow(root, blocks, qcs)
  {
    if qcs != [] { QcsAreBelow(root, blocks, qcs[..|qcs| - 1]); }
  }

  lemma {:induction false} DroppedQcsAre(tree: set<BlockId>, qcs: seq<StoredQc>, id: BlockId)
    ensures id in DroppedQcs(tree, qcs) <==> id !in tree && exists qc :: qc in qcs && qc.certified == id
  {
    if qcs != [] {
      var n := |qcs| - 1;
      DroppedQcsAre(tree, qcs[..n], id);
      assert qcs == qcs[..n] + [qcs[n]];
    }
  }

  lemma DroppedIffNotBelow(root: BlockId, blocks: seq<StoredBlock>, id: BlockId)
    requires SortedByRound(blocks) && RoundsGrow(blocks)
    ensures id in Dropped(root, blocks) <==> exists b :: b in blocks && b.id == id && !Descends(root, blocks, b)
  {
    DroppedMembers(root, blocks, id);
    forall j | 0 <= j < |blocks| { KeptIffDescends(root, blocks, j); }
  }

  lemma TreeIffBelow(root: BlockId, blocks: seq<StoredBlock>, id: BlockId)
    requires SortedByRound(blocks) && RoundsGrow(blocks)
    ensures id in Tree(root, blocks) <==> InTree(root, blocks, id)
  {
    if id in Tree(root, blocks) { TreeDescends(root, blocks, id); }
    if b :| b in blocks && b.id == id && Descends(root, blocks, b) {
      var j :| 0 <= j < |blocks| && blocks[j] == b;
      KeptIffDescends(root, blocks, j);
      KeptInTree(root, blocks, j);
    }
    TreeGrows(root, blocks, 0);
  }

  /** How the sort breaks ties does not matter: two sorted arrangements of the same
      blocks keep the same tree and report the same ids. */
  lemma TiesIrrelevant(root: BlockId, blocks: seq<StoredBlock>, other: seq<StoredBlock>)
    requires SortedByRound(blocks) && RoundsGrow(blocks)
    requires SortedByRound(other) && forall b :: b in other <==> b in blocks
    ensures Tree(root, blocks) == Tree(root, other) && Dropped(root, blocks) == Dropped(root, other)
  {
    forall b { SameDescent(root, blocks, other, b); }
    forall id: BlockId
      ensures id in Tree(root, blocks) <==> id in Tree(root, other)
    {
      TreeIffBelow(root, blocks, id);
      TreeIffBelow(root, other, id);
    }
    forall id: BlockId
      ensures id in Dropped(root, blocks) <==> id in Dropped(root, other)
    {
      DroppedIffNotBelow(root, blocks, id);
      DroppedIffNotBelow(root, other, id);
    }
  }

  lemma SameDescent(root: BlockId, blocks: seq<StoredBlock>, other: seq<StoredBlock>, b: StoredBlock)
    requires forall x :: x in other <==> x in blocks
    ensures Descends(root, blocks, b) <==> Descends(root, other, b)
  {
    if p :| Chain(root, blocks, p) && p[|p| - 1] == b { assert Chain(root, other, p); }
    if p :| Chain(root, other, p) && p[|p| - 1] == b { assert Chain(root, blocks, p); }
  }

  lemma {:induction false} DroppedMembers(root: BlockId, blocks: seq<StoredBlock>, id: BlockId)
    ensures id in Dropped(root, blocks)
       <==> exists j :: 0 <= j < |blocks| && blocks[j].id == id && !KeptAt(root, blocks, j)
  {
    if blocks != [] {
      var n := |blocks| - 1;
      DroppedMembers(root, blocks[..n], id);
      forall j | 0 <= j < n
        ensures KeptAt(root, blocks[..n], j) <==> KeptAt(root, blocks, j)
      {
        assert blocks[..n][..j] == blocks[..j];
      }
    }
  }
}
