/** Nodes that join a block tree: one at a time under a known parent, or a whole orphan chain at once. */
module Orphans {
  import opened Bytes
  import opened Blocks
  import opened ChainState
  import opened UtxoManagers
  import opened TreeInvariants

  /** A node that was given no data and never verified. */
  ghost predicate Blank(n: BlockChainNode)
    reads n`hasData, n`dataPointer, n`uTxOManagerPointer, n`uTxOManagerIsUpToDate, n`verifiedWithUtxoManager
  {
    && !n.hasData && n.dataPointer == None && !n.verifiedWithUtxoManager
    && n.uTxOManagerPointer == null && !n.uTxOManagerIsUpToDate
  }

  ghost predicate HangsAt(nodes: NodeMap, top: BlockChainNode, seen: set<Block>, genesis: Block, h: Digest)
    requires h in nodes
    reads nodes.Values`previousBlockChainNode
  {
    var n := nodes[h];
    && n.Hash == h == Blocks.Hash(n.Block)
    && n.Block in seen && n.Block != genesis && Comparable(n.Block) && Verify(n.Block)
    && (n != top ==> n.Block.PrevHash in nodes && n.previousBlockChainNode == nodes[n.Block.PrevHash])
  }

  /** A tree whose root `top` hangs on a header that was not known when it came. */
  ghost predicate OrphanTree(nodes: NodeMap, top: BlockChainNode, head: BlockChainNode, seen: set<Block>,
        genesis: Block)
    reads nodes.Values`previousBlockChainNode, nodes.Values`hasData, nodes.Values`dataPointer
    reads nodes.Values`uTxOManagerPointer, nodes.Values`uTxOManagerIsUpToDate, nodes.Values`verifiedWithUtxoManager
  {
    && top.Hash in nodes && nodes[top.Hash] == top && head in nodes.Values
    && (forall h {:trigger HangsAt(nodes, top, seen, genesis, h)} ::
          h in nodes ==> HangsAt(nodes, top, seen, genesis, h))
    && (forall n :: n in nodes.Values ==> Blank(n) && InRange(n, top, head))
  }

  ghost predicate InRange(n: BlockChainNode, top: BlockChainNode, head: BlockChainNode) {
    top.Block.BlockCount <= n.Block.BlockCount <= head.Block.BlockCount
  }

  lemma SeenMore(nodes: NodeMap, top: BlockChainNode, head: BlockChainNode, seen: set<Block>, seen': set<Block>,
                 genesis: Block)
    requires OrphanTree(nodes, top, head, seen, genesis) && seen <= seen'
    ensures OrphanTree(nodes, top, head, seen', genesis)
  {
    forall h | h in nodes ensures HangsAt(nodes, top, seen', genesis, h) {
      assert HangsAt(nodes, top, seen, genesis, h);
    }
  }

  lemma OneNodeTree(n: BlockChainNode, seen: set<Block>, genesis: Block)
    requires Blank(n) && n.Hash == Blocks.Hash(n.Block)
    requires n.Block in seen && n.Block != genesis && Comparable(n.Block) && Verify(n.Block)
    ensures OrphanTree(map[n.Hash := n], n, n, seen, genesis)
  {
    var nodes := map[n.Hash := n];
    assert nodes[n.Hash] in nodes.Values;
  }

  lemma StillHanging(nodes: NodeMap, nodes': NodeMap, top: BlockChainNode, seen: set<Block>, genesis: Block,
                     n: BlockChainNode)
    requires n.Hash !in nodes && nodes' == nodes[n.Hash := n] && HangsAt(nodes', top, seen, genesis, n.Hash)
    requires forall h {:trigger HangsAt(nodes, top, seen, genesis, h)} ::
               h in nodes ==> HangsAt(nodes, top, seen, genesis, h)
    ensures forall h {:trigger HangsAt(nodes', top, seen, genesis, h)} ::
              h in nodes' ==> HangsAt(nodes', top, seen, genesis, h)
  {
    forall h | h in nodes' ensures HangsAt(nodes', top, seen, genesis, h) {
      assert h in nodes ==> HangsAt(nodes, top, seen, genesis, h);
    }
  }

  lemma StillInRange(nodes: NodeMap, top: BlockChainNode, head: BlockChainNode, n: BlockChainNode,
                     head': BlockChainNode)
    requires n.Hash !in nodes && Blank(n) && InRange(n, top, head')
    requires head.Block.BlockCount <= head'.Block.BlockCount
    requires forall m :: m in nodes.Values ==> Blank(m) && InRange(m, top, head)
    ensures nodes[n.Hash := n].Values == nodes.Values + {n}
    ensures forall m :: m in nodes[n.Hash := n].Values ==> Blank(m) && InRange(m, top, head')
  {
    var nodes' := nodes[n.Hash := n];
    assert nodes'[n.Hash] == n;
    forall m | m in nodes.Values ensures m in nodes'.Values {
      var h :| h in nodes && nodes[h] == m;
      assert nodes'[h] == m;
    }
  }

  /** A header with a known parent inside an orphan chain. */
  lemma GrowsUp(nodes: NodeMap, top: BlockChainNode, head: BlockChainNode, seen: set<Block>, genesis: Block,
                n: BlockChainNode)
    requires OrphanTree(nodes, top, head, seen, genesis) && GoodHeaders(seen, genesis)
    requires Blank(n) && n.Hash == Blocks.Hash(n.Block) && n.Hash !in nodes
    requires n.Block in seen && n.Block != genesis && Comparable(n.Block) && Verify(n.Block)
    requires n.Block.PrevHash in nodes && n.previousBlockChainNode == nodes[n.Block.PrevHash]
    ensures OrphanTree(nodes[n.Hash := n], top, if head.Block.BlockCount < n.Block.BlockCount then n else head, seen,
          genesis)
  {
    var p := n.Block.PrevHash;
    assert HangsAt(nodes, top, seen, genesis, p);
    assert nodes[p] in nodes.Values && Follows(n.Block, nodes[p].Block);
    assert InRange(nodes[p], top, head);
    StillHanging(nodes, nodes[n.Hash := n], top, seen, genesis, n);
    StillInRange(nodes, top, head, n, if head.Block.BlockCount < n.Block.BlockCount then n else head);
  }

  /** A header that the root of an orphan chain waits for becomes its root. */
  lemma GrowsDown(nodes: NodeMap, top: BlockChainNode, head: BlockChainNode, seen: set<Block>, genesis: Block,
                  n: BlockChainNode)
    requires OrphanTree(nodes, top, head, seen, genesis) && GoodHeaders(seen, genesis)
    requires Blank(n) && n.Hash == Blocks.Hash(n.Block) && top.Block.PrevHash == n.Hash
    requires n.Block in seen && n.Block != genesis && Comparable(n.Block) && Verify(n.Block)
    ensures n.Hash !in nodes && n !in nodes.Values
    ensures top.previousBlockChainNode == n ==> OrphanTree(nodes[n.Hash := n], n, head, seen, genesis)
  {
    assert HangsAt(nodes, top, seen, genesis, top.Hash);
    assert Follows(top.Block, n.Block);
    forall m | m in nodes.Values ensures m.Hash != n.Hash {
      assert InRange(m, top, head);
      var h :| h in nodes && nodes[h] == m;
      assert HangsAt(nodes, top, seen, genesis, h);
    }
    forall h | h in nodes ensures h != n.Hash {
      assert HangsAt(nodes, top, seen, genesis, h) && nodes[h] in nodes.Values;
    }
    if top.previousBlockChainNode == n {
      var nodes' := nodes[n.Hash := n];
      assert nodes'[n.Hash] == n;
      forall h | h in nodes' ensures HangsAt(nodes', n, seen, genesis, h) {
        assert h != n.Hash ==> HangsAt(nodes, top, seen, genesis, h);
      }
      assert head in nodes'.Values by {
        var h :| h in nodes && nodes[h] == head;
        assert nodes'[h] == head;
      }
      forall m | m in nodes'.Values ensures Blank(m) && InRange(m, n, head) {
        assert InRange(head, top, head);
        var h :| h in nodes' && nodes'[h] == m;
        if h != n.Hash {
          assert nodes[h] in nodes.Values;
          assert InRange(m, top, head);
        }
      }
    }
  }

  /** Where the root of an orphan chain hangs is not part of the chain. */
  method HangOn(ghost nodes: NodeMap, ghost head: BlockChainNode, ghost seen: set<Block>, ghost genesis: Block,
                top: BlockChainNode, n: BlockChainNode)
    requires OrphanTree(nodes, top, head, seen, genesis)
    modifies top`previousBlockChainNode
    ensures OrphanTree(nodes, top, head, seen, genesis) && top.previousBlockChainNode == n
  {
    top.previousBlockChainNode := n;
    forall h | h in nodes ensures HangsAt(nodes, top, seen, genesis, h) {
      assert old(HangsAt(nodes, top, seen, genesis, h));
    }
  }

  // ---------------------------------------------------------------- joining the main tree

  /** A node of an orphan chain that waits for a header the main tree does not have is not in the main tree. */
  lemma {:induction false} OrphanKeyIsNew(nodes: NodeMap, root: BlockChainNode, seen: set<Block>,
                                          orphans: NodeMap, top: BlockChainNode, head: BlockChainNode, h: Digest)
    requires TreeInv(nodes, root, seen) && OrphanTree(orphans, top, head, seen, root.Block)
    requires top.Block.PrevHash !in nodes && h in orphans
    ensures h !in nodes
    decreases orphans[h].Block.BlockCount
  {
    var x := orphans[h];
    assert HangsAt(orphans, top, seen, root.Block, h);
    if h in nodes {
      var m := nodes[h];
      assert PlacedAt(nodes, root, seen, h);
      HeaderOfHash(seen, root.Block, m.Block, x.Block);
      var p := x.Block.PrevHash;
      if x != top {
        assert HangsAt(orphans, top, seen, root.Block, p);
        assert Follows(x.Block, orphans[p].Block);
        OrphanKeyIsNew(nodes, root, seen, orphans, top, head, p);
      }
      assert false;
    }
  }

  /** Joining an orphan chain overwrites nothing: it shares no key with the main tree, nor with the node it hangs on. */
  lemma JoinOverwritesNothing(nodes: NodeMap, root: BlockChainNode, seen: set<Block>,
                              orphans: NodeMap, top: BlockChainNode, head: BlockChainNode, n: BlockChainNode)
    requires TreeInv(nodes, root, seen) && OrphanTree(orphans, top, head, seen, root.Block)
    requires n.Hash == Blocks.Hash(n.Block) && n.Block in seen && top.Block.PrevHash == n.Hash && n.Hash !in nodes
    ensures orphans.Keys !! nodes[n.Hash := n].Keys
  {
    forall h | h in orphans ensures h !in nodes[n.Hash := n] {
      OrphanKeyIsNew(nodes, root, seen, orphans, top, head, h);
      assert HangsAt(orphans, top, seen, root.Block, top.Hash) && Follows(top.Block, n.Block);
      assert HangsAt(orphans, top, seen, root.Block, h) && orphans[h] in orphans.Values;
      assert InRange(orphans[h], top, head);
    }
  }

  /** Blank nodes in their places leave everything that holds of a tree intact. */
  lemma MoreNodes(nodes: NodeMap, more: NodeMap, root: BlockChainNode, seen: set<Block>, seen': set<Block>,
                  view: View, utxoRepr: set<object>)
    requires NodesInv(nodes, root, seen, view, utxoRepr)
    requires seen <= seen' && GoodHeaders(seen', root.Block)
    requires more.Keys !! nodes.Keys && forall n :: n in more.Values ==> Blank(n)
    requires forall h :: h in more ==> PlacedAt(nodes + more, root, seen', h)
    ensures NodesInv(nodes + more, root, seen', view, utxoRepr)
    ensures BuiltNodes(nodes + more, root) == BuiltNodes(nodes, root)
    ensures UpToDateNodes(nodes + more) == UpToDateNodes(nodes)
    ensures BuiltHistories(nodes + more, root) == BuiltHistories(nodes, root)
    ensures (nodes + more).Values == nodes.Values + more.Values
  {
    hide TreeInv, BuiltInv, ViewInv, ManagerInv, PlacedAt, BuiltNodes, UpToDateNodes, BuiltHistories;
    ValuesOfBoth(nodes, more);
    MorePlaced(nodes, more, root, seen, seen');
    MoreWithoutData(nodes, more, view);
    MoreBuilt(nodes, more, root, view);
    MoreManagers(nodes, more, root, utxoRepr);
    SameSets(nodes, more, root);
  }

  lemma MorePlaced(nodes: NodeMap, more: NodeMap, root: BlockChainNode, seen: set<Block>, seen': set<Block>)
    requires TreeInv(nodes, root, seen) && seen <= seen' && GoodHeaders(seen', root.Block)
    requires more.Keys !! nodes.Keys && (nodes + more).Values == nodes.Values + more.Values
    requires forall h :: h in more ==> PlacedAt(nodes + more, root, seen', h)
    ensures TreeInv(nodes + more, root, seen')
    ensures forall n :: n in more.Values ==> n != root && n.Hash !in nodes
  {
    hide GoodHeaders, Verify;
    var all := nodes + more;
    forall n | n in more.Values ensures n != root && n.Hash !in nodes {
      var h :| h in more && more[h] == n;
      assert PlacedAt(all, root, seen', h) && all[h] == n;
    }
    forall h | h in all ensures PlacedAt(all, root, seen', h) {
      assert h in nodes ==> PlacedAt(nodes, root, seen, h);
    }
  }

  lemma SameSets(nodes: NodeMap, more: NodeMap, root: BlockChainNode)
    requires (nodes + more).Values == nodes.Values + more.Values
    requires forall n :: n in more.Values ==> Blank(n) && n != root
    ensures BuiltNodes(nodes + more, root) == BuiltNodes(nodes, root)
    ensures UpToDateNodes(nodes + more) == UpToDateNodes(nodes)
    ensures BuiltHistories(nodes + more, root) == BuiltHistories(nodes, root)
  {
  }

  lemma MoreWithoutData(nodes: NodeMap, more: NodeMap, view: View)
    requires ViewInv(nodes, view) && (nodes + more).Values == nodes.Values + more.Values
    requires forall n :: n in more.Values ==> Blank(n) && n.Hash !in nodes
    ensures ViewInv(nodes + more, view)
  {
  }

  lemma MoreBuilt(nodes: NodeMap, more: NodeMap, root: BlockChainNode, view: View)
    requires BuiltInv(nodes, root, view) && (nodes + more).Values == nodes.Values + more.Values
    requires more.Keys !! nodes.Keys && forall n :: n in more.Values ==> Blank(n) && n != root
    ensures BuiltInv(nodes + more, root, view)
  {
    var all := nodes + more;
    forall n | n in all.Values && Built(n, root) ensures BuiltAt(n, all, root, view) {
      assert BuiltAt(n, nodes, root, view);
      forall i | 0 <= i < |n.history| ensures HeightOf(all, n.history[i].hash, i + 1) {
        assert HeightOf(nodes, n.history[i].hash, i + 1);
      }
    }
  }

  lemma MoreManagers(nodes: NodeMap, more: NodeMap, root: BlockChainNode, utxoRepr: set<object>)
    requires ManagerInv(nodes, root, utxoRepr) && (nodes + more).Values == nodes.Values + more.Values
    requires forall n :: n in more.Values ==> Blank(n) && n != root
    ensures ManagerInv(nodes + more, root, utxoRepr)
  {
    forall m, n | m in (nodes + more).Values && n in (nodes + more).Values && m != n ensures Apart(m, n, utxoRepr) {
      assert m in nodes.Values && n in nodes.Values ==> Apart(m, n, utxoRepr);
    }
  }

  /** One node under a known parent. */
  lemma OneMoreNode(nodes: NodeMap, root: BlockChainNode, seen: set<Block>, view: View, utxoRepr: set<object>,
                    n: BlockChainNode)
    requires NodesInv(nodes, root, seen, view, utxoRepr) && Blank(n) && n.Hash !in nodes
    requires n.Hash == Blocks.Hash(n.Block) && n.Block in seen && Comparable(n.Block) && Verify(n.Block)
    requires n.Block.PrevHash in nodes && n.previousBlockChainNode == nodes[n.Block.PrevHash]
    ensures var all := nodes[n.Hash := n];
            && NodesInv(all, root, seen, view, utxoRepr) && all.Values == nodes.Values + {n}
            && BuiltNodes(all, root) == BuiltNodes(nodes, root) && UpToDateNodes(all) == UpToDateNodes(nodes)
            && BuiltHistories(all, root) == BuiltHistories(nodes, root)
  {
    hide ViewInv, BuiltInv, ManagerInv, Verify, BuiltNodes, UpToDateNodes, BuiltHistories;
    var more := map[n.Hash := n];
    assert more[n.Hash] == n;
    assert nodes + more == nodes[n.Hash := n] && more.Values == {n};
    MoreNodes(nodes, more, root, seen, seen, view, utxoRepr);
  }

  /** An orphan chain that hangs on `n`. */
  lemma OneMoreChain(nodes: NodeMap, root: BlockChainNode, seen: set<Block>, view: View, utxoRepr: set<object>,
                     orphans: NodeMap, top: BlockChainNode, head: BlockChainNode, n: BlockChainNode)
    requires NodesInv(nodes, root, seen, view, utxoRepr) && OrphanTree(orphans, top, head, seen, root.Block)
    requires orphans.Keys !! nodes.Keys && n.Hash in nodes && nodes[n.Hash] == n
    requires top.Block.PrevHash == n.Hash && top.previousBlockChainNode == n
    ensures var all := nodes + orphans;
            && NodesInv(all, root, seen, view, utxoRepr) && all.Values == nodes.Values + orphans.Values
            && BuiltNodes(all, root) == BuiltNodes(nodes, root) && UpToDateNodes(all) == UpToDateNodes(nodes)
            && BuiltHistories(all, root) == BuiltHistories(nodes, root)
  {
    hide TreeInv, ViewInv, BuiltInv, ManagerInv, OrphanTree, PlacedAt, BuiltNodes, UpToDateNodes, BuiltHistories;
    ChainPlaced(nodes, root, seen, orphans, top, head, n);
    MoreNodes(nodes, orphans, root, seen, seen, view, utxoRepr);
  }

  lemma ChainPlaced(nodes: NodeMap, root: BlockChainNode, seen: set<Block>, orphans: NodeMap, top: BlockChainNode,
                    head: BlockChainNode, n: BlockChainNode)
    requires TreeInv(nodes, root, seen) && OrphanTree(orphans, top, head, seen, root.Block)
    requires orphans.Keys !! nodes.Keys && n.Hash in nodes && nodes[n.Hash] == n
    requires top.Block.PrevHash == n.Hash && top.previousBlockChainNode == n
    ensures forall h :: h in orphans ==> PlacedAt(nodes + orphans, root, seen, h)
    ensures GoodHeaders(seen, root.Block) && forall m :: m in orphans.Values ==> Blank(m)
  {
    hide GoodHeaders, Verify;
    forall h | h in orphans ensures PlacedAt(nodes + orphans, root, seen, h) {
      assert HangsAt(orphans, top, seen, root.Block, h);
    }
  }

  lemma ValuesOfBoth(nodes: NodeMap, more: NodeMap)
    requires more.Keys !! nodes.Keys
    ensures (nodes + more).Values == nodes.Values + more.Values
  {
    forall n | n in nodes.Values ensures n in (nodes + more).Values {
      var h :| h in nodes && nodes[h] == n;
      assert (nodes + more)[h] == n;
    }
    forall n | n in more.Values ensures n in (nodes + more).Values {
      var h :| h in more && more[h] == n;
      assert (nodes + more)[h] == n;
    }
  }

  /** The head stays right when blank nodes join and the highest of them, if higher than the head, is queued. */
  lemma MoreToCover(all: set<BlockChainNode>, built: set<BlockChainNode>, upToDate: set<BlockChainNode>,
                    head: BlockChainNode, height: nat, queue: multiset<BlockChainNode>,
                          queue': multiset<BlockChainNode>,
                    failed: bool, more: set<BlockChainNode>, highest: BlockChainNode)
    requires HeadRight(all, built, upToDate, head, height, queue, failed) && highest in more
    requires forall n :: n in more ==> n.Block.BlockCount <= highest.Block.BlockCount
    requires queue <= queue' <= queue + multiset{highest}
    requires height < highest.Block.BlockCount ==> highest in queue'
    ensures HeadRight(all + more, built, upToDate, head, height, queue', failed)
  {
    hide Covered;
    if !failed {
      forall n | n in all + more ensures Covered(n, height, queue') {
        if n in all {
          CoverKept(n, height, queue, queue');
        } else {
          CoverNew(n, height, queue', highest);
        }
      }
    }
  }

  lemma CoverNew(n: BlockChainNode, height: nat, queue: multiset<BlockChainNode>, highest: BlockChainNode)
    requires n.Block.BlockCount <= highest.Block.BlockCount && (height < highest.Block.BlockCount ==> highest in queue)
    ensures Covered(n, height, queue)
  {
  }

  lemma CoverKept(n: BlockChainNode, height: nat, queue: multiset<BlockChainNode>, queue': multiset<BlockChainNode>)
    requires Covered(n, height, queue) && queue <= queue'
    ensures Covered(n, height, queue')
  {
    if n.Block.BlockCount > height {
      var q :| q in queue && q.Block.BlockCount >= n.Block.BlockCount;
      assert q in queue';
    }
  }
}
