/** Consequences of the invariants of a block tree, and the tree as values. */
module TreeFacts {
  import opened Bytes
  import opened Ledger
  import opened Verification
  import opened Blocks
  import opened ChainState
  import opened UtxoManagers
  import opened TreeInvariants
  import opened Building
  import opened Orphans
  import opened Updates
  import opened Pictures

  lemma QueueIsKnown(nodes: NodeMap, root: BlockChainNode, head: BlockChainNode, height: nat,
                     queue: multiset<BlockChainNode>, failed: bool)
    requires ForkInv(nodes, root, head, height, queue, failed)
    ensures forall q :: q in queue ==> q in nodes.Values
  {
  }

  lemma UpToDateAreBuilt(nodes: NodeMap, root: BlockChainNode, seen: set<Block>, view: View, utxoRepr: set<object>)
    requires NodesInv(nodes, root, seen, view, utxoRepr)
    ensures UpToDateNodes(nodes) <= BuiltNodes(nodes, root)
  {
    forall n | n in UpToDateNodes(nodes) ensures n in BuiltNodes(nodes, root) {
      assert ManagerAt(n, root, utxoRepr);
    }
  }

  /** A node that was verified, or failed to be, need not wait any longer. */
  lemma Handled(all: set<BlockChainNode>, built: set<BlockChainNode>, upToDate: set<BlockChainNode>,
                head: BlockChainNode, height: nat, queue: multiset<BlockChainNode>, failed: bool, bcn: BlockChainNode)
    requires HeadRight(all, built, upToDate, head, height, queue, failed)
    requires upToDate <= built && (bcn in upToDate || failed)
    ensures HeadRight(all, built, upToDate, head, height, queue - multiset{bcn}, failed)
  {
    if !failed {
      forall n | n in all ensures Covered(n, height, queue - multiset{bcn}) {
        assert Covered(n, height, queue);
        if n.Block.BlockCount > height {
          var q :| q in queue && q.Block.BlockCount >= n.Block.BlockCount;
          assert q in queue - multiset{bcn};
        }
      }
    }
  }

  lemma HasBlocks(g: Group)
    requires g.Valid()
    ensures g.transactionBlocks != [] && g.TransactionBlockStructs != []
  {
  }

  lemma Resolvable(nodes: NodeMap, root: BlockChainNode, seen: set<Block>, view: View, utxoRepr: set<object>)
    requires NodesInv(nodes, root, seen, view, utxoRepr)
    ensures TreeInv(nodes, root, seen) && ViewInv(nodes, view)
  {
  }

  lemma HeadIsHigh(nodes: NodeMap, root: BlockChainNode, head: BlockChainNode, height: nat,
                   queue: multiset<BlockChainNode>, failed: bool)
    requires ForkInv(nodes, root, head, height, queue, failed)
    ensures HeadRight(nodes.Values, BuiltNodes(nodes, root), UpToDateNodes(nodes), head, height, queue, failed)
    ensures height == head.Block.BlockCount && head in nodes.Values && head in UpToDateNodes(nodes)
  {
  }

  lemma HeightOfHead(all: set<BlockChainNode>, built: set<BlockChainNode>, upToDate: set<BlockChainNode>,
                     head: BlockChainNode, height: nat, queue: multiset<BlockChainNode>, failed: bool)
    requires HeadRight(all, built, upToDate, head, height, queue, failed)
    ensures height == head.Block.BlockCount
  {
  }

  /** The head of an orphan chain is its highest node, and higher than what the chain waits for. */
  lemma HighestInChain(orphans: NodeMap, top: BlockChainNode, head: BlockChainNode, seen: set<Block>, genesis: Block,
                       n: BlockChainNode)
    requires OrphanTree(orphans, top, head, seen, genesis) && GoodHeaders(seen, genesis)
    requires n.Block in seen && top.Block.PrevHash == n.Hash == Blocks.Hash(n.Block)
    ensures Highest({n} + orphans.Values, head) && head in orphans.Values
  {
    assert HangsAt(orphans, top, seen, genesis, top.Hash) && Follows(top.Block, n.Block);
    assert top in orphans.Values && InRange(top, top, head);
    assert forall m :: m in orphans.Values ==> InRange(m, top, head);
  }

  lemma MoreSeen(nodes: NodeMap, root: BlockChainNode, seen: set<Block>, seen': set<Block>, view: View,
                 utxoRepr: set<object>, leads: map<Digest, Digest>, block0: Block)
    requires NodesInv(nodes, root, seen, view, utxoRepr) && LeadsInv(leads, seen)
    requires seen' == seen + {block0} && GoodHeaders(seen', root.Block)
    ensures NodesInv(nodes, root, seen', view, utxoRepr)
    ensures LeadsInv(leads[block0.MerkleRoot := Blocks.Hash(block0)], seen')
  {
    hide ViewInv, BuiltInv, ManagerInv;
    assert nodes + map[] == nodes;
    MoreNodes(nodes, map[], root, seen, seen', view, utxoRepr);
    forall m | m in leads ensures LeadsTo(m, leads[m], seen') {
      assert LeadsTo(m, leads[m], seen);
    }
  }

  lemma GenesisIsKnown(nodes: NodeMap, root: BlockChainNode, seen: set<Block>, view: View, utxoRepr: set<object>,
                       block0: Block)
    requires NodesInv(nodes, root, seen, view, utxoRepr)
    ensures GoodHeaders(seen, root.Block) && (Blocks.Hash(block0) !in nodes ==> block0 != root.Block)
  {
    KeyOf(nodes, root, seen, root);
  }

  lemma PrevListed(nodes: NodeMap, root: BlockChainNode, seen: set<Block>, view: View, utxoRepr: set<object>,
                   prev: BlockChainNode)
    requires NodesInv(nodes, root, seen, view, utxoRepr) && prev in nodes.Values && prev.uTxOManagerIsUpToDate
    ensures prev in BuiltHistories(nodes, root) && BuiltHistories(nodes, root)[prev] == prev.history
  {
    UpToDateIsBuilt(nodes, root, utxoRepr, prev);
  }

  lemma NodeFacts(nodes: NodeMap, root: BlockChainNode, seen: set<Block>, view: View, utxoRepr: set<object>,
                  bcn: BlockChainNode)
    requires NodesInv(nodes, root, seen, view, utxoRepr) && bcn in nodes.Values
    ensures bcn.previousBlockChainNode != null && bcn.previousBlockChainNode in nodes.Values
    ensures bcn != root ==> bcn.Block.BlockCount == bcn.previousBlockChainNode.Block.BlockCount + 1
  {
    if bcn != root {
      OneHigher(nodes, root, seen, bcn);
    }
  }

  /** A node that was verified once will be accepted again, and so will all nodes before it. */
  lemma BuiltIsAcceptable(nodes: NodeMap, root: BlockChainNode, seen: set<Block>, view: View, utxoRepr: set<object>,
                          bcn: BlockChainNode)
    requires NodesInv(nodes, root, seen, view, utxoRepr) && bcn in nodes.Values && bcn != root && Built(bcn, root)
    ensures bcn.hasData && bcn.Hash in view && bcn.previousBlockChainNode != null
    ensures Built(bcn.previousBlockChainNode, root)
    ensures Acceptable(RecordOf(bcn, view).blocks, Replay(bcn.previousBlockChainNode.history))
  {
    hide TreeInv, ViewInv, ManagerInv, Replay, GroupRefs, RefsOk, GroupPasses;
    assert BuiltAt(bcn, nodes, root, view);
    HasDataIff(nodes, view, bcn);
    var n := |bcn.history| - 1;
    assert AcceptedAt(bcn.history, n) && GroupPasses(bcn.history[n].blocks);
    assert bcn.history[..n] == bcn.previousBlockChainNode.history;
  }

  lemma HasDataInView(nodes: NodeMap, root: BlockChainNode, seen: set<Block>, view: View, utxoRepr: set<object>,
                      bcn: BlockChainNode)
    requires NodesInv(nodes, root, seen, view, utxoRepr) && bcn in nodes.Values
    ensures bcn.hasData <==> bcn.Hash in view
  {
    HasDataIff(nodes, view, bcn);
  }

  lemma DataAndManager(nodes: NodeMap, root: BlockChainNode, seen: set<Block>, view: View, utxoRepr: set<object>,
                       bcn: BlockChainNode, prev: BlockChainNode)
    requires NodesInv(nodes, root, seen, view, utxoRepr) && Ready(nodes, root, view, bcn, prev)
    ensures bcn.dataPointer == Some(view[bcn.Hash])
    ensures prev.uTxOManagerPointer in utxoRepr && prev.uTxOManagerPointer.Valid()
    ensures prev.uTxOManagerPointer.Contents == Replay(prev.history) && Built(prev, root)
  {
    HasDataIff(nodes, view, bcn);
    UpToDateIsBuilt(nodes, root, utxoRepr, prev);
  }

  lemma NewFacts(nodes: NodeMap, root: BlockChainNode, seen: set<Block>, view: View, utxoRepr: set<object>,
                 before: NodeMap, n: BlockChainNode)
    requires NodesInv(nodes, root, seen, view, utxoRepr) && nodes == before[n.Hash := n]
    ensures n.Hash == Blocks.Hash(n.Block) && n.Block in seen
  {
    assert nodes[n.Hash] == n;
    KeyOf(nodes, root, seen, n);
  }

  // ---------------------------------------------------------------- the tree as values

  lemma RootOnly(nodes: NodeMap, root: BlockChainNode, seen: set<Block>, n: BlockChainNode)
    requires TreeInv(nodes, root, seen) && n in nodes.Values
    ensures n.Hash in nodes && nodes[n.Hash] == n && (n.Block.BlockCount == 0 <==> n == root)
    ensures n != root ==>
              && HasParent(nodes, n) && Parent(nodes, n) == n.previousBlockChainNode
              && n.Block.BlockCount == Parent(nodes, n).Block.BlockCount + 1
  {
    KeyOf(nodes, root, seen, n);
    if n != root {
      OneHigher(nodes, root, seen, n);
      assert PlacedAt(nodes, root, seen, n.Hash);
    }
  }

  ghost function Seen(nodes: NodeMap, root: BlockChainNode, view: View, head: BlockChainNode, height: nat): Snapshot
    reads nodes.Values`verifiedWithUtxoManager, nodes.Values`history, nodes.Values`uTxOManagerIsUpToDate
  {
    Snapshot(BuiltHistories(nodes, root), UpToDateNodes(nodes), view, head, height)
  }

  lemma SeenAtFirst(root: BlockChainNode)
    requires root.history == [] && root.uTxOManagerIsUpToDate
    ensures Seen(map[root.Hash := root], root, map[], root, 0) == FirstPicture(root).now
  {
    var nodes := map[root.Hash := root];
    assert nodes[root.Hash] in nodes.Values && nodes.Values == {root};
  }

  lemma StandsThere(nodes: NodeMap, root: BlockChainNode, seen: set<Block>, view: View, utxoRepr: set<object>,
                    head: BlockChainNode, height: nat, n: BlockChainNode)
    requires NodesInv(nodes, root, seen, view, utxoRepr) && n in nodes.Values
    ensures StandsIn(nodes, Seen(nodes, root, view, head, height), n)
  {
    hide ViewInv, BuiltInv;
    RootOnly(nodes, root, seen, n);
    assert ManagerAt(n, root, utxoRepr);
  }

  lemma VerifiedThere(nodes: NodeMap, root: BlockChainNode, seen: set<Block>, view: View, utxoRepr: set<object>,
                      head: BlockChainNode, height: nat, n: BlockChainNode)
    requires NodesInv(nodes, root, seen, view, utxoRepr) && n in nodes.Values && Built(n, root)
    ensures VerifiedIn(nodes, Seen(nodes, root, view, head, height), n)
  {
    hide ViewInv, Acceptable, Replay;
    RootOnly(nodes, root, seen, n);
    assert ManagerAt(n, root, utxoRepr) && BuiltAt(n, nodes, root, view);
    if n != root {
      BuiltIsAcceptable(nodes, root, seen, view, utxoRepr, n);
    }
  }

  /** What the nodes say of themselves is consistent. */
  lemma SeenIsConsistent(nodes: NodeMap, root: BlockChainNode, seen: set<Block>, view: View, utxoRepr: set<object>,
                         head: BlockChainNode, height: nat, queue: multiset<BlockChainNode>, failed: bool)
    requires NodesInv(nodes, root, seen, view, utxoRepr) && ForkInv(nodes, root, head, height, queue, failed)
    ensures Consistent(nodes, Seen(nodes, root, view, head, height))
  {
    hide NodesInv, StandsIn, VerifiedIn;
    var now := Seen(nodes, root, view, head, height);
    UpToDateAreBuilt(nodes, root, seen, view, utxoRepr);
    forall n | n in nodes.Values ensures StandsIn(nodes, now, n) {
      StandsThere(nodes, root, seen, view, utxoRepr, head, height, n);
    }
    forall n | n in now.histories ensures VerifiedIn(nodes, now, n) {
      VerifiedThere(nodes, root, seen, view, utxoRepr, head, height, n);
    }
  }

  /** What a node with its data shows. */
  lemma DataToShow(nodes: NodeMap, root: BlockChainNode, seen: set<Block>, view: View, utxoRepr: set<object>,
                   n: BlockChainNode)
    requires NodesInv(nodes, root, seen, view, utxoRepr) && n in nodes.Values && n.hasData
    ensures n.Hash in view && n.dataPointer == Some(view[n.Hash])
    ensures view[n.Hash].Valid() && 0 < |view[n.Hash].transactionBlocks| < 256
  {
    HasDataIff(nodes, view, n);
  }
}
