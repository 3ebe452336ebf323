/** One verified step down the block tree: a node takes over the manager of the node before it. */
module Building {
  import opened Ledger
  import opened Verification
  import opened Blocks
  import opened ChainState
  import opened UtxoManagers
  import opened TreeInvariants

  /** The record a node adds to the history of the node before it. */
  function RecordOf(n: BlockChainNode, view: View): Record
    requires n.Hash in view
  {
    Record(n.Hash, view[n.Hash].TransactionBlockStructs)
  }

  /** `bcn` holds data and the node before it, `prev`, is up to date. */
  ghost predicate Ready(nodes: NodeMap, root: BlockChainNode, view: View, bcn: BlockChainNode, prev: BlockChainNode)
    reads bcn`previousBlockChainNode, bcn`uTxOManagerIsUpToDate, prev`uTxOManagerIsUpToDate
  {
    && bcn in nodes.Values && bcn != root && bcn.Hash in view && !bcn.uTxOManagerIsUpToDate
    && prev in nodes.Values && bcn.previousBlockChainNode == prev && prev.uTxOManagerIsUpToDate
  }

  lemma HistoryGrows(nodes: NodeMap, root: BlockChainNode, seen: set<Block>, view: View, bcn: BlockChainNode)
    requires TreeInv(nodes, root, seen) && ViewInv(nodes, view) && BuiltInv(nodes, root, view)
    requires bcn in nodes.Values && bcn != root && bcn.Hash in view
    requires bcn.previousBlockChainNode in nodes.Values && Built(bcn.previousBlockChainNode, root)
    requires var prev := bcn.previousBlockChainNode;
             RefsOk(Replay(prev.history), GroupRefs(RecordOf(bcn, view).blocks))
                 && GroupPasses(RecordOf(bcn, view).blocks)
    ensures var prev := bcn.previousBlockChainNode;
            var history := prev.history + [RecordOf(bcn, view)];
            && |history| == bcn.Block.BlockCount
            && Accepted(history) && AllPass(history) && InView(view, history)
            && (forall i :: 0 <= i < |history| ==> HeightOf(nodes, history[i].hash, i + 1))
            && Replay(history) == ApplyGroup(Replay(prev.history), bcn.Hash, RecordOf(bcn, view).blocks)
            && (Built(bcn, root) ==> bcn.history == history)
  {
    hide TreeInv, ViewInv, Replay, GroupRefs, RefsOk, GroupPasses, Accepted, ApplyGroup;
    var prev := bcn.previousBlockChainNode;
    assert BuiltAt(prev, nodes, root, view);
    OneHigher(nodes, root, seen, bcn);
    AcceptedExtend(prev.history, RecordOf(bcn, view));
    var history := prev.history + [RecordOf(bcn, view)];
    forall i | 0 <= i < |history| ensures HeightOf(nodes, history[i].hash, i + 1) {
      if i < |prev.history| {
        assert HeightOf(nodes, prev.history[i].hash, i + 1);
      }
    }
  }

  /** Marks `bcn` as verified. */
  method MarkVerified(ghost nodes: NodeMap, ghost root: BlockChainNode, ghost seen: set<Block>, ghost view: View,
                      bcn: BlockChainNode)
    requires TreeInv(nodes, root, seen) && ViewInv(nodes, view) && BuiltInv(nodes, root, view)
    requires bcn in nodes.Values && bcn != root && bcn.Hash in view
    requires bcn.previousBlockChainNode in nodes.Values && Built(bcn.previousBlockChainNode, root)
    requires var prev := bcn.previousBlockChainNode;
             RefsOk(Replay(prev.history), GroupRefs(RecordOf(bcn, view).blocks))
                 && GroupPasses(RecordOf(bcn, view).blocks)
    modifies bcn`verifiedWithUtxoManager, bcn`history
    ensures BuiltInv(nodes, root, view) && bcn.verifiedWithUtxoManager
    ensures bcn.history == bcn.previousBlockChainNode.history + [RecordOf(bcn, view)]
    ensures Replay(bcn.history)
         == ApplyGroup(Replay(bcn.previousBlockChainNode.history), bcn.Hash, RecordOf(bcn, view).blocks)
    ensures old(Built(bcn, root)) ==> bcn.history == old(bcn.history)
  {
    hide TreeInv, ViewInv, Accepted, AllPass, InView, GroupPasses, RefsOk, GroupRefs, Replay, ApplyGroup, HeightOf;
    HistoryGrows(nodes, root, seen, view, bcn);
    OneHigher(nodes, root, seen, bcn);
    bcn.verifiedWithUtxoManager := true;
    bcn.history := bcn.previousBlockChainNode.history + [RecordOf(bcn, view)];
    forall n | n in nodes.Values && Built(n, root) ensures BuiltAt(n, nodes, root, view) {
      if n != bcn {
        assert old(BuiltAt(n, nodes, root, view));
      }
    }
  }

  /** What a verified node adds to the histories. */
  lemma OneMoreHistory(nodes: NodeMap, root: BlockChainNode, before: map<BlockChainNode, seq<Record>>,
                       built: set<BlockChainNode>, bcn: BlockChainNode)
    requires bcn in nodes.Values && Built(bcn, root) && before.Keys == built
    requires forall n :: n in nodes.Values && n != bcn ==> (Built(n, root) <==> n in built)
    requires forall n :: n in built && n != bcn ==> n in nodes.Values && before[n] == n.history
    requires bcn in built ==> bcn in nodes.Values
    ensures BuiltHistories(nodes, root) == before[bcn := bcn.history]
    ensures BuiltNodes(nodes, root) == built + {bcn}
  {
  }

  /** What it changes of the nodes that are up to date. */
  lemma OneMoreUpToDate(nodes: NodeMap, before: set<BlockChainNode>, bcn: BlockChainNode, prev: BlockChainNode)
    requires before <= nodes.Values && bcn in nodes.Values && prev in before && bcn != prev
    requires forall n :: n in nodes.Values && n != bcn && n != prev ==> (n.uTxOManagerIsUpToDate <==> n in before)
    requires bcn.uTxOManagerIsUpToDate && (prev.uTxOManagerIsUpToDate <==> bcn.Block.BlockCount % 5 == 1)
    ensures UpToDateNodes(nodes) == before + {bcn} - if bcn.Block.BlockCount % 5 == 1 then {} else {prev}
  {
  }

  // ---------------------------------------------------------------- managers with their objects

  /** What `ManagerInv` says of `n` alone, when its manager consists of `repr`. */
  ghost predicate Settled(n: BlockChainNode, root: BlockChainNode, repr: set<object>)
    reads n`verifiedWithUtxoManager, n`history, n`uTxOManagerIsUpToDate, n`uTxOManagerPointer, repr
  {
    && (n.uTxOManagerIsUpToDate <==> n.uTxOManagerPointer != null)
    && (n.uTxOManagerPointer == null ==> repr == {})
    && (n.uTxOManagerPointer != null ==>
          && n.uTxOManagerPointer in repr && n.uTxOManagerPointer.Repr == repr && n.uTxOManagerPointer.Valid()
          && n.uTxOManagerPointer.attachedBlockChainNode == n && n.uTxOManagerPointer.Contents == Replay(n.history))
    && (n.uTxOManagerIsUpToDate ==> Built(n, root))
    && (Built(n, root) && n.Block.BlockCount % 5 == 0 ==> n.uTxOManagerIsUpToDate)
  }

  ghost predicate NoneOverlap(reprs: map<BlockChainNode, set<object>>) {
    forall m, n :: m in reprs && n in reprs && m != n ==> reprs[m] !! reprs[n]
  }

  ghost predicate AllSettled(reprs: map<BlockChainNode, set<object>>, root: BlockChainNode, utxoRepr: set<object>)
    reads reprs.Keys`verifiedWithUtxoManager, reprs.Keys`history, reprs.Keys`uTxOManagerIsUpToDate
    reads reprs.Keys`uTxOManagerPointer, utxoRepr
  {
    && (forall o :: o in utxoRepr ==> o is UTxOManager || o is BlockOutputs || o is OutputFlags)
    && NoneOverlap(reprs) && forall n :: n in reprs ==> reprs[n] <= utxoRepr && Settled(n, root, reprs[n])
  }

  lemma Settle(nodes: NodeMap, root: BlockChainNode, utxoRepr: set<object>)
    returns (reprs: map<BlockChainNode, set<object>>)
    requires ManagerInv(nodes, root, utxoRepr)
    ensures reprs.Keys == nodes.Values && AllSettled(reprs, root, utxoRepr)
  {
    reprs := map n | n in nodes.Values :: if n.uTxOManagerPointer == null then {} else n.uTxOManagerPointer.Repr;
    forall n | n in reprs ensures reprs[n] <= utxoRepr && Settled(n, root, reprs[n]) {
      assert ManagerAt(n, root, utxoRepr);
    }
    forall m, n | m in reprs && n in reprs && m != n ensures reprs[m] !! reprs[n] {
      assert Apart(m, n, utxoRepr);
    }
  }

  lemma Unsettle(nodes: NodeMap, root: BlockChainNode, utxoRepr: set<object>,
                 reprs: map<BlockChainNode, set<object>>)
    requires reprs.Keys == nodes.Values && AllSettled(reprs, root, utxoRepr)
    ensures ManagerInv(nodes, root, utxoRepr)
  {
    forall n | n in nodes.Values ensures ManagerAt(n, root, utxoRepr) {
      assert Settled(n, root, reprs[n]);
    }
    forall m, n | m in nodes.Values && n in nodes.Values && m != n ensures Apart(m, n, utxoRepr) {
      assert Settled(m, root, reprs[m]) && Settled(n, root, reprs[n]);
    }
  }

  lemma SettledOne(reprs: map<BlockChainNode, set<object>>, root: BlockChainNode, utxoRepr: set<object>,
                   n: BlockChainNode)
    requires AllSettled(reprs, root, utxoRepr) && n in reprs && n.uTxOManagerIsUpToDate
    ensures var um := n.uTxOManagerPointer;
            && um != null && um in utxoRepr && um.Repr == reprs[n] && um.Repr <= utxoRepr && um.Valid()
            && um.attachedBlockChainNode == n && um.Contents == Replay(n.history)
    ensures Built(n, root)
  {
    assert Settled(n, root, reprs[n]);
  }

  lemma SettledEach(reprs: map<BlockChainNode, set<object>>, root: BlockChainNode, utxoRepr: set<object>,
                    prev: BlockChainNode)
    requires AllSettled(reprs, root, utxoRepr) && prev in reprs
    ensures NoneOverlap(reprs) && forall n :: n in reprs ==> reprs[n] <= utxoRepr && Settled(n, root, reprs[n])
    ensures forall n :: n in reprs && n != prev ==> reprs[n] !! reprs[prev]
    ensures forall o :: o in utxoRepr ==> o is UTxOManager || o is BlockOutputs || o is OutputFlags
  {
    hide Settled;
  }

  /** Without a node that has no manager. */
  lemma AllButOne(reprs: map<BlockChainNode, set<object>>, root: BlockChainNode, utxoRepr: set<object>,
                  n: BlockChainNode)
    requires AllSettled(reprs, root, utxoRepr)
    ensures AllSettled(reprs - {n}, root, utxoRepr)
  {
    hide Settled;
  }

  /** The objects of `prev` went to `bcn`, with fresh ones; `prev` has fresh ones or none. */
  lemma StillApart(reprs: map<BlockChainNode, set<object>>, root: BlockChainNode, utxoRepr: set<object>,
                   bcn: BlockChainNode, prev: BlockChainNode, moved: set<object>, copied: set<object>,
                   before: set<object>)
    requires NoneOverlap(reprs) && (forall n :: n in reprs ==> reprs[n] <= utxoRepr) && bcn !in reprs && prev in reprs
    requires moved * utxoRepr <= before == reprs[prev] && copied !! utxoRepr && copied !! moved
    requires Settled(bcn, root, moved) && Settled(prev, root, copied)
    requires forall n :: n in reprs && n != prev ==> Settled(n, root, reprs[n])
    requires forall o :: o in utxoRepr + moved + copied ==> o is UTxOManager || o is BlockOutputs || o is OutputFlags
    ensures AllSettled(reprs[bcn := moved][prev := copied], root, utxoRepr + moved + copied)
  {
    hide Settled;
    var reprs' := reprs[bcn := moved][prev := copied];
    forall m, n | m in reprs' && n in reprs' && m != n ensures reprs'[m] !! reprs'[n] {
      assert m != bcn && m != prev ==> reprs[m] <= utxoRepr && reprs[m] !! reprs[prev];
      assert n != bcn && n != prev ==> reprs[n] <= utxoRepr && reprs[n] !! reprs[prev];
    }
  }

  /** The update itself, when `bcn` is marked as verified and has no manager yet. */
  method ShiftManager(ghost reprs: map<BlockChainNode, set<object>>, ghost root: BlockChainNode,
                      ghost utxoRepr: set<object>, bcn: BlockChainNode, prev: BlockChainNode)
    returns (err: UpdateError, ghost utxoRepr': set<object>, ghost reprs': map<BlockChainNode, set<object>>)
    requires AllSettled(reprs, root, utxoRepr) && bcn !in reprs && prev in reprs && prev.uTxOManagerIsUpToDate
    requires bcn.previousBlockChainNode == prev && bcn.Block.BlockCount == prev.Block.BlockCount + 1
    requires bcn.dataPointer.Some? && CountsMatch(bcn.dataPointer.value) && Built(bcn, root)
    requires RefsOk(Replay(prev.history), RefsOf(bcn.dataPointer.value))
    requires var blocks := bcn.dataPointer.value.TransactionBlockStructs;
             Replay(bcn.history) == ApplyGroup(Replay(prev.history), bcn.Hash, blocks)
    requires forall n :: n in reprs ==> n !in utxoRepr
    requires bcn !in utxoRepr
    modifies bcn`uTxOManagerIsUpToDate, bcn`uTxOManagerPointer
    modifies prev`uTxOManagerIsUpToDate, prev`uTxOManagerPointer, utxoRepr
    ensures err == NoError && utxoRepr <= utxoRepr' && fresh(utxoRepr' - utxoRepr)
    ensures reprs'.Keys == reprs.Keys + {bcn} && AllSettled(reprs', root, utxoRepr')
    ensures bcn.uTxOManagerIsUpToDate && (prev.uTxOManagerIsUpToDate <==> bcn.Block.BlockCount % 5 == 1)
  {
    hide Replay, ApplyGroup, RefsOk, RefsOf, UTxOManager.Valid, UTxOManager.Nested, AllSettled, Settled;
    var keepCopy := bcn.Block.BlockCount % 5 == 1;
    SettledOne(reprs, root, utxoRepr, prev);
    SettledEach(reprs, root, utxoRepr, prev);
    var prevUTXO := prev.uTxOManagerPointer;
    var waiting;
    err, waiting := prevUTXO.updateWithNextBlockChainNode(bcn, keepCopy);
    ghost var copied := if keepCopy then prev.uTxOManagerPointer.Repr else {};
    utxoRepr' := utxoRepr + prevUTXO.Repr + copied;
    reprs' := reprs[bcn := prevUTXO.Repr][prev := copied];
    NowSettled(bcn, root, prevUTXO);
    NowSettled(prev, root, prev.uTxOManagerPointer);
    StillApart(reprs, root, utxoRepr, bcn, prev, prevUTXO.Repr, copied, reprs[prev]);
  }

  lemma NowSettled(n: BlockChainNode, root: BlockChainNode, um: UTxOManager?)
    requires n.uTxOManagerPointer == um && (n.uTxOManagerIsUpToDate <==> um != null) && Built(n, root)
    requires um != null ==> um.Valid() && um.attachedBlockChainNode == n && um.Contents == Replay(n.history)
    requires um == null ==> n.Block.BlockCount % 5 != 0
    ensures Settled(n, root, if um == null then {} else um.Repr)
  {
  }

  /** Moves the manager of the node before `bcn` to `bcn`; every fifth time a savepoint stays behind. */
  method MoveManager(ghost nodes: NodeMap, ghost root: BlockChainNode, ghost seen: set<Block>, ghost view: View,
                     ghost utxoRepr: set<object>, bcn: BlockChainNode, prev: BlockChainNode)
    returns (err: UpdateError, ghost utxoRepr': set<object>)
    requires TreeInv(nodes, root, seen) && ViewInv(nodes, view) && BuiltInv(nodes, root, view)
    requires ManagerInv(nodes, root, utxoRepr) && Ready(nodes, root, view, bcn, prev)
    requires RefsOk(Replay(prev.history), GroupRefs(RecordOf(bcn, view).blocks))
    requires GroupPasses(RecordOf(bcn, view).blocks)
    modifies bcn`verifiedWithUtxoManager, bcn`history, bcn`uTxOManagerIsUpToDate, bcn`uTxOManagerPointer
    modifies prev`uTxOManagerIsUpToDate, prev`uTxOManagerPointer, utxoRepr
    ensures err == NoError
    ensures BuiltInv(nodes, root, view) && ManagerInv(nodes, root, utxoRepr')
    ensures utxoRepr <= utxoRepr' && fresh(utxoRepr' - utxoRepr)
    ensures bcn.verifiedWithUtxoManager && bcn.uTxOManagerIsUpToDate
    ensures bcn.history == prev.history + [RecordOf(bcn, view)]
    ensures old(Built(bcn, root)) ==> bcn.history == old(bcn.history)
    ensures prev.uTxOManagerIsUpToDate <==> bcn.Block.BlockCount % 5 == 1
  {
    hide TreeInv, ViewInv, BuiltInv, ManagerInv, Replay, ApplyGroup, GroupRefs, RefsOk, GroupPasses, AllSettled;
    ghost var reprs := Settle(nodes, root, utxoRepr);
    NodesAreNoManagers(nodes, root, utxoRepr);
    SettledOne(reprs, root, utxoRepr, prev);
    OneHigher(nodes, root, seen, bcn);
    HasDataIff(nodes, view, bcn);
    CountsOfGroup(view[bcn.Hash]);
    AllButOne(reprs, root, utxoRepr, bcn);
    reprs := reprs - {bcn};
    MarkVerified(nodes, root, seen, view, bcn);
    err, utxoRepr', reprs := ShiftManager(reprs, root, utxoRepr, bcn, prev);
    Unsettle(nodes, root, utxoRepr', reprs);
  }

  lemma NodesAreNoManagers(nodes: NodeMap, root: BlockChainNode, utxoRepr: set<object>)
    requires ManagerInv(nodes, root, utxoRepr)
    ensures forall n :: n in nodes.Values ==> n !in utxoRepr
  {
  }

  lemma CountsOfGroup(g: Group)
    requires g.Valid()
    ensures CountsMatch(g)
  {
    forall k | 0 <= k < |g.TransactionBlockStructs| ensures g.TransactionBlockStructs[k].CountsMatch() {
      assert BlockMatches(g.TransactionBlockStructs[k], g.transactionBlocks[k]);
    }
  }

  /** The head stays up to date, and is still the highest verified node. */
  lemma HeadMoves(all: set<BlockChainNode>, queue: multiset<BlockChainNode>, failed: bool,
                  built: set<BlockChainNode>, upToDate: set<BlockChainNode>, head: BlockChainNode, height: nat,
                  built': set<BlockChainNode>, upToDate': set<BlockChainNode>, head': BlockChainNode, height': nat,
                  bcn: BlockChainNode, prev: BlockChainNode)
    requires HeadRight(all, built, upToDate, head, height, queue, failed)
    requires bcn.Block.BlockCount == prev.Block.BlockCount + 1
    requires built' == built + {bcn} && bcn in upToDate' && upToDate - {prev} <= upToDate'
    requires head' == if bcn.Block.BlockCount > height then bcn else head
    requires height' == if bcn.Block.BlockCount > height then bcn.Block.BlockCount else height
    ensures HeadRight(all, built', upToDate', head', height', queue, failed)
  {
    if !failed {
      forall n | n in all ensures Covered(n, height', queue) {
        assert Covered(n, height, queue);
      }
    }
  }

  lemma ForkFails(nodes: NodeMap, root: BlockChainNode, queue: multiset<BlockChainNode>, failed: bool,
                  head: BlockChainNode, height: nat)
    requires ForkInv(nodes, root, head, height, queue, failed)
    ensures ForkInv(nodes, root, head, height, queue, true)
  {
  }

  lemma UpToDateIsBuilt(nodes: NodeMap, root: BlockChainNode, utxoRepr: set<object>, n: BlockChainNode)
    requires ManagerInv(nodes, root, utxoRepr) && n in nodes.Values && n.uTxOManagerIsUpToDate
    ensures Built(n, root) && n.uTxOManagerPointer in utxoRepr && n.uTxOManagerPointer.Valid()
    ensures n.uTxOManagerPointer.Contents == Replay(n.history) && n.uTxOManagerPointer.attachedBlockChainNode == n
  {
    assert ManagerAt(n, root, utxoRepr);
  }
}
