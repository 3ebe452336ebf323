/** Inputs on which the program does not keep what it is meant to keep, and exactly when it does. */
module Limits {
  import opened Bytes
  import opened Transactions
  import opened Ledger
  import opened Verification
  import opened Supply
  import opened Blocks
  import opened UtxoManagers
  import opened TreeInvariants
  import opened GroupBuilding
  import opened TransactionPools

  const HALF: Uint64 := 0x8000_0000_0000_0000

  /** A signed block without inputs and with two outputs of 2^63 each. */
  function Forged(priv: Bytes, pub: PublicKey, text: Text): TransactionBlock {
    var o := TransactionOutput(HALF, Zeros(128), pub, text);
    SignBlock(TransactionBlock(0, 2, [], [o, o], Zeros(128), pub), priv)
  }

  /** Whoever has a key pair can forge: the chain that consists of this one block passes every check there is, and its
      outputs are worth far more than one coin. */
  lemma ForgedChainIsVerified(priv: Bytes, pub: PublicKey, text: Text, hash: Digest)
    requires KeyPair(priv, pub)
    ensures var chain := [Record(hash, [Forged(priv, pub, text)])];
            && Supply.Verified(chain) && !NoOverflow(chain) && !SupplyIsBounded(chain)
            && SupplyAfter(chain, 1) == TWO_TO_THE_64 > DAVIDCOIN
  {
    hide Forged, Passes, SupplyIsBounded;
    ForgedPasses(priv, pub, text);
    OneBlockChain(Forged(priv, pub, text), hash);
  }

  lemma OneBlockChain(tb: TransactionBlock, hash: Digest)
    requires tb.CountsMatch() && tb.Refs() == [] && Passes(tb, true) && OutputSum(tb.OutputList) == TWO_TO_THE_64
    ensures var chain := [Record(hash, [tb])];
            && Supply.Verified(chain) && !NoOverflow(chain) && !SupplyIsBounded(chain)
            && SupplyAfter(chain, 1) == TWO_TO_THE_64
  {
    hide Passes, Resolves, Replay, OutputSum, SupplyIsBounded;
    var chain := [Record(hash, [tb])];
    assert chain[..0] == [] && [tb][..0] == [] && GroupRefs([tb]) == [];
    NothingSpent(chain);
    assert Numbered(chain[0].blocks);
    assert GroupPasses(chain[0].blocks);
    assert VerifiedAt(chain, 0);
    assert !OutputsFit(chain[0].blocks[0]);
    MoneySupply(chain);
    SupplyStep(chain, 0);
    assert GroupOutputSum([tb]) == OutputSum(tb.OutputList);
  }

  lemma NothingSpent(chain: seq<Record>)
    requires |chain| == 1 && GroupRefs(chain[0].blocks) == []
    ensures AcceptedAt(chain, 0) && SupplyAfter(chain, 0) == 0
  {
    assert chain[..0] == [];
  }

  lemma ForgedPasses(priv: Bytes, pub: PublicKey, text: Text)
    requires KeyPair(priv, pub)
    ensures var tb := Forged(priv, pub, text); tb.CountsMatch() && tb.Refs() == [] && Passes(tb, true)
    ensures OutputSum(Forged(priv, pub, text).OutputList) == TWO_TO_THE_64
  {
    var o := TransactionOutput(HALF, Zeros(128), pub, text);
    var unsigned := TransactionBlock(0, 2, [], [o, o], Zeros(128), pub);
    OverflowBreaksRule(o, unsigned);
    SignedBlockIsAccepted(unsigned, priv);
    assert [o, o][..1] == [o] && [o][..0] == [];
    assert OutputSum([o]) == HALF;
  }

  /** Why heights matter: the decision to keep a copy looks only at the height of the new block.  Whatever height a
      child of the root claims, afterwards the root has a manager exactly if that height is 1 mod 5. */
  method BuildOnRoot(um: UTxOManager, root: BlockChainNode, bcn: BlockChainNode) returns (err: UpdateError)
    requires um.Valid() && um.attachedBlockChainNode == root && root.uTxOManagerPointer == um
    requires root.uTxOManagerIsUpToDate && root.previousBlockChainNode == root
    requires bcn != root && bcn.previousBlockChainNode == root
    requires bcn.dataPointer.Some? && CountsMatch(bcn.dataPointer.value)
    requires RefsOk(um.Contents, RefsOf(bcn.dataPointer.value))
    modifies um.Repr
    modifies bcn`uTxOManagerIsUpToDate, bcn`uTxOManagerPointer
    modifies root`uTxOManagerIsUpToDate, root`uTxOManagerPointer
    ensures err == NoError && bcn.uTxOManagerPointer == um && bcn.uTxOManagerIsUpToDate
    ensures root.uTxOManagerIsUpToDate <==> bcn.Block.BlockCount % 5 == 1
    ensures root.uTxOManagerPointer != null <==> bcn.Block.BlockCount % 5 == 1
  {
    hide UTxOManager.Valid, UTxOManager.Nested, RefsOk;
    var keepCopy := bcn.Block.BlockCount % 5 == 1;
    var waiting;
    err, waiting := um.updateWithNextBlockChainNode(bcn, keepCopy);
  }

  /** A child of the root that claims to be the second block takes the only manager away. */
  method LoseTheRoot(genesis: Block, header: Block, g: Group) returns (root: BlockChainNode, bcn: BlockChainNode)
    requires Comparable(genesis) && Verify(genesis) && genesis.BlockCount == 0
    requires header.PrevHash == Blocks.Hash(genesis) && header.BlockCount == 2
    requires CountsMatch(g) && RefsOf(g) == []
    ensures fresh(root) && fresh(bcn) && root.Block == genesis && bcn.Block == header
    ensures bcn.previousBlockChainNode == root && root.previousBlockChainNode == root
    ensures bcn.uTxOManagerIsUpToDate
    ensures !root.uTxOManagerIsUpToDate && root.uTxOManagerPointer == null
  {
    hide UTxOManager.Valid, UTxOManager.Nested, NodesInv, ForkInv;
    var um;
    root := new BlockChainNode(genesis);
    root.previousBlockChainNode := root;
    um := new UTxOManager.initializeUTxOMananger(root);
    root.uTxOManagerPointer := um;
    bcn := new BlockChainNode(header);
    bcn.previousBlockChainNode := root;
    bcn.dataPointer := Some(g);
    bcn.hasData := true;
    var err := BuildOnRoot(um, root, bcn);
  }

  /** Why a mined header has to be new: to enter another node under the hash of the head is to lose the head. */
  lemma OverwritingLosesTheHead(nodes: NodeMap, root: BlockChainNode, seen: set<Block>, head: BlockChainNode,
                                height: nat, queue: multiset<BlockChainNode>, failed: bool, n: BlockChainNode)
    requires TreeInv(nodes, root, seen) && ForkInv(nodes, root, head, height, queue, failed) && n !in nodes.Values
    ensures head.Hash in nodes && !ForkInv(nodes[head.Hash := n], root, head, height, queue, failed)
  {
    KeyOf(nodes, root, seen, head);
    var nodes' := nodes[head.Hash := n];
    forall h | h in nodes' ensures nodes'[h] != head {
      if h != head.Hash {
        KeyOf(nodes, root, seen, nodes[h]);
        assert PlacedAt(nodes, root, seen, h);
      }
    }
    assert head !in nodes'.Values;
    assert head !in BuiltNodes(nodes', root);
  }

  /** To enter another node under a hash that is known, with the same header, keeps the tree in order exactly if the
      node that is replaced is not the root and nothing was built on it. */
  lemma OverwritingExactly(nodes: NodeMap, root: BlockChainNode, seen: set<Block>, h: Digest, n: BlockChainNode)
    requires TreeInv(nodes, root, seen) && h in nodes && n !in nodes.Values
    requires n.Hash == h && n.Block == nodes[h].Block
    requires n.previousBlockChainNode == nodes[h].previousBlockChainNode
    ensures TreeInv(nodes[h := n], root, seen) <==>
            nodes[h] != root && forall m :: m in nodes.Values && m != nodes[h] ==> m.previousBlockChainNode != nodes[h]
  {
    hide TreeInv;
    if TreeInv(nodes[h := n], root, seen) {
      OverwrittenHadNoChild(nodes, root, seen, h, n);
    }
    if nodes[h] != root && forall m :: m in nodes.Values && m != nodes[h] ==> m.previousBlockChainNode != nodes[h] {
      OverwrittenLeaf(nodes, root, seen, h, n);
    }
  }

  lemma OverwrittenHadNoChild(nodes: NodeMap, root: BlockChainNode, seen: set<Block>, h: Digest, n: BlockChainNode)
    requires TreeInv(nodes, root, seen) && h in nodes && n !in nodes.Values && TreeInv(nodes[h := n], root, seen)
    ensures nodes[h] != root
    ensures forall m :: m in nodes.Values && m != nodes[h] ==> m.previousBlockChainNode != nodes[h]
  {
    hide Verify;
    var nodes' := nodes[h := n];
    assert nodes'[h] == n && nodes'[root.Hash] == root;
    KeyOf(nodes, root, seen, nodes[h]);
    forall m | m in nodes.Values && m != nodes[h] ensures m.previousBlockChainNode != nodes[h] {
      KeyOf(nodes, root, seen, m);
      assert nodes'[m.Hash] == m && PlacedAt(nodes', root, seen, m.Hash) && PlacedAt(nodes, root, seen, m.Hash);
    }
  }

  lemma OverwrittenLeaf(nodes: NodeMap, root: BlockChainNode, seen: set<Block>, h: Digest, n: BlockChainNode)
    requires TreeInv(nodes, root, seen) && h in nodes && n !in nodes.Values && nodes[h] != root
    requires n.Hash == h && n.Block == nodes[h].Block
    requires n.previousBlockChainNode == nodes[h].previousBlockChainNode
    requires forall m :: m in nodes.Values && m != nodes[h] ==> m.previousBlockChainNode != nodes[h]
    ensures TreeInv(nodes[h := n], root, seen)
  {
    hide Verify;
    var nodes' := nodes[h := n];
    KeyOf(nodes, root, seen, nodes[h]);
    OneHigher(nodes, root, seen, nodes[h]);
    assert nodes'[root.Hash] == root;
    forall k | k in nodes' ensures PlacedAt(nodes', root, seen, k) {
      assert PlacedAt(nodes, root, seen, k) && nodes[k] in nodes.Values;
    }
  }
}
