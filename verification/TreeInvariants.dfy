/** What holds of the nodes of a block tree between operations.  Each predicate reads only the fields it is about. */
module TreeInvariants {
  import opened Bytes
  import opened Ledger
  import Supply
  import opened Blocks
  import opened ChainState
  import opened UtxoManagers

  type NodeMap = map<Digest, BlockChainNode>

  // ---------------------------------------------------------------- headers

  /** Node `nodes[h]` is where its header says. */
  ghost predicate PlacedAt(nodes: NodeMap, root: BlockChainNode, seen: set<Block>, h: Digest)
    requires h in nodes
    reads nodes.Values`previousBlockChainNode
  {
    var n := nodes[h];
    && n.Hash == h == Blocks.Hash(n.Block)
    && n.Block in seen && Comparable(n.Block) && Verify(n.Block)
    && (n != root ==>
          && n.Block != root.Block
          && n.Block.PrevHash in nodes && n.previousBlockChainNode == nodes[n.Block.PrevHash])
  }

  ghost predicate TreeInv(nodes: NodeMap, root: BlockChainNode, seen: set<Block>)
    reads nodes.Values`previousBlockChainNode
  {
    && GoodHeaders(seen, root.Block)
    && root.Hash in nodes && nodes[root.Hash] == root
    && root in nodes.Values && root.previousBlockChainNode == root
    && forall h :: h in nodes ==> PlacedAt(nodes, root, seen, h)
  }

  // ---------------------------------------------------------------- data

  /** The data of a node is what `view` says, and hashes to the Merkle root in its header. */
  ghost predicate DataAt(n: BlockChainNode, view: View)
    requires ViewValid(view)
    reads n`hasData, n`dataPointer
  {
    && n.hasData == n.dataPointer.Some?
    && n.dataPointer == (if n.Hash in view then Some(view[n.Hash]) else None)
    && (n.Hash in view ==> view[n.Hash].MerkleRoot() == n.Block.MerkleRoot)
  }

  ghost predicate ViewInv(nodes: NodeMap, view: View)
    reads nodes.Values`hasData, nodes.Values`dataPointer
  {
    && ViewValid(view)
    && (forall h :: h in view ==> h in nodes && GroupResolved(view, view[h]))
    && (forall n :: n in nodes.Values ==> DataAt(n, view))
  }

  /** Data without a header waits under its Merkle root. */
  ghost predicate DanglingInv(dangling: map<Digest, Group>, view: View) {
    forall m :: m in dangling ==>
      dangling[m].Valid() && dangling[m].MerkleRoot() == m && GroupResolved(view, dangling[m])
  }

  ghost predicate LeadsInv(leads: map<Digest, Digest>, seen: set<Block>) {
    forall m :: m in leads ==> LeadsTo(m, leads[m], seen)
  }

  ghost predicate LeadsTo(m: Digest, h: Digest, seen: set<Block>) {
    exists b :: b in seen && Blocks.Hash(b) == h && b.MerkleRoot == m
  }

  // ---------------------------------------------------------------- verified nodes

  ghost predicate Built(n: BlockChainNode, root: BlockChainNode)
    reads n`verifiedWithUtxoManager
  {
    n == root || n.verifiedWithUtxoManager
  }

  /** What was established when `n` was verified. */
  ghost predicate BuiltAt(n: BlockChainNode, nodes: NodeMap, root: BlockChainNode, view: View)
    requires n in nodes.Values
    reads nodes.Values`previousBlockChainNode, nodes.Values`verifiedWithUtxoManager, nodes.Values`history
  {
    && |n.history| == n.Block.BlockCount
    && Accepted(n.history) && AllPass(n.history) && InView(view, n.history)
    && (forall i :: 0 <= i < |n.history| ==> HeightOf(nodes, n.history[i].hash, i + 1))
    && (n != root ==>
          && n.previousBlockChainNode != null
          && var prev := n.previousBlockChainNode;
          && prev in nodes.Values && Built(prev, root)
          && n.Hash in view
          && n.history == prev.history + [Record(n.Hash, view[n.Hash].TransactionBlockStructs)])
  }

  ghost predicate HeightOf(nodes: NodeMap, h: Digest, count: nat) {
    h in nodes && nodes[h].Block.BlockCount == count
  }

  ghost predicate BuiltInv(nodes: NodeMap, root: BlockChainNode, view: View)
    reads nodes.Values`previousBlockChainNode, nodes.Values`verifiedWithUtxoManager, nodes.Values`history
  {
    && root in nodes.Values && root.history == []
    && forall n :: n in nodes.Values && Built(n, root) ==> BuiltAt(n, nodes, root, view)
  }

  // ---------------------------------------------------------------- managers

  /** An up-to-date node holds a manager of its own, attached to it, that agrees with replaying its history; every
      fifth node, once verified, stays up to date. */
  ghost predicate ManagerAt(n: BlockChainNode, root: BlockChainNode, utxoRepr: set<object>)
    reads n`verifiedWithUtxoManager, n`history, n`uTxOManagerIsUpToDate, n`uTxOManagerPointer, utxoRepr
  {
    && (n.uTxOManagerIsUpToDate <==> n.uTxOManagerPointer != null)
    && (n.uTxOManagerPointer != null ==>
          var um := n.uTxOManagerPointer;
          && um in utxoRepr && um.Repr <= utxoRepr && um.Valid()
          && um.attachedBlockChainNode == n && um.Contents == Replay(n.history))
    && (n.uTxOManagerIsUpToDate ==> Built(n, root))
    && (Built(n, root) && n.Block.BlockCount % 5 == 0 ==> n.uTxOManagerIsUpToDate)
  }

  ghost predicate Apart(m: BlockChainNode, n: BlockChainNode, utxoRepr: set<object>)
    reads m`uTxOManagerPointer, n`uTxOManagerPointer, utxoRepr
  {
    m.uTxOManagerPointer in utxoRepr && n.uTxOManagerPointer in utxoRepr ==>
      m.uTxOManagerPointer.Repr !! n.uTxOManagerPointer.Repr
  }

  ghost predicate ManagerInv(nodes: NodeMap, root: BlockChainNode, utxoRepr: set<object>)
    reads nodes.Values`verifiedWithUtxoManager, nodes.Values`history
    reads nodes.Values`uTxOManagerIsUpToDate, nodes.Values`uTxOManagerPointer, utxoRepr
  {
    && (forall o :: o in utxoRepr ==> o is UTxOManager || o is BlockOutputs || o is OutputFlags)
    && (forall n :: n in nodes.Values ==> ManagerAt(n, root, utxoRepr))
    && (forall m, n :: m in nodes.Values && n in nodes.Values && m != n ==> Apart(m, n, utxoRepr))
  }

  /** Everything that holds of the nodes, whatever the head. */
  ghost predicate NodesInv(nodes: NodeMap, root: BlockChainNode, seen: set<Block>, view: View, utxoRepr: set<object>)
    reads nodes.Values`previousBlockChainNode, nodes.Values`hasData, nodes.Values`dataPointer
    reads nodes.Values`verifiedWithUtxoManager, nodes.Values`history
    reads nodes.Values`uTxOManagerIsUpToDate, nodes.Values`uTxOManagerPointer, utxoRepr
  {
    && TreeInv(nodes, root, seen) && ViewInv(nodes, view)
    && BuiltInv(nodes, root, view) && ManagerInv(nodes, root, utxoRepr)
  }

  // ---------------------------------------------------------------- fork choice

  /** `n` is no higher than the head, or something at least as high waits to be verified. */
  ghost predicate Covered(n: BlockChainNode, height: nat, queue: multiset<BlockChainNode>) {
    n.Block.BlockCount <= height || exists q :: q in queue && q.Block.BlockCount >= n.Block.BlockCount
  }

  ghost function BuiltNodes(nodes: NodeMap, root: BlockChainNode): set<BlockChainNode>
    reads nodes.Values`verifiedWithUtxoManager
  {
    set n | n in nodes.Values && Built(n, root)
  }

  ghost function UpToDateNodes(nodes: NodeMap): set<BlockChainNode>
    reads nodes.Values`uTxOManagerIsUpToDate
  {
    set n | n in nodes.Values && n.uTxOManagerIsUpToDate
  }

  /** The verified nodes with their histories. */
  ghost function BuiltHistories(nodes: NodeMap, root: BlockChainNode): map<BlockChainNode, seq<Record>>
    reads nodes.Values`verifiedWithUtxoManager, nodes.Values`history
  {
    map n | n in nodes.Values && Built(n, root) :: n.history
  }

  /** Verified nodes stay verified, with the history they have. */
  ghost predicate Grows(h: map<BlockChainNode, seq<Record>>, h': map<BlockChainNode, seq<Record>>) {
    forall n :: n in h ==> n in h' && h'[n] == h[n]
  }

  /** The head is the highest verified node, it is up to date, and nothing higher is forgotten. */
  ghost predicate HeadRight(all: set<BlockChainNode>, built: set<BlockChainNode>, upToDate: set<BlockChainNode>,
                            head: BlockChainNode, height: nat, queue: multiset<BlockChainNode>, failed: bool)
  {
    && head in built && head in upToDate && height == head.Block.BlockCount
    && (forall n :: n in built ==> n.Block.BlockCount <= height)
    && (forall q :: q in queue ==> q in all)
    && (!failed ==> forall n :: n in all ==> Covered(n, height, queue))
  }

  ghost predicate ForkInv(nodes: NodeMap, root: BlockChainNode, head: BlockChainNode, height: nat,
                          queue: multiset<BlockChainNode>, failed: bool)
    reads nodes.Values`verifiedWithUtxoManager, nodes.Values`uTxOManagerIsUpToDate
  {
    HeadRight(nodes.Values, BuiltNodes(nodes, root), UpToDateNodes(nodes), head, height, queue, failed)
  }

  // ---------------------------------------------------------------- consequences

  /** Whatever happened: the history of every verified node is a verified chain, so `NoDoubleSpend`, `MoneySupply`
      and their relatives speak about it. */
  lemma BuiltIsVerified(nodes: NodeMap, root: BlockChainNode, view: View, n: BlockChainNode)
    requires ViewInv(nodes, view) && BuiltInv(nodes, root, view)
    requires n in nodes.Values && Built(n, root)
    ensures Supply.Verified(n.history) && |n.history| == n.Block.BlockCount
  {
    var history := n.history;
    forall i, j | 0 <= i < j < |history| ensures history[i].hash != history[j].hash {
      assert HeightOf(nodes, history[i].hash, i + 1) && HeightOf(nodes, history[j].hash, j + 1);
    }
    HistoryIsVerified(view, history);
  }

  lemma BuiltInvStays(nodes: NodeMap, root: BlockChainNode, view: View, view': View)
    requires BuiltInv(nodes, root, view) && Extends(view, view')
    ensures BuiltInv(nodes, root, view')
  {
    forall n | n in nodes.Values && Built(n, root) ensures BuiltAt(n, nodes, root, view') {
      assert BuiltAt(n, nodes, root, view);
      forall i | 0 <= i < |n.history| ensures RecordInView(view', n.history[i]) {
        assert RecordInView(view, n.history[i]);
      }
    }
  }

  lemma DanglingInvStays(dangling: map<Digest, Group>, view: View, view': View)
    requires DanglingInv(dangling, view) && Extends(view, view')
    ensures DanglingInv(dangling, view')
  {
    forall m | m in dangling ensures GroupResolved(view', dangling[m]) {
      ResolvedStays(view, view', dangling[m]);
    }
  }

  /** With the headers that arrived, a hash names one header. */
  lemma HeaderOfHash(seen: set<Block>, genesis: Block, a: Block, b: Block)
    requires GoodHeaders(seen, genesis) && a in seen && b in seen && Blocks.Hash(a) == Blocks.Hash(b)
    ensures a == b
  {
  }

  /** A node other than the root is one higher than the node before it. */
  lemma OneHigher(nodes: NodeMap, root: BlockChainNode, seen: set<Block>, n: BlockChainNode)
    requires TreeInv(nodes, root, seen) && n in nodes.Values && n != root
    ensures n.previousBlockChainNode != null && n.previousBlockChainNode in nodes.Values
    ensures n.Block.BlockCount == n.previousBlockChainNode.Block.BlockCount + 1
    ensures n.previousBlockChainNode != n && n.Hash in nodes && nodes[n.Hash] == n
  {
    var h :| h in nodes && nodes[h] == n;
    assert PlacedAt(nodes, root, seen, h);
    var p := n.Block.PrevHash;
    assert PlacedAt(nodes, root, seen, p);
    assert Follows(n.Block, nodes[p].Block);
  }

  /** A tree that is only a root satisfies everything. */
  lemma SingleNode(bl: BlockChainNode, um: UTxOManager)
    requires Blocks.Hash(bl.Block) == bl.Hash && Comparable(bl.Block) && Verify(bl.Block) && bl.Block.BlockCount == 0
    requires bl.previousBlockChainNode == bl && !bl.hasData && bl.dataPointer == None && bl.history == []
    requires bl.uTxOManagerIsUpToDate && bl.uTxOManagerPointer == um
    requires um.Valid() && um.attachedBlockChainNode == bl && um.Contents == map[]
    ensures var nodes := map[bl.Hash := bl];
            NodesInv(nodes, bl, {bl.Block}, map[], um.Repr) && ForkInv(nodes, bl, bl, 0, multiset{}, false)
  {
    var nodes := map[bl.Hash := bl];
    assert nodes[bl.Hash] in nodes.Values;
    assert forall n :: n in nodes.Values ==> n == bl;
    assert BuiltAt(bl, nodes, bl, map[]);
  }

  /** The root is its own predecessor and is up to date with an empty map. */
  method NewRoot(genesis: Block) returns (bl: BlockChainNode, um: UTxOManager)
    requires Comparable(genesis) && Verify(genesis) && genesis.BlockCount == 0
    ensures fresh(bl) && fresh(um.Repr) && bl.Block == genesis && bl.Hash == Blocks.Hash(genesis)
    ensures bl.history == [] && bl.uTxOManagerIsUpToDate
    ensures var nodes := map[bl.Hash := bl];
            NodesInv(nodes, bl, {genesis}, map[], um.Repr) && ForkInv(nodes, bl, bl, 0, multiset{}, false)
  {
    bl := new BlockChainNode(genesis);
    bl.previousBlockChainNode := bl;
    um := new UTxOManager.initializeUTxOMananger(bl);
    bl.uTxOManagerPointer := um;
    SingleNode(bl, um);
  }

  /** Gives a node its data. */
  method AttachData(ghost nodes: NodeMap, ghost root: BlockChainNode, ghost seen: set<Block>, ghost view: View,
                    n: BlockChainNode, g: Group)
    requires TreeInv(nodes, root, seen) && ViewInv(nodes, view) && n in nodes.Values && !n.hasData
    requires g.Valid() && g.MerkleRoot() == n.Block.MerkleRoot && GroupResolved(view, g)
    modifies n`hasData, n`dataPointer
    ensures n.hasData && Extends(view, view[n.Hash := g]) && ViewInv(nodes, view[n.Hash := g])
  {
    hide TreeInv, GroupResolved, DataAt;
    EachHasData(nodes, view, n);
    KeyOf(nodes, root, seen, n);
    n.dataPointer := Some(g);
    n.hasData := true;
    ViewGrows(nodes, root, seen, view, n, g);
  }

  lemma EachHasData(nodes: NodeMap, view: View, n: BlockChainNode)
    requires ViewInv(nodes, view) && n in nodes.Values && !n.hasData
    ensures ViewValid(view) && n.Hash !in view && forall m :: m in nodes.Values ==> DataAt(m, view)
    ensures forall h :: h in view ==> h in nodes && GroupResolved(view, view[h])
  {
    assert DataAt(n, view);
  }

  lemma ViewGrows(nodes: NodeMap, root: BlockChainNode, seen: set<Block>, view: View, n: BlockChainNode, g: Group)
    requires TreeInv(nodes, root, seen) && n in nodes.Values && ViewValid(view) && n.Hash !in view
    requires forall h :: h in view ==> h in nodes && GroupResolved(view, view[h])
    requires forall m :: m in nodes.Values && m != n ==> DataAt(m, view)
    requires n.hasData && n.dataPointer == Some(g)
    requires g.Valid() && g.MerkleRoot() == n.Block.MerkleRoot && GroupResolved(view, g)
    ensures Extends(view, view[n.Hash := g]) && ViewInv(nodes, view[n.Hash := g])
  {
    hide TreeInv, GroupResolved;
    var view' := view[n.Hash := g];
    KeyOf(nodes, root, seen, n);
    forall h | h in view' ensures h in nodes && GroupResolved(view', view'[h]) {
      ResolvedStays(view, view', view'[h]);
    }
    forall m | m in nodes.Values ensures DataAt(m, view') {
      KeyOf(nodes, root, seen, m);
      assert m != n ==> DataAt(m, view);
    }
  }

  /** A node is in the map under its own hash. */
  lemma KeyOf(nodes: NodeMap, root: BlockChainNode, seen: set<Block>, n: BlockChainNode)
    requires TreeInv(nodes, root, seen) && n in nodes.Values
    ensures n.Hash in nodes && nodes[n.Hash] == n && n.Hash == Blocks.Hash(n.Block) && n.Block in seen
  {
    var h :| h in nodes && nodes[h] == n;
    assert PlacedAt(nodes, root, seen, h);
  }

  /** Data found under a Merkle root belongs to the node it leads to. */
  lemma LeadsRight(nodes: NodeMap, root: BlockChainNode, seen: set<Block>, m: Digest, h: Digest)
    requires TreeInv(nodes, root, seen) && LeadsTo(m, h, seen) && h in nodes
    ensures nodes[h] in nodes.Values && nodes[h].Hash == h && nodes[h].Block.MerkleRoot == m
  {
    assert PlacedAt(nodes, root, seen, h);
    var b :| b in seen && Blocks.Hash(b) == h && b.MerkleRoot == m;
    HeaderOfHash(seen, root.Block, nodes[h].Block, b);
  }

  lemma HasDataIff(nodes: NodeMap, view: View, n: BlockChainNode)
    requires ViewInv(nodes, view) && n in nodes.Values
    ensures n.hasData <==> n.Hash in view
    ensures n.dataPointer == if n.hasData then Some(view[n.Hash]) else None
    ensures n.hasData ==> n.dataPointer.value.Valid() && n.dataPointer.value.MerkleRoot() == n.Block.MerkleRoot
  {
    assert DataAt(n, view);
  }

  lemma DanglingAdd(dangling: map<Digest, Group>, view: View, g: Group)
    requires DanglingInv(dangling, view) && g.Valid() && GroupResolved(view, g)
    ensures DanglingInv(dangling[g.MerkleRoot() := g], view)
  {
  }

  lemma DanglingGroup(dangling: map<Digest, Group>, view: View, m: Digest)
    requires DanglingInv(dangling, view) && m in dangling
    ensures dangling[m].Valid() && dangling[m].MerkleRoot() == m && GroupResolved(view, dangling[m])
  {
  }

  lemma LeadsLess(leads: map<Digest, Digest>, seen: set<Block>, m: Digest)
    requires LeadsInv(leads, seen)
    ensures LeadsInv(leads - {m}, seen)
  {
  }
}
