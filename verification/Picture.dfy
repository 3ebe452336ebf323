/** A block chain as a value, and what an arriving header does to it. */
module Pictures {
  import opened Bytes
  import opened Blocks
  import opened UtxoManagers
  import opened TreeInvariants
  import opened Orphans
  import opened HeaderTrees
  import opened Updates

  lemma OneMoreValue(nodes: NodeMap, h: Digest, n: BlockChainNode)
    requires h !in nodes
    ensures nodes[h := n].Values == nodes.Values + {n}
  {
    assert nodes[h := n][h] == n;
    forall m | m in nodes.Values ensures m in nodes[h := n].Values {
      var k :| k in nodes && nodes[k] == m;
      assert nodes[h := n][k] == m;
    }
  }

  ghost predicate KeepsNodes(nodes: NodeMap, nodes': NodeMap) {
    forall h :: h in nodes ==> h in nodes' && nodes'[h] == nodes[h]
  }

  /** What a header changes of the main chain, and what it may find in an orphan chain. */
  datatype MainPart = MainPart(nodes: NodeMap, heads: NodeMap, queue: multiset<BlockChainNode>)

  datatype ChainPart = ChainPart(nodes: NodeMap, heads: NodeMap, root: BlockChainNode, top: BlockChainNode)

  /** A node that is higher than the head is queued for verification. */
  ghost function Offered(queue: multiset<BlockChainNode>, head: BlockChainNode, n: BlockChainNode):
    multiset<BlockChainNode>
  {
    if head.Block.BlockCount < n.Block.BlockCount then queue + multiset{n} else queue
  }

  ghost predicate Highest(all: set<BlockChainNode>, top: BlockChainNode) {
    top in all && forall m :: m in all ==> m.Block.BlockCount <= top.Block.BlockCount
  }

  /** The new node `n` joined the main chain alone. */
  ghost predicate Entered(a: MainPart, b: MainPart, head: BlockChainNode, n: BlockChainNode) {
    && n.Hash !in a.nodes && b.nodes == a.nodes[n.Hash := n]
    && b.heads == (a.heads - {n.Block.PrevHash})[n.Hash := n] && b.queue == Offered(a.queue, head, n)
  }

  /** It joined with the chain that waited for it, of which no node takes the place of another. */
  ghost predicate Spliced(before: NodeMap, heads: NodeMap, nodes: NodeMap, heads': NodeMap, n: BlockChainNode,
                          c: ChainPart)
  {
    && n.Hash !in before && c.root.Block.PrevHash == n.Hash && c.nodes.Keys !! before.Keys + {n.Hash}
    && nodes == before[n.Hash := n] + c.nodes && heads' == heads - {n.Block.PrevHash} + c.heads
  }

  ghost predicate Merged(a: MainPart, b: MainPart, head: BlockChainNode, n: BlockChainNode, c: ChainPart) {
    && Spliced(a.nodes, a.heads, b.nodes, b.heads, n, c)
    && c.top in c.nodes.Values && Highest({n} + c.nodes.Values, c.top) && b.queue == Offered(a.queue, head, c.top)
  }

  /** Either way no entry is overwritten, and the highest new node is queued if it is higher than the head. */
  ghost predicate Grew(a: MainPart, b: MainPart, head: BlockChainNode, n: BlockChainNode) {
    && KeepsNodes(a.nodes, b.nodes) && n.Hash !in a.nodes && n.Hash in b.nodes && b.nodes[n.Hash] == n
    && exists top :: top in b.nodes.Values && Highest(b.nodes.Values - a.nodes.Values, top)
                     && b.queue == Offered(a.queue, head, top)
  }

  lemma EnteredGrew(a: MainPart, b: MainPart, head: BlockChainNode, n: BlockChainNode)
    requires Entered(a, b, head, n) && n !in a.nodes.Values
    ensures Grew(a, b, head, n)
  {
    OneMoreValue(a.nodes, n.Hash, n);
    assert Highest(b.nodes.Values - a.nodes.Values, n);
  }

  lemma MergedGrew(a: MainPart, b: MainPart, head: BlockChainNode, n: BlockChainNode, c: ChainPart)
    requires Merged(a, b, head, n, c) && ({n} + c.nodes.Values) !! a.nodes.Values
    ensures Grew(a, b, head, n)
  {
    var mid := a.nodes[n.Hash := n];
    OneMoreValue(a.nodes, n.Hash, n);
    ValuesOfBoth(mid, c.nodes);
    assert b.nodes.Values - a.nodes.Values == {n} + c.nodes.Values;
    assert Highest(b.nodes.Values - a.nodes.Values, c.top);
  }

  /** A block chain as a value. */
  datatype Picture = Picture(nodes: NodeMap, orphans: seq<OrphanChain>, seen: set<Block>, leads: map<Digest, Digest>,
                             dangling: map<Digest, Group>, queue: multiset<BlockChainNode>, now: Snapshot, failed: bool)
  {
    /** Where the headers are. */
    ghost function Tree(): HeaderTree {
      HeaderTree(nodes.Keys, orphans)
    }

    /** What verification may change. */
    ghost function Holdings(): Store {
      Store(now, dangling, leads)
    }
  }

  /** The root alone. */
  ghost function FirstPicture(root: BlockChainNode): Picture {
    Picture(map[root.Hash := root], [], {root.Block}, map[], map[], multiset{},
            Snapshot(map[root := []], {root}, map[], root, 0), false)
  }

  /** What an arriving header does.  Main chain and orphan chains change as `Arrived` says.  A bad header, or one that
      the main chain has, changes nothing.  A header whose parent is in the main chain gets a node there, no entry is
      overwritten, and the highest new node is queued if it is higher than the head. */
  ghost predicate HeaderEffect(a: Picture, b: Picture, header: Block) {
    var hash := Blocks.Hash(header);
    && b.Tree() == Arrived(a.Tree(), header)
    && if !Comparable(header) || !Verify(header) || hash in a.nodes then b == a
       else
         && b.seen == a.seen + {header} && b.leads == a.leads[header.MerkleRoot := hash]
         && b.dangling == a.dangling && b.now == a.now && b.failed == a.failed
         && if header.PrevHash !in a.nodes then b.nodes == a.nodes && b.queue == a.queue
            else NodesGrew(a, b, header)
  }

  ghost predicate NodesGrew(a: Picture, b: Picture, header: Block) {
    var hash := Blocks.Hash(header);
    && KeepsNodes(a.nodes, b.nodes) && hash in b.nodes && b.nodes[hash].Block == header
    && exists top :: top in b.nodes.Values && Highest(b.nodes.Values - a.nodes.Values, top)
                     && b.queue == Offered(a.queue, a.now.head, top)
  }

  /** What `addBlockChainNode` promises, put together. */
  lemma EffectIs(a: Picture, b: Picture, x: MainPart, y: MainPart, result: Added, n: BlockChainNode, part: ChainPart,
                 header: Block)
    requires x.nodes == a.nodes && x.queue == a.queue && y.nodes == b.nodes && y.queue == b.queue
    requires result == Destination(a.Tree(), header) && b.Tree() == Arrived(a.Tree(), header)
    requires b.dangling == a.dangling && b.now == a.now && b.failed == a.failed
    requires result in {Panicked, Rejected, Known} ==> b.seen == a.seen && b.leads == a.leads
    requires result !in {Panicked, Rejected, Known} ==>
               b.seen == a.seen + {header} && b.leads == a.leads[header.MerkleRoot := Blocks.Hash(header)]
    requires result !in {Inserted, Joined} ==> x == y
    requires result in {Inserted, Joined} ==> n !in a.nodes.Values && n.Block == header && n.Hash == Blocks.Hash(header)
    requires result == Inserted ==> Entered(x, y, a.now.head, n)
    requires result == Joined ==> Merged(x, y, a.now.head, n, part) && part.nodes.Values !! a.nodes.Values
    ensures HeaderEffect(a, b, header)
  {
    hide Entered, Merged, Highest, Verify, Grown, Parked;
    if result == Joined {
      MergedGrew(x, y, a.now.head, n, part);
    } else if result == Inserted {
      EnteredGrew(x, y, a.now.head, n);
    }
  }

  lemma EnteredKeys(a: MainPart, b: MainPart, head: BlockChainNode, n: BlockChainNode)
    requires Entered(a, b, head, n)
    ensures b.nodes.Keys == a.nodes.Keys + {n.Hash}
  {
  }

  lemma MergedKeys(a: MainPart, b: MainPart, head: BlockChainNode, n: BlockChainNode, c: ChainPart)
    requires Merged(a, b, head, n, c)
    ensures b.nodes.Keys == a.nodes.Keys + {n.Hash} + c.nodes.Keys
  {
    hide Highest;
  }
}
