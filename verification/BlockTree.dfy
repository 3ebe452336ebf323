/** The block tree: headers and data arriving in any order, orphan chains, and the verification that moves UTXO
    managers along it. */
module BlockChains {
  import opened Bytes
  import opened Transactions
  import opened MerkleTrees
  import opened Ledger
  import opened Verification
  import opened Blocks
  import opened ChainState
  import opened UtxoManagers
  import opened TreeInvariants
  import opened Building
  import opened Orphans
  import opened HeaderTrees
  import opened HeaderChains
  import opened Updates
  import opened Pictures
  import opened TreeFacts
  import opened Wallets

  /** An orphan chain: a tree of its own. */
  ghost predicate ChainOk(c: BlockChain, seen: set<Block>, genesis: Block)
    reads c`isOrphan, c`orphanBlockChains, c`root, c`head, c`allNodesMap
    reads c.allNodesMap.Values`previousBlockChainNode, c.allNodesMap.Values`hasData, c.allNodesMap.Values`dataPointer
    reads c.allNodesMap.Values`uTxOManagerPointer, c.allNodesMap.Values`uTxOManagerIsUpToDate
    reads c.allNodesMap.Values`verifiedWithUtxoManager
  {
    && c.isOrphan && c.orphanBlockChains == [] && c.root in c.allNodesMap.Values && c.head in c.allNodesMap.Values
    && OrphanTree(c.allNodesMap, c.root, c.head, seen, genesis)
  }

  /** The orphan chains share no nodes. */
  ghost predicate OrphansInv(chains: seq<BlockChain>, orphans: set<BlockChainNode>, seen: set<Block>, genesis: Block)
    reads chains
    reads orphans`previousBlockChainNode, orphans`hasData, orphans`dataPointer
    reads orphans`uTxOManagerPointer, orphans`uTxOManagerIsUpToDate, orphans`verifiedWithUtxoManager
  {
    && Distinct(chains)
    && (forall c :: c in chains ==> c.allNodesMap.Values <= orphans && ChainOk(c, seen, genesis))
    && (forall c, d :: c in chains && d in chains && c != d ==> c.allNodesMap.Values !! d.allNodesMap.Values)
  }

  lemma ChainFacts(chains: seq<BlockChain>, orphans: set<BlockChainNode>, seen: set<Block>, genesis: Block,
                   obc: BlockChain)
    requires OrphansInv(chains, orphans, seen, genesis) && obc in chains
    ensures ChainOk(obc, seen, genesis) && OrphanTree(obc.allNodesMap, obc.root, obc.head, seen, genesis)
    ensures obc.allNodesMap.Values <= orphans && obc.root in obc.allNodesMap.Values
              && obc.head in obc.allNodesMap.Values
  {
    hide OrphanTree;
  }

  ghost function ChainNodes(chains: seq<BlockChain>): (nodes: seq<set<BlockChainNode>>)
    reads chains
    ensures |nodes| == |chains| && forall i :: 0 <= i < |chains| ==> nodes[i] == chains[i].allNodesMap.Values
  {
    seq(|chains|, i requires 0 <= i < |chains| reads chains => chains[i].allNodesMap.Values)
  }

  ghost predicate NoneShared(nodes: seq<set<BlockChainNode>>, orphans: set<BlockChainNode>) {
    && (forall i :: 0 <= i < |nodes| ==> nodes[i] <= orphans)
    && forall i, j :: 0 <= i < j < |nodes| ==> nodes[i] !! nodes[j]
  }

  lemma ApartFromOthers(chains: seq<BlockChain>, i: nat, orphans: set<BlockChainNode>, seen: set<Block>, genesis: Block)
    requires OrphansInv(chains, orphans, seen, genesis) && i < |chains|
    ensures Distinct(chains) && NoneShared(ChainNodes(chains), orphans)
    ensures forall k :: 0 <= k < |chains| && k != i ==>
              chains[k] != chains[i] && chains[k].allNodesMap.Values !! chains[i].allNodesMap.Values
    ensures chains[i].root in chains[i].allNodesMap.Values
    ensures forall k :: 0 <= k < |chains| ==> ChainOk(chains[k], seen, genesis)
  {
    hide ChainOk;
    ChainFacts(chains, orphans, seen, genesis, chains[i]);
  }

  /** Only chain `i` changed, by new nodes. */
  lemma OneChainGrew(chains: seq<BlockChain>, before: seq<set<BlockChainNode>>, i: nat, more: set<BlockChainNode>,
                     orphans: set<BlockChainNode>, seen: set<Block>, genesis: Block)
    requires |before| == |chains| && i < |chains| && Distinct(chains) && NoneShared(before, orphans)
    requires more !! orphans && chains[i].allNodesMap.Values == before[i] + more
    requires forall k :: 0 <= k < |chains| && k != i ==> chains[k].allNodesMap.Values == before[k]
    requires forall k :: 0 <= k < |chains| ==> ChainOk(chains[k], seen, genesis)
    ensures OrphansInv(chains, orphans + more, seen, genesis)
  {
    hide ChainOk;
    forall c | c in chains ensures c.allNodesMap.Values <= orphans + more && ChainOk(c, seen, genesis) {
      var k :| 0 <= k < |chains| && chains[k] == c;
      assert before[k] <= orphans;
    }
    forall c, d | c in chains && d in chains && c != d ensures c.allNodesMap.Values !! d.allNodesMap.Values {
      var k, l :| 0 <= k < |chains| && chains[k] == c && 0 <= l < |chains| && chains[l] == d;
      assert if k < l then before[k] !! before[l] else before[l] !! before[k];
      assert before[k] <= orphans && before[l] <= orphans;
    }
  }

  lemma OneChainMore(chains: seq<BlockChain>, c: BlockChain, orphans: set<BlockChainNode>, seen: set<Block>,
                     genesis: Block)
    requires OrphansInv(chains, orphans, seen, genesis) && ChainOk(c, seen, genesis)
    requires c !in chains && c.allNodesMap.Values !! orphans
    ensures OrphansInv(chains + [c], orphans + c.allNodesMap.Values, seen, genesis)
  {
    hide ChainOk;
  }

  /** The orphan chains as values. */
  ghost function Shape(chains: seq<BlockChain>): (shape: seq<OrphanChain>)
    reads chains
    ensures |shape| == |chains|
    ensures forall i :: 0 <= i < |chains| ==>
              shape[i] == OrphanChain(chains[i].root.Block, chains[i].allNodesMap.Keys)
  {
    seq(|chains|, i requires 0 <= i < |chains| reads chains =>
      OrphanChain(chains[i].root.Block, chains[i].allNodesMap.Keys))
  }

  /** Only chain `i` changed, by one hash. */
  lemma ShapeGrown(chains: seq<BlockChain>, shape: seq<OrphanChain>, i: nat, root: Block, hash: Digest)
    requires |shape| == |chains| && i < |chains|
    requires chains[i].root.Block == root && chains[i].allNodesMap.Keys == shape[i].keys + {hash}
    requires forall k :: 0 <= k < |chains| && k != i ==>
               chains[k].root.Block == shape[k].root && chains[k].allNodesMap.Keys == shape[k].keys
    ensures Shape(chains) == GrownAt(shape, i, root, hash)
  {
  }

  lemma ShapeMore(chains: seq<BlockChain>, c: BlockChain)
    ensures Shape(chains + [c]) == Shape(chains) + [OrphanChain(c.root.Block, c.allNodesMap.Keys)]
  {
  }

  lemma ShapeWithout(chains: seq<BlockChain>, i: nat)
    requires i < |chains|
    ensures Shape(Without(chains, i)) == Without(Shape(chains), i)
  {
  }

  lemma OneNodeChain(c: BlockChain, block0: Block, seen: set<Block>, genesis: Block)
    requires c.isOrphan && c.orphanBlockChains == [] && c.head == c.root && c.allNodesMap == map[c.root.Hash := c.root]
    requires Blank(c.root) && c.root.Block == block0 && c.root.Hash == Blocks.Hash(block0)
    requires block0 in seen && block0 != genesis && Comparable(block0) && Verify(block0)
    ensures ChainOk(c, seen, genesis) && c.allNodesMap.Values == {c.root}
    ensures c.allNodesMap.Keys == {Blocks.Hash(block0)}
  {
    hide OrphanTree, Verify;
    OneNodeTree(c.root, seen, genesis);
    assert c.allNodesMap[c.root.Hash] in c.allNodesMap.Values;
  }

  lemma BlankNode(n: BlockChainNode)
    requires !n.hasData && n.dataPointer == None && !n.verifiedWithUtxoManager
    requires n.uTxOManagerPointer == null && !n.uTxOManagerIsUpToDate
    ensures Blank(n)
  {
  }

  /** The order of the chains does not matter, nor does a chain less. */
  lemma OneChainLess(chains: seq<BlockChain>, i: nat, orphans: set<BlockChainNode>, seen: set<Block>, genesis: Block)
    requires OrphansInv(chains, orphans, seen, genesis) && i < |chains|
    ensures OrphansInv(Without(chains, i), orphans - chains[i].allNodesMap.Values, seen, genesis)
    ensures chains[i] !in Without(chains, i) && forall c :: c in Without(chains, i) ==> c in chains
  {
    hide ChainOk;
  }

  /** Managers are made of maps only. */
  lemma NotInManagers(nodes: NodeMap, root: BlockChainNode, seen: set<Block>, view: View, utxoRepr: set<object>,
                      chain: BlockChain, chains: seq<BlockChain>, orphans: set<BlockChainNode>)
    requires NodesInv(nodes, root, seen, view, utxoRepr)
    ensures chain !in utxoRepr && root !in utxoRepr && forall n :: n in nodes.Values ==> n !in utxoRepr
    ensures forall c :: c in chains ==> c !in utxoRepr
    ensures forall n :: n in orphans ==> n !in utxoRepr
  {
  }

  lemma OrphansSeen(chains: seq<BlockChain>, orphans: set<BlockChainNode>, seen: set<Block>, seen': set<Block>,
                    genesis: Block)
    requires OrphansInv(chains, orphans, seen, genesis) && seen <= seen'
    ensures OrphansInv(chains, orphans, seen', genesis)
  {
    hide OrphanTree;
    forall c | c in chains ensures ChainOk(c, seen', genesis) {
      SeenMore(c.allNodesMap, c.root, c.head, seen, seen', genesis);
    }
  }

  class BlockChain {
    var head: BlockChainNode
    var root: BlockChainNode
    var orphanBlockChains: seq<BlockChain>
    var isOrphan: bool
    var Height: Uint32
    /** Nodes that some goroutine is trying to send; they are received in any order. */
    var utxoChan: multiset<BlockChainNode>
    var allNodesMap: map<Digest, BlockChainNode>
    var otherHeadNodes: map<Digest, BlockChainNode>
    var danglingData: map<Digest, Group>
    var merkleRootToBlockHashMap: map<Digest, Digest>

    /** All headers that were accepted, here or in an orphan chain. */
    ghost var seen: set<Block>
    /** The data of the nodes, as a value. */
    ghost var view: View
    /** The objects of all managers. */
    ghost var utxoRepr: set<object>
    /** The nodes of all orphan chains. */
    ghost var orphanNodes: set<BlockChainNode>
    /** Some verification did not end in `Done`. */
    ghost var failed: bool

    ghost function Nodes(): set<BlockChainNode>
      reads this
    {
      allNodesMap.Values
    }

    ghost function Now(): Snapshot
      reads `allNodesMap, `root, `view, `head, `Height
      reads allNodesMap.Values`verifiedWithUtxoManager, allNodesMap.Values`history
      reads allNodesMap.Values`uTxOManagerIsUpToDate
    {
      Seen(allNodesMap, root, view, head, Height)
    }

    /** With the data that waits for a node, and with where data goes. */
    ghost function Holdings(): Store
      reads `allNodesMap, `root, `view, `head, `Height, `danglingData, `merkleRootToBlockHashMap
      reads allNodesMap.Values`verifiedWithUtxoManager, allNodesMap.Values`history
      reads allNodesMap.Values`uTxOManagerIsUpToDate
    {
      Store(Now(), danglingData, merkleRootToBlockHashMap)
    }

    /** Everything but the maps of the managers and the links between nodes, as a value. */
    ghost function State(): Picture
      reads `allNodesMap, `orphanBlockChains, `seen, `merkleRootToBlockHashMap, `danglingData, `utxoChan, `failed
      reads `root, `view, `head, `Height, orphanBlockChains
      reads allNodesMap.Values`verifiedWithUtxoManager, allNodesMap.Values`history
      reads allNodesMap.Values`uTxOManagerIsUpToDate
    {
      Picture(allNodesMap, Orphans(), seen, merkleRootToBlockHashMap, danglingData, utxoChan, Now(), failed)
    }

    /** Where the nodes point forward to. */
    ghost function Links(): map<BlockChainNode, BlockChainNode?>
      reads `allNodesMap, allNodesMap.Values`nextBlockChainNode
    {
      map n | n in allNodesMap.Values :: n.nextBlockChainNode
    }

    lemma OneLink(before: map<BlockChainNode, BlockChainNode?>, prev: BlockChainNode, n: BlockChainNode)
      requires prev in Nodes() && prev.nextBlockChainNode == n && before.Keys == Nodes()
      requires forall m :: m in Nodes() && m != prev ==> m.nextBlockChainNode == before[m]
      ensures Links() == before[prev := n]
    {
    }

    /** The invariant of the main chain. */
    ghost predicate CoreInv()
      reads `allNodesMap, `root, `seen, `view, `utxoRepr, `head, `Height, `utxoChan, `failed, `isOrphan
      reads `danglingData, `merkleRootToBlockHashMap, utxoRepr
      reads allNodesMap.Values`previousBlockChainNode, allNodesMap.Values`hasData, allNodesMap.Values`dataPointer
      reads allNodesMap.Values`verifiedWithUtxoManager, allNodesMap.Values`history
      reads allNodesMap.Values`uTxOManagerIsUpToDate, allNodesMap.Values`uTxOManagerPointer
    {
      && !isOrphan
      && NodesInv(allNodesMap, root, seen, view, utxoRepr)
      && DanglingInv(danglingData, view) && LeadsInv(merkleRootToBlockHashMap, seen)
      && ForkInv(allNodesMap, root, head, Height, utxoChan, failed)
    }

    /** The invariant of the orphan chains. */
    ghost predicate OrphanInv()
      reads this`orphanBlockChains, this`orphanNodes, this`allNodesMap, this`seen, this`root, orphanBlockChains
      reads orphanNodes`previousBlockChainNode, orphanNodes`hasData, orphanNodes`dataPointer
      reads orphanNodes`uTxOManagerPointer, orphanNodes`uTxOManagerIsUpToDate, orphanNodes`verifiedWithUtxoManager
    {
      && this !in orphanBlockChains && allNodesMap.Values !! orphanNodes
      && OrphansInv(orphanBlockChains, orphanNodes, seen, root.Block)
    }

    lemma OpenCore()
      requires CoreInv()
      ensures !isOrphan && NodesInv(allNodesMap, root, seen, view, utxoRepr)
      ensures DanglingInv(danglingData, view) && LeadsInv(merkleRootToBlockHashMap, seen)
      ensures ForkInv(allNodesMap, root, head, Height, utxoChan, failed)
    {
    }

    lemma CloseCore()
      requires !isOrphan && NodesInv(allNodesMap, root, seen, view, utxoRepr)
      requires DanglingInv(danglingData, view) && LeadsInv(merkleRootToBlockHashMap, seen)
      requires ForkInv(allNodesMap, root, head, Height, utxoChan, failed)
      ensures CoreInv()
    {
    }

    ghost function Orphans(): seq<OrphanChain>
      reads this`orphanBlockChains, orphanBlockChains
    {
      Shape(orphanBlockChains)
    }

    /** Which headers are held, and where. */
    ghost function Tree(): HeaderTree
      reads this`allNodesMap, this`orphanBlockChains, orphanBlockChains
    {
      HeaderTree(allNodesMap.Keys, Orphans())
    }

    ghost function Held(): set<Digest>
      reads this`allNodesMap, this`orphanBlockChains, orphanBlockChains
    {
      HeldBy(Tree())
    }

    lemma OrphansApart()
      requires OrphanInv()
      ensures this !in orphanBlockChains && Nodes() !! orphanNodes
    {
    }

    lemma OrphanFacts(i: nat)
      requires OrphanInv() && i < |orphanBlockChains|
      ensures var obc := orphanBlockChains[i];
              && ChainOk(obc, seen, root.Block) && obc.allNodesMap.Values <= orphanNodes
              && obc.root in obc.allNodesMap.Values && obc.root !in Nodes()
    {
      hide ChainOk;
      ChainFacts(orphanBlockChains, orphanNodes, seen, root.Block, orphanBlockChains[i]);
    }

    constructor Genesis(genesis: Block)
      requires Comparable(genesis) && Verify(genesis) && genesis.BlockCount == 0
      ensures CoreInv()
      ensures root.Block == genesis && head == root && Height == 0 && seen == {genesis}
      ensures allNodesMap == map[root.Hash := root] && orphanBlockChains == [] && utxoChan == multiset{} && !failed
      ensures root.Hash == Blocks.Hash(genesis)
      ensures fresh(root) && fresh(utxoRepr) && orphanNodes == {} && OrphanInv() && view == map[]
      ensures State() == FirstPicture(root)
    {
      hide NodesInv, ForkInv, Seen;
      var bl, um := NewRoot(genesis);
      root, head := bl, bl;
      orphanBlockChains, isOrphan, Height := [], false, 0;
      utxoChan := multiset{};
      allNodesMap := map[bl.Hash := bl];
      otherHeadNodes, danglingData, merkleRootToBlockHashMap := map[], map[], map[];
      seen, view, utxoRepr, failed := {genesis}, map[], um.Repr, false;
      orphanNodes := {};
      SeenAtFirst(bl);
    }

    method MarkRootAsHead()
      requires CoreInv() && OrphanInv()
      modifies this`otherHeadNodes
      ensures CoreInv() && OrphanInv() && otherHeadNodes == old(otherHeadNodes)[root.Hash := root]
      ensures State() == old(State())
    {
      hide NodesInv, ForkInv, DanglingInv, LeadsInv, OrphansInv;
      Footing();
      otherHeadNodes := otherHeadNodes[root.Hash := root];
    }

    // -------------------------------------------------------------- data

    /** Resolves a reference against the data held. */
    method getTransactionOutput(tr: TransactionRef) returns (out: Option<TransactionOutput>)
      requires TreeInv(allNodesMap, root, seen) && ViewInv(allNodesMap, view)
      ensures out == Output(view, tr)
    {
      if tr.BlockHash !in allNodesMap {
        return None;
      }
      var bl := allNodesMap[tr.BlockHash];
      assert bl in Nodes() && DataAt(bl, view) && PlacedAt(allNodesMap, root, seen, tr.BlockHash);
      if !bl.hasData {
        return None;
      }
      var blocks := bl.dataPointer.value.TransactionBlockStructs;
      if |blocks| <= tr.TransactionBlockNumber as nat {
        return None;
      }
      var outpBl := blocks[tr.TransactionBlockNumber as nat];
      assert BlockMatches(outpBl, bl.dataPointer.value.transactionBlocks[tr.TransactionBlockNumber as nat]);
      if outpBl.OutputNumber <= tr.OutputNumber {
        return None;
      }
      out := Some(outpBl.OutputList[tr.OutputNumber as nat]);
    }

    /** Looks up what the inputs of a received group refer to. */
    method ResolveInputs(g: Group) returns (tb: Group)
      requires TreeInv(allNodesMap, root, seen) && ViewInv(allNodesMap, view)
      ensures tb == ResolveGroup(view, g)
    {
      hide TreeInv, ViewInv;
      ghost var all := ResolveGroup(view, g).TransactionBlockStructs;
      var structs: seq<TransactionBlock> := [];
      for k := 0 to |g.TransactionBlockStructs|
        invariant |structs| == k && structs == all[..k]
      {
        var inputs := ResolveBlock(g.TransactionBlockStructs[k]);
        structs := structs + [g.TransactionBlockStructs[k].(InputList := inputs)];
      }
      tb := g.(TransactionBlockStructs := structs);
    }

    method ResolveBlock(tb: TransactionBlock) returns (inputs: seq<TransactionInput>)
      requires TreeInv(allNodesMap, root, seen) && ViewInv(allNodesMap, view)
      ensures inputs == ResolvedInputs(tb.InputList, LookupIn(view))
    {
      hide TreeInv, ViewInv;
      ghost var all := ResolvedInputs(tb.InputList, LookupIn(view));
      inputs := [];
      for i := 0 to |tb.InputList|
        invariant |inputs| == i && inputs == all[..i]
      {
        var out := getTransactionOutput(tb.InputList[i].reference);
        inputs := inputs + [tb.InputList[i].(OutputBlock := out)];
      }
    }

    /** Data arrives: it goes to the node its Merkle root leads to, or waits for one. */
    method addData(data: Group)
      requires CoreInv() && data.Valid()
      modifies this`view, this`danglingData, Nodes()`hasData, Nodes()`dataPointer
      ensures CoreInv() && Extends(old(view), view) && Now() == old(Now()).(view := view)
      ensures DataState(view, danglingData)
           == DataStep(old(DataState(view, danglingData)), merkleRootToBlockHashMap, allNodesMap.Keys, data)
    {
      hide CoreInv, BuiltHistories, UpToDateNodes, GroupResolved, ResolveGroup, Group.Valid, DataPlaced, Extends;
      HasBlocks(data);
      var tb := Resolve(data);
      ResolveGroupProperties(view, data);
      PlaceData(tb);
    }

    /** The same once its references are resolved. */
    method PlaceData(tb: Group)
      requires CoreInv() && tb.Valid() && GroupResolved(view, tb)
      modifies this`view, this`danglingData, Nodes()`hasData, Nodes()`dataPointer
      ensures CoreInv() && Extends(old(view), view) && Now() == old(Now()).(view := view)
      ensures DataState(view, danglingData)
           == DataPlaced(old(DataState(view, danglingData)), merkleRootToBlockHashMap, allNodesMap.Keys, tb)
    {
      hide BuiltHistories, UpToDateNodes, NodesInv, ForkInv, DanglingInv, LeadsTo, GroupResolved;
      NotInManagers(allNodesMap, root, seen, view, utxoRepr, this, [], {});
      var merkle := tb.MerkleRoot();
      if merkle !in merkleRootToBlockHashMap {
        if merkle in danglingData {
          return;
        }
        DanglingAdd(danglingData, view, tb);
        danglingData := danglingData[merkle := tb];
        return;
      }
      var hash := merkleRootToBlockHashMap[merkle];
      if hash !in allNodesMap {
        return;
      }
      var val := allNodesMap[hash];
      Resolvable(allNodesMap, root, seen, view, utxoRepr);
      LeadsRight(allNodesMap, root, seen, merkle, hash);
      HasDataInView(allNodesMap, root, seen, view, utxoRepr, val);
      if val.hasData {
        return;
      }
      SetData(val, tb);
    }

    method SetData(n: BlockChainNode, g: Group)
      requires CoreInv() && n in Nodes() && !n.hasData
      requires g.Valid() && g.MerkleRoot() == n.Block.MerkleRoot && GroupResolved(view, g)
      modifies this`view, n`hasData, n`dataPointer
      ensures CoreInv() && Extends(old(view), view) && view == old(view)[n.Hash := g] && n.hasData
      ensures Now() == old(Now()).(view := view)
    {
      hide TreeInv, BuiltInv, ForkInv, ManagerInv, ViewInv, DanglingInv, LeadsInv;
      NotInManagers(allNodesMap, root, seen, view, utxoRepr, this, [], {});
      AttachData(allNodesMap, root, seen, view, n, g);
      ghost var view' := view[n.Hash := g];
      BuiltInvStays(allNodesMap, root, view, view');
      DanglingInvStays(danglingData, view, view');
      view := view';
    }

    // -------------------------------------------------------------- verification

    /** Both checks, one after the other. */
    method Examine(bcn: BlockChainNode, prev: BlockChainNode) returns (outcome: Outcome)
      requires CoreInv() && Ready(allNodesMap, root, view, bcn, prev)
      ensures CoreInv() && outcome == Judged(Now(), prev, bcn).0
      ensures outcome == Done <==> Acceptable(RecordOf(bcn, view).blocks, Replay(prev.history))
    {
      hide NodesInv, DanglingInv, LeadsInv, ForkInv, Replay, RefsOk, GroupPasses, GroupCrashes;
      DataAndManager(allNodesMap, root, seen, view, utxoRepr, bcn, prev);
      HistoryListed(prev);
      var blocks := bcn.dataPointer.value.TransactionBlockStructs;
      var prevUTXO := prev.uTxOManagerPointer;
      var goodTransactions := prevUTXO.verifyTransactionBlockGroupRefs(blocks);
      var goodSignatures := VerifyExceptUTXO(blocks);
      if goodSignatures == Crash {
        return Crashed;
      }
      if !goodTransactions || goodSignatures != Good {
        return BadBlock;
      }
      outcome := Done;
    }

    method Refuse(bcn: BlockChainNode, outcome: Outcome)
      requires CoreInv() && bcn in Nodes()
      modifies this`failed, bcn`badblock
      ensures CoreInv() && failed && Now() == old(Now()) && (outcome == BadBlock ==> bcn.badblock)
    {
      hide NodesInv, DanglingInv, LeadsInv, ForkInv, BuiltHistories, UpToDateNodes;
      NotInManagers(allNodesMap, root, seen, view, utxoRepr, this, [], {});
      ForkFails(allNodesMap, root, utxoChan, failed, head, Height);
      failed := true;
      if outcome == BadBlock {
        bcn.badblock := true;
      }
    }

    /** `bcn` is verified and takes over the manager of `prev`. */
    method UpdateManagers(bcn: BlockChainNode, prev: BlockChainNode, ghost history: seq<Record>, ghost record: Record)
      requires NodesInv(allNodesMap, root, seen, view, utxoRepr) && Ready(allNodesMap, root, view, bcn, prev)
      requires history == prev.history && record == RecordOf(bcn, view)
      requires Acceptable(record.blocks, Replay(history))
      modifies this`utxoRepr
      modifies bcn`verifiedWithUtxoManager, bcn`history, bcn`uTxOManagerIsUpToDate, bcn`uTxOManagerPointer
      modifies prev`uTxOManagerIsUpToDate, prev`uTxOManagerPointer, utxoRepr
      ensures NodesInv(allNodesMap, root, seen, view, utxoRepr) && utxoRepr >= old(utxoRepr)
      ensures fresh(utxoRepr - old(utxoRepr))
      ensures BuiltNodes(allNodesMap, root) == old(BuiltNodes(allNodesMap, root)) + {bcn}
      ensures BuiltHistories(allNodesMap, root) == old(BuiltHistories(allNodesMap, root))[bcn := history + [record]]
      ensures UpToDateNodes(allNodesMap)
           == old(UpToDateNodes(allNodesMap)) + {bcn} - if bcn.Block.BlockCount % 5 == 1 then {} else {prev}
    {
      hide TreeInv, ViewInv, BuiltInv, ManagerInv, Replay, RefsOk, GroupPasses;
      NotInManagers(allNodesMap, root, seen, view, utxoRepr, this, [], {});
      var err;
      ghost var repr;
      ghost var histories, built := BuiltHistories(allNodesMap, root), BuiltNodes(allNodesMap, root);
      ghost var upToDate := UpToDateNodes(allNodesMap);
      err, repr := MoveManager(allNodesMap, root, seen, view, utxoRepr, bcn, prev);
      OneMoreHistory(allNodesMap, root, histories, built, bcn);
      OneMoreUpToDate(allNodesMap, upToDate, bcn, prev);
      NotInManagers(allNodesMap, root, seen, view, repr, this, [], {});
      utxoRepr := repr;
    }

    /** The head, if `bcn` is higher, and then the managers. */
    method MoveUp(bcn: BlockChainNode, prev: BlockChainNode)
      requires NodesInv(allNodesMap, root, seen, view, utxoRepr) && Ready(allNodesMap, root, view, bcn, prev)
      requires ForkInv(allNodesMap, root, head, Height, utxoChan, failed)
      requires Acceptable(RecordOf(bcn, view).blocks, Replay(prev.history))
      modifies this`head, this`Height, this`otherHeadNodes, this`utxoRepr
      modifies bcn`verifiedWithUtxoManager, bcn`history, bcn`uTxOManagerIsUpToDate, bcn`uTxOManagerPointer
      modifies prev`uTxOManagerIsUpToDate, prev`uTxOManagerPointer, utxoRepr
      ensures NodesInv(allNodesMap, root, seen, view, utxoRepr)
      ensures ForkInv(allNodesMap, root, head, Height, utxoChan, failed)
      ensures utxoRepr >= old(utxoRepr) && fresh(utxoRepr - old(utxoRepr))
      ensures prev in old(Now()).histories && Now() == Advanced(old(Now()), prev, bcn)
    {
      hide NodesInv, HeadRight, Acceptable, Replay, BuiltNodes, UpToDateNodes, BuiltHistories, Built, Advanced;
      NodeFacts(allNodesMap, root, seen, view, utxoRepr, bcn);
      NotInManagers(allNodesMap, root, seen, view, utxoRepr, this, [], {});
      PrevListed(allNodesMap, root, seen, view, utxoRepr, prev);
      ghost var built, upToDate := BuiltNodes(allNodesMap, root), UpToDateNodes(allNodesMap);
      ghost var now, history, record := Now(), prev.history, RecordOf(bcn, view);
      if bcn.Block.BlockCount > Height {
        TakeHead(bcn);
      }
      UpdateManagers(bcn, prev, history, record);
      HeadMoves(Nodes(), utxoChan, failed, built, upToDate, now.head, now.height,
                BuiltNodes(allNodesMap, root), UpToDateNodes(allNodesMap), head, Height, bcn, prev);
      AdvancedIs(now, prev, bcn, Now());
    }

    lemma HistoryListed(n: BlockChainNode)
      requires n in Nodes() && Built(n, root)
      ensures n in Now().histories && Now().histories[n] == n.history
    {
    }

    method Advance(bcn: BlockChainNode, prev: BlockChainNode)
      requires CoreInv() && Ready(allNodesMap, root, view, bcn, prev)
      requires Acceptable(RecordOf(bcn, view).blocks, Replay(prev.history))
      modifies this`head, this`Height, this`otherHeadNodes, this`utxoRepr
      modifies bcn`verifiedWithUtxoManager, bcn`history, bcn`uTxOManagerIsUpToDate, bcn`uTxOManagerPointer
      modifies prev`uTxOManagerIsUpToDate, prev`uTxOManagerPointer, utxoRepr
      ensures CoreInv() && utxoRepr >= old(utxoRepr) && fresh(utxoRepr - old(utxoRepr))
      ensures prev in old(Now()).histories && Now() == Advanced(old(Now()), prev, bcn)
    {
      hide CoreInv, NodesInv, DanglingInv, LeadsInv, ForkInv, Acceptable, Replay, UpToDateNodes, BuiltHistories;
      hide Advanced, Built;
      OpenCore();
      Footing();
      MoveUp(bcn, prev);
      CloseCore();
    }

    method TakeHead(bcn: BlockChainNode)
      requires bcn.previousBlockChainNode != null
      modifies this`head, this`Height, this`otherHeadNodes
      ensures head == bcn && Height == bcn.Block.BlockCount
      ensures otherHeadNodes == if bcn.Block.PrevHash !in old(otherHeadNodes) then old(otherHeadNodes) else
                old(otherHeadNodes)[old(head).Hash := old(head)] - {bcn.previousBlockChainNode.Hash}
    {
      if bcn.Block.PrevHash in otherHeadNodes {
        otherHeadNodes := otherHeadNodes[head.Hash := head];
        otherHeadNodes := otherHeadNodes - {bcn.previousBlockChainNode.Hash};
      }
      head := bcn;
      Height := bcn.Block.BlockCount;
    }

    /** The last part of `verifyAndBuildDown`, once the data is there and the previous node is up to date. */
    method VerifyAndApply(bcn: BlockChainNode, prev: BlockChainNode) returns (outcome: Outcome)
      requires CoreInv() && Ready(allNodesMap, root, view, bcn, prev)
      modifies this`head, this`Height, this`otherHeadNodes, this`utxoRepr, this`failed
      modifies bcn`verifiedWithUtxoManager, bcn`history, bcn`badblock, bcn`uTxOManagerIsUpToDate, bcn`uTxOManagerPointer
      modifies prev`uTxOManagerIsUpToDate, prev`uTxOManagerPointer, utxoRepr
      ensures CoreInv() && utxoRepr >= old(utxoRepr) && fresh(utxoRepr - old(utxoRepr))
      ensures (outcome, Now()) == Judged(old(Now()), prev, bcn)
      ensures failed == (old(failed) || outcome != Done) && (outcome == BadBlock ==> bcn.badblock)
    {
      hide CoreInv, Acceptable, GroupCrashes, Replay, UpToDateNodes, BuiltHistories, Advanced;
      Footing();
      outcome := Examine(bcn, prev);
      if outcome == Done {
        Advance(bcn, prev);
      } else {
        Refuse(bcn, outcome);
      }
    }

    /** Data that came before the header; otherwise it is requested and `waiting` for. */
    method FindDangling(bcn: BlockChainNode) returns (waiting: bool)
      requires CoreInv() && bcn in Nodes()
      modifies this`view, this`merkleRootToBlockHashMap, bcn`hasData, bcn`dataPointer
      ensures CoreInv() && Holdings() == Found(old(Holdings()), bcn)
      ensures waiting == !bcn.hasData == (bcn.Hash !in view) && Extends(old(view), view) && Links() == old(Links())
    {
      hide Links, NodesInv, ForkInv, DanglingInv, LeadsInv, GroupResolved, BuiltHistories, UpToDateNodes;
      waiting := false;
      DataOf(bcn);
      if !bcn.hasData {
        if bcn.Block.MerkleRoot !in danglingData {
          return true;
        }
        var d := danglingData[bcn.Block.MerkleRoot];
        NotInManagers(allNodesMap, root, seen, view, utxoRepr, this, [], {});
        DanglingGroup(danglingData, view, bcn.Block.MerkleRoot);
        LeadsLess(merkleRootToBlockHashMap, seen, bcn.Block.MerkleRoot);
        merkleRootToBlockHashMap := merkleRootToBlockHashMap - {bcn.Block.MerkleRoot};
        SetData(bcn, d);
      }
    }

    /** What arrives while the call waits, until it is what the call waits for. */
    method WaitForData(bcn: BlockChainNode, arrivals: seq<Group>) returns (rest: seq<Group>)
      requires CoreInv() && bcn in Nodes() && AllValid(arrivals)
      modifies this`view, this`danglingData, Nodes()`hasData, Nodes()`dataPointer
      ensures CoreInv() && Extends(old(view), view)
      ensures AllValid(rest) && (bcn.hasData || rest == [])
      ensures (DataState(view, danglingData), rest)
           == Waited(old(DataState(view, danglingData)), merkleRootToBlockHashMap, allNodesMap.Keys, bcn.Hash, arrivals)
    {
      hide CoreInv, DataStep;
      rest := arrivals;
      DataOf(bcn);
      while rest != [] && !bcn.hasData
        invariant CoreInv() && Extends(old(view), view) && allNodesMap == old(allNodesMap)
        invariant AllValid(rest) && (bcn.hasData <==> bcn.Hash in view)
        invariant Waited(DataState(view, danglingData), merkleRootToBlockHashMap, allNodesMap.Keys, bcn.Hash, rest)
               == Waited(old(DataState(view, danglingData)), merkleRootToBlockHashMap, allNodesMap.Keys, bcn.Hash,
                     arrivals)
        decreases |rest|
      {
        assert rest[0] in rest;
        addData(rest[0]);
        DataOf(bcn);
        rest := rest[1..];
      }
    }

    lemma DataOf(bcn: BlockChainNode)
      requires CoreInv() && bcn in Nodes()
      ensures bcn.hasData <==> bcn.Hash in view
    {
      hide NodesInv;
      HasDataInView(allNodesMap, root, seen, view, utxoRepr, bcn);
    }

    /** A node and the one before it. */
    lemma Surroundings(bcn: BlockChainNode)
      requires CoreInv() && bcn in Nodes()
      ensures bcn.previousBlockChainNode != null && bcn.previousBlockChainNode in Nodes()
      ensures bcn.previousBlockChainNode == Before(allNodesMap, bcn)
      ensures bcn.uTxOManagerIsUpToDate <==> bcn in Now().upToDate
      ensures !bcn.uTxOManagerIsUpToDate ==>
                && bcn != root && HasParent(allNodesMap, bcn)
                && bcn.previousBlockChainNode == Parent(allNodesMap, bcn)
                && bcn.Block.BlockCount == bcn.previousBlockChainNode.Block.BlockCount + 1
    {
      hide ViewInv, BuiltInv, ForkInv, DanglingInv, LeadsInv;
      RootOnly(allNodesMap, root, seen, bcn);
      assert ManagerAt(bcn, root, utxoRepr);
    }

    /** What a call that ends as the function says, from `s` and a wallet that listed `refs`, leaves behind. */
    ghost predicate Left(e: Ending, key: PublicKey, refs: seq<TransactionRef>, failed0: bool, w: Wallet)
      reads `allNodesMap, `root, `view, `head, `Height, `danglingData, `merkleRootToBlockHashMap, `failed, w
      reads allNodesMap.Values`verifiedWithUtxoManager, allNodesMap.Values`history
      reads allNodesMap.Values`uTxOManagerIsUpToDate
    {
      && w.Right(view) && Holdings() == e.store && failed == (failed0 || e.outcome != Done)
      && RefsOfEntries(w.transactions) == refs + Listed(view, e.applied, key)
    }

    lemma NothingLeft(arrivals: seq<Group>, w: Wallet)
      requires w.Right(view)
      ensures Left(Ending(Done, Holdings(), arrivals, []), w.PublicKey, RefsOfEntries(w.transactions), failed, w)
    {
      hide Wallet.Right, BuiltHistories, UpToDateNodes;
    }

    /** Where `bcn` stands when the node before it is done. */
    lemma AfterPrevious(s: Store, prev: BlockChainNode, bcn: BlockChainNode, arrivals: seq<Group>, w: Wallet,
                        refs: seq<TransactionRef>, failed0: bool)
      requires CoreInv() && bcn in Nodes() && prev in Nodes() && AllValid(arrivals)
      requires bcn !in s.now.upToDate && bcn.Block.BlockCount == prev.Block.BlockCount + 1
      requires var e := BuiltDown(allNodesMap, s, prev, arrivals);
               e.outcome == Done && Left(e, w.PublicKey, refs, failed0, w)
      ensures prev.uTxOManagerIsUpToDate && !bcn.uTxOManagerIsUpToDate
      ensures bcn.Hash in s.now.view ==> bcn.hasData
      ensures forall m :: m in BuiltDown(allNodesMap, s, prev, arrivals).applied ==> m.Hash in view
    {
      hide CoreInv, Wallet.Right, BuiltHistories, UpToDateNodes, BuiltDown, Listed, HeadAfter;
      Movement(allNodesMap, s, prev, arrivals);
      DataStays(allNodesMap, s, prev, arrivals);
      Surroundings(bcn);
      Surroundings(prev);
      DataOf(bcn);
    }

    /** Brings `bcn` up to date: first the node before it, if that is needed, then `bcn` itself. */
    method verifyAndBuildDown(bcn: BlockChainNode, arrivals: seq<Group>, w: Wallet)
      returns (outcome: Outcome, rest: seq<Group>)
      requires CoreInv() && bcn in Nodes() && AllValid(arrivals) && w.Right(view)
      modifies this`head, this`Height, this`otherHeadNodes, this`utxoRepr, this`failed
      modifies this`view, this`danglingData, this`merkleRootToBlockHashMap
      modifies Nodes()`nextBlockChainNode, Nodes()`hasData, Nodes()`dataPointer
      modifies Nodes()`verifiedWithUtxoManager, Nodes()`history, Nodes()`badblock
      modifies Nodes()`uTxOManagerIsUpToDate, Nodes()`uTxOManagerPointer, utxoRepr, w`transactions
      ensures CoreInv() && utxoRepr >= old(utxoRepr) && fresh(utxoRepr - old(utxoRepr))
      ensures var e := BuiltDown(allNodesMap, old(Holdings()), bcn, arrivals);
              && outcome == e.outcome && rest == e.rest
              && Left(e, w.PublicKey, old(RefsOfEntries(w.transactions)), old(failed), w)
      ensures Links() == Relinked(allNodesMap, old(Now()).upToDate, bcn, old(Links()))
      decreases bcn.Block.BlockCount, 1
    {
      hide CoreInv, BuiltHistories, UpToDateNodes, AllValid, Wallet.Right, Finished, Listed, Left;
      hide Paid, RefsOfEntries, EntriesOk, Wallet.Valid, Relinked, Links;
      Surroundings(bcn);
      Footing();
      WalletApart(w);
      ghost var s, refs, links := Holdings(), RefsOfEntries(w.transactions), Links();
      var prev := bcn.previousBlockChainNode;
      Surroundings(prev);
      RelinkedOn(allNodesMap, s.now.upToDate, prev, bcn, links);
      Redirect(prev, bcn);
      if bcn.uTxOManagerIsUpToDate {
        NothingLeft(arrivals, w);
        return Done, arrivals;
      }
      var waiting := FindDangling(bcn);
      StillRight(w, s.now.view, view);
      outcome, rest := BuildPrevious(bcn, prev, arrivals, w);
      if outcome != Done {
        return;
      }
      ghost var e := BuiltDown(allNodesMap, Found(s, bcn), prev, arrivals);
      AfterPrevious(Found(s, bcn), prev, bcn, arrivals, w, refs, old(failed));
      outcome, rest := Finish(bcn, prev, waiting, rest, w, e, refs, old(failed));
    }

    /** The ability to go forward again, from the node before `bcn`. */
    method Redirect(prev: BlockChainNode, bcn: BlockChainNode)
      requires CoreInv() && prev in Nodes()
      modifies prev`nextBlockChainNode
      ensures CoreInv() && Holdings() == old(Holdings()) && Links() == old(Links())[prev := bcn]
    {
      hide CoreInv, BuiltHistories, UpToDateNodes;
      Footing();
      ghost var links := Links();
      prev.nextBlockChainNode := bcn;
      OneLink(links, prev, bcn);
    }

    /** The node before `bcn`, if it is not up to date. */
    method BuildPrevious(bcn: BlockChainNode, prev: BlockChainNode, arrivals: seq<Group>, w: Wallet)
      returns (outcome: Outcome, rest: seq<Group>)
      requires CoreInv() && bcn in Nodes() && prev in Nodes() && AllValid(arrivals) && w.Right(view)
      requires bcn.Block.BlockCount == prev.Block.BlockCount + 1
      modifies this`head, this`Height, this`otherHeadNodes, this`utxoRepr, this`failed
      modifies this`view, this`danglingData, this`merkleRootToBlockHashMap
      modifies Nodes()`nextBlockChainNode, Nodes()`hasData, Nodes()`dataPointer
      modifies Nodes()`verifiedWithUtxoManager, Nodes()`history, Nodes()`badblock
      modifies Nodes()`uTxOManagerIsUpToDate, Nodes()`uTxOManagerPointer, utxoRepr, w`transactions
      ensures CoreInv() && utxoRepr >= old(utxoRepr) && fresh(utxoRepr - old(utxoRepr))
      ensures var e := BuiltDown(allNodesMap, old(Holdings()), prev, arrivals);
              && outcome == e.outcome && rest == e.rest
              && Left(e, w.PublicKey, old(RefsOfEntries(w.transactions)), old(failed), w)
      ensures Links() == if prev in old(Now()).upToDate then old(Links())
                         else Relinked(allNodesMap, old(Now()).upToDate, prev, old(Links()))
      decreases bcn.Block.BlockCount, 0
    {
      hide CoreInv, BuiltHistories, UpToDateNodes, AllValid, Wallet.Right, Finished, Listed, Left;
      hide Paid, RefsOfEntries, EntriesOk, Wallet.Valid, Relinked, Links;
      Surroundings(prev);
      if prev.uTxOManagerIsUpToDate {
        NothingLeft(arrivals, w);
        return Done, arrivals;
      }
      outcome, rest := verifyAndBuildDown(prev, arrivals, w);
    }

    /** `bcn`, once the node before it is up to date; `e` is what was done so far. */
    method Finish(bcn: BlockChainNode, prev: BlockChainNode, waiting: bool, arrivals: seq<Group>, w: Wallet,
                  ghost e: Ending, ghost refs: seq<TransactionRef>, ghost failed0: bool)
      returns (outcome: Outcome, rest: seq<Group>)
      requires CoreInv() && IsNext(bcn, prev) && (waiting || bcn.hasData)
      requires e.outcome == Done && arrivals == e.rest && AllValid(arrivals) && Left(e, w.PublicKey, refs, failed0, w)
      requires forall m :: m in e.applied ==> m.Hash in view
      modifies this`head, this`Height, this`otherHeadNodes, this`utxoRepr, this`failed
      modifies this`view, this`danglingData, Nodes()`hasData, Nodes()`dataPointer
      modifies bcn`verifiedWithUtxoManager, bcn`history, bcn`badblock, bcn`uTxOManagerIsUpToDate, bcn`uTxOManagerPointer
      modifies prev`uTxOManagerIsUpToDate, prev`uTxOManagerPointer, utxoRepr, w`transactions
      ensures CoreInv() && utxoRepr >= old(utxoRepr) && fresh(utxoRepr - old(utxoRepr))
      ensures var e' := Finished(allNodesMap.Keys, e.store, prev, bcn, arrivals, e.applied);
              && outcome == e'.outcome && rest == e'.rest && Left(e', w.PublicKey, refs, failed0, w)
      ensures Links() == old(Links())
    {
      hide CoreInv, BuiltHistories, UpToDateNodes, AllValid, Wallet.Right, Judged, Listed, Waited, Finished, Left;
      hide Links, Paid, RefsOfEntries, Acceptable, BuiltDown, EntriesOk, Wallet.Valid;
      Footing();
      WalletApart(w);
      OpenLeft(e, refs, failed0, w);
      ghost var s, listed := Holdings(), RefsOfEntries(w.transactions);
      rest := AwaitData(bcn, waiting, arrivals, w);
      FinishedIs(allNodesMap.Keys, s, prev, bcn, arrivals, e.applied, DataState(view, danglingData), rest);
      ghost var now := Now();
      if !bcn.hasData {
        outcome := Waiting;
      } else {
        Footing();
        outcome := Judge(bcn, prev, w);
        JudgedView(now, prev, bcn);
      }
      CloseLeft(e, Finished(allNodesMap.Keys, s, prev, bcn, arrivals, e.applied), bcn, refs, listed, failed0, w);
    }

    lemma OpenLeft(e: Ending, refs: seq<TransactionRef>, failed0: bool, w: Wallet)
      requires Left(e, w.PublicKey, refs, failed0, w)
      ensures w.Right(view) && Holdings() == e.store && failed == (failed0 || e.outcome != Done)
      ensures RefsOfEntries(w.transactions) == refs + Listed(view, e.applied, w.PublicKey)
    {
    }

    /** `bcn` was next after what `e` left, when the wallet listed `listed`. */
    lemma CloseLeft(e: Ending, e': Ending, bcn: BlockChainNode, refs: seq<TransactionRef>, listed: seq<TransactionRef>,
                    failed0: bool, w: Wallet)
      requires e.outcome == Done && listed == refs + Listed(e.store.now.view, e.applied, w.PublicKey)
      requires Extends(e.store.now.view, view) && forall m :: m in e.applied ==> m.Hash in e.store.now.view
      requires e'.applied == if e'.outcome == Done then e.applied + [bcn] else e.applied
      requires w.Right(view) && Holdings() == e'.store && failed == (failed0 || e'.outcome != Done)
      requires RefsOfEntries(w.transactions)
            == listed + if e'.outcome == Done then Paid(view, bcn, w.PublicKey) else []
      ensures Left(e', w.PublicKey, refs, failed0, w)
    {
      hide Listed, Wallet.Right;
      ListedStays(e.store.now.view, view, e.applied, w.PublicKey);
      ListedOneMore(view, e.applied, bcn, w.PublicKey);
    }

    /** The data of `bcn`, if it comes. */
    method AwaitData(bcn: BlockChainNode, waiting: bool, arrivals: seq<Group>, w: Wallet) returns (rest: seq<Group>)
      requires CoreInv() && bcn in Nodes() && (waiting || bcn.hasData) && AllValid(arrivals) && w.Right(view)
      modifies this`view, this`danglingData, this`failed, Nodes()`hasData, Nodes()`dataPointer
      ensures CoreInv() && w.Right(view) && Extends(old(view), view) && Now() == old(Now()).(view := view)
      ensures (bcn.hasData <==> bcn.Hash in view) && failed == (old(failed) || !bcn.hasData)
      ensures (DataState(view, danglingData), rest)
           == Waited(old(DataState(view, danglingData)), merkleRootToBlockHashMap, allNodesMap.Keys, bcn.Hash, arrivals)
      ensures Links() == old(Links())
    {
      hide Links, CoreInv, BuiltHistories, UpToDateNodes, AllValid, Wallet.Right, Waited;
      DataOf(bcn);
      ghost var d := DataState(view, danglingData);
      rest := arrivals;
      if waiting {
        rest := WaitForData(bcn, rest);
      } else {
        WaitedExtends(d, merkleRootToBlockHashMap, allNodesMap.Keys, bcn.Hash, arrivals);
      }
      DataOf(bcn);
      StillRight(w, d.view, view);
      if !bcn.hasData {
        ForkFailed();
      }
    }

    /** Verifies and applies data that is there, and shows it to the wallet. */
    method Judge(bcn: BlockChainNode, prev: BlockChainNode, w: Wallet) returns (outcome: Outcome)
      requires CoreInv() && Ready(allNodesMap, root, view, bcn, prev) && bcn.hasData && w.Right(view)
      modifies this`head, this`Height, this`otherHeadNodes, this`utxoRepr, this`failed
      modifies bcn`verifiedWithUtxoManager, bcn`history, bcn`badblock, bcn`uTxOManagerIsUpToDate, bcn`uTxOManagerPointer
      modifies prev`uTxOManagerIsUpToDate, prev`uTxOManagerPointer, utxoRepr, w`transactions
      ensures CoreInv() && utxoRepr >= old(utxoRepr) && fresh(utxoRepr - old(utxoRepr)) && w.Right(view)
      ensures (outcome, Now()) == Judged(old(Now()), prev, bcn) && failed == (old(failed) || outcome != Done)
      ensures RefsOfEntries(w.transactions)
           == old(RefsOfEntries(w.transactions)) + if outcome == Done then Paid(view, bcn, w.PublicKey) else []
      ensures Links() == old(Links())
    {
      hide Links, CoreInv, BuiltHistories, UpToDateNodes, Wallet.Right, Judged, Paid;
      Footing();
      WalletApart(w);
      outcome := VerifyAndApply(bcn, prev);
      if outcome == Done {
        Tell(w, bcn);
      }
    }

    ghost predicate IsNext(bcn: BlockChainNode, prev: BlockChainNode)
      reads this, bcn, prev
    {
      && bcn in Nodes() && bcn != root && !bcn.uTxOManagerIsUpToDate
      && prev in Nodes() && bcn.previousBlockChainNode == prev && prev.uTxOManagerIsUpToDate
    }

    /** The wallet is shown a node that was applied. */
    method Tell(w: Wallet, bcn: BlockChainNode)
      requires CoreInv() && bcn in Nodes() && bcn.hasData && w.Right(view)
      modifies w`transactions
      ensures CoreInv() && w.Right(view)
      ensures RefsOfEntries(w.transactions) == old(RefsOfEntries(w.transactions)) + Paid(view, bcn, w.PublicKey)
    {
      hide NodesInv, ForkInv, DanglingInv, LeadsInv, EntriesOk, Group.Valid, MerkleTree.Valid, Received, Wallet.Valid;
      WalletApart(w);
      DataToShow(allNodesMap, root, seen, view, utxoRepr, bcn);
      var merkleTree := TreeOfData(bcn.dataPointer.value.transactionBlocks);
      w.updateWithBlock(bcn, merkleTree, view);
    }

    lemma WalletApart(w: Wallet)
      requires CoreInv()
      ensures w !in utxoRepr
    {
      hide TreeInv, ViewInv, BuiltInv, ManagerAt, Apart, DanglingInv, LeadsInv, ForkInv;
    }

    ghost method ForkFailed()
      requires CoreInv()
      modifies this`failed
      ensures CoreInv() && failed
    {
      hide NodesInv, DanglingInv, LeadsInv, ForkInv;
      NotInManagers(allNodesMap, root, seen, view, utxoRepr, this, [], {});
      ForkFails(allNodesMap, root, utxoChan, failed, head, Height);
      failed := true;
    }

    // -------------------------------------------------------------- headers

    /** A chain of one node whose parent is not known. */
    constructor initializeOrphanBlockChain(bl: Block)
      ensures isOrphan && orphanBlockChains == [] && fresh(root) && head == root
      ensures root.Block == bl && root.Hash == Blocks.Hash(bl) && Blank(root)
      ensures allNodesMap == map[root.Hash := root]
    {
      var bcn := new BlockChainNode(bl);
      root, head := bcn, bcn;
      orphanBlockChains, isOrphan, Height := [], true, 0;
      utxoChan := multiset{};
      allNodesMap, otherHeadNodes := map[bcn.Hash := bcn], map[bcn.Hash := bcn];
      danglingData, merkleRootToBlockHashMap := map[], map[];
      seen, view, utxoRepr, orphanNodes, failed := {}, map[], {}, {}, false;
    }

    /** What `addBlockChainNode` does when it is called on an orphan chain that has the parent. */
    method AddToOrphan(block0: Block, ghost seen: set<Block>, ghost genesis: Block)
      requires ChainOk(this, seen, genesis) && GoodHeaders(seen, genesis)
      requires block0 in seen && block0 != genesis && Comparable(block0) && Verify(block0)
      requires block0.PrevHash in allNodesMap
      modifies this`head, this`allNodesMap, this`otherHeadNodes, this`merkleRootToBlockHashMap
      modifies {allNodesMap[block0.PrevHash]}`nextBlockChainNode
      ensures ChainOk(this, seen, genesis) && Blocks.Hash(block0) in allNodesMap
      ensures Blocks.Hash(block0) !in old(allNodesMap) ==> Forward(allNodesMap[Blocks.Hash(block0)])
      ensures var hash := Blocks.Hash(block0);
              && (hash in old(allNodesMap) ==> allNodesMap == old(allNodesMap))
              && (hash !in old(allNodesMap) ==>
                    && fresh(allNodesMap[hash]) && allNodesMap == old(allNodesMap)[hash := allNodesMap[hash]]
                    && allNodesMap.Values == old(allNodesMap.Values) + {allNodesMap[hash]})
    {
      hide ChainOk, GoodHeaders, Verify, Blank;
      var hash := Blocks.Hash(block0);
      if hash in allNodesMap {
        return;
      }
      merkleRootToBlockHashMap := merkleRootToBlockHashMap[block0.MerkleRoot := hash];
      var prevBlock := allNodesMap[block0.PrevHash];
      var newBCN := new BlockChainNode(block0);
      BlankNode(newBCN);
      newBCN.previousBlockChainNode := prevBlock;
      prevBlock.nextBlockChainNode := newBCN;
      EnterOrphan(newBCN, seen, genesis);
    }

    /** A new node above one that is there; the head is the highest node. */
    method EnterOrphan(newBCN: BlockChainNode, ghost seen: set<Block>, ghost genesis: Block)
      requires ChainOk(this, seen, genesis) && GoodHeaders(seen, genesis) && newBCN.Hash !in allNodesMap
      requires Blank(newBCN) && newBCN.Hash == Blocks.Hash(newBCN.Block)
      requires newBCN.Block in seen && newBCN.Block != genesis && Comparable(newBCN.Block) && Verify(newBCN.Block)
      requires newBCN.Block.PrevHash in allNodesMap
      requires newBCN.previousBlockChainNode == allNodesMap[newBCN.Block.PrevHash]
      modifies this`head, this`allNodesMap, this`otherHeadNodes
      ensures ChainOk(this, seen, genesis) && allNodesMap == old(allNodesMap)[newBCN.Hash := newBCN]
      ensures allNodesMap.Values == old(allNodesMap.Values) + {newBCN}
    {
      hide OrphanTree, GoodHeaders, Verify, Blank;
      GrowsUp(allNodesMap, root, head, seen, genesis, newBCN);
      OneMoreValue(allNodesMap, newBCN.Hash, newBCN);
      allNodesMap := allNodesMap[newBCN.Hash := newBCN];
      otherHeadNodes := (otherHeadNodes - {newBCN.Block.PrevHash})[newBCN.Hash := newBCN];
      if head.Block.BlockCount < newBCN.Block.BlockCount {
        head := newBCN;
      }
    }

    /** The first orphan chain that holds a header. */
    method FindParent(prevHash: Digest) returns (i: nat)
      ensures i == FirstWith(Orphans(), prevHash)
      ensures i < |orphanBlockChains| ==> prevHash in orphanBlockChains[i].allNodesMap
    {
      i := 0;
      while i < |orphanBlockChains|
        invariant i <= |orphanBlockChains|
        invariant forall j :: 0 <= j < i ==> prevHash !in orphanBlockChains[j].allNodesMap
      {
        if prevHash in orphanBlockChains[i].allNodesMap {
          return;
        }
        i := i + 1;
      }
    }

    /** The first orphan chain that waits for a header. */
    method FindChild(hash: Digest) returns (i: nat)
      ensures i == FirstChild(Orphans(), hash)
      ensures i < |orphanBlockChains| ==> orphanBlockChains[i].root.Block.PrevHash == hash
    {
      i := 0;
      while i < |orphanBlockChains|
        invariant i <= |orphanBlockChains|
        invariant forall j :: 0 <= j < i ==> orphanBlockChains[j].root.Block.PrevHash != hash
      {
        if orphanBlockChains[i].root.Block.PrevHash == hash {
          return;
        }
        i := i + 1;
      }
    }

    /** The parent is in an orphan chain. */
    method GrowOrphan(i: nat, block0: Block)
      requires OrphanInv() && i < |orphanBlockChains| && GoodHeaders(seen, root.Block)
      requires block0 in seen && block0 != root.Block && Comparable(block0) && Verify(block0)
      requires block0.PrevHash in orphanBlockChains[i].allNodesMap
      modifies this`orphanNodes, orphanBlockChains[i]
      modifies {orphanBlockChains[i].allNodesMap[block0.PrevHash]}`nextBlockChainNode
      ensures OrphanInv() && fresh(orphanNodes - old(orphanNodes))
      ensures Orphans() == GrownAt(old(Orphans()), i, old(Orphans())[i].root, Blocks.Hash(block0))
    {
      hide OrphansInv, ChainOk, GoodHeaders, Verify, NoneShared, GrownAt;
      ApartFromOthers(orphanBlockChains, i, orphanNodes, seen, root.Block);
      var hash, obc := Blocks.Hash(block0), orphanBlockChains[i];
      ghost var shape, nodes := Orphans(), ChainNodes(orphanBlockChains);
      obc.AddToOrphan(block0, seen, root.Block);
      ShapeGrown(orphanBlockChains, shape, i, obc.root.Block, hash);
      ghost var more := if hash in shape[i].keys then {} else {obc.allNodesMap[hash]};
      OneChainGrew(orphanBlockChains, nodes, i, more, orphanNodes, seen, root.Block);
      orphanNodes := orphanNodes + more;
    }

    /** The root of an orphan chain waits for this header. */
    method NewRootFor(i: nat, block0: Block)
      requires OrphanInv() && i < |orphanBlockChains| && GoodHeaders(seen, root.Block)
      requires block0 in seen && block0 != root.Block && Comparable(block0) && Verify(block0)
      requires orphanBlockChains[i].root.Block.PrevHash == Blocks.Hash(block0)
      modifies this`orphanNodes, {orphanBlockChains[i]}`root, {orphanBlockChains[i]}`allNodesMap
      modifies {orphanBlockChains[i].root}`previousBlockChainNode
      ensures OrphanInv() && fresh(orphanNodes - old(orphanNodes))
      ensures Orphans() == GrownAt(old(Orphans()), i, block0, Blocks.Hash(block0))
    {
      hide OrphansInv, ChainOk, GoodHeaders, Verify, NoneShared, GrownAt;
      ApartFromOthers(orphanBlockChains, i, orphanNodes, seen, root.Block);
      var hash, obc := Blocks.Hash(block0), orphanBlockChains[i];
      ghost var shape, nodes := Orphans(), ChainNodes(orphanBlockChains);
      obc.SetRoot(block0, seen, root.Block);
      ShapeGrown(orphanBlockChains, shape, i, block0, hash);
      OneChainGrew(orphanBlockChains, nodes, i, {obc.root}, orphanNodes, seen, root.Block);
      orphanNodes := orphanNodes + {obc.root};
    }

    /** In the orphan chain itself. */
    method SetRoot(block0: Block, ghost seen: set<Block>, ghost genesis: Block)
      requires ChainOk(this, seen, genesis) && GoodHeaders(seen, genesis)
      requires block0 in seen && block0 != genesis && Comparable(block0) && Verify(block0)
      requires root.Block.PrevHash == Blocks.Hash(block0)
      modifies this`root, this`allNodesMap, root`previousBlockChainNode
      ensures ChainOk(this, seen, genesis) && fresh(root) && root.Block == block0 && root.Hash == Blocks.Hash(block0)
      ensures root.Hash !in old(allNodesMap) && allNodesMap == old(allNodesMap)[root.Hash := root]
      ensures root.nextBlockChainNode == old(root) && old(root).previousBlockChainNode == root
      ensures allNodesMap.Values == old(allNodesMap.Values) + {root}
    {
      hide OrphanTree, GoodHeaders, Verify, Blank;
      var newBCN := new BlockChainNode(block0);
      ghost var nodes, top := allNodesMap, root;
      BlankNode(newBCN);
      HangOn(nodes, head, seen, genesis, root, newBCN);
      newBCN.nextBlockChainNode := root;
      root := newBCN;
      allNodesMap := allNodesMap[newBCN.Hash := newBCN];
      GrowsDown(nodes, top, head, seen, genesis, newBCN);
      OneMoreValue(nodes, newBCN.Hash, newBCN);
    }

    /** Nothing is known about either neighbour. */
    method StartOrphan(block0: Block)
      requires OrphanInv() && block0 in seen && block0 != root.Block && Comparable(block0) && Verify(block0)
      modifies this`orphanNodes, this`orphanBlockChains
      ensures OrphanInv() && fresh(orphanNodes - old(orphanNodes))
      ensures OneNewChain()
      ensures Orphans() == old(Orphans()) + [OrphanChain(block0, {Blocks.Hash(block0)})]
    {
      hide OrphansInv, ChainOk, Verify;
      var obc := new BlockChain.initializeOrphanBlockChain(block0);
      OneNodeChain(obc, block0, seen, root.Block);
      OneChainMore(orphanBlockChains, obc, orphanNodes, seen, root.Block);
      ghost var chains := orphanBlockChains;
      orphanBlockChains := orphanBlockChains + [obc];
      ShapeMore(chains, obc);
      orphanNodes := orphanNodes + {obc.root};
    }

    /** The invariant of the main chain while the head and the queue take account of the nodes in `all` only. */
    ghost predicate Counts(all: set<BlockChainNode>)
      reads `allNodesMap, `root, `seen, `view, `utxoRepr, `head, `Height, `utxoChan, `failed, `isOrphan
      reads `danglingData, `merkleRootToBlockHashMap, utxoRepr
      reads allNodesMap.Values`previousBlockChainNode, allNodesMap.Values`hasData, allNodesMap.Values`dataPointer
      reads allNodesMap.Values`verifiedWithUtxoManager, allNodesMap.Values`history
      reads allNodesMap.Values`uTxOManagerIsUpToDate, allNodesMap.Values`uTxOManagerPointer
    {
      && !isOrphan
      && NodesInv(allNodesMap, root, seen, view, utxoRepr)
      && DanglingInv(danglingData, view) && LeadsInv(merkleRootToBlockHashMap, seen)
      && HeadRight(all, BuiltNodes(allNodesMap, root), UpToDateNodes(allNodesMap), head, Height, utxoChan, failed)
    }

    /** `newBCN` was added to the nodes `before` and is not taken account of. */
    ghost predicate Pending(before: NodeMap, newBCN: BlockChainNode)
      reads `allNodesMap, `root, `seen, `view, `utxoRepr, `head, `Height, `utxoChan, `failed, `isOrphan
      reads `danglingData, `merkleRootToBlockHashMap, allNodesMap.Values, before.Values, utxoRepr
    {
      && Counts(before.Values) && TreeInv(before, root, seen)
      && newBCN.Hash !in before && allNodesMap == before[newBCN.Hash := newBCN]
      && allNodesMap.Values == before.Values + {newBCN} && newBCN.Hash == Blocks.Hash(newBCN.Block)
    }

    lemma PendingFacts(before: NodeMap, newBCN: BlockChainNode)
      requires Pending(before, newBCN)
      ensures Counts(before.Values) && TreeInv(before, root, seen)
      ensures newBCN.Hash !in before && allNodesMap == before[newBCN.Hash := newBCN]
      ensures Nodes() == before.Values + {newBCN} && newBCN.Hash == Blocks.Hash(newBCN.Block)
      ensures newBCN.Hash in allNodesMap && allNodesMap[newBCN.Hash] == newBCN
    {
      hide Counts, TreeInv;
    }

    lemma CountsApart(all: set<BlockChainNode>)
      requires Counts(all)
      ensures this !in utxoRepr && root !in utxoRepr && forall n :: n in Nodes() ==> n !in utxoRepr
      ensures forall c :: c in orphanBlockChains ==> c !in utxoRepr
      ensures forall n :: n in orphanNodes ==> n !in utxoRepr
    {
      hide NodesInv;
      NotInManagers(allNodesMap, root, seen, view, utxoRepr, this, orphanBlockChains, orphanNodes);
    }

    /** A new node below `prevBlock`. */
    static method NewNode(block0: Block, prevBlock: BlockChainNode, linkBack: bool) returns (newBCN: BlockChainNode)
      modifies prevBlock`nextBlockChainNode
      ensures fresh(newBCN) && newBCN.Block == block0 && newBCN.Hash == Blocks.Hash(block0) && Blank(newBCN)
      ensures newBCN.previousBlockChainNode == prevBlock && !newBCN.hasData && (linkBack ==> Forward(newBCN))
    {
      newBCN := new BlockChainNode(block0);
      newBCN.previousBlockChainNode := prevBlock;
      if linkBack {
        prevBlock.nextBlockChainNode := newBCN;
      }
    }

    /** A node under a parent in the main chain. */
    method Insert(block0: Block, linkBack: bool) returns (newBCN: BlockChainNode)
      requires CoreInv() && OrphanInv()
      requires block0 in seen && Comparable(block0) && Verify(block0)
      requires Blocks.Hash(block0) !in allNodesMap && block0.PrevHash in allNodesMap
      modifies this`allNodesMap, {allNodesMap[block0.PrevHash]}`nextBlockChainNode
      ensures OrphanInv() && Pending(old(allNodesMap), newBCN)
      ensures fresh(newBCN) && newBCN.Block == block0 && newBCN.Hash == Blocks.Hash(block0)
      ensures Nodes() == old(Nodes()) + {newBCN} && !newBCN.hasData && Orphans() == old(Orphans())
      ensures Now() == old(Now()) && (linkBack ==> Forward(newBCN))
    {
      hide CoreInv, NodesInv, TreeInv, HeadRight, OrphansInv, Verify, Orphans, BuiltNodes, UpToDateNodes;
      hide BuiltHistories, DanglingInv, LeadsInv, Blank;
      Footing();
      newBCN := NewNode(block0, allNodesMap[block0.PrevHash], linkBack);
      MayInsert(newBCN);
      allNodesMap := allNodesMap[newBCN.Hash := newBCN];
    }

    lemma MayInsert(newBCN: BlockChainNode)
      requires CoreInv() && Blank(newBCN) && newBCN.Hash !in allNodesMap && newBCN.Hash == Blocks.Hash(newBCN.Block)
      requires newBCN.Block in seen && Comparable(newBCN.Block) && Verify(newBCN.Block)
      requires newBCN.Block.PrevHash in allNodesMap
      requires newBCN.previousBlockChainNode == allNodesMap[newBCN.Block.PrevHash]
      ensures !isOrphan && TreeInv(allNodesMap, root, seen)
      ensures DanglingInv(danglingData, view) && LeadsInv(merkleRootToBlockHashMap, seen)
      ensures HeadRight(Nodes(), BuiltNodes(allNodesMap, root), UpToDateNodes(allNodesMap), head, Height, utxoChan,
                        failed)
      ensures var all := allNodesMap[newBCN.Hash := newBCN];
              && NodesInv(all, root, seen, view, utxoRepr) && all.Values == Nodes() + {newBCN}
              && BuiltNodes(all, root) == BuiltNodes(allNodesMap, root)
              && UpToDateNodes(all) == UpToDateNodes(allNodesMap)
              && BuiltHistories(all, root) == BuiltHistories(allNodesMap, root)
    {
      hide NodesInv, TreeInv, HeadRight, Verify, BuiltNodes, UpToDateNodes, BuiltHistories, DanglingInv, LeadsInv;
      hide Blank;
      Resolvable(allNodesMap, root, seen, view, utxoRepr);
      OneMoreNode(allNodesMap, root, seen, view, utxoRepr, newBCN);
    }

    /** Records a header and inserts its node. */
    method EnterHeader(block0: Block, linkBack: bool) returns (newBCN: BlockChainNode)
      requires CoreInv() && OrphanInv() && GoodHeaders(seen + {block0}, root.Block)
      requires Comparable(block0) && Verify(block0)
      requires Blocks.Hash(block0) !in allNodesMap && block0.PrevHash in allNodesMap
      modifies this`seen, this`merkleRootToBlockHashMap, this`allNodesMap
      modifies {allNodesMap[block0.PrevHash]}`nextBlockChainNode
      ensures OrphanInv() && Pending(old(allNodesMap), newBCN)
      ensures fresh(newBCN) && newBCN.Block == block0 && newBCN.Hash == Blocks.Hash(block0)
      ensures Nodes() == old(Nodes()) + {newBCN} && !newBCN.hasData && Orphans() == old(Orphans())
      ensures seen == old(seen) + {block0} && Now() == old(Now()) && (linkBack ==> Forward(newBCN))
      ensures merkleRootToBlockHashMap == old(merkleRootToBlockHashMap)[block0.MerkleRoot := newBCN.Hash]
    {
      hide UpToDateNodes, BuiltHistories, CoreInv, OrphanInv, Pending, GoodHeaders, Verify, Orphans;
      OrphansApart();
      RecordHeader(block0);
      newBCN := Insert(block0, linkBack);
    }

    /** The root of an orphan chain gets its parent. */
    method Hang(obc: BlockChain, newBCN: BlockChainNode)
      requires OrphanInv() && obc in orphanBlockChains
      modifies {obc.root}`previousBlockChainNode
      ensures OrphanInv() && obc.root.previousBlockChainNode == newBCN
    {
      hide ChainOk;
      ChainFacts(orphanBlockChains, orphanNodes, seen, root.Block, obc);
      HangChain(obc, seen, root.Block, newBCN);
    }

    static method HangChain(obc: BlockChain, ghost seen: set<Block>, ghost genesis: Block, newBCN: BlockChainNode)
      requires ChainOk(obc, seen, genesis)
      modifies {obc.root}`previousBlockChainNode
      ensures ChainOk(obc, seen, genesis) && obc.root.previousBlockChainNode == newBCN
    {
      hide OrphanTree;
      HangOn(obc.allNodesMap, obc.head, seen, genesis, obc.root, newBCN);
    }

    /** The last orphan chain takes the place of one that joined. */
    method DropChain(i: nat)
      requires OrphanInv() && i < |orphanBlockChains|
      modifies this`orphanBlockChains, this`orphanNodes
      ensures OrphanInv() && orphanBlockChains == Without(old(orphanBlockChains), i)
      ensures orphanNodes == old(orphanNodes) - old(orphanBlockChains)[i].allNodesMap.Values
      ensures old(orphanBlockChains)[i].allNodesMap.Values <= old(orphanNodes)
      ensures old(orphanBlockChains)[i] !in orphanBlockChains
      ensures forall c :: c in orphanBlockChains ==> c in old(orphanBlockChains)
      ensures Orphans() == Without(old(Orphans()), i)
    {
      hide OrphansInv, ChainOk;
      ShapeWithout(orphanBlockChains, i);
      OneChainLess(orphanBlockChains, i, orphanNodes, seen, root.Block);
      ChainFacts(orphanBlockChains, orphanNodes, seen, root.Block, orphanBlockChains[i]);
      var l := |orphanBlockChains|;
      orphanNodes := orphanNodes - orphanBlockChains[i].allNodesMap.Values;
      orphanBlockChains := orphanBlockChains[i := orphanBlockChains[l - 1]][..l - 1];
    }

    /** An orphan chain gets its parent and leaves the list. */
    method Detach(i: nat, newBCN: BlockChainNode)
      requires OrphanInv() && i < |orphanBlockChains|
      modifies this`orphanBlockChains, this`orphanNodes, {orphanBlockChains[i].root}`previousBlockChainNode
      ensures OrphanInv() && orphanBlockChains == Without(old(orphanBlockChains), i)
      ensures var obc := old(orphanBlockChains)[i];
              && ChainOk(obc, seen, root.Block) && obc.root.previousBlockChainNode == newBCN
              && obc != this && obc !in orphanBlockChains
              && orphanNodes == old(orphanNodes) - obc.allNodesMap.Values
              && Orphans() == Without(old(Orphans()), i)
    {
      hide OrphanInv, ChainOk, Without;
      OrphansApart();
      OrphanFacts(i);
      Hang(orphanBlockChains[i], newBCN);
      OrphanFacts(i);
      DropChain(i);
    }

    method DetachFor(i: nat, newBCN: BlockChainNode, ghost before: NodeMap)
      requires Pending(before, newBCN) && OrphanInv() && i < |orphanBlockChains|
      modifies this`orphanBlockChains, this`orphanNodes, {orphanBlockChains[i].root}`previousBlockChainNode
      ensures Pending(before, newBCN) && OrphanInv() && orphanBlockChains == Without(old(orphanBlockChains), i)
      ensures var obc := old(orphanBlockChains)[i];
              && ChainOk(obc, seen, root.Block) && obc.root.previousBlockChainNode == newBCN
              && obc != this && obc !in orphanBlockChains
              && orphanNodes == old(orphanNodes) - obc.allNodesMap.Values
              && Orphans() == Without(old(Orphans()), i)
      ensures Now() == old(Now())
    {
      hide UpToDateNodes, BuiltHistories, Counts, TreeInv, OrphanInv, ChainOk, Orphans, Without;
      CountsApart(before.Values);
      OrphanFacts(i);
      Detach(i, newBCN);
    }

    /** The main chain takes over the orphan chain that waited for `newBCN`; `more` are the new nodes. */
    method Join(i: nat, newBCN: BlockChainNode, ghost before: NodeMap, ghost more: set<BlockChainNode>)
      requires Pending(before, newBCN) && OrphanInv()
      requires i < |orphanBlockChains| && orphanBlockChains[i].root.Block.PrevHash == newBCN.Hash
      requires more == {newBCN} + orphanBlockChains[i].allNodesMap.Values
      modifies this`allNodesMap, this`otherHeadNodes, this`orphanBlockChains, this`orphanNodes
      modifies {orphanBlockChains[i].root}`previousBlockChainNode
      ensures Counts(before.Values) && OrphanInv() && Nodes() == before.Values + more
      ensures orphanBlockChains == Without(old(orphanBlockChains), i) && orphanNodes <= old(orphanNodes)
      ensures Spliced(before, old(otherHeadNodes), allNodesMap, otherHeadNodes, newBCN,
                      old(orphanBlockChains[i].AsChain()))
      ensures newBCN.Hash in allNodesMap && allNodesMap[newBCN.Hash] == newBCN
      ensures Orphans() == Without(old(Orphans()), i)
      ensures Now() == old(Now())
    {
      hide UpToDateNodes, BuiltHistories, Counts, TreeInv, OrphanInv, Pending, ChainOk, Verify, Without, Orphans;
      hide Spliced;
      var obc := orphanBlockChains[i];
      PendingFacts(before, newBCN);
      OrphanFacts(i);
      DetachFor(i, newBCN, before);
      TakeOver(obc, newBCN, before);
    }

    /** The maps of a chain that hangs on `newBCN` are merged into those of the main chain. */
    method TakeOver(obc: BlockChain, newBCN: BlockChainNode, ghost before: NodeMap)
      requires Pending(before, newBCN) && OrphanInv()
      requires ChainOk(obc, seen, root.Block) && obc !in orphanBlockChains && obc != this
      requires obc.allNodesMap.Values !! orphanNodes
      requires obc.root.Block.PrevHash == newBCN.Hash && obc.root.previousBlockChainNode == newBCN
      modifies this`allNodesMap, this`otherHeadNodes
      ensures Counts(before.Values) && OrphanInv() && Orphans() == old(Orphans())
      ensures Spliced(before, old(otherHeadNodes), allNodesMap, otherHeadNodes, newBCN, obc.AsChain())
      ensures newBCN.Hash in allNodesMap && allNodesMap[newBCN.Hash] == newBCN
      ensures Nodes() == before.Values + ({newBCN} + obc.allNodesMap.Values)
      ensures allNodesMap.Keys == before.Keys + {newBCN.Hash} + obc.allNodesMap.Keys
      ensures Now() == old(Now())
    {
      hide BuiltHistories, NodesInv, TreeInv, OrphanTree, OrphansInv, ChainOk, BuiltNodes, UpToDateNodes, HeadRight;
      hide DanglingInv, LeadsInv, Orphans, Spliced;
      CountsApart(before.Values);
      MayTakeOver(obc, newBCN, before);
      otherHeadNodes := otherHeadNodes - {newBCN.Block.PrevHash} + obc.otherHeadNodes;
      allNodesMap := allNodesMap + obc.allNodesMap;
    }

    lemma MayTakeOver(obc: BlockChain, newBCN: BlockChainNode, before: NodeMap)
      requires Pending(before, newBCN) && ChainOk(obc, seen, root.Block)
      requires obc.root.Block.PrevHash == newBCN.Hash && obc.root.previousBlockChainNode == newBCN
      ensures var all := allNodesMap + obc.allNodesMap;
              && NodesInv(all, root, seen, view, utxoRepr) && newBCN.Hash in all && all[newBCN.Hash] == newBCN
              && BuiltNodes(all, root) == BuiltNodes(allNodesMap, root)
              && UpToDateNodes(all) == UpToDateNodes(allNodesMap)
              && BuiltHistories(all, root) == BuiltHistories(allNodesMap, root)
              && all.Values == before.Values + ({newBCN} + obc.allNodesMap.Values)
              && all.Keys == before.Keys + {newBCN.Hash} + obc.allNodesMap.Keys
              && Spliced(before, otherHeadNodes, all, otherHeadNodes - {newBCN.Block.PrevHash} + obc.otherHeadNodes,
                         newBCN, obc.AsChain())
    {
      hide NodesInv, TreeInv, OrphanTree, BuiltNodes, UpToDateNodes, BuiltHistories, HeadRight, DanglingInv, LeadsInv;
      NewFacts(allNodesMap, root, seen, view, utxoRepr, before, newBCN);
      JoinOverwritesNothing(before, root, seen, obc.allNodesMap, obc.root, obc.head, newBCN);
      OneMoreChain(allNodesMap, root, seen, view, utxoRepr, obc.allNodesMap, obc.root, obc.head, newBCN);
    }

    /** The head of the chain that waits for `newBCN` is the highest of all new nodes. */
    lemma TopOfChain(i: nat, newBCN: BlockChainNode, before: NodeMap)
      requires Pending(before, newBCN) && OrphanInv()
      requires i < |orphanBlockChains| && orphanBlockChains[i].root.Block.PrevHash == newBCN.Hash
      ensures var obc := orphanBlockChains[i];
              Highest({newBCN} + obc.allNodesMap.Values, obc.head) && obc.head in obc.allNodesMap.Values
    {
      hide NodesInv, TreeInv, HeadRight, OrphanTree, OrphansInv, GoodHeaders, Verify;
      var obc := orphanBlockChains[i];
      NewFacts(allNodesMap, root, seen, view, utxoRepr, before, newBCN);
      GenesisIsKnown(allNodesMap, root, seen, view, utxoRepr, newBCN.Block);
      ChainFacts(orphanBlockChains, orphanNodes, seen, root.Block, obc);
      HighestInChain(obc.allNodesMap, obc.root, obc.head, seen, root.Block, newBCN);
    }

    twostate predicate NewChainsFresh()
      reads this
    {
      forall c :: c in orphanBlockChains ==> c in old(orphanBlockChains) || fresh(c)
    }

    twostate predicate OneNewChain()
      reads this
    {
      && |orphanBlockChains| == |old(orphanBlockChains)| + 1
      && orphanBlockChains[..|old(orphanBlockChains)|] == old(orphanBlockChains)
      && fresh(orphanBlockChains[|old(orphanBlockChains)|])
    }

    method RecordHeader(block0: Block)
      requires CoreInv() && OrphanInv() && GoodHeaders(seen + {block0}, root.Block)
      modifies this`seen, this`merkleRootToBlockHashMap
      ensures CoreInv() && OrphanInv() && seen == old(seen) + {block0}
      ensures merkleRootToBlockHashMap == old(merkleRootToBlockHashMap)[block0.MerkleRoot := Blocks.Hash(block0)]
      ensures Now() == old(Now())
    {
      hide UpToDateNodes, BuiltHistories, NodesInv, ForkInv, DanglingInv, LeadsInv, OrphansInv, GoodHeaders;
      NotInManagers(allNodesMap, root, seen, view, utxoRepr, this, orphanBlockChains, orphanNodes);
      MoreSeen(allNodesMap, root, seen, seen + {block0}, view, utxoRepr, merkleRootToBlockHashMap, block0);
      OrphansSeen(orphanBlockChains, orphanNodes, seen, seen + {block0}, root.Block);
      seen := seen + {block0};
      merkleRootToBlockHashMap := merkleRootToBlockHashMap[block0.MerkleRoot := Blocks.Hash(block0)];
    }

    method AddWithoutParent(block0: Block) returns (result: Added)
      requires OrphanInv() && GoodHeaders(seen, root.Block)
      requires block0 in seen && block0 != root.Block && Comparable(block0) && Verify(block0)
      requires Blocks.Hash(block0) !in allNodesMap && block0.PrevHash !in allNodesMap
      modifies this`orphanNodes, this`orphanBlockChains, orphanBlockChains
      modifies orphanNodes`nextBlockChainNode, orphanNodes`previousBlockChainNode
      ensures OrphanInv() && Orphans() == Parked(old(Orphans()), block0)
      ensures result == Destination(old(Tree()), block0) && result in {ToOrphan, NewOrphanRoot, NewOrphan}
      ensures result != NewOrphan ==> orphanBlockChains == old(orphanBlockChains)
      ensures result == NewOrphan ==> OneNewChain()
      ensures fresh(orphanNodes - old(orphanNodes))
    {
      hide OrphanInv, GoodHeaders, Verify, Orphans, GrownAt;
      ShapeLength();
      var i := FindParent(block0.PrevHash);
      if i < |orphanBlockChains| {
        ParentIsOrphan(i, block0.PrevHash);
        GrowOrphan(i, block0);
        return ToOrphan;
      }
      var c := FindChild(Blocks.Hash(block0));
      if c < |orphanBlockChains| {
        OrphanFacts(c);
        NewRootFor(c, block0);
        return NewOrphanRoot;
      }
      StartOrphan(block0);
      result := NewOrphan;
    }

    lemma ShapeLength()
      ensures |Orphans()| == |orphanBlockChains|
    {
    }

    lemma ParentIsOrphan(i: nat, h: Digest)
      requires OrphanInv() && i < |orphanBlockChains| && h in orphanBlockChains[i].allNodesMap
      ensures orphanBlockChains[i].allNodesMap[h] in orphanNodes
    {
      hide ChainOk;
      OrphanFacts(i);
    }

    /** A header without a parent changes orphan chains only. */
    method KeepOrphan(block0: Block) returns (result: Added)
      requires CoreInv() && OrphanInv() && GoodHeaders(seen + {block0}, root.Block)
      requires Comparable(block0) && Verify(block0)
      requires Blocks.Hash(block0) !in allNodesMap && block0.PrevHash !in allNodesMap
      modifies this`seen, this`merkleRootToBlockHashMap, this`orphanNodes, this`orphanBlockChains, orphanBlockChains
      modifies orphanNodes`nextBlockChainNode, orphanNodes`previousBlockChainNode
      ensures CoreInv() && OrphanInv() && Now() == old(Now())
      ensures result == Destination(old(Tree()), block0) && Orphans() == Parked(old(Orphans()), block0)
      ensures result in {ToOrphan, NewOrphanRoot, NewOrphan}
      ensures fresh(orphanNodes - old(orphanNodes)) && NewChainsFresh()
      ensures seen == old(seen) + {block0}
      ensures merkleRootToBlockHashMap == old(merkleRootToBlockHashMap)[block0.MerkleRoot := Blocks.Hash(block0)]
    {
      hide UpToDateNodes, BuiltHistories, CoreInv, OrphanInv, GoodHeaders, Verify, Orphans, Parked;
      GenesisIsNew(block0);
      RecordHeader(block0);
      SeenIsGood();
      OrphansApart();
      Footing();
      result := AddWithoutParent(block0);
    }

    lemma SeenIsGood()
      requires CoreInv()
      ensures GoodHeaders(seen, root.Block)
    {
      hide GoodHeaders, PlacedAt, ViewInv, BuiltInv, ManagerInv, ForkInv;
    }

    ghost function Part(): MainPart
      reads `allNodesMap, `otherHeadNodes, `utxoChan
    {
      MainPart(allNodesMap, otherHeadNodes, utxoChan)
    }

    /** Seen from the main chain: what it is as an orphan chain. */
    ghost function AsChain(): ChainPart
      reads `allNodesMap, `otherHeadNodes, `root, `head
    {
      ChainPart(allNodesMap, otherHeadNodes, root, head)
    }

    /** A header arrives.  `n` is the node it gets in the main chain; `at` is the orphan chain that joins, if one does,
        and `part` is what that chain was. */
    method addBlockChainNode(block0: Block)
      returns (result: Added, ghost n: BlockChainNode, ghost at: nat, ghost part: ChainPart)
      requires CoreInv() && OrphanInv()
      requires Comparable(block0) && Verify(block0) ==> GoodHeaders(seen + {block0}, root.Block)
      modifies this`seen, this`merkleRootToBlockHashMap, this`allNodesMap, this`otherHeadNodes, this`utxoChan
      modifies this`orphanNodes, this`orphanBlockChains, orphanBlockChains, Nodes()`nextBlockChainNode
      modifies orphanNodes`nextBlockChainNode, orphanNodes`previousBlockChainNode
      ensures CoreInv() && OrphanInv() && HeaderEffect(old(State()), State(), block0)
      ensures result == Panicked <==> block0.Difficulty > 32
      ensures result == Rejected <==>
              block0.Difficulty <= 32 && exists i :: 0 <= i < block0.Difficulty && Sum256(EncodeHeader(block0))[i] != 0
      ensures result == Destination(old(Tree()), block0) && (result !in {Inserted, Joined} ==> Part() == old(Part()))
      ensures result in {Inserted, Joined} ==>
                fresh(n) && n.Block == block0 && n.Hash == Blocks.Hash(block0) && Forward(n)
      ensures result == Inserted ==>
                orphanBlockChains == old(orphanBlockChains) && Entered(old(Part()), Part(), head, n)
      ensures result == Joined ==>
                && at < |old(orphanBlockChains)| && orphanBlockChains == Without(old(orphanBlockChains), at)
                && part == old(orphanBlockChains[at].AsChain()) && Merged(old(Part()), Part(), head, n, part)
      ensures Nodes() <= old(Nodes()) + {n} + old(orphanNodes) && fresh(orphanNodes - old(orphanNodes))
      ensures NewChainsFresh()
    {
      hide BuiltHistories, UpToDateNodes, Entered, Merged, Without, CoreInv, OrphansInv, GoodHeaders, Verify;
      hide Orphans, Parked, Grown, AsChain, NodesGrew;
      n, at, part := head, 0, AsChain();
      ShapeLength();
      BadExactly(Tree(), block0);
      if !Comparable(block0) {
        return Panicked, n, at, part;
      }
      if !Verify(block0) {
        return Rejected, n, at, part;
      }
      var hash := Blocks.Hash(block0);
      if hash in allNodesMap {
        return Known, n, at, part;
      }
      if block0.PrevHash !in allNodesMap {
        result := KeepOrphan(block0);
        return;
      }
      result, n, at, part := AddWithParent(block0);
      if result == Joined {
        NoNewElements(old(orphanBlockChains), at);
      }
    }

    method AddWithParent(block0: Block)
      returns (result: Added, ghost n: BlockChainNode, ghost at: nat, ghost part: ChainPart)
      requires CoreInv() && OrphanInv() && GoodHeaders(seen + {block0}, root.Block)
      requires Comparable(block0) && Verify(block0)
      requires Blocks.Hash(block0) !in allNodesMap && block0.PrevHash in allNodesMap
      modifies this`seen, this`merkleRootToBlockHashMap, this`allNodesMap, this`otherHeadNodes, this`utxoChan
      modifies this`orphanNodes, this`orphanBlockChains
      modifies Nodes()`nextBlockChainNode, orphanNodes`previousBlockChainNode
      ensures CoreInv() && OrphanInv() && HeaderEffect(old(State()), State(), block0)
      ensures result == Destination(old(Tree()), block0) && result in {Inserted, Joined}
      ensures fresh(n) && n.Block == block0 && n.Hash == Blocks.Hash(block0) && Forward(n)
      ensures result == Inserted ==>
                orphanBlockChains == old(orphanBlockChains) && Entered(old(Part()), Part(), head, n)
      ensures result == Joined ==>
                && at < |old(orphanBlockChains)| && orphanBlockChains == Without(old(orphanBlockChains), at)
                && part == old(orphanBlockChains[at].AsChain()) && Merged(old(Part()), Part(), head, n, part)
      ensures Nodes() <= old(Nodes()) + {n} + old(orphanNodes) && orphanNodes <= old(orphanNodes)
    {
      hide CoreInv, OrphanInv, GoodHeaders, Verify, Entered, Merged, Without, FirstChild, Destination, Grown;
      hide BuiltHistories, UpToDateNodes, NodesGrew, Orphans, AsChain, Awaits, HeaderEffect;
      OrphansApart();
      ghost var a, before := State(), Part();
      var i;
      i, part := FindWaiting(Blocks.Hash(block0));
      at := i;
      result, n := AddUnderParent(block0, i, part);
      EffectIs(a, State(), before, Part(), result, n, part, block0);
    }

    method FindWaiting(hash: Digest) returns (i: nat, ghost part: ChainPart)
      requires CoreInv() && OrphanInv()
      ensures CoreInv() && OrphanInv() && State() == old(State()) && Part() == old(Part()) && Tree() == old(Tree())
      ensures i == FirstChild(Orphans(), hash) && Awaits(i, part)
      ensures i < |old(orphanBlockChains)| ==>
                part == old(orphanBlockChains[i].AsChain()) && part.nodes.Values <= orphanNodes
    {
      hide NodesInv, DanglingInv, LeadsInv, ForkInv, OrphansInv, BuiltHistories, UpToDateNodes, FirstChild;
      i := FindChild(hash);
      part := PartAt(i);
    }

    /** With its parent in the main chain; `part` is what the chain `i` that waits for it is, if there is one. */
    method AddUnderParent(block0: Block, i: nat, ghost part: ChainPart) returns (result: Added, newBCN: BlockChainNode)
      requires CoreInv() && OrphanInv() && GoodHeaders(seen + {block0}, root.Block)
      requires Comparable(block0) && Verify(block0)
      requires Blocks.Hash(block0) !in allNodesMap && block0.PrevHash in allNodesMap
      requires i == FirstChild(Orphans(), Blocks.Hash(block0)) && Awaits(i, part)
      modifies this`seen, this`merkleRootToBlockHashMap, this`allNodesMap, this`otherHeadNodes, this`utxoChan
      modifies this`orphanNodes, this`orphanBlockChains
      modifies Nodes()`nextBlockChainNode, orphanNodes`previousBlockChainNode
      ensures CoreInv() && OrphanInv() && Now() == old(Now())
      ensures result == Destination(old(Tree()), block0) && result in {Inserted, Joined}
      ensures seen == old(seen) + {block0} && Tree() == Grown(old(Tree()), block0)
      ensures merkleRootToBlockHashMap == old(merkleRootToBlockHashMap)[block0.MerkleRoot := Blocks.Hash(block0)]
      ensures fresh(newBCN) && newBCN.Block == block0 && newBCN.Hash == Blocks.Hash(block0) && Forward(newBCN)
      ensures result == Inserted ==>
                orphanBlockChains == old(orphanBlockChains) && Entered(old(Part()), Part(), head, newBCN)
      ensures result == Joined ==>
                && i < |old(orphanBlockChains)| && orphanBlockChains == Without(old(orphanBlockChains), i)
                && Merged(old(Part()), Part(), head, newBCN, part)
      ensures Nodes() <= old(Nodes()) + {newBCN} + old(orphanNodes) && orphanNodes <= old(orphanNodes)
    {
      hide BuiltHistories, UpToDateNodes, Verify, CoreInv, OrphanInv, Pending, Orphans, Entered, Merged;
      hide Without, Awaits, AsChain, GoodHeaders, FirstChild, Grown, Destination;
      OrphansApart();
      ghost var before, a, t := allNodesMap, Part(), Tree();
      ChildOf(i, Blocks.Hash(block0), part);
      newBCN := EnterHeader(block0, true);
      result := Place(i, newBCN, before, part);
      if result == Joined {
        MergedKeys(a, Part(), head, newBCN, part);
      } else {
        EnteredKeys(a, Part(), head, newBCN);
      }
      GrownIs(t, block0, i, allNodesMap.Keys, Orphans());
    }

    lemma ChildOf(i: nat, hash: Digest, part: ChainPart)
      requires i == FirstChild(Orphans(), hash) && Awaits(i, part)
      ensures i <= |orphanBlockChains| == |Orphans()|
      ensures i < |orphanBlockChains| ==>
                orphanBlockChains[i].root.Block.PrevHash == hash && part.nodes.Keys == Orphans()[i].keys
    {
    }

    /** `part` is what chain `i` is, if there is one. */
    ghost predicate Awaits(i: nat, part: ChainPart)
      reads `orphanBlockChains, orphanBlockChains
    {
      i < |orphanBlockChains| ==> part == orphanBlockChains[i].AsChain()
    }

    lemma PartAt(i: nat) returns (part: ChainPart)
      requires OrphanInv()
      ensures Awaits(i, part)
      ensures i < |orphanBlockChains| ==>
                && part == orphanBlockChains[i].AsChain()
                && part.nodes.Values <= orphanNodes
    {
      hide ChainOk;
      part := AsChain();
      if i < |orphanBlockChains| {
        OrphanFacts(i);
        part := orphanBlockChains[i].AsChain();
      }
    }

    /** The new node joins, with chain `i` if there is one. */
    method Place(i: nat, newBCN: BlockChainNode, ghost before: NodeMap, ghost part: ChainPart) returns (result: Added)
      requires Pending(before, newBCN) && OrphanInv() && newBCN !in before.Values && Awaits(i, part)
      requires i <= |orphanBlockChains|
      requires i < |orphanBlockChains| ==> orphanBlockChains[i].root.Block.PrevHash == newBCN.Hash
      modifies this`allNodesMap, this`otherHeadNodes, this`utxoChan, this`orphanNodes, this`orphanBlockChains
      modifies orphanNodes`previousBlockChainNode
      ensures CoreInv() && OrphanInv() && Now() == old(Now())
      ensures Orphans() == if i < |old(orphanBlockChains)| then Without(old(Orphans()), i) else old(Orphans())
      ensures result == if i < |old(orphanBlockChains)| then Joined else Inserted
      ensures result == Inserted ==>
                && orphanBlockChains == old(orphanBlockChains)
                && Entered(MainPart(before, old(otherHeadNodes), old(utxoChan)), Part(), head, newBCN)
      ensures result == Joined ==>
                && orphanBlockChains == Without(old(orphanBlockChains), i)
                && Merged(MainPart(before, old(otherHeadNodes), old(utxoChan)), Part(), head, newBCN, part)
      ensures Nodes() <= before.Values + {newBCN} + old(orphanNodes) && orphanNodes <= old(orphanNodes)
    {
      hide BuiltHistories, UpToDateNodes, CoreInv, OrphanInv, Pending, Entered, Merged, Without, ChainOk, Orphans;
      if i < |orphanBlockChains| {
        OrphanFacts(i);
        JoinAndOffer(i, newBCN, before);
        return Joined;
      }
      PendingFacts(before, newBCN);
      ForkOff(newBCN, before);
      result := Inserted;
    }

    /** Queues a new node even if it is not higher than the head. */
    method EnqueueInternal(block0: Block) returns (newBCN: BlockChainNode)
      requires CoreInv() && OrphanInv() && GoodHeaders(seen + {block0}, root.Block)
      requires Comparable(block0) && Verify(block0)
      requires Blocks.Hash(block0) !in allNodesMap && block0.PrevHash in allNodesMap
      modifies this`seen, this`merkleRootToBlockHashMap, this`allNodesMap, this`utxoChan, Nodes()`nextBlockChainNode
      ensures CoreInv() && OrphanInv()
      ensures fresh(newBCN) && newBCN.Block == block0 && newBCN.Hash == Blocks.Hash(block0) && !newBCN.hasData
      ensures allNodesMap == old(allNodesMap)[newBCN.Hash := newBCN] && Nodes() == old(Nodes()) + {newBCN}
      ensures seen == old(seen) + {block0} && Orphans() == old(Orphans()) && Now() == old(Now())
      ensures merkleRootToBlockHashMap == old(merkleRootToBlockHashMap)[block0.MerkleRoot := newBCN.Hash]
      ensures utxoChan == old(utxoChan) + multiset{newBCN}
    {
      hide UpToDateNodes, BuiltHistories, Verify, CoreInv, OrphanInv, Counts, Pending, TreeInv, Orphans, GoodHeaders;
      ghost var before := allNodesMap;
      newBCN := EnterHeader(block0, false);
      PendingFacts(before, newBCN);
      CountsApart(before.Values);
      OrphansApart();
      Enqueue(newBCN, before.Values);
    }

    method ForkOff(newBCN: BlockChainNode, ghost before: NodeMap)
      requires Pending(before, newBCN) && OrphanInv()
      modifies this`otherHeadNodes, this`utxoChan
      ensures CoreInv() && OrphanInv()
      ensures Entered(MainPart(before, old(otherHeadNodes), old(utxoChan)), Part(), head, newBCN)
      ensures newBCN.Hash in allNodesMap && allNodesMap[newBCN.Hash] == newBCN && Orphans() == old(Orphans())
      ensures Now() == old(Now())
    {
      hide UpToDateNodes, BuiltHistories, CoreInv, OrphanInv, Counts, Pending, TreeInv, Orphans;
      PendingFacts(before, newBCN);
      CountsApart(before.Values);
      OrphansApart();
      otherHeadNodes := (otherHeadNodes - {newBCN.Block.PrevHash})[newBCN.Hash := newBCN];
      Offer(newBCN, before.Values, {newBCN});
    }

    method JoinAndOffer(i: nat, newBCN: BlockChainNode, ghost before: NodeMap)
      requires Pending(before, newBCN) && OrphanInv()
      requires i < |orphanBlockChains| && orphanBlockChains[i].root.Block.PrevHash == newBCN.Hash
      modifies this`allNodesMap, this`otherHeadNodes, this`orphanBlockChains, this`orphanNodes, this`utxoChan
      modifies {orphanBlockChains[i].root}`previousBlockChainNode
      ensures CoreInv() && OrphanInv()
      ensures Merged(MainPart(before, old(otherHeadNodes), old(utxoChan)), Part(), head, newBCN,
                     old(orphanBlockChains[i].AsChain()))
      ensures newBCN.Hash in allNodesMap && allNodesMap[newBCN.Hash] == newBCN
      ensures Orphans() == Without(old(Orphans()), i)
      ensures Nodes() <= before.Values + {newBCN} + old(orphanNodes) && orphanNodes <= old(orphanNodes)
      ensures orphanBlockChains == Without(old(orphanBlockChains), i)
      ensures Now() == old(Now())
    {
      hide UpToDateNodes, BuiltHistories, CoreInv, OrphanInv, Counts, Pending, ChainOk, Spliced, Highest, Orphans;
      hide Without;
      TopOfChain(i, newBCN, before);
      OrphanFacts(i);
      var top := orphanBlockChains[i].head;
      ghost var more := {newBCN} + orphanBlockChains[i].allNodesMap.Values;
      Join(i, newBCN, before, more);
      OrphansApart();
      Offer(top, before.Values, more);
    }

    /** Queues the highest of the nodes that joined the tree, if it is higher than the head. */
    method Offer(highest: BlockChainNode, ghost all: set<BlockChainNode>, ghost more: set<BlockChainNode>)
      requires Counts(all) && Nodes() == all + more && Highest(more, highest)
      modifies this`utxoChan
      ensures CoreInv() && utxoChan == Offered(old(utxoChan), head, highest)
      ensures Now() == old(Now())
    {
      hide BuiltHistories, NodesInv, BuiltNodes, UpToDateNodes, HeadRight, DanglingInv, LeadsInv;
      CountsApart(all);
      HeightOfHead(all, BuiltNodes(allNodesMap, root), UpToDateNodes(allNodesMap), head, Height, utxoChan, failed);
      var blen := head.Block.BlockCount;
      ghost var queue := utxoChan;
      if blen < highest.Block.BlockCount {
        utxoChan := utxoChan + multiset{highest};
      }
      MoreToCover(all, BuiltNodes(allNodesMap, root), UpToDateNodes(allNodesMap), head, Height, queue, utxoChan, failed,
                  more, highest);
    }

    method Enqueue(newBCN: BlockChainNode, ghost all: set<BlockChainNode>)
      requires Counts(all) && Nodes() == all + {newBCN}
      modifies this`utxoChan
      ensures CoreInv() && utxoChan == old(utxoChan) + multiset{newBCN}
      ensures Now() == old(Now())
    {
      hide BuiltHistories, NodesInv, BuiltNodes, UpToDateNodes, HeadRight, DanglingInv, LeadsInv;
      CountsApart(all);
      ghost var queue := utxoChan;
      utxoChan := utxoChan + multiset{newBCN};
      MoreToCover(all, BuiltNodes(allNodesMap, root), UpToDateNodes(allNodesMap), head, Height, queue, utxoChan, failed,
                  {newBCN}, newBCN);
    }

    /** A block mined here, with its data: queued whether or not it is higher than the head. */
    method addInternal(block0: Block, data: Group) returns (newBCN: BlockChainNode)
      requires CoreInv() && OrphanInv() && GoodHeaders(seen + {block0}, root.Block)
      requires Comparable(block0) && Verify(block0)
      requires Blocks.Hash(block0) !in allNodesMap && block0.PrevHash in allNodesMap
      requires data.Valid() && data.MerkleRoot() == block0.MerkleRoot && GroupResolved(view, data)
      modifies this`seen, this`merkleRootToBlockHashMap, this`allNodesMap, this`utxoChan, this`view
      modifies Nodes()`nextBlockChainNode
      ensures CoreInv() && OrphanInv() && fresh(newBCN) && newBCN.Block == block0 && newBCN.hasData
      ensures newBCN.Hash == Blocks.Hash(block0) && allNodesMap == old(allNodesMap)[newBCN.Hash := newBCN]
      ensures Nodes() == old(Nodes()) + {newBCN} && seen == old(seen) + {block0}
      ensures Orphans() == old(Orphans())
      ensures merkleRootToBlockHashMap == old(merkleRootToBlockHashMap)[block0.MerkleRoot := newBCN.Hash]
      ensures view == old(view)[newBCN.Hash := data] && Extends(old(view), view)
      ensures utxoChan == old(utxoChan) + multiset{newBCN}
      ensures Now() == old(Now()).(view := view)
    {
      hide UpToDateNodes, BuiltHistories, CoreInv, OrphanInv, Verify, GoodHeaders, GroupResolved, Group.Valid;
      hide Orphans, Extends;
      newBCN := EnqueueInternal(block0);
      OrphansApart();
      SetData(newBCN, data);
    }

    // -------------------------------------------------------------- the updater

    lemma MayDequeue(s: Store, bcn: BlockChainNode, arrivals: seq<Group>, w: Wallet, refs: seq<TransactionRef>,
                     failed0: bool)
      requires bcn in Nodes() && AllValid(arrivals)
      requires Left(BuiltDown(allNodesMap, s, bcn, arrivals), w.PublicKey, refs, failed0, w)
      ensures bcn in UpToDateNodes(allNodesMap) || failed
    {
      hide Wallet.Right, BuiltHistories, UpToDateNodes, BuiltDown, Listed, HeadAfter;
      Movement(allNodesMap, s, bcn, arrivals);
    }

    /** One round of the updater with a node that is waiting in the channel. */
    method utxoUpdater(bcn: BlockChainNode, arrivals: seq<Group>, w: Wallet)
      returns (outcome: Outcome, rest: seq<Group>)
      requires CoreInv() && OrphanInv() && bcn in utxoChan && AllValid(arrivals) && w.Right(view)
      modifies this`head, this`Height, this`otherHeadNodes, this`utxoRepr, this`failed, this`utxoChan
      modifies this`view, this`danglingData, this`merkleRootToBlockHashMap
      modifies Nodes()`nextBlockChainNode, Nodes()`hasData, Nodes()`dataPointer
      modifies Nodes()`verifiedWithUtxoManager, Nodes()`history, Nodes()`badblock
      modifies Nodes()`uTxOManagerIsUpToDate, Nodes()`uTxOManagerPointer, utxoRepr, w`transactions
      ensures CoreInv() && OrphanInv() && utxoRepr >= old(utxoRepr) && fresh(utxoRepr - old(utxoRepr))
      ensures utxoChan == old(utxoChan) - multiset{bcn}
      ensures var e := BuiltDown(allNodesMap, old(Holdings()), bcn, arrivals);
              && outcome == e.outcome && rest == e.rest
              && Left(e, w.PublicKey, old(RefsOfEntries(w.transactions)), old(failed), w)
      ensures Links() == Relinked(allNodesMap, old(Now()).upToDate, bcn, old(Links()))
    {
      hide Links, Relinked, CoreInv, OrphanInv, BuiltNodes, UpToDateNodes, BuiltHistories, AllValid, BuiltDown, Left;
      hide Wallet.Right, Wallet.Valid, EntriesOk, Listed;
      OrphansApart();
      Footing();
      WalletApart(w);
      ghost var s, refs := Holdings(), RefsOfEntries(w.transactions);
      outcome, rest := verifyAndBuildDown(bcn, arrivals, w);
      MayDequeue(s, bcn, arrivals, w, refs, old(failed));
      Footing();
      Dequeue(bcn);
    }

    /** Some of a set of good headers are good. */
    lemma GoodSeen(all: set<Block>, block0: Block)
      requires CoreInv() && GoodHeaders(all, root.Block) && seen <= all && block0 in all
      ensures GoodHeaders(seen + {block0}, root.Block) && Blocks.Hash(root.Block) in allNodesMap
    {
      hide ViewInv, BuiltInv, ManagerInv, ForkInv, Verify;
      KeyOf(allNodesMap, root, seen, root);
    }

    lemma GoodChain(headers: seq<Block>)
      requires CoreInv() && HeaderChain(headers, root.Block) && forall b :: b in headers ==> b in seen
      ensures GoodHeaders((set b | b in headers) + {root.Block}, root.Block)
      ensures Comparable(root.Block) && Verify(root.Block) && root.Block.BlockCount == 0
    {
      hide ViewInv, BuiltInv, ManagerInv, ForkInv, Verify;
      assert PlacedAt(allNodesMap, root, seen, root.Hash);
    }

    lemma GenesisIsNew(block0: Block)
      requires CoreInv()
      ensures Blocks.Hash(block0) !in allNodesMap ==> block0 != root.Block
    {
      hide NodesInv;
      GenesisIsKnown(allNodesMap, root, seen, view, utxoRepr, block0);
    }

    method Resolve(g: Group) returns (tb: Group)
      requires CoreInv()
      ensures CoreInv() && Now() == old(Now()) && tb == ResolveGroup(view, g)
    {
      hide NodesInv, DanglingInv, LeadsInv, ForkInv, BuiltHistories, UpToDateNodes, ResolveGroup;
      Resolvable(allNodesMap, root, seen, view, utxoRepr);
      tb := ResolveInputs(g);
    }

    lemma Footing()
      requires CoreInv()
      ensures this !in utxoRepr && root !in utxoRepr && forall n :: n in Nodes() ==> n !in utxoRepr
      ensures forall c :: c in orphanBlockChains ==> c !in utxoRepr
      ensures forall n :: n in orphanNodes ==> n !in utxoRepr
      ensures forall q :: q in utxoChan ==> q in Nodes()
    {
      hide NodesInv;
      QueueIsKnown(allNodesMap, root, head, Height, utxoChan, failed);
      NotInManagers(allNodesMap, root, seen, view, utxoRepr, this, orphanBlockChains, orphanNodes);
    }

    method Dequeue(bcn: BlockChainNode)
      requires CoreInv() && (bcn in UpToDateNodes(allNodesMap) || failed)
      modifies this`utxoChan
      ensures CoreInv() && utxoChan == old(utxoChan) - multiset{bcn}
    {
      hide NodesInv, DanglingInv, LeadsInv, HeadRight, BuiltNodes, UpToDateNodes;
      UpToDateAreBuilt(allNodesMap, root, seen, view, utxoRepr);
      NotInManagers(allNodesMap, root, seen, view, utxoRepr, this, orphanBlockChains, orphanNodes);
      Handled(Nodes(), BuiltNodes(allNodesMap, root), UpToDateNodes(allNodesMap), head, Height, utxoChan, failed, bcn);
      utxoChan := utxoChan - multiset{bcn};
    }

    /** Fork choice: when the channel is empty and no verification failed, no node of the main chain is higher than
        the head, and the recorded height is the head's. */
    lemma HighestHead()
      requires CoreInv() && utxoChan == multiset{} && !failed
      ensures Height == head.Block.BlockCount && head in Nodes() && head.uTxOManagerIsUpToDate
      ensures forall n :: n in Nodes() ==> n.Block.BlockCount <= head.Block.BlockCount
    {
      forall n | n in Nodes() ensures n.Block.BlockCount <= head.Block.BlockCount {
        assert Covered(n, Height, utxoChan);
      }
    }

    // -------------------------------------------------------------- from head to root

    /** Checks the hashes from the head down to the root.  It never fails. */
    method VerifyHash() returns (ok: bool)
      requires CoreInv()
      ensures ok
    {
      hide NodesInv, TreeInv, DanglingInv, LeadsInv, Verify;
      HeadIsHigh(allNodesMap, root, head, Height, utxoChan, failed);
      Resolvable(allNodesMap, root, seen, view, utxoRepr);
      var current := head;
      while current.Block.BlockCount != 0
        invariant current in Nodes()
        decreases current.Block.BlockCount
      {
        LinkedDown(allNodesMap, root, seen, current);
        if !Verify(current.Block) {
          return false;
        }
        if current.Block.PrevHash != Blocks.Hash(current.previousBlockChainNode.Block) {
          return false;
        }
        current := current.previousBlockChainNode;
      }
      ok := true;
    }

    /** The headers from the root to the head, each at its height. */
    method SerializeBlockChain() returns (ret: seq<Bytes>)
      requires CoreInv()
      ensures |ret| == head.Block.BlockCount + 1 && forall i :: 0 <= i < |ret| ==> |ret[i]| == BLOCK_SIZE
      ensures HeaderChain(Decoded(ret), root.Block) && Decoded(ret)[|ret| - 1] == head.Block
      ensures forall b :: b in Decoded(ret) ==> b in seen
    {
      hide CoreInv, NodesInv, TreeInv, ForkInv, HeadRight, DanglingInv, LeadsInv, Verify, HeaderChain, Collected;
      hide BuiltNodes, UpToDateNodes, EncodeHeader;
      OpenCore();
      HeadIsHigh(allNodesMap, root, head, Height, utxoChan, failed);
      Resolvable(allNodesMap, root, seen, view, utxoRepr);
      var current := head;
      var a := new Bytes[current.Block.BlockCount + 1];
      a[current.Block.BlockCount] := EncodeHeader(current.Block);
      ghost var headers := [current.Block];
      KeyOf(allNodesMap, root, seen, current);
      CollectHead(a[current.Block.BlockCount..], current.Block, seen);
      while current.Block.BlockCount != 0
        invariant current in Nodes() && current.Block.BlockCount < a.Length == head.Block.BlockCount + 1
        invariant Collected(a[current.Block.BlockCount..], headers, current.Block, head.Block, seen)
        decreases current.Block.BlockCount
      {
        LinkedDown(allNodesMap, root, seen, current);
        ghost var above, at := a[current.Block.BlockCount..], current.Block.BlockCount;
        ghost var b := current.Block;
        current := current.previousBlockChainNode;
        KeyOf(allNodesMap, root, seen, current);
        a[current.Block.BlockCount] := EncodeHeader(current.Block);
        CollectOne(above, a[current.Block.BlockCount..], headers, current.Block, b, head.Block, seen);
        headers := [current.Block] + headers;
      }
      ret := a[..];
      assert a[0..] == ret;
      BottomIsRoot(allNodesMap, root, seen, current, ret, headers, head.Block);
      DecodedEncoded(headers);
    }
  }
}
