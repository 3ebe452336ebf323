/** What can happen to a node, and exactly what it does. */
module Events {
  import opened Bytes
  import opened Transactions
  import opened Ledger
  import opened Blocks
  import opened ChainState
  import opened UtxoManagers
  import opened TreeInvariants
  import opened HeaderTrees
  import opened Updates
  import opened Pictures
  import opened TreeFacts
  import opened BlockChains
  import opened Runs
  import opened Wallets

  /** `BlockMined`: the miner found a nonce for a block that it prepared on top of some earlier head.  `UpdaterRuns`:
      the updater takes the node with this hash off the channel; `arrivals` is the data that comes while it waits. */
  datatype Event =
    | HeaderArrives(header: Block)
    | DataArrives(data: Group)
    | BlockMined(header: Block, data: Group)
    | UpdaterRuns(next: Digest, arrivals: seq<Group>)

  ghost predicate EventOk(e: Event) {
    match e
    case HeaderArrives(_) => true
    case DataArrives(data) => data.Valid()
    case BlockMined(_, data) => data.Valid()
    case UpdaterRuns(_, arrivals) => AllValid(arrivals)
  }

  ghost function HeaderOf(e: Event): set<Block> {
    if e.HeaderArrives? || e.BlockMined? then {e.header} else {}
  }

  // ---------------------------------------------------------------- what each event does

  /** Data that arrives. */
  ghost predicate DataEffect(a: Picture, b: Picture, data: Group)
    requires data.transactionBlocks != []
  {
    var s := DataStep(DataState(a.now.view, a.dangling), a.leads, a.nodes.Keys, data);
    b == a.(now := a.now.(view := s.view), dangling := s.dangling)
  }

  /** A mined block is added under any parent that is known, if it is new and commits to its data. */
  ghost predicate CanMine(known: set<Digest>, header: Block, data: Group)
    requires data.transactionBlocks != []
  {
    && Comparable(header) && Verify(header) && header.PrevHash in known && Blocks.Hash(header) !in known
    && data.MerkleRoot() == header.MerkleRoot
  }

  /** It gets a new node with its data, which is queued whatever its height. */
  ghost predicate NodeMined(a: Picture, b: Picture, header: Block, tbg: Group) {
    var hash := Blocks.Hash(header);
    && hash in b.nodes && b.nodes[hash].Block == header && b.nodes[hash] !in a.nodes.Values
    && b == a.(nodes := a.nodes[hash := b.nodes[hash]], seen := a.seen + {header},
               leads := a.leads[header.MerkleRoot := hash], queue := a.queue + multiset{b.nodes[hash]},
               now := a.now.(view := a.now.view[hash := tbg]))
    && Extends(a.now.view, b.now.view)
  }

  ghost predicate MinedEffect(a: Picture, b: Picture, header: Block, data: Group)
    requires data.transactionBlocks != []
  {
    if CanMine(a.nodes.Keys, header, data) then NodeMined(a, b, header, ResolveGroup(a.now.view, data)) else b == a
  }

  /** The node with this hash waits for the updater. */
  ghost predicate Queued(a: Picture, next: Digest) {
    next in a.nodes && a.nodes[next] in a.queue
  }

  /** How a round with this node ends. */
  ghost function Round(a: Picture, next: Digest, arrivals: seq<Group>): Ending
    requires Queued(a, next) && AllValid(arrivals)
  {
    BuiltDown(a.nodes, a.Holdings(), a.nodes[next], arrivals)
  }

  /** The node leaves the channel, its branch is built as far as it can be, and a failure is remembered. */
  ghost function Updated(a: Picture, next: Digest, arrivals: seq<Group>): Picture
    requires AllValid(arrivals)
  {
    if !Queued(a, next) then a
    else
      var e := Round(a, next, arrivals);
      a.(queue := a.queue - multiset{a.nodes[next]}, now := e.store.now, dangling := e.store.dangling,
         leads := e.store.leads, failed := a.failed || e.outcome != Done)
  }

  /** A node as a value: its block chain, and what its wallet lists. */
  datatype World = World(chain: Picture, refs: seq<TransactionRef>)

  ghost function WorldOf(bc: BlockChain, w: Wallet): World
    reads bc, bc.Nodes(), bc.orphanBlockChains, w
  {
    World(bc.State(), RefsOfEntries(w.transactions))
  }

  ghost predicate ChainEffect(e: Event, a: Picture, b: Picture)
    requires EventOk(e)
  {
    match e
    case HeaderArrives(header) => HeaderEffect(a, b, header)
    case DataArrives(data) => DataEffect(a, b, data)
    case BlockMined(header, data) => MinedEffect(a, b, header, data)
    case UpdaterRuns(next, arrivals) => b == Updated(a, next, arrivals)
  }

  /** The nodes that are shown to the wallet: those that were applied, each time, in order. */
  ghost function ShownBy(e: Event, a: Picture): seq<BlockChainNode>
    requires EventOk(e)
  {
    if e.UpdaterRuns? && Queued(a, e.next) then Round(a, e.next, e.arrivals).applied else []
  }

  ghost predicate Effect(e: Event, key: PublicKey, a: World, b: World)
    requires EventOk(e)
  {
    && ChainEffect(e, a.chain, b.chain)
    && b.refs == a.refs + Listed(b.chain.now.view, ShownBy(e, a.chain), key)
  }

  // ---------------------------------------------------------------- events on the block chain

  method Mine(bc: BlockChain, header: Block, data: Group, ghost all: set<Block>)
    requires Sound(bc) && GoodHeaders(all, bc.root.Block) && bc.seen <= all && header in all && data.Valid()
    modifies Members(bc)
    ensures Sound(bc) && fresh(Members(bc) - old(Members(bc))) && bc.root == old(bc.root) && bc.seen <= all
    ensures MinedEffect(old(bc.State()), bc.State(), header, data)
  {
    hide GoodHeaders, Sound, Verify, NodeMined, GroupResolved, ResolveGroup, Group.MerkleRoot;
    hide BlockChain.Held, BlockChain.Now;
    HasBlocks(data);
    if !Comparable(header) || !Verify(header) || header.PrevHash !in bc.allNodesMap {
      return;
    }
    if Blocks.Hash(header) in bc.allNodesMap || data.MerkleRoot() != header.MerkleRoot {
      return;
    }
    ResolveGroupProperties(bc.view, data);
    ViewOf(bc);
    var tbg := ResolveAgainst(bc, data);
    EnterMined(bc, header, tbg, all);
  }

  method ResolveAgainst(bc: BlockChain, data: Group) returns (tbg: Group)
    requires Sound(bc)
    ensures Sound(bc) && bc.State() == old(bc.State()) && tbg == ResolveGroup(bc.view, data)
  {
    hide BlockChain.CoreInv, BlockChain.OrphanInv, BlockChain.Orphans, BuiltHistories, UpToDateNodes, HashSet;
    hide ResolveGroup;
    tbg := bc.Resolve(data);
  }

  lemma MinedIsHeld(t: HeaderTree, h: Digest)
    ensures HeldBy(t.(keys := t.keys + {h})) == HeldBy(t) + {h}
  {
  }

  /** The block enters with data whose inputs carry the outputs they refer to. */
  method EnterMined(bc: BlockChain, header: Block, tbg: Group, ghost all: set<Block>)
    requires Sound(bc) && GoodHeaders(all, bc.root.Block) && bc.seen <= all && header in all
    requires Comparable(header) && Verify(header)
    requires header.PrevHash in bc.allNodesMap && Blocks.Hash(header) !in bc.allNodesMap
    requires tbg.Valid() && tbg.MerkleRoot() == header.MerkleRoot && GroupResolved(bc.view, tbg)
    modifies Members(bc)
    ensures Sound(bc) && fresh(Members(bc) - old(Members(bc))) && bc.root == old(bc.root) && bc.seen <= all
    ensures NodeMined(old(bc.State()), bc.State(), header, tbg)
  {
    hide GoodHeaders, Verify, BlockChain.CoreInv, BlockChain.OrphanInv, BlockChain.Orphans, GroupResolved, HashSet;
    hide BuiltHistories, UpToDateNodes, Extends, Group.MerkleRoot, Group.Valid, HeldBy;
    MinedIsHeld(bc.Tree(), Blocks.Hash(header));
    bc.GoodSeen(all, header);
    bc.OrphansApart();
    OneMoreHeader(bc.seen, header);
    ghost var t := bc.Tree();
    var newBCN := bc.addInternal(header, tbg);
    assert bc.allNodesMap.Keys == t.keys + {Blocks.Hash(header)};
  }

  method AddData(bc: BlockChain, data: Group)
    requires Sound(bc) && data.Valid()
    modifies Members(bc)
    ensures Sound(bc) && fresh(Members(bc) - old(Members(bc)))
    ensures bc.root == old(bc.root) && bc.seen == old(bc.seen)
    ensures DataEffect(old(bc.State()), bc.State(), data)
  {
    hide BlockChain.CoreInv, BlockChain.OrphanInv, BlockChain.Orphans, Group.Valid, ResolveGroup, DataStep;
    hide BuiltHistories, UpToDateNodes, HashSet, Extends;
    bc.OrphansApart();
    HasBlocks(data);
    bc.addData(data);
  }

  lemma IsConsistent(bc: BlockChain)
    requires Sound(bc)
    ensures Consistent(bc.State().nodes, bc.State().now)
  {
    hide NodesInv, DanglingInv, LeadsInv, ForkInv, OrphansInv, BlockChain.Orphans, HashSet, HeldBy, Consistent;
    SeenIsConsistent(bc.allNodesMap, bc.root, bc.seen, bc.view, bc.utxoRepr, bc.head, bc.Height, bc.utxoChan,
                     bc.failed);
  }

  // ---------------------------------------------------------------- events on the wallet

  /** What holds of a node between events: what the wallet lists is part of the data held, with proofs that lead to the
      Merkle roots of that data. */
  ghost predicate Alright(bc: BlockChain, w: Wallet)
    reads bc, bc.Nodes(), bc.utxoRepr, bc.orphanBlockChains, bc.orphanNodes, w
  {
    Sound(bc) && w.Right(bc.view)
  }

  lemma WalletIsApart(bc: BlockChain, w: Wallet)
    requires Sound(bc)
    ensures w !in Members(bc)
  {
    hide TreeInv, ViewInv, BuiltInv, ManagerAt, Apart, DanglingInv, LeadsInv, ForkInv, OrphansInv, HashSet;
  }

  lemma ViewOf(bc: BlockChain)
    ensures bc.State().now.view == bc.view
  {
    hide BlockChain.Held;
  }

  /** One round of the updater, with whatever node is taken, whatever branch it is on, and whatever arrives. */
  method Update(bc: BlockChain, w: Wallet, next: Digest, arrivals: seq<Group>)
    requires Alright(bc, w) && AllValid(arrivals)
    modifies Members(bc), w`transactions
    ensures Alright(bc, w) && fresh(Members(bc) - old(Members(bc)))
    ensures bc.root == old(bc.root) && bc.seen == old(bc.seen)
    ensures Effect(UpdaterRuns(next, arrivals), w.PublicKey, old(WorldOf(bc, w)), WorldOf(bc, w))
  {
    hide Sound, AllValid, Wallet.Right, Listed, Updated, BlockChain.State;
    QueueOf(bc, next);
    if next !in bc.allNodesMap || bc.allNodesMap[next] !in bc.utxoChan {
      ListedNothing(bc.State().now.view, w.PublicKey);
      NotQueued(bc.State(), next, arrivals);
      return;
    }
    UpdateWith(bc, w, next, arrivals);
  }

  lemma QueueOf(bc: BlockChain, next: Digest)
    ensures Queued(bc.State(), next) <==> next in bc.allNodesMap && bc.allNodesMap[next] in bc.utxoChan
  {
    hide BlockChain.Held, BlockChain.Now;
  }

  lemma NotQueued(a: Picture, next: Digest, arrivals: seq<Group>)
    requires AllValid(arrivals) && !Queued(a, next)
    ensures Updated(a, next, arrivals) == a
  {
  }

  method UpdateWith(bc: BlockChain, w: Wallet, next: Digest, arrivals: seq<Group>)
    requires Alright(bc, w) && AllValid(arrivals)
    requires next in bc.allNodesMap && bc.allNodesMap[next] in bc.utxoChan
    modifies Members(bc), w`transactions
    ensures Alright(bc, w) && fresh(Members(bc) - old(Members(bc)))
    ensures bc.root == old(bc.root) && bc.seen == old(bc.seen)
    ensures Effect(UpdaterRuns(next, arrivals), w.PublicKey, old(WorldOf(bc, w)), WorldOf(bc, w))
  {
    hide BlockChain.CoreInv, BlockChain.OrphanInv, BlockChain.Orphans, AllValid, BuiltHistories, UpToDateNodes;
    hide BlockChain.Left, BuiltDown, Wallet.Right, Wallet.Valid, EntriesOk, HashSet, HeldBy, Listed, RefsOfEntries;
    hide Effect, Seen;
    bc.OrphansApart();
    bc.Footing();
    WalletIsApart(bc, w);
    ghost var a := WorldOf(bc, w);
    var outcome, rest := bc.utxoUpdater(bc.allNodesMap[next], arrivals, w);
    RoundIs(bc, w, next, arrivals, a);
  }

  /** What the updater left is what the function says. */
  lemma RoundIs(bc: BlockChain, w: Wallet, next: Digest, arrivals: seq<Group>, a: World)
    requires AllValid(arrivals) && Queued(a.chain, next) && a.chain.nodes == bc.allNodesMap
    requires bc.Left(Round(a.chain, next, arrivals), w.PublicKey, a.refs, a.chain.failed, w)
    requires bc.utxoChan == a.chain.queue - multiset{a.chain.nodes[next]}
    requires bc.Orphans() == a.chain.orphans && bc.seen == a.chain.seen
    ensures Effect(UpdaterRuns(next, arrivals), w.PublicKey, a, WorldOf(bc, w)) && w.Right(bc.view)
  {
    hide BuiltDown, Wallet.Right, Listed, AllValid, BuiltHistories, UpToDateNodes, BlockChain.Orphans;
  }

  // ---------------------------------------------------------------- steps

  /** Nodes stay, headers stay, data stays, verified nodes keep their histories, the head moves only upwards, and a
      failure is remembered. */
  ghost predicate Onward(a: Picture, b: Picture) {
    && KeepsNodes(a.nodes, b.nodes) && HeldBy(a.Tree()) <= HeldBy(b.Tree()) && a.seen <= b.seen
    && Grows(a.now.histories, b.now.histories) && Extends(a.now.view, b.now.view)
    && a.now.height <= b.now.height && (a.now.height == b.now.height ==> a.now.head == b.now.head)
    && (a.failed ==> b.failed)
  }

  lemma EffectIsOnward(e: Event, a: Picture, b: Picture)
    requires EventOk(e) && ChainEffect(e, a, b) && Consistent(a.nodes, a.now)
    ensures Onward(a, b)
  {
    hide Onward, HeaderEffect, DataEffect, MinedEffect, Updated, AllValid, Group.Valid, Consistent;
    match e
    case HeaderArrives(header) => HeaderOnward(a, b, header);
    case DataArrives(data) =>
      HasBlocks(data);
      DataOnward(a, b, data);
    case BlockMined(header, data) =>
      HasBlocks(data);
      MinedOnward(a, b, header, data);
    case UpdaterRuns(next, arrivals) => UpdateOnward(a, next, arrivals);
  }

  lemma NothingOnward(a: Picture)
    ensures Onward(a, a)
  {
  }

  lemma HeaderOnward(a: Picture, b: Picture, header: Block)
    requires HeaderEffect(a, b, header)
    ensures Onward(a, b)
  {
    hide Verify, Arrived, HeldBy;
    ArrivedIsHeld(a.Tree(), header);
  }

  lemma DataOnward(a: Picture, b: Picture, data: Group)
    requires data.transactionBlocks != [] && DataEffect(a, b, data)
    ensures Onward(a, b)
  {
    hide ResolveGroup, Group.MerkleRoot;
    assert ResolveGroup(a.now.view, data).transactionBlocks == data.transactionBlocks;
  }

  lemma MinedOnward(a: Picture, b: Picture, header: Block, data: Group)
    requires data.transactionBlocks != [] && MinedEffect(a, b, header, data)
    ensures Onward(a, b)
  {
    hide ResolveGroup, Group.MerkleRoot, Verify;
  }

  lemma UpdateOnward(a: Picture, next: Digest, arrivals: seq<Group>)
    requires AllValid(arrivals) && Consistent(a.nodes, a.now)
    ensures Onward(a, Updated(a, next, arrivals))
  {
    hide BuiltDown, Consistent, HeldBy;
    if Queued(a, next) {
      HistoriesStay(a.nodes, a.Holdings(), a.nodes[next], arrivals);
      Movement(a.nodes, a.Holdings(), a.nodes[next], arrivals);
    }
  }

  /** Why a round did not bring its node up to date: on the path, the first node that was not applied never got its
      data, or was not accepted after the blocks before it. */
  ghost predicate Failed(history: seq<Record>, path: seq<BlockChainNode>, e: Ending) {
    |e.applied| < |path| && e.applied == path[..|e.applied|] && Stopped(history, path, e, |e.applied|)
  }

  /** A round of the updater, in any state and with any arrivals.  `path` leads from above the last node that is up to
      date to the node that was taken; that may be the branch it is on, or a switch to another one.  The node becomes
      up to date exactly if on the whole path the data is there in the end and each block is accepted after the ones
      before it; then the whole path was applied, and the node is the head if it is higher.  Otherwise the failure has
      the reason `Failed` gives.  After a verified node at most five blocks are applied. */
  lemma RoundExactly(a: Picture, next: Digest, arrivals: seq<Group>)
    requires Consistent(a.nodes, a.now) && Queued(a, next) && AllValid(arrivals)
    ensures var n, b, e := a.nodes[next], Updated(a, next, arrivals), Round(a, next, arrivals);
            var base, path := BaseOf(a.nodes, a.now.upToDate, n), PathTo(a.nodes, a.now.upToDate, n);
            && base in a.now.histories && base in a.now.upToDate
            && (n in b.now.upToDate <==>
                  forall i :: 0 <= i < |path| ==> CanFollow(a.now.histories[base], b.now.view, path, i))
            && (n in a.now.histories ==> n in b.now.upToDate)
            && (arrivals == [] ==>
                  && (forall h :: h in b.now.view <==>
                        h in a.now.view || exists m :: m in path && m.Hash == h && m.Block.MerkleRoot in a.dangling)
                  && (forall m :: m in path && m.Hash !in a.now.view && m.Block.MerkleRoot in a.dangling ==>
                        b.now.view[m.Hash] == a.dangling[m.Block.MerkleRoot]))
            && (HasParent(a.nodes, n) && Parent(a.nodes, n) in a.now.histories ==> |e.applied| <= |path| <= 5)
            && if n in b.now.upToDate
               then e.applied == path && b.failed == a.failed
                    && (path != [] ==> b.now.head == Headed(a.now, n).head && b.now.height == Headed(a.now, n).height)
               else b.failed && Failed(a.now.histories[base], path, e)
  {
    hide BuiltDown, Consistent, CanFollow, Stopped, Recorded, KeepsHistories, StepBound;
    var n, s := a.nodes[next], a.Holdings();
    PathShape(a.nodes, a.now, n);
    BuildMeaning(a.nodes, s, n, arrivals);
    Movement(a.nodes, s, n, arrivals);
    DoneExactly(a.nodes, s, n, arrivals);
    if n in a.now.histories {
      VerifiedAgain(a.nodes, s, n, arrivals);
    }
    if arrivals == [] {
      DoneExactlyNow(a.nodes, s, n);
    }
    if HasParent(a.nodes, n) && Parent(a.nodes, n) in a.now.histories && n !in a.now.upToDate {
      PathIsShort(a.nodes, a.now, n);
    }
  }

  method Step(bc: BlockChain, w: Wallet, e: Event, ghost all: set<Block>)
    requires Alright(bc, w) && GoodHeaders(all, bc.root.Block) && bc.seen <= all && HeaderOf(e) <= all && EventOk(e)
    modifies Members(bc), w`transactions
    ensures Alright(bc, w) && fresh(Members(bc) - old(Members(bc))) && bc.root == old(bc.root) && bc.seen <= all
    ensures Effect(e, w.PublicKey, old(WorldOf(bc, w)), WorldOf(bc, w))
  {
    hide Sound, GoodHeaders, AllValid, Group.Valid, Members, BlockChain.State, Wallet.Right, Onward, Effect;
    hide HeaderEffect, DataEffect, MinedEffect, Updated, Consistent;
    WalletIsApart(bc, w);
    IsConsistent(bc);
    ghost var a := WorldOf(bc, w);
    ViewOf(bc);
    match e {
      case HeaderArrives(header) =>
        Arrive(bc, header, all);
      case DataArrives(data) =>
        AddData(bc, data);
      case BlockMined(header, data) =>
        Mine(bc, header, data, all);
      case UpdaterRuns(next, arrivals) =>
        Update(bc, w, next, arrivals);
        return;
    }
    ViewOf(bc);
    NothingShown(e, w.PublicKey, a, WorldOf(bc, w));
    StillRight(w, a.chain.now.view, bc.view);
  }

  lemma NothingShown(e: Event, key: PublicKey, a: World, b: World)
    requires EventOk(e) && !e.UpdaterRuns? && ChainEffect(e, a.chain, b.chain) && b.refs == a.refs
    requires Consistent(a.chain.nodes, a.chain.now)
    ensures Effect(e, key, a, b) && Extends(a.chain.now.view, b.chain.now.view)
  {
    hide ChainEffect, Consistent;
    EffectIsOnward(e, a.chain, b.chain);
  }
}
