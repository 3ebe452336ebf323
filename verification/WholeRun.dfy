/** Whole runs: any sequence of arrivals, mined blocks and rounds of the updater, from the genesis block on. */
module WholeRuns {
  import opened Bytes
  import opened Transactions
  import opened Ledger
  import Supply
  import opened Blocks
  import opened ChainState
  import opened UtxoManagers
  import opened TreeInvariants
  import opened HeaderTrees
  import opened Updates
  import opened Pictures
  import opened TreeFacts
  import opened BlockChains
  import opened Runs
  import opened Wallets
  import opened Events
  import MP = MerkleProof
  import PC = ProofCodec

  ghost function HeadersOf(events: seq<Event>): set<Block> {
    if events == [] then {} else HeadersOf(events[..|events| - 1]) + HeaderOf(events[|events| - 1])
  }

  lemma {:induction false} HeaderIsListed(events: seq<Event>, i: nat)
    requires i < |events|
    ensures HeaderOf(events[i]) <= HeadersOf(events)
  {
    if i < |events| - 1 {
      HeaderIsListed(events[..|events| - 1], i);
    }
  }

  /** The beginning: the genesis block alone, verified, and an empty wallet. */
  ghost predicate Beginning(genesis: Block, a: World) {
    var h := Blocks.Hash(genesis);
    && a.refs == [] && h in a.chain.nodes && a.chain.nodes[h].Block == genesis && a.chain.nodes[h].Hash == h
    && a.chain == FirstPicture(a.chain.nodes[h])
  }

  /** `trace` shows what each event does. */
  ghost predicate Traces(events: seq<Event>, key: PublicKey, trace: seq<World>) {
    && |trace| == |events| + 1 && (forall i :: 0 <= i < |events| ==> EventOk(events[i]))
    && (forall i :: 0 <= i < |trace| ==> Consistent(trace[i].chain.nodes, trace[i].chain.now))
    && forall i :: 0 <= i < |events| ==> Effect(events[i], key, trace[i], trace[i + 1])
  }

  lemma TraceGrows(events: seq<Event>, key: PublicKey, trace: seq<World>, e: Event, b: World)
    requires Traces(events, key, trace) && EventOk(e) && Effect(e, key, trace[|events|], b)
    requires Consistent(b.chain.nodes, b.chain.now)
    ensures Traces(events + [e], key, trace + [b])
  {
    hide Effect, EventOk, Consistent;
    var events', trace' := events + [e], trace + [b];
    forall i | 0 <= i < |events'| ensures EventOk(events'[i]) && Effect(events'[i], key, trace'[i], trace'[i + 1]) {
      assert i < |events| ==> trace'[i] == trace[i] && trace'[i + 1] == trace[i + 1];
    }
  }

  lemma ShorterTrace(events: seq<Event>, key: PublicKey, trace: seq<World>)
    requires Traces(events, key, trace) && events != []
    ensures Traces(events[..|events| - 1], key, trace[..|events|])
  {
    hide EventOk, Effect, Consistent;
    forall i | 0 <= i < |events| - 1 ensures Effect(events[i], key, trace[i], trace[i + 1]) {
    }
  }

  /** What one event of a run does. */
  lemma OneEvent(events: seq<Event>, key: PublicKey, trace: seq<World>, i: nat)
    requires Traces(events, key, trace) && i < |events|
    ensures EventOk(events[i]) && Effect(events[i], key, trace[i], trace[i + 1])
    ensures Consistent(trace[i].chain.nodes, trace[i].chain.now)
    ensures Consistent(trace[i + 1].chain.nodes, trace[i + 1].chain.now)
    ensures Onward(trace[i].chain, trace[i + 1].chain)
  {
    hide EventOk, ChainEffect, Consistent, Onward, Listed;
    assert Effect(events[i], key, trace[i], trace[i + 1]);
    EffectIsOnward(events[i], trace[i].chain, trace[i + 1].chain);
  }

  /** Along a run nothing is undone. */
  lemma {:induction false} NothingIsUndone(events: seq<Event>, key: PublicKey, trace: seq<World>, i: nat, j: nat)
    requires Traces(events, key, trace) && i <= j < |trace|
    ensures Onward(trace[i].chain, trace[j].chain)
    decreases j - i
  {
    hide Traces, Onward, Effect;
    if i < j {
      Lengths(events, key, trace);
      NothingIsUndone(events, key, trace, i, j - 1);
      OneEvent(events, key, trace, j - 1);
      OnwardOn(trace[i].chain, trace[j - 1].chain, trace[j].chain);
    } else {
      NothingOnward(trace[i].chain);
    }
  }

  lemma Lengths(events: seq<Event>, key: PublicKey, trace: seq<World>)
    requires Traces(events, key, trace)
    ensures |trace| == |events| + 1
  {
  }

  lemma OnwardOn(a: Picture, b: Picture, c: Picture)
    requires Onward(a, b) && Onward(b, c)
    ensures Onward(a, c)
  {
  }

  ghost predicate AcceptsHeader(e: Event) {
    e.HeaderArrives? && Comparable(e.header) && Verify(e.header)
  }

  /** No header that passes the proof of work is ever lost: from its arrival on it is held, in the main chain or in an
      orphan chain. */
  lemma NoHeaderIsLost(events: seq<Event>, key: PublicKey, trace: seq<World>, i: nat, j: nat)
    requires Traces(events, key, trace) && i < j < |trace| && AcceptsHeader(events[i])
    ensures Blocks.Hash(events[i].header) in HeldBy(trace[j].chain.Tree())
  {
    hide Verify, NodesGrew, Arrived, HeldBy, Consistent;
    assert Effect(events[i], key, trace[i], trace[i + 1]);
    ArrivedIsHeld(trace[i].chain.Tree(), events[i].header);
    KnownIsHeld(trace[i].chain.Tree(), Blocks.Hash(events[i].header));
    NothingIsUndone(events, key, trace, i + 1, j);
  }

  lemma KnownIsHeld(t: HeaderTree, h: Digest)
    ensures h in t.keys ==> h in HeldBy(t)
  {
  }

  /** Where the headers are after an event. */
  ghost function TreeThen(e: Event, t: HeaderTree): HeaderTree
    requires EventOk(e)
  {
    match e
    case HeaderArrives(header) => Arrived(t, header)
    case BlockMined(header, data) =>
      HasBlocks(data);
      if CanMine(t.keys, header, data) then t.(keys := t.keys + {Blocks.Hash(header)}) else t
    case _ => t
  }

  /** Where the headers are after some events: no data, manager, head or verdict matters. */
  ghost function TreeAfter(events: seq<Event>, t: HeaderTree): HeaderTree
    requires forall i :: 0 <= i < |events| ==> EventOk(events[i])
  {
    if events == [] then t
    else
      var n := |events| - 1;
      assert EventOk(events[n]);
      TreeThen(events[n], TreeAfter(events[..n], t))
  }

  /** Main chain and orphan chains are at any time what this function of the events says. */
  lemma {:induction false} TreeIsAFunction(events: seq<Event>, key: PublicKey, trace: seq<World>)
    requires Traces(events, key, trace)
    ensures trace[|events|].chain.Tree() == TreeAfter(events, trace[0].chain.Tree())
  {
    hide EventOk, ChainEffect, TreeThen, Consistent, Listed;
    if events != [] {
      var n := |events| - 1;
      ShorterTrace(events, key, trace);
      TreeIsAFunction(events[..n], key, trace[..n + 1]);
      assert EventOk(events[n]) && Effect(events[n], key, trace[n], trace[n + 1]);
      OneTreeStep(events[n], trace[n].chain, trace[n + 1].chain);
    }
  }

  lemma OneTreeStep(e: Event, a: Picture, b: Picture)
    requires EventOk(e) && ChainEffect(e, a, b)
    ensures b.Tree() == TreeThen(e, a.Tree())
  {
    hide Arrived, NodesGrew, Verify, DataPlaced, ResolveGroup, Group.MerkleRoot, Group.Valid, AllValid, BuiltDown;
    match e
    case HeaderArrives(header) =>
    case DataArrives(data) => HasBlocks(data);
    case BlockMined(header, data) => HasBlocks(data);
    case UpdaterRuns(_, _) =>
  }

  // ---------------------------------------------------------------- what the wallet was shown

  /** The nodes that the wallet was shown, in order. */
  ghost function Told(events: seq<Event>, trace: seq<World>): seq<BlockChainNode>
    requires |trace| == |events| + 1 && forall i :: 0 <= i < |events| ==> EventOk(events[i])
    decreases |events|
  {
    if events == [] then []
    else
      var n := |events| - 1;
      Told(events[..n], trace[..n + 1]) + ShownBy(events[n], trace[n].chain)
  }

  /** A node that is verified and not the root. */
  ghost predicate IsVerified(a: Picture, n: BlockChainNode) {
    n in a.now.histories && n.Block.BlockCount != 0
  }

  /** What one event adds to the verified nodes is what it shows to the wallet. */
  lemma ShownAreVerified(e: Event, a: Picture, b: Picture)
    requires EventOk(e) && ChainEffect(e, a, b) && Consistent(a.nodes, a.now)
    ensures forall n :: IsVerified(b, n) <==> IsVerified(a, n) || n in ShownBy(e, a)
    ensures forall n :: n in ShownBy(e, a) ==> n.Hash in b.now.view
  {
    hide BuiltDown, Consistent, HeaderEffect, AllValid, Group.Valid, DataPlaced, ResolveGroup, Group.MerkleRoot;
    match e
    case HeaderArrives(header) => SameNow(a, b, header);
    case DataArrives(data) => HasBlocks(data);
    case BlockMined(header, data) => HasBlocks(data);
    case UpdaterRuns(next, arrivals) =>
      if Queued(a, next) {
        AppliedAreVerified(a.nodes, a.Holdings(), a.nodes[next], arrivals);
        DataStays(a.nodes, a.Holdings(), a.nodes[next], arrivals);
      }
  }

  lemma SameNow(a: Picture, b: Picture, header: Block)
    requires HeaderEffect(a, b, header)
    ensures b.now == a.now
  {
    hide NodesGrew, Verify, Arrived;
  }

  lemma AppliedAreVerified(nodes: NodeMap, s: Store, n: BlockChainNode, arrivals: seq<Group>)
    requires Consistent(nodes, s.now) && n in nodes.Values && AllValid(arrivals)
    ensures var e := BuiltDown(nodes, s, n, arrivals);
            && (forall m :: m in e.store.now.histories <==> m in s.now.histories || m in e.applied)
            && forall m :: m in e.applied ==> m.Block.BlockCount != 0
  {
    hide BuiltDown, Consistent, Explained, Recorded, Stopped, CanFollow;
    BuildMeaning(nodes, s, n, arrivals);
    PathShape(nodes, s.now, n);
    InPath(s, BaseOf(nodes, s.now.upToDate, n), PathTo(nodes, s.now.upToDate, n), BuiltDown(nodes, s, n, arrivals));
  }

  lemma InPath(s: Store, base: BlockChainNode, path: seq<BlockChainNode>, e: Ending)
    requires RightEnding(s, base, path, e)
    ensures forall m :: m in e.applied ==> m in path
  {
    hide Recorded, Stopped, CanFollow, KeepsHistories;
  }

  /** The wallet was shown exactly the verified nodes, each with its data, and lists what they pay, in the order in
      which it was shown them. */
  lemma {:induction false} WalletListsWhatItWasShown(events: seq<Event>, key: PublicKey, trace: seq<World>)
    requires Traces(events, key, trace) && trace[0].refs == []
    requires forall n :: !IsVerified(trace[0].chain, n)
    ensures var told, last := Told(events, trace), trace[|events|];
            && (forall n :: n in told ==> n.Hash in last.chain.now.view)
            && (forall n :: n in told <==> IsVerified(last.chain, n))
            && last.refs == Listed(last.chain.now.view, told, key)
  {
    hide EventOk, ChainEffect, Onward, Received, ShownBy, Consistent, IsVerified;
    if events != [] {
      var n := |events| - 1;
      var before, shown := Told(events[..n], trace[..n + 1]), ShownBy(events[n], trace[n].chain);
      ShorterTrace(events, key, trace);
      WalletListsWhatItWasShown(events[..n], key, trace[..n + 1]);
      OneEvent(events, key, trace, n);
      ShownAreVerified(events[n], trace[n].chain, trace[n + 1].chain);
      ViewsExtend(trace[n].chain, trace[n + 1].chain);
      ListedStays(trace[n].chain.now.view, trace[n + 1].chain.now.view, before, key);
      ListedMore(trace[n + 1].chain.now.view, before, shown, key);
    }
  }

  lemma ViewsExtend(a: Picture, b: Picture)
    requires Onward(a, b)
    ensures Extends(a.now.view, b.now.view)
  {
  }

  /** What a node pays that the wallet was shown, the wallet lists. */
  ghost predicate PaidBy(a: Picture, key: PublicKey, tr: TransactionRef, n: BlockChainNode) {
    IsVerified(a, n) && n.Hash in a.now.view && PaysAt(n.Hash, a.now.view[n.Hash].TransactionBlockStructs, key, tr)
  }

  ghost predicate PaidBySome(a: Picture, key: PublicKey, tr: TransactionRef) {
    exists n :: n in a.now.histories && PaidBy(a, key, tr, n)
  }

  /** After any run the wallet lists exactly what the verified nodes pay it, on whatever branch. */
  lemma WalletListsAllVerified(events: seq<Event>, key: PublicKey, trace: seq<World>, tr: TransactionRef)
    requires Traces(events, key, trace) && trace[0].refs == [] && ViewValid(trace[|events|].chain.now.view)
    requires forall n :: !IsVerified(trace[0].chain, n)
    ensures tr in trace[|events|].refs <==> PaidBySome(trace[|events|].chain, key, tr)
  {
    hide EventOk, Effect, Consistent, PaidBySome, IsVerified, ViewValid, Listed;
    WalletListsWhatItWasShown(events, key, trace);
    ListedIsPaid(trace[|events|].chain, key, Told(events, trace), tr);
  }

  lemma ListedIsPaid(a: Picture, key: PublicKey, told: seq<BlockChainNode>, tr: TransactionRef)
    requires ViewValid(a.now.view) && forall n :: n in told ==> n.Hash in a.now.view
    requires forall n :: n in told <==> IsVerified(a, n)
    ensures tr in Listed(a.now.view, told, key) <==> PaidBySome(a, key, tr)
  {
    hide ViewValid, PaysAt, Paid;
    ListedMeaning(a.now.view, told, key, tr);
    forall n | n in told ensures tr in Paid(a.now.view, n, key) <==> PaidBy(a, key, tr, n) {
      PaidMeaning(a.now.view, n, key);
    }
  }

  /** In particular it lists every output on the chain of the head that pays it. */
  lemma {:induction false} HistoryIsShown(a: Picture, n: BlockChainNode, i: nat)
    requires Consistent(a.nodes, a.now) && n in a.now.histories && i < |a.now.histories[n]|
    ensures exists m :: IsVerified(a, m) && m.Hash in a.now.view && a.now.histories[n][i] == RecordIn(a, m)
    decreases n.Block.BlockCount
  {
    hide StandsIn, Acceptable, Replay;
    assert VerifiedIn(a.nodes, a.now, n);
    if i < |a.now.histories[n]| - 1 {
      HistoryIsShown(a, Parent(a.nodes, n), i);
    } else {
      assert IsVerified(a, n) && a.now.histories[n][i] == RecordIn(a, n);
    }
  }

  ghost function RecordIn(a: Picture, m: BlockChainNode): Record
    requires m.Hash in a.now.view
  {
    Record(m.Hash, a.now.view[m.Hash].TransactionBlockStructs)
  }

  // ---------------------------------------------------------------- what a run ends in

  /** What a node may rely on after any run. */
  ghost predicate Trustworthy(bc: BlockChain)
    requires Sound(bc)
    reads bc, bc.Nodes(), bc.utxoRepr, bc.orphanBlockChains, bc.orphanNodes
  {
    && (forall n :: n in bc.Nodes() ==> NodeTrustworthy(bc, n))
    && (forall m, n :: m in bc.Nodes() && n in bc.Nodes() && m != n ==> Apart(m, n, bc.utxoRepr))
    && (bc.utxoChan == multiset{} && !bc.failed ==>
          forall n :: n in bc.Nodes() ==> n.Block.BlockCount <= bc.head.Block.BlockCount)
    && bc.head in bc.Nodes() && bc.Height == bc.head.Block.BlockCount && bc.head.uTxOManagerIsUpToDate
  }

  /** Data matches the header; a verified node has a chain that both checks accepted, so that no output is spent
      twice along it; an up-to-date node has a manager of its own that agrees with replaying that chain; and savepoints
      stay. */
  ghost predicate NodeTrustworthy(bc: BlockChain, n: BlockChainNode)
    reads bc, n, bc.utxoRepr
  {
    && (n.hasData ==> n.dataPointer.Some? && n.dataPointer.value.Valid()
                      && n.dataPointer.value.MerkleRoot() == n.Block.MerkleRoot)
    && (Built(n, bc.root) ==> Supply.Verified(n.history) && |n.history| == n.Block.BlockCount)
    && (Built(n, bc.root) && n.Block.BlockCount % 5 == 0 ==> n.uTxOManagerIsUpToDate)
    && (n.uTxOManagerIsUpToDate ==>
          && Built(n, bc.root) && n.uTxOManagerPointer != null && n.uTxOManagerPointer in bc.utxoRepr
          && n.uTxOManagerPointer.attachedBlockChainNode == n && n.uTxOManagerPointer.Contents == Replay(n.history))
  }

  lemma NodeIsTrustworthy(bc: BlockChain, n: BlockChainNode)
    requires Sound(bc) && n in bc.Nodes()
    ensures NodeTrustworthy(bc, n)
  {
    hide TreeInv, DanglingInv, LeadsInv, ForkInv, OrphansInv, Group.Valid, Supply.Verified, Replay, HashSet;
    HasDataIff(bc.allNodesMap, bc.view, n);
    if Built(n, bc.root) {
      BuiltIsVerified(bc.allNodesMap, bc.root, bc.view, n);
    }
    assert ManagerAt(n, bc.root, bc.utxoRepr);
  }

  /** No two nodes share a manager or any map of one. */
  lemma ManagersApart(nodes: NodeMap, root: BlockChainNode, seen: set<Block>, view: View, utxoRepr: set<object>)
    requires NodesInv(nodes, root, seen, view, utxoRepr)
    ensures forall m, n :: m in nodes.Values && n in nodes.Values && m != n ==> Apart(m, n, utxoRepr)
  {
    hide TreeInv, ViewInv, BuiltInv, ManagerAt, Apart;
  }

  lemma IsTrustworthy(bc: BlockChain)
    requires Sound(bc)
    ensures Trustworthy(bc)
  {
    hide NodesInv, DanglingInv, LeadsInv, OrphansInv, NodeTrustworthy, Apart, HashSet;
    forall n | n in bc.Nodes() ensures NodeTrustworthy(bc, n) {
      NodeIsTrustworthy(bc, n);
    }
    ManagersApart(bc.allNodesMap, bc.root, bc.seen, bc.view, bc.utxoRepr);
    HeadIsHigh(bc.allNodesMap, bc.root, bc.head, bc.Height, bc.utxoChan, bc.failed);
    if bc.utxoChan == multiset{} && !bc.failed {
      bc.HighestHead();
    }
  }

  /** Each proof a wallet stores verifies against the header of its block, and pays this wallet. */
  ghost predicate ProofHolds(bc: BlockChain, w: Wallet, e: TransactionAndProof)
    reads bc
  {
    && e.InRange() && e.Output().ReceiverPublicKey == w.PublicKey
    && e.tr.BlockHash in bc.allNodesMap
    && PC.Decodable(e.tp) && PC.Decode(e.tp).WellFormed()
    && MP.ProofRoot(PC.Decode(e.tp)) == bc.allNodesMap[e.tr.BlockHash].Block.MerkleRoot
  }

  lemma StoredProofsVerify(bc: BlockChain, w: Wallet, i: nat)
    requires Alright(bc, w) && i < |w.transactions|
    ensures ProofHolds(bc, w, w.transactions[i])
  {
    hide DanglingInv, LeadsInv, ForkInv, OrphansInv, BuiltInv, ManagerInv, GoodHeaders, Verify, HashSet;
    var e := w.transactions[i];
    assert EntryOk(bc.view, w.PublicKey, e);
    var n := bc.allNodesMap[e.tr.BlockHash];
    assert PlacedAt(bc.allNodesMap, bc.root, bc.seen, e.tr.BlockHash) && DataAt(n, bc.view);
  }

  /** The node at the beginning. */
  method Start(genesis: Block, pub: PublicKey, priv: Bytes) returns (bc: BlockChain, w: Wallet)
    requires Comparable(genesis) && Verify(genesis) && genesis.BlockCount == 0
    ensures Alright(bc, w) && fresh(Members(bc)) && fresh(w) && Beginning(genesis, WorldOf(bc, w))
    ensures bc.root.Block == genesis && bc.seen == {genesis} && w.PublicKey == pub && w.privateKey == priv
  {
    hide BlockChain.CoreInv, BlockChain.OrphanInv, Verify, BuiltHistories, UpToDateNodes;
    bc := StartChain(genesis, false);
    w := new Wallet.initializeWallet(pub, priv);
  }

  /** The wallet lists exactly what the verified nodes of any branch pay it. */
  ghost predicate WalletComplete(a: Picture, key: PublicKey, refs: seq<TransactionRef>) {
    forall tr :: tr in refs <==> PaidBySome(a, key, tr)
  }

  /** Any run, from the genesis block on, with any headers that are good together.  `trace` tells what each event
      did. */
  method Run(genesis: Block, events: seq<Event>, pub: PublicKey, priv: Bytes)
    returns (bc: BlockChain, w: Wallet, ghost trace: seq<World>)
    requires Comparable(genesis) && Verify(genesis) && genesis.BlockCount == 0
    requires GoodHeaders(HeadersOf(events) + {genesis}, genesis)
    requires forall i :: 0 <= i < |events| ==> EventOk(events[i])
    ensures bc.root.Block == genesis && w.PublicKey == pub && w.privateKey == priv
    ensures Traces(events, pub, trace) && Beginning(genesis, trace[0]) && trace[|events|] == WorldOf(bc, w)
    ensures Alright(bc, w) && Trustworthy(bc)
    ensures bc.Tree() == TreeAfter(events, HeaderTree({Blocks.Hash(genesis)}, []))
    ensures forall i :: 0 <= i < |events| && AcceptsHeader(events[i]) ==> Blocks.Hash(events[i].header) in bc.Held()
    ensures forall i :: 0 <= i < |w.transactions| ==> ProofHolds(bc, w, w.transactions[i])
    ensures WalletComplete(bc.State(), pub, RefsOfEntries(w.transactions))
    ensures RefsOfEntries(w.transactions) == Listed(bc.view, Told(events, trace), pub)
    ensures Distinct(RefsOfEntries(w.transactions)) <==> ShownOnce(bc.view, Told(events, trace), pub)
  {
    hide GoodHeaders, Alright, EventOk, HeadersOf, HeaderOf, Members, Trustworthy, Effect, Beginning, Verify, WorldOf;
    hide Consistent;
    bc, w := Start(genesis, pub, priv);
    ConsistentWorld(bc, w);
    trace := [WorldOf(bc, w)];
    ghost var owned := Members(bc);
    for i := 0 to |events|
      invariant Alright(bc, w) && fresh(owned) && fresh(w) && Members(bc) <= owned
      invariant bc.root.Block == genesis && bc.seen <= HeadersOf(events) + {genesis}
      invariant w.PublicKey == pub && w.privateKey == priv
      invariant Traces(events[..i], pub, trace) && Beginning(genesis, trace[0]) && trace[i] == WorldOf(bc, w)
    {
      ghost var members := Members(bc);
      HeaderIsListed(events, i);
      label before:
      Step(bc, w, events[i], HeadersOf(events) + {genesis});
      ghost var added := Members(bc) - members;
      assert fresh@before(added);
      assert fresh(added);
      owned := owned + added;
      ConsistentWorld(bc, w);
      TraceGrows(events[..i], pub, trace, events[i], WorldOf(bc, w));
      assert events[..i + 1] == events[..i] + [events[i]];
      trace := trace + [WorldOf(bc, w)];
    }
    assert events[..|events|] == events;
    AtTheEnd(genesis, events, trace, bc, w);
  }

  lemma ConsistentWorld(bc: BlockChain, w: Wallet)
    requires Alright(bc, w)
    ensures Consistent(WorldOf(bc, w).chain.nodes, WorldOf(bc, w).chain.now)
  {
    hide Sound, BlockChain.State;
    IsConsistent(bc);
  }

  /** What follows for the state at the end. */
  lemma AtTheEnd(genesis: Block, events: seq<Event>, trace: seq<World>, bc: BlockChain, w: Wallet)
    requires Traces(events, w.PublicKey, trace) && Beginning(genesis, trace[0]) && trace[|events|] == WorldOf(bc, w)
    requires Alright(bc, w)
    ensures Trustworthy(bc) && forall i :: 0 <= i < |w.transactions| ==> ProofHolds(bc, w, w.transactions[i])
    ensures bc.Tree() == TreeAfter(events, HeaderTree({Blocks.Hash(genesis)}, []))
    ensures forall i :: 0 <= i < |events| && AcceptsHeader(events[i]) ==> Blocks.Hash(events[i].header) in bc.Held()
    ensures WalletComplete(bc.State(), w.PublicKey, RefsOfEntries(w.transactions))
    ensures RefsOfEntries(w.transactions) == Listed(bc.view, Told(events, trace), w.PublicKey)
    ensures Distinct(RefsOfEntries(w.transactions)) <==> ShownOnce(bc.view, Told(events, trace), w.PublicKey)
  {
    hide Sound, Trustworthy, ProofHolds, Verify, Effect, EventOk, TreeThen, EntriesOk, Told, Listed, ShownOnce, HeldBy;
    hide BlockChain.Now, BlockChain.Orphans, Consistent, PaidBySome;
    IsTrustworthy(bc);
    NothingVerified(genesis, trace[0]);
    TreeIsAFunction(events, w.PublicKey, trace);
    forall i | 0 <= i < |w.transactions| ensures ProofHolds(bc, w, w.transactions[i]) {
      StoredProofsVerify(bc, w, i);
    }
    forall i | 0 <= i < |events| && AcceptsHeader(events[i])
      ensures Blocks.Hash(events[i].header) in bc.Held()
    {
      NoHeaderIsLost(events, w.PublicKey, trace, i, |events|);
    }
    WalletListsWhatItWasShown(events, w.PublicKey, trace);
    ViewOf(bc);
    DataIsValid(bc);
    forall tr ensures tr in RefsOfEntries(w.transactions) <==> PaidBySome(bc.State(), w.PublicKey, tr) {
      WalletListsAllVerified(events, w.PublicKey, trace, tr);
    }
    ListsNothingTwice(bc.view, Told(events, trace), w.PublicKey);
  }

  lemma NothingVerified(genesis: Block, a: World)
    requires Beginning(genesis, a) && Consistent(a.chain.nodes, a.chain.now)
    ensures forall n :: !IsVerified(a.chain, n)
    ensures a.chain.Tree() == HeaderTree({Blocks.Hash(genesis)}, []) && a.refs == []
  {
    hide VerifiedIn;
  }

  lemma DataIsValid(bc: BlockChain)
    requires Sound(bc)
    ensures ViewValid(bc.view)
  {
    hide TreeInv, BuiltInv, ManagerInv, DanglingInv, LeadsInv, ForkInv, OrphansInv, HashSet;
  }
}
