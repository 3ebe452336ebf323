/** What a node that follows the rules can count on: its payments are made when they can be, and its blocks are
    accepted. */
module HonestNodes {
  import opened Bytes
  import opened Transactions
  import opened Ledger
  import opened Verification
  import opened Supply
  import opened Ownership
  import opened Blocks
  import opened ChainState
  import opened UtxoManagers
  import opened TreeInvariants
  import opened Updates
  import opened Pictures
  import opened TreeFacts
  import opened BlockChains
  import opened Runs
  import opened Events
  import opened WholeRuns
  import opened GroupBuilding
  import opened TransactionPools
  import opened Wallets

  lemma HeadHistory(bc: BlockChain)
    requires Sound(bc)
    ensures Supply.Verified(bc.head.history) && InView(bc.view, bc.head.history)
    ensures |bc.head.history| == bc.head.Block.BlockCount == bc.Height
    ensures bc.head in bc.Nodes() && bc.head.uTxOManagerIsUpToDate && bc.head.uTxOManagerPointer in bc.utxoRepr
    ensures bc.head.uTxOManagerPointer.Valid() && bc.head.uTxOManagerPointer.Contents == Replay(bc.head.history)
    ensures bc.head.uTxOManagerPointer.Repr <= bc.utxoRepr
  {
    hide TreeInv, DanglingInv, LeadsInv, OrphansInv, UTxOManager.Valid, Supply.Verified, Replay, HashSet;
    HeadIsHigh(bc.allNodesMap, bc.root, bc.head, bc.Height, bc.utxoChan, bc.failed);
    assert ManagerAt(bc.head, bc.root, bc.utxoRepr);
    assert BuiltAt(bc.head, bc.allNodesMap, bc.root, bc.view);
    BuiltIsVerified(bc.allNodesMap, bc.root, bc.view, bc.head);
  }

  /** After any run: a wallet that lists nothing twice can pay an amount exactly if it is at most what `TotalAvailable`
      reports, provided no transaction block on the way to the head created 2^64 or more. */
  lemma PaymentSucceedsExactly(bc: BlockChain, w: Wallet, amount: Uint64)
    requires Alright(bc, w) && Distinct(RefsOfEntries(w.transactions)) && NoOverflow(bc.head.history)
    ensures AllInRange(w.transactions) && bc.head.uTxOManagerPointer != null
    ensures var m := bc.head.uTxOManagerPointer.Contents;
            && U64(Available(w.transactions, m)) == Available(w.transactions, m)
            && (Affordable(Chosen(w.transactions, m, amount), amount) <==> amount <= Available(w.transactions, m))
  {
    hide Sound, UTxOManager.Valid, Supply.Verified, Replay, NoOverflow, EntriesOk, Wallet.Valid;
    HeadHistory(bc);
    AvailableIsBounded(bc.view, bc.head.history, w.PublicKey, w.transactions);
    PaysExactlyIfAvailable(w.transactions, bc.head.uTxOManagerPointer.Contents, amount);
  }

  /** Block `i` of a chain pays `key`. */
  ghost predicate PaysAtBlock(history: seq<Record>, i: nat, key: PublicKey, tr: TransactionRef)
    requires i < |history|
  {
    PaysAt(history[i].hash, history[i].blocks, key, tr)
  }

  ghost predicate PaidOnChain(history: seq<Record>, key: PublicKey, tr: TransactionRef) {
    exists i :: 0 <= i < |history| && PaysAtBlock(history, i, key, tr)
  }

  /** After any run the wallet lists every output on the chain of the head that pays it, and of the unspent outputs no
      others. */
  lemma WalletKnowsItsCoins(bc: BlockChain, w: Wallet, tr: TransactionRef)
    requires Alright(bc, w) && WalletComplete(bc.State(), w.PublicKey, RefsOfEntries(w.transactions))
    ensures PaidOnChain(bc.head.history, w.PublicKey, tr) ==> tr in RefsOfEntries(w.transactions)
    ensures Spendable(Replay(bc.head.history), tr) && tr in RefsOfEntries(w.transactions) ==>
              PaidOnChain(bc.head.history, w.PublicKey, tr)
  {
    hide Sound, Wallet.Right, Replay, Supply.Verified, UTxOManager.Valid, BlockChain.State, PaysAt, Consistent;
    hide PaidBySome;
    var a, history, key := bc.State(), bc.head.history, w.PublicKey;
    HeadHistory(bc);
    HeadInPicture(bc);
    IsConsistent(bc);
    if PaidOnChain(history, key, tr) {
      var i :| 0 <= i < |history| && PaysAtBlock(history, i, key, tr);
      HistoryIsShown(a, bc.head, i);
      ShownIsPaid(a, bc.head, i, key, tr);
    }
    if Spendable(Replay(history), tr) && tr in RefsOfEntries(w.transactions) {
      assert PaidBySome(a, key, tr);
      PaidHere(a, history, key, tr);
    }
  }

  lemma ShownIsPaid(a: Picture, n: BlockChainNode, i: nat, key: PublicKey, tr: TransactionRef)
    requires n in a.now.histories && i < |a.now.histories[n]|
    requires exists m :: IsVerified(a, m) && m.Hash in a.now.view && a.now.histories[n][i] == RecordIn(a, m)
    requires PaysAtBlock(a.now.histories[n], i, key, tr)
    ensures PaidBySome(a, key, tr)
  {
    hide PaysAt;
    var m :| IsVerified(a, m) && m.Hash in a.now.view && a.now.histories[n][i] == RecordIn(a, m);
    assert PaidBy(a, key, tr, m);
  }

  lemma PaidHere(a: Picture, history: seq<Record>, key: PublicKey, tr: TransactionRef)
    requires PaidBySome(a, key, tr) && Supply.Verified(history) && InView(a.now.view, history)
    requires Spendable(Replay(history), tr)
    ensures PaidOnChain(history, key, tr)
  {
    hide Replay;
    var n :| n in a.now.histories && PaidBy(a, key, tr, n);
    ReplayMeaning(history, tr);
    var c :| 0 <= c < |history| && CreatedAt(history, c, tr);
    assert RecordInView(a.now.view, history[c]);
    assert PaysAtBlock(history, c, key, tr);
  }

  /** After any run a wallet that lists nothing twice knows exactly the unspent outputs of the chain of the head that
      pay it, each once, and what it reports is what they are worth. */
  lemma BalanceIsExact(bc: BlockChain, w: Wallet)
    requires Alright(bc, w) && WalletComplete(bc.State(), w.PublicKey, RefsOfEntries(w.transactions))
    requires Distinct(RefsOfEntries(w.transactions))
    ensures AllInRange(w.transactions)
    ensures var m, history := Replay(bc.head.history), bc.head.history;
            var coins := UnspentRefs(w.transactions, m);
            && Distinct(coins)
            && (forall tr :: tr in coins <==> Spendable(m, tr) && PaidOnChain(history, w.PublicKey, tr))
            && (forall tr :: tr in coins ==> tr in ChainCoins(history))
            && Available(w.transactions, m) == RefSum(ChainCoins(history), coins)
  {
    hide Sound, Replay, EntriesOk, Supply.Verified, UTxOManager.Valid, BlockChain.State, WalletComplete, ChainCoins;
    hide PaidOnChain, Spendable;
    var m, history := Replay(bc.head.history), bc.head.history;
    HeadHistory(bc);
    WellFormedHistory(history);
    AvailableIsRefSum(bc.view, history, w.PublicKey, w.transactions);
    UnspentRefsMeaning(w.transactions, m);
    forall tr
      ensures tr in UnspentRefs(w.transactions, m) <==> Spendable(m, tr) && PaidOnChain(history, w.PublicKey, tr)
    {
      WalletKnowsItsCoins(bc, w, tr);
    }
  }

  lemma WellFormedHistory(history: seq<Record>)
    requires Supply.Verified(history)
    ensures WellFormed(history)
  {
  }

  /** In every reachable state, along the chain of any verified node: no output is spent twice, and each is spent
      strictly after the block that made it. */
  lemma NoDoubleSpendInTree(bc: BlockChain, n: BlockChainNode, i: nat, a: nat, j: nat, b: nat)
    requires Sound(bc) && n in bc.Nodes() && Built(n, bc.root) && i < |n.history| && j < |n.history|
    requires a < |GroupRefs(n.history[i].blocks)| && b < |GroupRefs(n.history[j].blocks)|
    ensures GroupRefs(n.history[i].blocks)[a] == GroupRefs(n.history[j].blocks)[b] ==> i == j && a == b
    ensures exists c :: 0 <= c < i && CreatedAt(n.history, c, GroupRefs(n.history[i].blocks)[a])
    ensures forall c :: 0 <= c < |n.history| && CreatedAt(n.history, c, GroupRefs(n.history[i].blocks)[a]) ==> c < i
  {
    hide Sound, GroupRefs, CreatedAt;
    VerifiedHistory(bc, n);
    SpentAfterCreation(n.history, i, a);
    if GroupRefs(n.history[i].blocks)[a] == GroupRefs(n.history[j].blocks)[b] {
      NoDoubleSpend(n.history, i, a, j, b);
    }
  }

  lemma VerifiedHistory(bc: BlockChain, n: BlockChainNode)
    requires Sound(bc) && n in bc.Nodes() && Built(n, bc.root)
    ensures Supply.Verified(n.history) && |n.history| == n.Block.BlockCount
  {
    hide TreeInv, DanglingInv, LeadsInv, ForkInv, OrphansInv, ManagerInv, HashSet;
    BuiltIsVerified(bc.allNodesMap, bc.root, bc.view, n);
  }

  /** The same by inputs: two inputs on the chain of a verified node that name one output are one input. */
  lemma NoInputTwiceInTree(bc: BlockChain, n: BlockChainNode, i: nat, k: nat, a: nat, j: nat, l: nat, b: nat)
    requires Sound(bc) && n in bc.Nodes() && Built(n, bc.root) && i < |n.history| && j < |n.history|
    requires k < |n.history[i].blocks| && a < |n.history[i].blocks[k].InputList|
    requires l < |n.history[j].blocks| && b < |n.history[j].blocks[l].InputList|
    requires n.history[i].blocks[k].InputList[a].reference == n.history[j].blocks[l].InputList[b].reference
    ensures i == j && k == l && a == b
  {
    hide Sound;
    VerifiedHistory(bc, n);
    NoInputTwice(n.history, i, k, a, j, l, b);
  }

  /** No theft: in every reachable state each input on the chain of a verified node spends an output of an earlier block
      that was paid to whoever pays now, and carries two signatures that his key accepts: one under the output it
      spends, and one under the whole transaction block it is in. */
  lemma NoTheftInTree(bc: BlockChain, n: BlockChainNode, i: nat, k: nat, a: nat)
    requires Sound(bc) && n in bc.Nodes() && Built(n, bc.root) && i < |n.history|
    requires k < |n.history[i].blocks| && a < |n.history[i].blocks[k].InputList|
    ensures exists c :: 0 <= c < i && SpentByItsOwner(n.history, c, n.history[i].blocks[k], a)
  {
    hide Sound;
    VerifiedHistory(bc, n);
    NoTheft(n.history, i, k, a);
  }

  /** In every reachable state, at any verified node: the unspent outputs are worth at most one coin a block after each
      block of its chain exactly if none of its transaction blocks creates 2^64 or more. */
  lemma MoneySupplyInTree(bc: BlockChain, n: BlockChainNode)
    requires Sound(bc) && n in bc.Nodes() && Built(n, bc.root)
    ensures SupplyIsBounded(n.history) <==> NoOverflow(n.history)
    ensures NoOverflow(n.history) ==> SupplyAfter(n.history, |n.history|) <= n.Block.BlockCount * DAVIDCOIN
  {
    hide Sound;
    VerifiedHistory(bc, n);
    MoneySupply(n.history);
  }

  // ---------------------------------------------------------------- mining

  /** The outputs the requests carry are the ones their references name. */
  ghost predicate RequestsResolved(requests: map<Digest, TransactionBlock>, view: View) {
    forall tb :: tb in requests.Values ==> BlockResolved(view, tb)
  }

  /** Data only arrives, so requests stay resolved; a request from the network is resolved when it is received, and a
      payment of this wallet when it is made. */
  lemma RequestsStayResolved(requests: map<Digest, TransactionBlock>, view: View, view': View)
    requires RequestsResolved(requests, view) && Extends(view, view')
    ensures RequestsResolved(requests, view')
  {
    forall tb | tb in requests.Values ensures BlockResolved(view', tb) {
      assert BlockResolved(view, tb);
      forall a | 0 <= a < |tb.InputList| ensures InputResolved(view', tb.InputList[a]) {
        assert InputResolved(view, tb.InputList[a]);
      }
    }
  }

  lemma RequestReceived(requests: map<Digest, TransactionBlock>, view: View, tbArr: Bytes)
    requires RequestsResolved(requests, view) && BlockDecodable(tbArr)
    ensures var tb := DecodeBlock(tbArr, LookupIn(view)); RequestsResolved(requests[HashOf(tb) := tb], view)
  {
    hide EncodeBlock;
    var tb := DecodeBlock(tbArr, LookupIn(view));
    forall i | 0 <= i < |tb.InputList| ensures InputResolved(view, tb.InputList[i]) {
    }
    assert BlockResolved(view, tb);
  }

  lemma PaymentRequested(requests: map<Digest, TransactionBlock>, bc: BlockChain, w: Wallet, m: Utxo, amount: Uint64,
                         tx: TransactionBlock)
    requires Alright(bc, w) && RequestsResolved(requests, bc.view) && AllInRange(w.transactions)
    requires tx.InputList == InputsFor(Chosen(w.transactions, m, amount), w.privateKey)
    ensures RequestsResolved(requests[HashOf(tx) := tx], bc.view)
  {
    hide Sound, EncodeBlock, EntriesOk, Chosen, BlockResolved;
    PaymentIsResolved(bc.view, w.PublicKey, w.transactions, m, amount, w.privateKey, tx);
  }

  lemma PoolGroupIsResolved(priority: map<Digest, TransactionBlock>, verified: map<Digest, TransactionBlock>,
                            view: View, m: Utxo, g: Group)
    requires RequestsResolved(priority, view) && RequestsResolved(verified, view)
    requires Formed(g.TransactionBlockStructs, priority, verified, m)
    ensures GroupResolved(view, g)
  {
    hide CrossDistinct, AllEntered, RefsOk;
    forall k | 0 <= k < |g.TransactionBlockStructs| ensures BlockResolved(view, g.TransactionBlockStructs[k]) {
      if k == 0 {
        assert g.TransactionBlockStructs[k].InputList == [];
      }
    }
  }

  /** The head, read off the picture of its block chain. */
  lemma HeadInPicture(bc: BlockChain)
    requires Sound(bc)
    ensures var a := bc.State();
            && a.nodes == bc.allNodesMap && a.queue == bc.utxoChan && a.failed == bc.failed && a.seen == bc.seen
            && a.now.head == bc.head && a.now.height == bc.Height == bc.head.Block.BlockCount && a.now.view == bc.view
            && Blocks.Hash(bc.head.Block) in a.nodes && a.nodes[Blocks.Hash(bc.head.Block)] == bc.head
            && bc.head in a.now.upToDate && a.now.upToDate <= a.nodes.Values && a.now.upToDate == UpToDateNodes(a.nodes)
            && bc.head in a.now.histories && a.now.histories[bc.head] == bc.head.history && bc.root.Hash in a.nodes
  {
    hide ViewInv, BuiltInv, DanglingInv, LeadsInv, OrphansInv, BlockChain.Held, HashSet;
    HeadIsHigh(bc.allNodesMap, bc.root, bc.head, bc.Height, bc.utxoChan, bc.failed);
    KeyOf(bc.allNodesMap, bc.root, bc.seen, bc.head);
    assert ManagerAt(bc.head, bc.root, bc.utxoRepr);
  }

  /** A new block on top of the head is queued, and no node that is up to date. */
  lemma OnTopOfHead(a: Picture, b: Picture, header: Block, tbg: Group)
    requires NodeMined(a, b, header, tbg) && Consistent(a.nodes, a.now) && Consistent(b.nodes, b.now)
    requires header.PrevHash in a.nodes && a.nodes[header.PrevHash] == a.now.head
    requires header.BlockCount == a.now.height + 1 && Blocks.Hash(header) !in a.nodes
    ensures var hash := Blocks.Hash(header);
            var n := b.nodes[hash];
            && Queued(b, hash) && n.Hash == hash && n !in b.now.upToDate && b.queue - multiset{n} == a.queue
            && HasParent(b.nodes, n) && Parent(b.nodes, n) == b.now.head == a.now.head && b.now.view[hash] == tbg
  {
    hide VerifiedIn;
    var n := b.nodes[Blocks.Hash(header)];
    assert n in b.nodes.Values && StandsIn(b.nodes, b.now, n);
  }

  /** What a round does with a node right above the head whose data is there and acceptable. */
  lemma NextIsBuilt(b: Picture, hash: Digest)
    requires Consistent(b.nodes, b.now) && Queued(b, hash) && b.nodes[hash].Hash == hash && hash in b.now.view
    requires b.nodes[hash] !in b.now.upToDate && HasParent(b.nodes, b.nodes[hash])
    requires Parent(b.nodes, b.nodes[hash]) == b.now.head && b.now.head in b.now.histories
    requires Acceptable(b.now.view[hash].TransactionBlockStructs, Replay(b.now.histories[b.now.head]))
    ensures var n := b.nodes[hash];
            && Round(b, hash, []).applied == [n] && b.now.height < n.Block.BlockCount
            && Updated(b, hash, []) == b.(queue := b.queue - multiset{n}, now := Advanced(b.now, b.now.head, n))
  {
    hide Acceptable, Replay, VerifiedIn, BuiltDown, Advanced;
    var n := b.nodes[hash];
    assert StandsIn(b.nodes, b.now, n);
    BuildNext(b.nodes, b.Holdings(), n, []);
  }

  /** What becomes of the chain when a block is accepted on top of its head. */
  ghost predicate HeadIsMined(bc: BlockChain, header: Block, tbg: Group, history: seq<Record>)
    reads bc, bc.Nodes()
  {
    var hash := Blocks.Hash(header);
    && hash in bc.allNodesMap && hash in bc.view && bc.view[hash] == tbg
    && var n := bc.allNodesMap[hash];
    && n.Block == header && n.hasData && n.dataPointer == Some(tbg) && n.uTxOManagerIsUpToDate
    && bc.head == n && bc.Height == header.BlockCount
    && n.history == history + [Record(hash, tbg.TransactionBlockStructs)]
  }

  /** A block that is acceptable on top of the head becomes the head, with its data, nothing fails, and the wallet lists
      what it pays. */
  method AddMined(bc: BlockChain, w: Wallet, header: Block, tbg: Group)
    requires Alright(bc, w) && GoodHeaders(bc.seen + {header}, bc.root.Block)
    requires Comparable(header) && Verify(header) && Blocks.Hash(header) !in bc.allNodesMap
    requires tbg.Valid() && header == PrepareBlock(bc.head.Block, tbg.MerkleRoot(), header.Nonce)
    requires header.BlockCount == bc.head.Block.BlockCount + 1
    requires GroupResolved(bc.view, tbg) && Acceptable(tbg.TransactionBlockStructs, Replay(bc.head.history))
    modifies Members(bc), w`transactions
    ensures Alright(bc, w) && bc.failed == old(bc.failed) && bc.utxoChan == old(bc.utxoChan)
    ensures HeadIsMined(bc, header, tbg, old(bc.head.history))
    ensures RefsOfEntries(w.transactions) == old(RefsOfEntries(w.transactions))
                                             + Received(Blocks.Hash(header), tbg.TransactionBlockStructs, w.PublicKey)
  {
    hide GoodHeaders, Verify, Sound, Group.Valid, GroupResolved, Acceptable, Replay, Members, BlockChain.State;
    hide Updated, AllValid, Consistent, Wallet.Right, Received, Advanced, Round, RefsOfEntries, NodeMined;
    WalletIsApart(bc, w);
    ghost var a := bc.State();
    var hash := Blocks.Hash(header);
    HeadInPicture(bc);
    IsConsistent(bc);
    EnterMined(bc, header, tbg, bc.seen + {header});
    ghost var b := bc.State();
    MinedPicture(a, b, header, tbg);
    HeadInPicture(bc);
    IsConsistent(bc);
    OnTopOfHead(a, b, header, tbg);
    NextIsBuilt(b, hash);
    NoArrivals();
    StillRight(w, a.now.view, b.now.view);
    Update(bc, w, hash, []);
    ViewOf(bc);
    ListedOne(bc.view, b.nodes[hash], w.PublicKey);
    MinedIsHead(bc, b, header, tbg, a.now.histories[a.now.head]);
  }

  lemma MinedIsHead(bc: BlockChain, b: Picture, header: Block, tbg: Group, history: seq<Record>)
    requires Sound(bc) && Blocks.Hash(header) in b.nodes && b.nodes[Blocks.Hash(header)].Block == header
    requires var hash := Blocks.Hash(header);
             var n := b.nodes[hash];
             && n.Hash == hash && hash in b.now.view && b.now.view[hash] == tbg && b.now.height < header.BlockCount
             && n != b.now.head && b.now.head in b.now.histories && b.now.histories[b.now.head] == history
             && bc.State() == b.(queue := b.queue - multiset{n}, now := Advanced(b.now, b.now.head, n))
    ensures HeadIsMined(bc, header, tbg, history)
    ensures bc.failed == b.failed && bc.utxoChan == b.queue - multiset{b.nodes[Blocks.Hash(header)]}
  {
    hide Sound, BlockChain.State, Advanced;
    var hash := Blocks.Hash(header);
    MinedIsAdvanced(b, bc.State(), b.nodes[hash]);
    HeadInPicture(bc);
    DataInPicture(bc, hash);
  }

  lemma DataInPicture(bc: BlockChain, hash: Digest)
    requires Sound(bc) && hash in bc.allNodesMap && hash in bc.view
    ensures bc.allNodesMap[hash].hasData && bc.allNodesMap[hash].dataPointer == Some(bc.view[hash])
  {
    hide DanglingInv, LeadsInv, ForkInv, OrphansInv, BlockChain.Held, HashSet, GoodHeaders, Verify;
    assert PlacedAt(bc.allNodesMap, bc.root, bc.seen, hash) && DataAt(bc.allNodesMap[hash], bc.view);
  }

  lemma NoArrivals()
    ensures AllValid([])
  {
  }

  lemma MinedPicture(a: Picture, b: Picture, header: Block, tbg: Group)
    requires NodeMined(a, b, header, tbg)
    ensures var hash := Blocks.Hash(header);
            && hash in b.nodes && b.nodes[hash].Block == header && hash in b.now.view && b.now.view[hash] == tbg
            && Extends(a.now.view, b.now.view) && b.now.histories == a.now.histories && b.failed == a.failed
            && b.now.head == a.now.head
  {
  }

  lemma MinedIsAdvanced(b: Picture, c: Picture, n: BlockChainNode)
    requires b.now.head in b.now.histories && n.Hash in b.now.view && b.now.height < n.Block.BlockCount
    requires n != b.now.head
    requires c == b.(queue := b.queue - multiset{n}, now := Advanced(b.now, b.now.head, n))
    ensures c.now.head == n && c.now.height == n.Block.BlockCount && n in c.now.upToDate && n in c.now.histories
    ensures c.now.histories[n]
         == b.now.histories[b.now.head] + [Record(n.Hash, b.now.view[n.Hash].TransactionBlockStructs)]
    ensures c.now.view == b.now.view && c.nodes == b.nodes && c.failed == b.failed && c.queue == b.queue - multiset{n}
  {
  }

  /** An honest block is accepted.  Whatever is in the pool, if the miner's own requests pass both checks, the group
      formed from the pool on top of the head becomes a block, as soon as there is a nonce for it, that is verified
      without fail and is the new head.  Only a group of 256 blocks or more, or a header that does not fit or is not
      new, is not mined, and then nothing changes. */
  method MineFromPool(bc: BlockChain, w: Wallet, pool: TransactionPool, header: Block)
    returns (mined: bool, group: TransactionBlockGroup)
    requires Alright(bc, w) && GoodHeaders(bc.seen + {header}, bc.root.Block)
    requires bc.head.Block.BlockCount + 1 < 0x1_0000_0000
    requires pool.Valid() && pool !in Members(bc) && KeyPair(w.privateKey, w.PublicKey)
    requires RequestsResolved(pool.priorityRequest, bc.view) && RequestsResolved(pool.signatureVerifiedRequest, bc.view)
    requires AllOwnPass(pool.priorityRequest) && AllSpendable(pool.priorityRequest, Replay(bc.head.history))
    modifies Members(bc), pool`i, w`transactions
    ensures Alright(bc, w) && bc.failed == old(bc.failed) && bc.utxoChan == old(bc.utxoChan)
    ensures Formed(group.TransactionBlockStructs, pool.priorityRequest, pool.signatureVerifiedRequest,
                   old(Replay(bc.head.history)))
    ensures group.TransactionBlockStructs != [] && FeeFor(group.TransactionBlockStructs[0], w.PublicKey, pool.i)
    ensures mined ==> HasFee(bc, w, TransactionRef(Blocks.Hash(header), 0, 0))
    ensures mined ==> group.AsGroup().transactionBlocks != [] && Worked(header)
                      && PreparedFor(header, old(bc.head.Block), group.AsGroup().MerkleRoot())
    ensures mined <==> Mineable(group.AsGroup(), header, old(bc.head.Block), old(bc.allNodesMap.Keys))
    ensures if mined then HeadIsMined(bc, header, group.AsGroup(), old(bc.head.history))
            else bc.State() == old(bc.State())
    ensures RefsOfEntries(w.transactions) == old(RefsOfEntries(w.transactions)) + if !mined then [] else
                Received(Blocks.Hash(header), group.TransactionBlockStructs, w.PublicKey)
  {
    hide GoodHeaders, Sound, Verify, Group.Valid, GroupResolved, Replay, TransactionPool.Valid, KeyPair;
    hide AllOwnPass, AllSpendable, RequestsResolved, Formed, TransactionBlockGroup.Valid, RefsOk, GroupPasses;
    hide UTxOManager.Valid, Supply.Verified, InView, HeadIsMined, BlockChain.State, Wallet.Right, Received;
    hide RefsOfEntries, Members, FeeFor, HasFee, PreparedFor, Worked, PrepareBlock;
    PoolIsApart(bc, pool);
    HeadHistory(bc);
    ghost var members := Members(bc);
    group := pool.generateTransctionBlockGroup(bc.head.uTxOManagerPointer, w.PublicKey, w.privateKey);
    if |group.TransactionBlockStructs| >= 256 {
      return false, group;
    }
    var tbg := group.AsGroup();
    PoolGroupIsResolved(pool.priorityRequest, pool.signatureVerifiedRequest, bc.view, Replay(bc.head.history), tbg);
    assert Members(bc) == members && group !in members;
    ghost var refs := RefsOfEntries(w.transactions);
    mined := TryMine(bc, w, header, tbg);
    if mined {
      WorkedExactly(header);
      PreparedExactly(header, old(bc.head.Block), tbg.MerkleRoot());
      FeeIsPaid(bc, w, header, tbg, old(bc.head.history), pool.i);
    }
  }

  /** The wallet lists this output, it is unspent in the map of the head, and it is worth one coin, of 10^9. */
  ghost predicate HasFee(bc: BlockChain, w: Wallet, tr: TransactionRef)
    reads bc, bc.head, bc.head.uTxOManagerPointer, w
  {
    && tr in RefsOfEntries(w.transactions)
    && bc.head.uTxOManagerPointer != null
    && tr in bc.head.uTxOManagerPointer.Contents && bc.head.uTxOManagerPointer.Contents[tr]
    && tr in ChainCoins(bc.head.history) && ChainCoins(bc.head.history)[tr] == 1_000_000_000
  }

  /** The fee block at the beginning of a group that became the head. */
  lemma FeeIsPaid(bc: BlockChain, w: Wallet, header: Block, tbg: Group, history: seq<Record>, i: Uint32)
    requires Sound(bc) && HeadIsMined(bc, header, tbg, history) && tbg.Valid()
    requires FeeFor(tbg.TransactionBlockStructs[0], w.PublicKey, i)
    requires forall tr :: tr in Received(Blocks.Hash(header), tbg.TransactionBlockStructs, w.PublicKey) ==>
               tr in RefsOfEntries(w.transactions)
    ensures HasFee(bc, w, TransactionRef(Blocks.Hash(header), 0, 0))
  {
    hide Sound, Group.Valid, Replay, ChainCoins, Received, UTxOManager.Valid, RefsOfEntries;
    var blocks, hash := tbg.TransactionBlockStructs, Blocks.Hash(header);
    var tr := TransactionRef(hash, 0, 0);
    HeadHistory(bc);
    HasBlocks(tbg);
    NumberedGroup(tbg);
    ReceivedMeaning(hash, blocks, w.PublicKey);
    assert PaysAt(hash, blocks, w.PublicKey, tr);
    LastIsUnspent(bc.head.history, tr);
  }

  /** What the last block of a chain makes is unspent, and worth what it says. */
  lemma LastIsUnspent(chain: seq<Record>, tr: TransactionRef)
    requires Supply.Verified(chain) && chain != [] && CreatedAt(chain, |chain| - 1, tr)
    ensures tr in Replay(chain) && Replay(chain)[tr]
    ensures tr in ChainCoins(chain) && ChainCoins(chain)[tr] == Named(chain[|chain| - 1].blocks, tr).Amount
  {
    hide Replay, ChainCoins, VerifiedAt;
    ReplayMeaning(chain, tr);
    if Spent(chain, tr) {
      var i :| 0 <= i < |chain| && SpentAt(chain, i, tr);
      var c := SpentWasCreated(chain, i, tr);
      assert false;
    }
    ChainCoinsMeaning(chain, tr);
  }

  lemma PoolIsApart(bc: BlockChain, pool: TransactionPool)
    requires Sound(bc) && pool !in Members(bc)
    ensures pool !in bc.utxoRepr
    ensures Members(bc) == {bc} + bc.Nodes() + bc.orphanNodes + bc.utxoRepr + set c | c in bc.orphanBlockChains
  {
    hide Sound;
  }

  /** The header was prepared for a good group on top of the head, or it is not mined. */
  method TryMine(bc: BlockChain, w: Wallet, header: Block, tbg: Group) returns (mined: bool)
    requires Alright(bc, w) && GoodHeaders(bc.seen + {header}, bc.root.Block)
    requires bc.head.Block.BlockCount + 1 < 0x1_0000_0000 && tbg.Valid() && |tbg.TransactionBlockStructs| < 256
    requires GroupResolved(bc.view, tbg) && Acceptable(tbg.TransactionBlockStructs, Replay(bc.head.history))
    modifies Members(bc), w`transactions
    ensures Alright(bc, w) && bc.failed == old(bc.failed) && bc.utxoChan == old(bc.utxoChan)
    ensures mined <==> Mineable(tbg, header, old(bc.head.Block), old(bc.allNodesMap.Keys))
    ensures if mined then HeadIsMined(bc, header, tbg, old(bc.head.history)) else bc.State() == old(bc.State())
    ensures RefsOfEntries(w.transactions) == old(RefsOfEntries(w.transactions)) + if !mined then [] else
                Received(Blocks.Hash(header), tbg.TransactionBlockStructs, w.PublicKey)
  {
    hide GoodHeaders, Sound, Verify, Group.Valid, GroupResolved, Replay, Acceptable, HeadIsMined, BlockChain.State;
    hide Wallet.Right, Received, RefsOfEntries, Members;
    HasBlocks(tbg);
    if header != PrepareBlock(bc.head.Block, tbg.MerkleRoot(), header.Nonce) || !Comparable(header) || !Verify(header) {
      return false;
    }
    if Blocks.Hash(header) in bc.allNodesMap {
      return false;
    }
    AddMined(bc, w, header, tbg);
    mined := true;
  }

  /** The group is small enough, and `header` is a new header that was prepared for it on top of `head` and has a nonce
      that passes the proof of work. */
  ghost predicate Mineable(tbg: Group, header: Block, head: Block, known: set<Digest>) {
    && |tbg.TransactionBlockStructs| < 256 && tbg.transactionBlocks != []
    && header == PrepareBlock(head, tbg.MerkleRoot(), header.Nonce) && Comparable(header) && Verify(header)
    && Blocks.Hash(header) !in known
  }
}
