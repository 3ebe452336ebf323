/** What a switch to another branch does to a wallet: blocks below the fork are applied again, and what they pay is
    listed again. */
module Relisting {
  import opened Bytes
  import opened Transactions
  import opened Ledger
  import opened Verification
  import opened Blocks
  import opened ChainState
  import opened UtxoManagers
  import opened Building
  import opened Updates
  import opened Pictures
  import opened GroupBuilding
  import opened TransactionPools
  import opened Wallets
  import opened Events
  import opened WholeRuns
  import opened EarlyData

  // ---------------------------------------------------------------- when a node is shown again

  /** A round applies a node that was verified before exactly if the path starts with one: the last node on the way
      that is up to date lies below the last one that was verified. */
  lemma ShownAgainExactly(a: Picture, next: Digest, arrivals: seq<Group>)
    requires Consistent(a.nodes, a.now) && Queued(a, next) && AllValid(arrivals)
    ensures var path := PathTo(a.nodes, a.now.upToDate, a.nodes[next]);
            (exists n :: n in Round(a, next, arrivals).applied && n in a.now.histories)
            <==> path != [] && path[0] in a.now.histories
  {
    hide BuiltDown, Consistent, KeepsHistories, Recorded, CanFollow;
    var n, s := a.nodes[next], a.Holdings();
    var base, path := BaseOf(a.nodes, a.now.upToDate, n), PathTo(a.nodes, a.now.upToDate, n);
    var e := Round(a, next, arrivals);
    PathShape(a.nodes, a.now, n);
    BuildMeaning(a.nodes, s, n, arrivals);
    if path != [] {
      DataStays(a.nodes, s, n, arrivals);
      if path[0] in a.now.histories {
        FirstFollows(a, base, path, e.store.now.view);
        assert path[0] in e.applied by {
          assert e.applied == path[..|e.applied|] && |e.applied| != 0;
          assert e.applied[0] == path[0];
        }
      } else {
        forall i | 0 <= i < |path| ensures path[i] !in a.now.histories {
          NoneVerified(a, base, path, i);
        }
      }
    }
  }

  /** A verified node at the beginning of a path can follow. */
  lemma FirstFollows(a: Picture, base: BlockChainNode, path: seq<BlockChainNode>, view: View)
    requires Consistent(a.nodes, a.now) && path != [] && path[0] in a.now.histories && path[0] in a.nodes.Values
    requires base in a.now.histories && path[0] !in a.now.upToDate && Extends(a.now.view, view)
    requires HasParent(a.nodes, path[0]) && Parent(a.nodes, path[0]) == base
    ensures path[0].Hash in view && CanFollow(a.now.histories[base], view, path, 0)
  {
    hide Acceptable, Replay;
    assert StandsIn(a.nodes, a.now, path[0]) && VerifiedIn(a.nodes, a.now, path[0]);
    var h := a.now.histories[base];
    assert HistoryTo(h, view, path, 0) == h;
  }

  lemma ParentVerified(a: Picture, n: BlockChainNode)
    requires Consistent(a.nodes, a.now) && n in a.now.histories && n !in a.now.upToDate
    ensures HasParent(a.nodes, n) && Parent(a.nodes, n) in a.now.histories
  {
    hide Acceptable, Replay;
    assert VerifiedIn(a.nodes, a.now, n) && StandsIn(a.nodes, a.now, n);
  }

  /** Above a node that is not verified no node is. */
  lemma {:induction false} NoneVerified(a: Picture, base: BlockChainNode, path: seq<BlockChainNode>, i: nat)
    requires Consistent(a.nodes, a.now) && path != [] && path[0] !in a.now.histories && i < |path|
    requires forall j :: 0 <= j < |path| ==>
               && path[j] !in a.now.upToDate
               && HasParent(a.nodes, path[j]) && Parent(a.nodes, path[j]) == ([base] + path)[j]
    ensures path[i] !in a.now.histories
  {
    hide Consistent;
    if i > 0 {
      NoneVerified(a, base, path, i - 1);
      assert ([base] + path)[i] == path[i - 1];
      if path[i] in a.now.histories {
        ParentVerified(a, path[i]);
      }
    }
  }

  // ---------------------------------------------------------------- one run

  /** Two branches above `a1`: `a2`, and the longer one of `b2` and `b3`.  All commit to the same data. */
  predicate Fork(genesis: Block, a1: Block, a2: Block, b2: Block, b3: Block, m: Digest) {
    && genesis.BlockCount == 0 && a1.BlockCount == 1 && a2.BlockCount == 2 && b2.BlockCount == 2 && b3.BlockCount == 3
    && Follows(a1, genesis) && Follows(a2, a1) && Follows(b2, a1) && Follows(b3, b2)
    && Mined(a1, m) && Mined(a2, m) && Mined(b2, m) && Mined(b3, m)
    && Distinct([Hash(genesis), Hash(a1), Hash(a2), Hash(b2), Hash(b3)])
  }

  predicate Mined(b: Block, m: Digest) {
    Comparable(b) && Verify(b) && b.MerkleRoot == m
  }

  /** One transaction block without inputs that passes as a fee block, and pays `key`. */
  ghost predicate FeeOnly(g: Group, key: PublicKey) {
    && g.Valid() && |g.TransactionBlockStructs| == 1
    && var tb := g.TransactionBlockStructs[0];
    && tb.InputList == [] && Passes(tb, true) && tb.OutputList != [] && tb.OutputList[0].ReceiverPublicKey == key
  }

  /** There are such groups: a signed fee block alone. */
  lemma FeeOnlyExists(priv: Bytes, pub: PublicKey, text: Text)
    requires KeyPair(priv, pub)
    ensures var o := TransactionOutput(1 * DAVIDCOIN, Zeros(128), pub, text);
            var tb := SignBlock(TransactionBlock(0, 1, [], [o], Zeros(128), pub), priv);
            FeeOnly(Group(0, [tb], [EncodeBlock(tb)]), pub)
  {
    var o := TransactionOutput(1 * DAVIDCOIN, Zeros(128), pub, text);
    assert OutputSum([o][..0]) == 0;
    var unsigned := TransactionBlock(0, 1, [], [o], Zeros(128), pub);
    SignedBlockIsAccepted(unsigned, priv);
    OneBlockGroup(SignBlock(unsigned, priv));
  }

  lemma OneBlockGroup(tb: TransactionBlock)
    requires tb.CountsMatch() && tb.InputList == []
    ensures Group(0, [tb], [EncodeBlock(tb)]).Valid()
  {
    hide EncodeBlock, DecodeBlock;
    BlockRoundTrip(tb, _ => None);
    assert Resolved(tb, _ => None).InputList == [] == Unresolved(tb).InputList;
  }

  /** What a node is told: each branch as it comes, with its data. */
  function Switch(a1: Block, a2: Block, b2: Block, b3: Block, g: Group): seq<Event> {
    [HeaderArrives(a1), UpdaterRuns(Hash(a1), [g]), HeaderArrives(a2), UpdaterRuns(Hash(a2), [g]), HeaderArrives(b2),
     DataArrives(g), HeaderArrives(b3), UpdaterRuns(Hash(b3), [g])]
  }

  lemma FeeAccepted(g: Group, key: PublicKey, m: Utxo)
    requires FeeOnly(g, key)
    ensures Acceptable(g.TransactionBlockStructs, m) && AllValid([g])
  {
    hide Passes;
    var blocks := g.TransactionBlockStructs;
    assert blocks == [blocks[0]] && blocks[..0] == [] && GroupRefs(blocks) == [];
  }

  lemma FeeResolved(view: View, g: Group, key: PublicKey)
    requires FeeOnly(g, key)
    ensures ResolveGroup(view, g) == g && g.transactionBlocks != []
  {
    hide Passes;
    var r := ResolveGroup(view, g).TransactionBlockStructs;
    assert ResolvedInputs([], LookupIn(view)) == [];
    assert r[0] == g.TransactionBlockStructs[0] && r == g.TransactionBlockStructs;
  }

  lemma FeePays(view: View, n: BlockChainNode, g: Group, key: PublicKey)
    requires FeeOnly(g, key) && n.Hash in view && view[n.Hash] == g
    ensures RefAt(n.Hash, 0, 0) in Paid(view, n, key)
  {
    hide Passes, Group.Valid;
    NumberedGroup(g);
    ReceivedMeaning(n.Hash, g.TransactionBlockStructs, key);
  }

  /** The data comes that `h` waits for. */
  lemma WaitedForOne(s: DataState, leads: map<Digest, Digest>, known: set<Digest>, h: Digest, g: Group, key: PublicKey)
    requires FeeOnly(g, key) && h in known && h !in s.view
    requires g.transactionBlocks != [] && g.MerkleRoot() in leads && leads[g.MerkleRoot()] == h && AllValid([g])
    ensures Waited(s, leads, known, h, [g]) == (s.(view := s.view[h := g]), [])
  {
    hide Group.Valid, Group.MerkleRoot, Passes;
    FeeResolved(s.view, g, key);
    assert [g][1..] == [];
  }

  /** A round with a node right above one that is up to date, whose data comes meanwhile. */
  lemma RoundWithData(a: Picture, next: Digest, g: Group, key: PublicKey)
    requires FeeOnly(g, key) && Queued(a, next) && a.nodes[next].Hash == next && next !in a.now.view
    requires a.dangling == map[] && g.transactionBlocks != []
    requires g.MerkleRoot() in a.leads && a.leads[g.MerkleRoot()] == next
    requires var n := a.nodes[next];
             && n !in a.now.upToDate && HasParent(a.nodes, n)
             && Parent(a.nodes, n) in a.now.upToDate && Parent(a.nodes, n) in a.now.histories
    requires AllValid([g])
    ensures var n, t := a.nodes[next], a.now.(view := a.now.view[next := g]);
            && Round(a, next, [g]).applied == [n]
            && Updated(a, next, [g])
            == a.(queue := a.queue - multiset{n}, now := Advanced(t, Parent(a.nodes, n), n))
  {
    hide Acceptable, Replay, Advanced, Passes, Group.MerkleRoot, Group.Valid, Waited, Finished;
    var n, s := a.nodes[next], a.Holdings();
    var prev := Parent(a.nodes, n);
    var d := DataState(a.now.view, a.dangling);
    WaitedForOne(d, a.leads, a.nodes.Keys, next, g, key);
    FeeAccepted(g, key, Replay(a.now.histories[prev]));
    var e := BuiltDown(a.nodes, s, prev, [g]);
    assert e == Ending(Done, s, [g], []) && Found(s, n) == s;
    BuildOn(a.nodes, s, n, [g], e, d.(view := d.view[next := g]), []);
  }

  /** Nothing waits anywhere. */
  ghost predicate Settled(a: Picture) {
    && a.orphans == [] && a.dangling == map[] && a.queue == multiset{} && !a.failed
    && Consistent(a.nodes, a.now) && a.now.head in a.now.histories
  }

  /** What becomes of a block on top of the head when its header comes and then, while the updater waits, its data. */
  ghost predicate OnTop(a: Picture, c: Picture, header: Block, g: Group) {
    var h := Hash(header);
    && h in c.nodes
    && var n := c.nodes[h];
    && n.Block == header && n.Hash == h && n !in a.nodes.Values && c.nodes == a.nodes[h := n]
    && a.now.head in a.now.histories
    && c.now == Advanced(a.now.(view := a.now.view[h := g]), a.now.head, n)
  }

  lemma OneBlock(a: Picture, b: Picture, c: Picture, header: Block, g: Group, key: PublicKey)
    requires FeeOnly(g, key) && g.transactionBlocks != [] && AllValid([g]) && Mined(header, g.MerkleRoot())
    requires Settled(a) && Consistent(b.nodes, b.now) && Consistent(c.nodes, c.now)
    requires HeaderEffect(a, b, header) && c == Updated(b, Hash(header), [g])
    requires Hash(header) !in a.nodes && header.PrevHash in a.nodes && a.nodes[header.PrevHash] == a.now.head
    requires header.BlockCount == a.now.height + 1 && Hash(header) !in a.now.view
    ensures OnTop(a, c, header, g) && Settled(c) && c.now.head == c.nodes[Hash(header)]
    ensures Queued(b, Hash(header)) && Round(b, Hash(header), [g]).applied == [c.nodes[Hash(header)]]
  {
    hide HeaderEffect, Updated, Round, Verify, VerifiedIn, Group.Valid, Passes, Group.MerkleRoot;
    HeaderEnters(a, b, header);
    var n := b.nodes[Hash(header)];
    assert StandsIn(b.nodes, b.now, n);
    RoundWithData(b, Hash(header), g, key);
  }

  /** The round that switches: `n1` is built again from the root, and then `b2` and `b3`, whose data comes last. */
  lemma SwitchRound(a: Picture, r: BlockChainNode, n1: BlockChainNode, n2: BlockChainNode, n3: BlockChainNode, g: Group,
                    key: PublicKey)
    requires FeeOnly(g, key) && g.transactionBlocks != [] && AllValid([g]) && Queued(a, n3.Hash)
    requires a.nodes[n3.Hash] == n3 && a.dangling == map[]
    requires n1 !in a.now.upToDate && n2 !in a.now.upToDate && n3 !in a.now.upToDate
    requires HasParent(a.nodes, n1) && HasParent(a.nodes, n2) && HasParent(a.nodes, n3)
    requires Parent(a.nodes, n1) == r && Parent(a.nodes, n2) == n1 && Parent(a.nodes, n3) == n2
    requires r in a.now.upToDate && r in a.now.histories
    requires n1.Hash in a.now.view && a.now.view[n1.Hash] == g && n2.Hash in a.now.view && a.now.view[n2.Hash] == g
    requires n3.Hash !in a.now.view && g.MerkleRoot() in a.leads && a.leads[g.MerkleRoot()] == n3.Hash
    ensures var x := Advanced(Advanced(a.now, r, n1), n1, n2);
            && Round(a, n3.Hash, [g]).applied == [n1, n2, n3] && n2 in x.histories
            && Updated(a, n3.Hash, [g])
            == a.(queue := a.queue - multiset{n3}, now := Advanced(x.(view := x.view[n3.Hash := g]), n2, n3))
  {
    hide Acceptable, Replay, Passes, Group.MerkleRoot, Group.Valid, Waited, Finished, BuiltDown;
    var s := a.Holdings();
    FeeAccepted(g, key, Replay(a.now.histories[r]));
    BuildNext(a.nodes, s, n1, [g]);
    var e1 := BuiltDown(a.nodes, s, n1, [g]);
    var d := DataState(a.now.view, a.dangling);
    WaitedExtends(d, a.leads, a.nodes.Keys, n2.Hash, [g]);
    FeeAccepted(g, key, Replay(e1.store.now.histories[n1]));
    BuildOn(a.nodes, s, n2, [g], e1, d, [g]);
    var e2 := BuiltDown(a.nodes, s, n2, [g]);
    WaitedForOne(d, a.leads, a.nodes.Keys, n3.Hash, g, key);
    FeeAccepted(g, key, Replay(e2.store.now.histories[n2]));
    BuildOn(a.nodes, s, n3, [g], e2, d.(view := d.view[n3.Hash := g]), []);
  }

  /** The first branch was built to `a2`. */
  ghost predicate FirstBranch(a: Picture, genesis: Block, a1: Block, a2: Block, g: Group) {
    var h0, h1, h2 := Hash(genesis), Hash(a1), Hash(a2);
    && Settled(a) && a.nodes.Keys == {h0, h1, h2} && a.now.view == map[h1 := g, h2 := g] && a.now.height == 2
    && a.nodes[h1].Hash == h1 && a.nodes[h1].Block == a1 && a.nodes[h1] !in a.now.upToDate
    && a.nodes[h0] in a.now.upToDate && a.nodes[h0] in a.now.histories
    && a.nodes[h0].Block == genesis
  }

  lemma BuildFirst(p0: Picture, p2: Picture, p4: Picture, genesis: Block, a1: Block, a2: Block, g: Group)
    requires Hash(genesis) in p0.nodes && p0.nodes[Hash(genesis)].Hash == Hash(genesis)
    requires p0.nodes[Hash(genesis)].Block == genesis && p0 == FirstPicture(p0.nodes[Hash(genesis)])
    requires a1.BlockCount == 1 && a2.BlockCount == 2
    requires OnTop(p0, p2, a1, g) && OnTop(p2, p4, a2, g) && Settled(p4)
    requires Hash(a1) != Hash(genesis) && Hash(a2) != Hash(genesis) && Hash(a1) != Hash(a2)
    ensures FirstBranch(p4, genesis, a1, a2, g)
  {
    hide Settled, RecordOf;
    var r, n1, n2 := p0.nodes[Hash(genesis)], p2.nodes[Hash(a1)], p4.nodes[Hash(a2)];
    assert p0.now.upToDate == {r} && p2.now.upToDate == {r, n1} && p4.now.upToDate == {r, n2};
    assert p2.nodes[Hash(a1)] in p2.nodes.Values;
  }

  /** The headers of the other branch came, and the data of `b2`. */
  lemma ForkComes(p4: Picture, p5: Picture, p6: Picture, p7: Picture, genesis: Block, a1: Block, a2: Block, b2: Block,
                  b3: Block, g: Group, key: PublicKey)
    requires FeeOnly(g, key) && g.transactionBlocks != [] && Fork(genesis, a1, a2, b2, b3, g.MerkleRoot())
    requires FirstBranch(p4, genesis, a1, a2, g)
    requires HeaderEffect(p4, p5, b2) && DataEffect(p5, p6, g) && HeaderEffect(p6, p7, b3)
    requires Consistent(p5.nodes, p5.now) && Consistent(p6.nodes, p6.now) && Consistent(p7.nodes, p7.now)
    ensures var h0, h1, hb, hc := Hash(genesis), Hash(a1), Hash(b2), Hash(b3);
            && hb in p7.nodes && hc in p7.nodes && h0 in p7.nodes && h1 in p7.nodes
            && var r, n1, n2, n3 := p7.nodes[h0], p7.nodes[h1], p7.nodes[hb], p7.nodes[hc];
            && n1.Hash == h1 && n2.Hash == hb && n3.Hash == hc && n2.Block == b2 && n3.Block == b3 && n1.Block == a1
            && r.Block == genesis && r in p7.now.upToDate && r in p7.now.histories
            && r == p4.nodes[h0] && n1 == p4.nodes[h1] && n1 !in p7.now.upToDate
            && n2 !in p7.now.upToDate && n3 !in p7.now.upToDate
            && p7.now == p4.now.(view := p4.now.view[hb := g]) && p7.queue == multiset{n3}
            && p7.dangling == map[] && !p7.failed && g.MerkleRoot() in p7.leads && p7.leads[g.MerkleRoot()] == hc
  {
    hide HeaderEffect, Verify, StandsIn, VerifiedIn, Group.Valid, Passes, Group.MerkleRoot, Acceptable, Replay;
    AllDistinct(Hash(genesis), Hash(a1), Hash(a2), Hash(b2), Hash(b3));
    HeaderEnters(p4, p5, b2);
    FeeResolved(p5.now.view, g, key);
    HeaderEnters(p6, p7, b3);
    assert p4.now.histories.Keys <= p4.nodes.Values;
  }

  lemma AllDistinct(a: Digest, b: Digest, c: Digest, d: Digest, e: Digest)
    requires Distinct([a, b, c, d, e])
    ensures a != b && a != c && a != d && a != e && b != c && b != d && b != e && c != d && c != e && d != e
  {
    var s := [a, b, c, d, e];
    assert s[0] != s[1] && s[0] != s[2] && s[0] != s[3] && s[0] != s[4] && s[1] != s[2] && s[1] != s[3] && s[1] != s[4];
    assert s[2] != s[3] && s[2] != s[4] && s[3] != s[4];
  }

  /** The first output of such a group stays unspent under two more of them. */
  lemma FeeStays(g: Group, key: PublicKey, h: Digest, i: Digest, j: Digest)
    requires FeeOnly(g, key)
    ensures var blocks := g.TransactionBlockStructs;
            Spendable(Replay([] + [Record(h, blocks)] + [Record(i, blocks)] + [Record(j, blocks)]), RefAt(h, 0, 0))
  {
    hide Passes, Group.Valid;
    var blocks, tr := g.TransactionBlockStructs, RefAt(h, 0, 0);
    NumberedGroup(g);
    assert GroupRefs(blocks) == [] by {
      assert blocks == [blocks[0]] && blocks[..0] == [];
    }
    var one: seq<Record> := [] + [Record(h, blocks)];
    ReplayExtend([], Record(h, blocks));
    ApplyMeaning(map[], h, blocks, tr);
    ReplayExtend(one, Record(i, blocks));
    ApplyKeepsOthers(Replay(one), i, blocks, tr);
    ReplayExtend(one + [Record(i, blocks)], Record(j, blocks));
    ApplyKeepsOthers(Replay(one + [Record(i, blocks)]), j, blocks, tr);
  }

  lemma TwiceInside(a: seq<TransactionRef>, b: seq<TransactionRef>, tr: TransactionRef)
    requires tr in a && tr in b
    ensures exists i, j :: 0 <= i < j < |a + b| && (a + b)[i] == tr == (a + b)[j]
  {
    var i :| 0 <= i < |a| && a[i] == tr;
    var j :| 0 <= j < |b| && b[j] == tr;
    assert (a + b)[i] == tr && (a + b)[|a| + j] == tr;
  }

  /** What the run shows to the wallet after the fork. */
  lemma PaysAgain(view: View, n1: BlockChainNode, n2: BlockChainNode, n3: BlockChainNode, g: Group, key: PublicKey)
    requires FeeOnly(g, key) && n1.Hash in view && view[n1.Hash] == g
    ensures RefAt(n1.Hash, 0, 0) in Listed(view, [n1], key)
    ensures RefAt(n1.Hash, 0, 0) in Listed(view, [n1, n2, n3], key)
  {
    hide Paid, FeeOnly;
    FeePays(view, n1, g, key);
    ListedMeaning(view, [n1], key, RefAt(n1.Hash, 0, 0));
    ListedMeaning(view, [n1, n2, n3], key, RefAt(n1.Hash, 0, 0));
  }

  /** What an event of a run does that is not a round of the updater. */
  lemma PlainEvent(events: seq<Event>, key: PublicKey, trace: seq<World>, i: nat)
    requires Traces(events, key, trace) && i < |events| && !events[i].UpdaterRuns?
    ensures EventOk(events[i]) && ChainEffect(events[i], trace[i].chain, trace[i + 1].chain)
    ensures Consistent(trace[i].chain.nodes, trace[i].chain.now)
    ensures Consistent(trace[i + 1].chain.nodes, trace[i + 1].chain.now)
    ensures trace[i + 1].refs == trace[i].refs
  {
    hide EventOk, ChainEffect, Consistent, Onward, Traces;
    Lengths(events, key, trace);
    OneEvent(events, key, trace, i);
    ListedNothing(trace[i + 1].chain.now.view, key);
  }

  lemma RoundEvent(events: seq<Event>, key: PublicKey, trace: seq<World>, i: nat)
    requires Traces(events, key, trace) && i < |events| && events[i].UpdaterRuns?
    ensures AllValid(events[i].arrivals)
    ensures trace[i + 1].chain == Updated(trace[i].chain, events[i].next, events[i].arrivals)
    ensures Consistent(trace[i].chain.nodes, trace[i].chain.now)
    ensures Consistent(trace[i + 1].chain.nodes, trace[i + 1].chain.now)
    ensures Queued(trace[i].chain, events[i].next) ==>
              trace[i + 1].refs == trace[i].refs + Listed(trace[i + 1].chain.now.view,
                  Round(trace[i].chain, events[i].next, events[i].arrivals).applied, key)
  {
    hide Updated, Consistent, Onward, Traces, Listed, Round, Queued;
    OneEvent(events, key, trace, i);
  }

  /** The first branch. */
  lemma FirstEvents(genesis: Block, a1: Block, a2: Block, b2: Block, b3: Block, g: Group, key: PublicKey,
                    trace: seq<World>)
    requires FeeOnly(g, key) && g.transactionBlocks != [] && Fork(genesis, a1, a2, b2, b3, g.MerkleRoot())
    requires Traces(Switch(a1, a2, b2, b3, g), key, trace) && Beginning(genesis, trace[0])
    ensures FirstBranch(trace[4].chain, genesis, a1, a2, g)
    ensures trace[4].chain.now.histories[trace[4].chain.nodes[Hash(genesis)]] == []
    ensures RefAt(Hash(a1), 0, 0) in trace[4].refs
  {
    hide FeeOnly, Updated, Round, HeaderEffect, Consistent, Listed, Traces, Mined, Hash, FirstBranch;
    var events := Switch(a1, a2, b2, b3, g);
    Lengths(events, key, trace);
    AllDistinct(Hash(genesis), Hash(a1), Hash(a2), Hash(b2), Hash(b3));
    PlainEvent(events, key, trace, 0);
    RoundEvent(events, key, trace, 1);
    PlainEvent(events, key, trace, 2);
    RoundEvent(events, key, trace, 3);
    OneBlock(trace[0].chain, trace[1].chain, trace[2].chain, a1, g, key);
    OneBlock(trace[2].chain, trace[3].chain, trace[4].chain, a2, g, key);
    BuildFirst(trace[0].chain, trace[2].chain, trace[4].chain, genesis, a1, a2, g);
    var n1 := trace[2].chain.nodes[Hash(a1)];
    PaysAgain(trace[2].chain.now.view, n1, n1, n1, g, key);
  }

  /** The last round of the run. */
  lemma SwitchEnds(p4: Picture, p7: Picture, p8: Picture, r: BlockChainNode, n1: BlockChainNode, n2: BlockChainNode,
                   n3: BlockChainNode, genesis: Block, a1: Block, a2: Block, b2: Block, b3: Block, g: Group,
                   key: PublicKey)
    requires FeeOnly(g, key) && g.transactionBlocks != [] && Fork(genesis, a1, a2, b2, b3, g.MerkleRoot())
    requires AllValid([g]) && FirstBranch(p4, genesis, a1, a2, g) && Consistent(p7.nodes, p7.now)
    requires Hash(genesis) in p7.nodes && p7.nodes[Hash(genesis)] == r && Hash(a1) in p7.nodes
    requires p7.nodes[Hash(a1)] == n1 && Hash(b2) in p7.nodes && p7.nodes[Hash(b2)] == n2
    requires Hash(b3) in p7.nodes && p7.nodes[Hash(b3)] == n3
    requires n1.Hash == Hash(a1) && n2.Hash == Hash(b2) && n3.Hash == Hash(b3)
    requires r.Block == genesis && n1.Block == a1 && n2.Block == b2 && n3.Block == b3
    requires r in p7.now.upToDate && r in p7.now.histories && p7.now.histories[r] == []
    requires n1 !in p7.now.upToDate && n2 !in p7.now.upToDate && n3 !in p7.now.upToDate
    requires p7.now == p4.now.(view := p4.now.view[Hash(b2) := g]) && p7.queue == multiset{n3}
    requires p7.dangling == map[] && !p7.failed && g.MerkleRoot() in p7.leads && p7.leads[g.MerkleRoot()] == Hash(b3)
    requires p8 == Updated(p7, Hash(b3), [g])
    ensures Queued(p7, Hash(b3)) && Round(p7, Hash(b3), [g]).applied == [n1, n2, n3]
    ensures p8.now.head == n3 && p8.queue == multiset{} && !p8.failed && n3 in p8.now.histories
    ensures Spendable(Replay(p8.now.histories[n3]), RefAt(n1.Hash, 0, 0))
    ensures n1.Hash in p8.now.view && p8.now.view[n1.Hash] == g
  {
    hide FeeOnly, Updated, Round, Consistent, Mined, Hash, Group.Valid, Replay;
    AllDistinct(Hash(genesis), Hash(a1), Hash(a2), Hash(b2), Hash(b3));
    SwitchRound(p7, r, n1, n2, n3, g, key);
    FeeStays(g, key, n1.Hash, n2.Hash, n3.Hash);
  }

  /** A switch to another branch lists an output twice.  In this run all blocks are accepted, and the node ends on the
      longer branch with nothing left to do.  The wallet, which `a1` pays below the fork, then lists that output two
      times, and it is unspent. */
  lemma SwitchListsTwice(genesis: Block, a1: Block, a2: Block, b2: Block, b3: Block, g: Group, key: PublicKey,
                         trace: seq<World>)
    requires FeeOnly(g, key) && g.transactionBlocks != [] && Fork(genesis, a1, a2, b2, b3, g.MerkleRoot())
    requires Traces(Switch(a1, a2, b2, b3, g), key, trace) && Beginning(genesis, trace[0])
    ensures var last, tr := trace[8], RefAt(Hash(a1), 0, 0);
            && last.chain.now.head.Block == b3 && last.chain.queue == multiset{} && !last.chain.failed
            && last.chain.now.head in last.chain.now.histories
            && Spendable(Replay(last.chain.now.histories[last.chain.now.head]), tr)
            && exists i, j :: 0 <= i < j < |last.refs| && last.refs[i] == tr == last.refs[j]
  {
    hide FeeOnly, Updated, Round, HeaderEffect, DataEffect, Consistent, Listed, Traces, Mined, Hash, FirstBranch;
    hide Advanced, Group.Valid;
    var events := Switch(a1, a2, b2, b3, g);
    Lengths(events, key, trace);
    FirstEvents(genesis, a1, a2, b2, b3, g, key, trace);
    PlainEvent(events, key, trace, 4);
    PlainEvent(events, key, trace, 5);
    PlainEvent(events, key, trace, 6);
    RoundEvent(events, key, trace, 7);
    var p4, p7, p8 := trace[4].chain, trace[7].chain, trace[8].chain;
    ForkComes(p4, trace[5].chain, trace[6].chain, p7, genesis, a1, a2, b2, b3, g, key);
    var r, n1, n2, n3 := p7.nodes[Hash(genesis)], p7.nodes[Hash(a1)], p7.nodes[Hash(b2)], p7.nodes[Hash(b3)];
    SwitchEnds(p4, p7, p8, r, n1, n2, n3, genesis, a1, a2, b2, b3, g, key);
    PaysAgain(p8.now.view, n1, n2, n3, g, key);
    TwiceInside(trace[7].refs, Listed(p8.now.view, [n1, n2, n3], key), RefAt(Hash(a1), 0, 0));
  }
}
