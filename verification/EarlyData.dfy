/** What becomes of data: where it goes when it arrives, and that data which comes before its header is used. */
module EarlyData {
  import opened Bytes
  import opened Transactions
  import opened Ledger
  import opened Verification
  import opened Blocks
  import opened ChainState
  import opened UtxoManagers
  import opened TreeInvariants
  import opened Building
  import opened Updates
  import opened Pictures
  import opened Events

  // ---------------------------------------------------------------- what a group carries

  /** `r` is `g`, except that each input carries the output that its reference names in the data held, or none. */
  ghost predicate Carries(view: View, g: Group, r: Group) {
    && r.Height == g.Height && r.transactionBlocks == g.transactionBlocks
    && |r.TransactionBlockStructs| == |g.TransactionBlockStructs|
    && forall k :: 0 <= k < |r.TransactionBlockStructs| ==>
         CarriesBlock(view, g.TransactionBlockStructs[k], r.TransactionBlockStructs[k])
  }

  ghost predicate CarriesBlock(view: View, tb: TransactionBlock, r: TransactionBlock) {
    && r == tb.(InputList := r.InputList) && |r.InputList| == |tb.InputList|
    && forall a :: 0 <= a < |r.InputList| ==> CarriesInput(view, tb.InputList[a], r.InputList[a])
  }

  ghost predicate CarriesInput(view: View, ti: TransactionInput, r: TransactionInput) {
    var h, k, j := ti.reference.BlockHash, ti.reference.TransactionBlockNumber as nat, ti.reference.OutputNumber as nat;
    && r.VerificationChallenge == ti.VerificationChallenge && r.reference == ti.reference
    && if h in view && k < |view[h].TransactionBlockStructs| && j < |view[h].TransactionBlockStructs[k].OutputList|
       then r.OutputBlock == Some(view[h].TransactionBlockStructs[k].OutputList[j])
       else r.OutputBlock == None
  }

  /** On arrival every input is given the output it names, if it is there; nothing else of a group changes. */
  lemma ResolvedExactly(view: View, g: Group, r: Group)
    ensures Carries(view, g, r) <==> r == ResolveGroup(view, g)
  {
    var e := ResolveGroup(view, g);
    forall k | 0 <= k < |e.TransactionBlockStructs|
      ensures CarriesBlock(view, g.TransactionBlockStructs[k], e.TransactionBlockStructs[k])
    {
    }
    if Carries(view, g, r) {
      forall k | 0 <= k < |r.TransactionBlockStructs|
        ensures r.TransactionBlockStructs[k] == e.TransactionBlockStructs[k]
      {
        SameCarried(view, g.TransactionBlockStructs[k], r.TransactionBlockStructs[k], e.TransactionBlockStructs[k]);
      }
      assert r.TransactionBlockStructs == e.TransactionBlockStructs;
    }
  }

  lemma SameCarried(view: View, tb: TransactionBlock, r: TransactionBlock, e: TransactionBlock)
    requires CarriesBlock(view, tb, r) && CarriesBlock(view, tb, e)
    ensures r == e
  {
    forall a | 0 <= a < |r.InputList| ensures r.InputList[a] == e.InputList[a] {
      assert CarriesInput(view, tb.InputList[a], r.InputList[a]) && CarriesInput(view, tb.InputList[a], e.InputList[a]);
    }
    assert r.InputList == e.InputList;
  }

  // ---------------------------------------------------------------- where data goes

  /** What arriving data does, in each case.  `r` is the group as it is resolved on arrival, and `m` its Merkle root. */
  lemma DataGoesExactly(a: Picture, b: Picture, g: Group, r: Group)
    requires g.transactionBlocks != [] && Carries(a.now.view, g, r) && DataEffect(a, b, g)
    ensures var m := g.MerkleRoot();
            && (m !in a.leads && m !in a.dangling ==> b == a.(dangling := a.dangling[m := r]))
            && (m !in a.leads && m in a.dangling ==> b == a)
            && (m in a.leads && a.leads[m] in a.nodes && a.leads[m] !in a.now.view ==>
                  b == a.(now := a.now.(view := a.now.view[a.leads[m] := r])))
            && (m in a.leads && (a.leads[m] !in a.nodes || a.leads[m] in a.now.view) ==> b == a)
  {
    hide Group.MerkleRoot, Carries;
    ResolvedExactly(a.now.view, g, r);
    SameRoot(a.now.view, g);
  }

  lemma SameRoot(view: View, g: Group)
    requires g.transactionBlocks != []
    ensures ResolveGroup(view, g).transactionBlocks != [] && ResolveGroup(view, g).MerkleRoot() == g.MerkleRoot()
  {
  }

  // ---------------------------------------------------------------- where mined blocks go

  /** What a mined block does: it enters exactly if the work is done, it is new, its parent is in the main chain, and it
      commits to its data.  Then it has a node of its own, with its data as resolved now, and waits for the updater,
      whatever its height; what waits under its Merkle root stays, and orphan chains that wait for it do not join. */
  lemma MinedGoesExactly(a: Picture, b: Picture, header: Block, g: Group, r: Group)
    requires g.transactionBlocks != [] && Carries(a.now.view, g, r) && MinedEffect(a, b, header, g)
    ensures var h := Sum256(EncodeHeader(header));
            if Worked(header) && h !in a.nodes && header.PrevHash in a.nodes && header.MerkleRoot == g.MerkleRoot() then
              && h in b.nodes && b.nodes[h].Block == header && b.nodes[h] !in a.nodes.Values
              && b.nodes == a.nodes[h := b.nodes[h]] && b.queue == a.queue + multiset{b.nodes[h]}
              && b.now == a.now.(view := a.now.view[h := r]) && b.seen == a.seen + {header}
              && b.leads == a.leads[header.MerkleRoot := h]
              && b.orphans == a.orphans && b.dangling == a.dangling && b.failed == a.failed
            else b == a
  {
    hide Group.MerkleRoot, Carries, Verify;
    ResolvedExactly(a.now.view, g, r);
    WorkedExactly(header);
  }

  // ---------------------------------------------------------------- data before its header

  /** A header with a parent in the main chain, for which no orphan chain waits. */
  lemma HeaderEnters(a: Picture, b: Picture, header: Block)
    requires HeaderEffect(a, b, header) && Consistent(a.nodes, a.now) && Consistent(b.nodes, b.now)
    requires forall c :: c in a.orphans ==> c.root.PrevHash != Hash(header)
    requires Comparable(header) && Verify(header) && Hash(header) !in a.nodes && header.PrevHash in a.nodes
    ensures var h := Hash(header);
            && h in b.nodes
            && var n := b.nodes[h];
            && n.Block == header && n.Hash == h && n !in a.nodes.Values
            && b == a.(nodes := a.nodes[h := n], seen := a.seen + {header}, leads := a.leads[header.MerkleRoot := h],
                       queue := Offered(a.queue, a.now.head, n))
            && b.queue == if header.BlockCount > a.now.head.Block.BlockCount then a.queue + multiset{n} else a.queue
  {
    hide Verify, VerifiedIn;
    var h := Hash(header);
    var n := b.nodes[h];
    assert b.nodes.Keys == a.nodes.Keys + {h};
    assert b.nodes == a.nodes[h := n];
    assert n in b.nodes.Values && StandsIn(b.nodes, b.now, n);
    forall k | k in a.nodes ensures a.nodes[k] != n {
      assert a.nodes[k] in a.nodes.Values && StandsIn(a.nodes, a.now, a.nodes[k]);
    }
    OneMoreValue(a.nodes, h, n);
    assert b.nodes.Values - a.nodes.Values == {n};
  }

  /** Data that comes before its header is used.  A group arrives, under whose Merkle root nothing is known and nothing
      waits; then a header with this root on top of the head; then the updater runs once, and nothing else arrives.  If
      both checks accept the group, as it was resolved on arrival, after the chain of the head, the new node has that
      data, is up to date and is the head, and nothing failed. */
  lemma DataBeforeHeader(p0: Picture, p1: Picture, p2: Picture, p3: Picture, g: Group, r: Group, header: Block)
    requires Consistent(p0.nodes, p0.now) && Consistent(p1.nodes, p1.now) && Consistent(p2.nodes, p2.now)
    requires g.Valid() && g.transactionBlocks != [] && Carries(p0.now.view, g, r)
    requires ChainEffect(DataArrives(g), p0, p1) && ChainEffect(HeaderArrives(header), p1, p2)
    requires AllValid([]) && ChainEffect(UpdaterRuns(Hash(header), []), p2, p3)
    requires g.MerkleRoot() !in p0.leads && g.MerkleRoot() !in p0.dangling && header.MerkleRoot == g.MerkleRoot()
    requires Worked(header) && Hash(header) !in p0.nodes && Hash(header) !in p0.now.view
    requires header.PrevHash in p0.nodes && p0.nodes[header.PrevHash] == p0.now.head
    requires header.BlockCount == p0.now.height + 1 && p0.now.head in p0.now.histories
    requires forall c :: c in p0.orphans ==> c.root.PrevHash != Hash(header)
    requires GroupPasses(r.TransactionBlockStructs)
    requires RefsOk(Replay(p0.now.histories[p0.now.head]), GroupRefs(r.TransactionBlockStructs))
    ensures Hash(header) in p3.nodes
    ensures var n := p3.nodes[Hash(header)];
            && n.Block == header && n in p3.now.upToDate && p3.now.head == n && p3.now.height == header.BlockCount
            && Hash(header) in p3.now.view && p3.now.view[Hash(header)] == r && p3.failed == p0.failed
            && n in p3.now.histories
            && p3.now.histories[n]
            == p0.now.histories[p0.now.head] + [Record(Hash(header), r.TransactionBlockStructs)]
  {
    hide HeaderEffect, DataEffect, Verify, Group.MerkleRoot, Group.Valid, Carries, GroupPasses, RefsOk, Replay;
    hide GroupRefs, VerifiedIn;
    var h := Hash(header);
    DataGoesExactly(p0, p1, g, r);
    WorkedExactly(header);
    HeaderEnters(p1, p2, header);
    var n := p2.nodes[h];
    assert StandsIn(p2.nodes, p2.now, n);
    WaitingIsUsed(p2, n, r);
  }

  /** A round with a queued node on top of the head, whose data waits. */
  lemma WaitingIsUsed(a: Picture, n: BlockChainNode, r: Group)
    requires AllValid([]) && Queued(a, n.Hash) && a.nodes[n.Hash] == n && HasParent(a.nodes, n)
    requires Parent(a.nodes, n) == a.now.head && a.now.head in a.now.upToDate && a.now.head in a.now.histories
    requires n !in a.now.upToDate && n.Hash !in a.now.view && n != a.now.head && n.Block.BlockCount > a.now.height
    requires n.Block.MerkleRoot in a.dangling && a.dangling[n.Block.MerkleRoot] == r
    requires GroupPasses(r.TransactionBlockStructs)
    requires RefsOk(Replay(a.now.histories[a.now.head]), GroupRefs(r.TransactionBlockStructs))
    ensures var b := Updated(a, n.Hash, []);
            && n in b.now.upToDate && b.now.head == n && b.now.height == n.Block.BlockCount && b.failed == a.failed
            && b.nodes == a.nodes && n.Hash in b.now.view && b.now.view[n.Hash] == r && n in b.now.histories
            && b.now.histories[n]
            == a.now.histories[a.now.head] + [Record(n.Hash, r.TransactionBlockStructs)]
  {
    hide GroupPasses, RefsOk, Replay, GroupRefs, BuiltDown;
    var s := a.Holdings();
    var t := Found(s, n);
    BuildAfterFound(a.nodes, s, n);
  }

  lemma BuildAfterFound(nodes: NodeMap, s: Store, n: BlockChainNode)
    requires AllValid([]) && n !in s.now.upToDate && HasParent(nodes, n) && n.Hash in Found(s, n).now.view
    requires Parent(nodes, n) in s.now.upToDate && Parent(nodes, n) in s.now.histories
    requires var t := Found(s, n);
             Acceptable(RecordOf(n, t.now.view).blocks, Replay(s.now.histories[Parent(nodes, n)]))
    ensures var t := Found(s, n);
            BuiltDown(nodes, s, n, []) == Ending(Done, t.(now := Advanced(t.now, Parent(nodes, n), n)), [], [n])
  {
    hide Acceptable, Replay, Advanced, Finished, Waited;
    var t := Found(s, n);
    var e, d := BuiltDown(nodes, t, Parent(nodes, n), []), DataState(t.now.view, t.dangling);
    assert e == Ending(Done, t, [], []);
    WaitedExtends(d, t.leads, nodes.Keys, n.Hash, []);
    BuildOn(nodes, s, n, [], e, d, []);
  }
}
