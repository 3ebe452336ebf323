/** Whether every header finds its way into the main chain. */
module Arrivals {
  import opened Bytes
  import opened Blocks
  import opened ChainState
  import opened TreeInvariants
  import opened Orphans
  import opened HeaderTrees
  import opened BlockChains
  import opened Runs

  // ---------------------------------------------------------------- when the main chain is complete

  /** Every accepted header whose parent is in the main chain is in it, too. */
  ghost predicate Complete(bc: BlockChain)
    reads bc
  {
    forall b :: b in bc.seen && b.PrevHash in bc.allNodesMap ==> Blocks.Hash(b) in bc.allNodesMap
  }

  /** Nothing is left behind: an orphan chain whose parent is in the main chain has nothing that the main chain has
      not. */
  predicate NoneLeftBehind(t: HeaderTree) {
    forall c :: c in t.chains && c.root.PrevHash in t.keys ==> c.keys <= t.keys
  }

  /** The main chain is complete exactly if no orphan chain was left behind: the parent of its root came, but it did not
      join, and its headers were not sent again. */
  lemma CompleteExactly(bc: BlockChain)
    requires Sound(bc)
    ensures Complete(bc) <==> NoneLeftBehind(bc.Tree())
  {
    hide BlockChain.CoreInv, BlockChain.OrphanInv, ChainOk, HashSet, HeldBy;
    TreeAndChains(bc);
    ChainsAsValues(bc);
    if Complete(bc) {
      forall c | c in bc.orphanBlockChains && c.root.Block.PrevHash in bc.allNodesMap
        ensures c.allNodesMap.Keys <= bc.allNodesMap.Keys
      {
        forall h | h in c.allNodesMap ensures h in bc.allNodesMap {
          AllJoin(bc, c, h);
        }
      }
    }
    if NoneLeftBehind(bc.Tree()) {
      forall b | b in bc.seen && b.PrevHash in bc.allNodesMap ensures Blocks.Hash(b) in bc.allNodesMap {
        SeenIsSomewhere(bc, b);
        if Blocks.Hash(b) !in bc.allNodesMap {
          var c :| c in bc.orphanBlockChains && Blocks.Hash(b) in c.allNodesMap;
          ParentCame(bc, c, Blocks.Hash(b), b);
        }
      }
    }
  }

  lemma ChainsAsValues(bc: BlockChain)
    ensures NoneLeftBehind(bc.Tree()) <==>
            forall c :: c in bc.orphanBlockChains && c.root.Block.PrevHash in bc.allNodesMap ==>
              c.allNodesMap.Keys <= bc.allNodesMap.Keys
  {
    var shape := bc.Orphans();
    forall c | c in bc.orphanBlockChains ensures OrphanChain(c.root.Block, c.allNodesMap.Keys) in shape {
      var i :| 0 <= i < |bc.orphanBlockChains| && bc.orphanBlockChains[i] == c;
      assert shape[i] == OrphanChain(c.root.Block, c.allNodesMap.Keys);
    }
    forall o | o in shape
      ensures exists c :: c in bc.orphanBlockChains && o == OrphanChain(c.root.Block, c.allNodesMap.Keys)
    {
      var i :| 0 <= i < |shape| && shape[i] == o;
      assert bc.orphanBlockChains[i] in bc.orphanBlockChains;
    }
  }

  // ---------------------------------------------------------------- when it stays complete

  /** The hashes that enter the main chain with a header: its own, and those of the first chain that waits for it. */
  function Entering(t: HeaderTree, b: Block): set<Digest> {
    if !Comparable(b) || !Verify(b) || Hash(b) in t.keys || b.PrevHash !in t.keys then {}
    else
      var i := FirstChild(t.chains, Hash(b));
      {Hash(b)} + if i < |t.chains| then t.chains[i].keys else {}
  }

  /** Chain `j` waits for a hash that enters, but does not join, and has headers that the main chain lacks. */
  predicate Overlooked(t: HeaderTree, b: Block, j: nat)
    requires j < |t.chains|
  {
    && j != FirstChild(t.chains, Hash(b)) && t.chains[j].root.PrevHash in Entering(t, b)
    && !(t.chains[j].keys <= t.keys + Entering(t, b))
  }

  /** Any header that arrives: nothing is left behind afterwards exactly if no chain is overlooked. */
  lemma StaysCompleteExactly(t: HeaderTree, b: Block)
    requires NoneLeftBehind(t)
    ensures NoneLeftBehind(Arrived(t, b)) <==> forall j :: 0 <= j < |t.chains| ==> !Overlooked(t, b, j)
  {
    hide Verify;
    if Comparable(b) && Verify(b) && Hash(b) !in t.keys {
      if b.PrevHash in t.keys {
        EntersExactly(t, b);
      } else {
        ParkedIsNotLeft(t, b);
      }
    }
  }

  /** A mined block enters alone: no chain that waits for it joins with it. */
  lemma MinedStaysComplete(t: HeaderTree, h: Digest)
    requires NoneLeftBehind(t)
    ensures NoneLeftBehind(t.(keys := t.keys + {h})) <==>
            forall c :: c in t.chains && c.root.PrevHash == h ==> c.keys <= t.keys + {h}
  {
    var t' := t.(keys := t.keys + {h});
    if forall c :: c in t.chains && c.root.PrevHash == h ==> c.keys <= t.keys + {h} {
      assert forall c :: c in t'.chains && c.root.PrevHash in t'.keys ==> c.keys <= t'.keys;
    }
  }

  lemma EntersExactly(t: HeaderTree, b: Block)
    requires NoneLeftBehind(t) && Comparable(b) && Verify(b) && Hash(b) !in t.keys && b.PrevHash in t.keys
    ensures NoneLeftBehind(Grown(t, b)) <==> forall j :: 0 <= j < |t.chains| ==> !Overlooked(t, b, j)
  {
    hide Verify;
    var i, t' := FirstChild(t.chains, Hash(b)), Grown(t, b);
    assert t'.keys == t.keys + Entering(t, b);
    if NoneLeftBehind(t') {
      forall j | 0 <= j < |t.chains| ensures !Overlooked(t, b, j) {
        if j != i && i < |t.chains| {
          assert t.chains[j] == Without(t.chains, i)[if j == |t.chains| - 1 then i else j];
        }
        assert j != i ==> t.chains[j] in t'.chains;
      }
    }
    if forall j :: 0 <= j < |t.chains| ==> !Overlooked(t, b, j) {
      forall c | c in t'.chains && c.root.PrevHash in t'.keys ensures c.keys <= t'.keys {
        var k :| 0 <= k < |t'.chains| && t'.chains[k] == c;
        var j := if k == i then |t.chains| - 1 else k;
        assert t.chains[j] == c && j != i && t.chains[j] in t.chains;
        assert !Overlooked(t, b, j);
      }
    }
  }

  lemma ParkedIsNotLeft(t: HeaderTree, b: Block)
    requires NoneLeftBehind(t) && Hash(b) !in t.keys && b.PrevHash !in t.keys
    ensures NoneLeftBehind(HeaderTree(t.keys, Parked(t.chains, b)))
  {
    var chains := Parked(t.chains, b);
    forall c | c in chains && c.root.PrevHash in t.keys ensures c.keys <= t.keys {
      var k :| 0 <= k < |chains| && chains[k] == c;
      assert k < |t.chains| ==> t.chains[k] in t.chains;
    }
  }

  lemma TreeAndChains(bc: BlockChain)
    requires Sound(bc)
    ensures TreeInv(bc.allNodesMap, bc.root, bc.seen)
    ensures forall c :: c in bc.orphanBlockChains ==> ChainOk(c, bc.seen, bc.root.Block)
  {
    hide TreeInv, ViewInv, BuiltInv, ManagerInv, DanglingInv, LeadsInv, ForkInv, ChainOk, HashSet, HeldBy;
  }

  lemma SeenIsSomewhere(bc: BlockChain, b: Block)
    requires Sound(bc) && b in bc.seen
    ensures var h := Blocks.Hash(b);
            h in bc.allNodesMap || exists c :: c in bc.orphanBlockChains && h in c.allNodesMap
  {
    hide BlockChain.CoreInv, BlockChain.OrphanInv;
    var h := Blocks.Hash(b);
    assert h in HashSet(bc.seen) && h in bc.Held();
    if h !in bc.allNodesMap {
      var o :| o in bc.Orphans() && h in o.keys;
      var i :| 0 <= i < |bc.Orphans()| && bc.Orphans()[i] == o;
      assert bc.orphanBlockChains[i] in bc.orphanBlockChains;
    }
  }

  /** In a complete main chain every header above a known parent is there. */
  lemma {:induction false} AllJoin(bc: BlockChain, c: BlockChain, h: Digest)
    requires Complete(bc) && ChainOk(c, bc.seen, bc.root.Block) && GoodHeaders(bc.seen, bc.root.Block)
    requires h in c.allNodesMap && c.root.Block.PrevHash in bc.allNodesMap
    ensures h in bc.allNodesMap
    decreases c.allNodesMap[h].Block.BlockCount
  {
    hide Verify;
    var x := c.allNodesMap[h];
    assert HangsAt(c.allNodesMap, c.root, bc.seen, bc.root.Block, h);
    if x != c.root {
      var p := x.Block.PrevHash;
      assert HangsAt(c.allNodesMap, c.root, bc.seen, bc.root.Block, p);
      assert Follows(x.Block, c.allNodesMap[p].Block);
      AllJoin(bc, c, p);
    }
  }

  /** If the parent of some header of an orphan chain is in the main chain, then so is the parent of its root. */
  lemma {:induction false} ParentCame(bc: BlockChain, c: BlockChain, h: Digest, b: Block)
    requires TreeInv(bc.allNodesMap, bc.root, bc.seen) && ChainOk(c, bc.seen, bc.root.Block)
    requires h in c.allNodesMap && b in bc.seen && Blocks.Hash(b) == h && b.PrevHash in bc.allNodesMap
    ensures c.root.Block.PrevHash in bc.allNodesMap
    decreases b.BlockCount
  {
    hide Verify;
    var x := c.allNodesMap[h];
    assert HangsAt(c.allNodesMap, c.root, bc.seen, bc.root.Block, h);
    HeaderOfHash(bc.seen, bc.root.Block, x.Block, b);
    if x != c.root {
      var p := b.PrevHash;
      var parent := c.allNodesMap[p].Block;
      assert HangsAt(c.allNodesMap, c.root, bc.seen, bc.root.Block, p) && PlacedAt(bc.allNodesMap, bc.root, bc.seen, p);
      HeaderOfHash(bc.seen, bc.root.Block, bc.allNodesMap[p].Block, parent);
      assert Follows(b, parent);
      ParentCame(bc, c, p, parent);
    }
  }

  // ---------------------------------------------------------------- the order matters

  function AllArrived(t: HeaderTree, headers: seq<Block>): HeaderTree
    decreases |headers|
  {
    if headers == [] then t else AllArrived(Arrived(t, headers[0]), headers[1..])
  }

  lemma OneArrives(t: HeaderTree, b: Block, rest: seq<Block>)
    ensures AllArrived(t, [b] + rest) == AllArrived(Arrived(t, b), rest)
  {
    hide Arrived;
    assert ([b] + rest)[1..] == rest;
  }

  lemma FourArrive(t: HeaderTree, a: Block, b: Block, c: Block, d: Block)
    ensures AllArrived(t, [a, b, c, d]) == Arrived(Arrived(Arrived(Arrived(t, a), b), c), d)
  {
    hide Arrived;
    var t1 := Arrived(t, a);
    var t2 := Arrived(t1, b);
    var t3 := Arrived(t2, c);
    assert [a, b, c, d] == [a] + [b, c, d] && [b, c, d] == [b] + [c, d] && [c, d] == [c] + [d] && [d] == [d] + [];
    OneArrives(t, a, [b, c, d]);
    OneArrives(t1, b, [c, d]);
    OneArrives(t2, c, [d]);
    OneArrives(t3, d, []);
  }

  /** Four headers that pass the proof of work, each on top of the one before, above `g`. */
  predicate FourAbove(g: Block, b1: Block, b2: Block, b3: Block, b4: Block) {
    && Follows(b1, g) && Follows(b2, b1) && Follows(b3, b2) && Follows(b4, b3)
    && Comparable(b1) && Comparable(b2) && Comparable(b3) && Comparable(b4)
    && Verify(b1) && Verify(b2) && Verify(b3) && Verify(b4)
    && Distinct5(Hash(g), Hash(b1), Hash(b2), Hash(b3), Hash(b4))
  }

  /** The order matters.  In their order all of them join the main chain.  If the fourth comes first, then the second,
      the third and the first, the fourth is left behind although its parent is in the main chain: nothing looks again
      at an orphan chain whose parent joined with another one. */
  lemma TheOrderMatters(g: Block, b1: Block, b2: Block, b3: Block, b4: Block)
    requires FourAbove(g, b1, b2, b3, b4)
    ensures var t := HeaderTree({Hash(g)}, []);
            && AllArrived(t, [b1, b2, b3, b4]) == HeaderTree({Hash(g), Hash(b1), Hash(b2), Hash(b3), Hash(b4)}, [])
            && AllArrived(t, [b4, b2, b3, b1])
            == HeaderTree({Hash(g), Hash(b1), Hash(b2), Hash(b3)}, [OrphanChain(b4, {Hash(b4)})])
  {
    hide Verify, Hash, Arrived;
    var t := HeaderTree({Hash(g)}, []);
    FourArrive(t, b1, b2, b3, b4);
    FourArrive(t, b4, b2, b3, b1);
    InOrder(g, b1, b2, b3, b4);
    TwoParked(g, b1, b2, b3, b4);
    OneLeft(g, b1, b2, b3, b4);
  }

  lemma InOrder(g: Block, b1: Block, b2: Block, b3: Block, b4: Block)
    requires FourAbove(g, b1, b2, b3, b4)
    ensures var t := HeaderTree({Hash(g)}, []);
            Arrived(Arrived(Arrived(Arrived(t, b1), b2), b3), b4)
            == HeaderTree({Hash(g), Hash(b1), Hash(b2), Hash(b3), Hash(b4)}, [])
  {
    hide Verify, Hash;
  }

  /** The fourth waits for the third, the second for the first. */
  lemma TwoParked(g: Block, b1: Block, b2: Block, b3: Block, b4: Block)
    requires FourAbove(g, b1, b2, b3, b4)
    ensures Arrived(Arrived(HeaderTree({Hash(g)}, []), b4), b2)
         == HeaderTree({Hash(g)}, [OrphanChain(b4, {Hash(b4)}), OrphanChain(b2, {Hash(b2)})])
  {
    hide Verify, Hash;
    var a := Arrived(HeaderTree({Hash(g)}, []), b4);
    assert a == HeaderTree({Hash(g)}, [OrphanChain(b4, {Hash(b4)})]);
    assert FirstWith(a.chains[1..], b2.PrevHash) == 0 && FirstChild(a.chains[1..], Hash(b2)) == 0;
  }

  /** The third goes to the second, and the first brings both of them into the main chain. */
  lemma OneLeft(g: Block, b1: Block, b2: Block, b3: Block, b4: Block)
    requires FourAbove(g, b1, b2, b3, b4)
    ensures Arrived(Arrived(HeaderTree({Hash(g)}, [OrphanChain(b4, {Hash(b4)}), OrphanChain(b2, {Hash(b2)})]), b3), b1)
         == HeaderTree({Hash(g), Hash(b1), Hash(b2), Hash(b3)}, [OrphanChain(b4, {Hash(b4)})])
  {
    hide Verify, Hash;
    var last, two := OrphanChain(b4, {Hash(b4)}), OrphanChain(b2, {Hash(b2), Hash(b3)});
    var b := HeaderTree({Hash(g)}, [last, OrphanChain(b2, {Hash(b2)})]);
    assert b.chains[1..] == [OrphanChain(b2, {Hash(b2)})];
    assert FirstWith(b.chains[1..], Hash(b2)) == 0 && FirstWith(b.chains, Hash(b2)) == 1;
    assert {Hash(b2)} + {Hash(b3)} == {Hash(b2), Hash(b3)};
    var c := Arrived(b, b3);
    assert c == HeaderTree({Hash(g)}, [last, two]);
    assert c.chains[1..] == [two];
    assert FirstChild(c.chains[1..], Hash(b1)) == 0 && FirstChild(c.chains, Hash(b1)) == 1;
    assert Without(c.chains, 1) == [last];
    assert {Hash(g)} + {Hash(b1)} + {Hash(b2), Hash(b3)} == {Hash(g), Hash(b1), Hash(b2), Hash(b3)};
  }

  predicate Distinct5(a: Digest, b: Digest, c: Digest, d: Digest, e: Digest) {
    a != b && a != c && a != d && a != e && b != c && b != d && b != e && c != d && c != e && d != e
  }
}
