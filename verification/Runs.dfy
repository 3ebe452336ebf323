/** A node's block chain as a whole: what an arriving header does to it, and sending a chain of headers. */
module Runs {
  import opened Bytes
  import opened Blocks
  import opened ChainState
  import opened UtxoManagers
  import opened TreeInvariants
  import opened Orphans
  import opened HeaderTrees
  import opened HeaderChains
  import opened Pictures
  import opened BlockChains

  /** All objects a block chain owns. */
  ghost function Members(bc: BlockChain): set<object>
    reads bc
  {
    {bc} + bc.Nodes() + bc.orphanNodes + bc.utxoRepr + set c | c in bc.orphanBlockChains
  }

  ghost function Set(headers: seq<Block>): set<Block> {
    set b | b in headers
  }

  ghost function HashSet(headers: set<Block>): set<Digest> {
    set b | b in headers :: Blocks.Hash(b)
  }

  /** What holds of a block chain between events.  No accepted header is lost: what is held, in the main chain and the
      orphan chains, are exactly the headers that were accepted. */
  ghost predicate Sound(bc: BlockChain)
    reads bc, bc.Nodes(), bc.utxoRepr, bc.orphanBlockChains, bc.orphanNodes
  {
    bc.CoreInv() && bc.OrphanInv() && bc.Held() == HashSet(bc.seen)
  }

  lemma OneMoreHeader(seen: set<Block>, b: Block)
    ensures HashSet(seen + {b}) == HashSet(seen) + {Blocks.Hash(b)}
  {
  }

  /** A chain that is rebuilt from headers lists its root among the fork heads, one made with its genesis block does
      not. */
  method StartChain(genesis: Block, rootIsHead: bool) returns (bc: BlockChain)
    requires Comparable(genesis) && Verify(genesis) && genesis.BlockCount == 0
    ensures Sound(bc) && fresh(Members(bc))
    ensures bc.root.Block == genesis && bc.head == bc.root && bc.root.Hash == Blocks.Hash(genesis)
    ensures bc.seen == {genesis} && bc.Tree() == HeaderTree({Blocks.Hash(genesis)}, [])
    ensures bc.utxoChan == multiset{} && !bc.failed && bc.view == map[]
    ensures bc.State() == FirstPicture(bc.root)
  {
    hide BlockChain.CoreInv, BlockChain.OrphanInv, Verify;
    bc := new BlockChain.Genesis(genesis);
    if rootIsHead {
      bc.MarkRootAsHead();
    }
  }

  /** Everything that was accepted is still held. */
  lemma StillHeld(a: Picture, b: Picture, header: Block)
    requires HeaderEffect(a, b, header) && HeldBy(a.Tree()) == HashSet(a.seen)
    ensures HeldBy(b.Tree()) == HashSet(b.seen) && b.seen <= a.seen + {header}
  {
    hide Verify, Arrived, NodesGrew, HashSet, HeldBy;
    ArrivedIsHeld(a.Tree(), header);
    OneMoreHeader(a.seen, header);
  }

  /** The proof of work of every header that is held: no node, of the main chain or of an orphan chain, has a byte other
      than zero among the first bytes of its hash, as many as its difficulty says. */
  lemma EveryNodeWorked(bc: BlockChain, n: BlockChainNode)
    requires Sound(bc)
    requires n in bc.Nodes() || exists c :: c in bc.orphanBlockChains && n in c.allNodesMap.Values
    ensures n.Block.Difficulty <= 32 && n.Hash == Sum256(EncodeHeader(n.Block))
    ensures forall i :: 0 <= i < n.Block.Difficulty ==> n.Hash[i] == 0
  {
    hide Verify, HashSet, HeldBy, ViewInv, BuiltInv, ManagerInv, DanglingInv, LeadsInv, ForkInv;
    WorkedExactly(n.Block);
    if n in bc.Nodes() {
      KeyOf(bc.allNodesMap, bc.root, bc.seen, n);
      assert PlacedAt(bc.allNodesMap, bc.root, bc.seen, n.Hash);
    } else {
      var c :| c in bc.orphanBlockChains && n in c.allNodesMap.Values;
      var h :| h in c.allNodesMap && c.allNodesMap[h] == n;
      assert ChainOk(c, bc.seen, bc.root.Block) && HangsAt(c.allNodesMap, c.root, bc.seen, bc.root.Block, h);
    }
  }

  /** A header arrives that is one of `all` good ones. */
  method Arrive(bc: BlockChain, block0: Block, ghost all: set<Block>)
    requires Sound(bc) && GoodHeaders(all, bc.root.Block) && bc.seen <= all && block0 in all
    modifies Members(bc)
    ensures Sound(bc) && fresh(Members(bc) - old(Members(bc))) && bc.root == old(bc.root) && bc.seen <= all
    ensures HeaderEffect(old(bc.State()), bc.State(), block0)
  {
    hide BlockChain.CoreInv, BlockChain.OrphanInv, BlockChain.Orphans, BlockChain.Now, HeaderEffect;
    hide GoodHeaders, Verify, HashSet, HeldBy, Arrived, Destination, Entered, Merged, Without;
    bc.GoodSeen(all, block0);
    bc.OrphansApart();
    ghost var a := bc.State();
    var result;
    ghost var n, at, part;
    result, n, at, part := bc.addBlockChainNode(block0);
    StillHeld(a, bc.State(), block0);
  }

  /** Rebuilds a chain from serialized headers.  If they are linked from the genesis block on, all of them end up in
      the main chain, and nothing else. */
  method DeserializeBlockChain(genesis: Block, bytes: seq<Bytes>) returns (blockChain: BlockChain)
    requires Comparable(genesis) && Verify(genesis) && genesis.BlockCount == 0
    requires forall i :: 0 <= i < |bytes| ==> |bytes[i]| == BLOCK_SIZE
    requires GoodHeaders((set b | b in Decoded(bytes)) + {genesis}, genesis)
    ensures Sound(blockChain) && fresh(Members(blockChain))
    ensures blockChain.root.Block == genesis && blockChain.head == blockChain.root
    ensures HeaderChain(Decoded(bytes), genesis) ==> Rebuilt(blockChain, Set(Decoded(bytes)))
  {
    hide Sound, GoodHeaders, Verify, HeaderChain, HashSet, Members;
    ghost var headers := Decoded(bytes);
    ghost var all := Set(headers) + {genesis};
    blockChain := StartChain(genesis, true);
    GenesisHash(genesis, headers);
    ghost var owned := Members(blockChain);
    for i := 0 to |bytes|
      invariant Sound(blockChain) && fresh(owned) && Members(blockChain) <= owned
      invariant blockChain.root.Block == genesis && blockChain.head == blockChain.root && blockChain.seen <= all
      invariant HeaderChain(headers, genesis) ==> Rebuilt(blockChain, Set(headers[..i]) + {genesis})
    {
      ghost var members, before := Members(blockChain), Set(headers[..i]) + {genesis};
      var block0 := DecodeHeader(bytes[i]);
      assert block0 == headers[i];
      label before:
      ArriveLinked(blockChain, block0, all, before, genesis);
      if HeaderChain(headers, genesis) {
        OneMoreLinked(headers, genesis, i);
      }
      ghost var added := Members(blockChain) - members;
      assert fresh@before(added);
      assert fresh(added);
      owned := owned + added;
    }
    if HeaderChain(headers, genesis) {
      GenesisIsFirst(headers, genesis);
    }
  }

  /** The main chain is made of these headers. */
  ghost predicate Rebuilt(bc: BlockChain, headers: set<Block>)
    reads bc, bc.orphanBlockChains
  {
    bc.Tree() == HeaderTree(HashSet(headers), [])
  }

  /** A header whose parent is among those before it keeps the chain in one piece. */
  ghost predicate Extending(headers: set<Block>, b: Block, genesis: Block) {
    && Comparable(b) && Verify(b) && genesis in headers
    && (b == genesis || exists p :: p in headers && Follows(b, p))
  }

  method ArriveLinked(bc: BlockChain, block0: Block, ghost all: set<Block>, ghost before: set<Block>,
                      ghost genesis: Block)
    requires Sound(bc) && GoodHeaders(all, bc.root.Block) && bc.seen <= all && block0 in all
    modifies Members(bc)
    ensures Sound(bc) && fresh(Members(bc) - old(Members(bc)))
    ensures bc.root == old(bc.root) && bc.seen <= all && bc.head == old(bc.head)
    ensures old(Rebuilt(bc, before)) && Extending(before, block0, genesis) ==> Rebuilt(bc, before + {block0})
  {
    hide Sound, GoodHeaders, Verify, HashSet, HeaderEffect, Arrived, BlockChain.Orphans, BuiltHistories, UpToDateNodes;
    ghost var a := bc.State();
    if Rebuilt(bc, before) && Extending(before, block0, genesis) {
      OneMoreExtending(before, block0, genesis);
    }
    Arrive(bc, block0, all);
    HeadAfterHeader(a, bc.State(), block0);
  }

  lemma OneMoreExtending(headers: set<Block>, b: Block, genesis: Block)
    requires Extending(headers, b, genesis)
    ensures Arrived(HeaderTree(HashSet(headers), []), b) == HeaderTree(HashSet(headers + {b}), [])
  {
    hide Verify;
    OneMoreHeader(headers, b);
  }

  lemma HeadAfterHeader(a: Picture, b: Picture, header: Block)
    requires HeaderEffect(a, b, header)
    ensures b.now.head == a.now.head && b.Tree() == Arrived(a.Tree(), header)
  {
    hide NodesGrew, Verify, Arrived;
  }

  lemma GenesisHash(genesis: Block, headers: seq<Block>)
    ensures {Blocks.Hash(genesis)} == HashSet(Set(headers[..0]) + {genesis})
  {
    assert Set(headers[..0]) + {genesis} == {genesis};
  }

  lemma OneMoreLinked(headers: seq<Block>, genesis: Block, i: nat)
    requires HeaderChain(headers, genesis) && i < |headers| && Comparable(genesis) && Verify(genesis)
    ensures Extending(Set(headers[..i]) + {genesis}, headers[i], genesis)
    ensures Set(headers[..i + 1]) + {genesis} == Set(headers[..i]) + {genesis} + {headers[i]}
  {
    hide Verify;
    assert headers[..i + 1] == headers[..i] + [headers[i]];
    if i > 0 {
      assert LinkedAt(headers, i);
      assert headers[..i][i - 1] == headers[i - 1] && headers[i - 1] in Set(headers[..i]);
    }
  }

  lemma GenesisIsFirst(headers: seq<Block>, genesis: Block)
    requires HeaderChain(headers, genesis)
    ensures Set(headers[..|headers|]) + {genesis} == Set(headers)
  {
    assert headers[..|headers|] == headers && headers[0] in headers;
  }

  /** A chain of headers survives being sent: the receiver's main chain holds exactly these blocks. */
  method SendChain(bc: BlockChain) returns (copy: BlockChain, ghost headers: seq<Block>)
    requires Sound(bc)
    ensures HeaderChain(headers, bc.root.Block) && headers[|headers| - 1] == bc.head.Block
    ensures Sound(copy) && Rebuilt(copy, Set(headers))
  {
    hide BlockChain.CoreInv, BlockChain.OrphanInv, GoodHeaders, Verify, HeaderChain, HashSet;
    var bytes := bc.SerializeBlockChain();
    headers := Decoded(bytes);
    bc.GoodChain(headers);
    copy := DeserializeBlockChain(bc.root.Block, bytes);
  }
}
