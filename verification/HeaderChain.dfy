/** Chains of headers that are sent as bytes. */
module HeaderChains {
  import opened Bytes
  import opened Blocks
  import opened ChainState
  import opened UtxoManagers
  import opened TreeInvariants

  /** Each header names the one before it and passes the proof of work. */
  ghost predicate LinkedHeaders(headers: seq<Block>) {
    forall i :: 0 < i < |headers| ==> LinkedAt(headers, i)
  }

  ghost predicate LinkedAt(headers: seq<Block>, i: nat)
    requires 0 < i < |headers|
  {
    Follows(headers[i], headers[i - 1]) && Comparable(headers[i]) && Verify(headers[i])
  }

  ghost predicate HeaderChain(headers: seq<Block>, genesis: Block) {
    headers != [] && headers[0] == genesis && LinkedHeaders(headers)
  }

  function Encoded(headers: seq<Block>): (r: seq<Bytes>)
    ensures |r| == |headers|
    ensures forall i :: 0 <= i < |r| ==> r[i] == EncodeHeader(headers[i])
  {
    seq(|headers|, i requires 0 <= i < |headers| => EncodeHeader(headers[i]))
  }

  /** Headers sent as bytes, and what they decode to. */
  function Decoded(bytes: seq<Bytes>): (r: seq<Block>)
    requires forall i :: 0 <= i < |bytes| ==> |bytes[i]| == BLOCK_SIZE
    ensures |r| == |bytes|
  {
    seq(|bytes|, i requires 0 <= i < |bytes| => DecodeHeader(bytes[i]))
  }

  lemma DecodedEncoded(headers: seq<Block>)
    ensures Decoded(Encoded(headers)) == headers
  {
    forall i | 0 <= i < |headers| ensures DecodeHeader(Encoded(headers)[i]) == headers[i] {
      HeaderRoundTrip(headers[i]);
    }
  }

  /** What was written on the way down from `top` to `bottom`. */
  ghost predicate Collected(bytes: seq<Bytes>, headers: seq<Block>, bottom: Block, top: Block, seen: set<Block>) {
    && headers != [] && headers[0] == bottom && headers[|headers| - 1] == top
    && LinkedHeaders(headers) && bytes == Encoded(headers) && forall b :: b in headers ==> b in seen
  }

  lemma CollectHead(bytes: seq<Bytes>, top: Block, seen: set<Block>)
    requires bytes == [EncodeHeader(top)] && top in seen
    ensures Collected(bytes, [top], top, top, seen)
  {
  }

  lemma CollectOne(bytes: seq<Bytes>, bytes': seq<Bytes>, headers: seq<Block>, b: Block, above: Block, top: Block,
                   seen: set<Block>)
    requires Collected(bytes, headers, above, top, seen) && bytes' == [EncodeHeader(b)] + bytes
    requires Follows(above, b) && Comparable(above) && Verify(above) && b in seen
    ensures Collected(bytes', [b] + headers, b, top, seen)
  {
    var all := [b] + headers;
    forall i | 0 < i < |all| ensures LinkedAt(all, i) {
      assert i > 1 ==> LinkedAt(headers, i - 1);
    }
    assert bytes' == Encoded(all);
  }

  /** A node that is not at height 0 names the node before it, and passes the proof of work. */
  lemma LinkedDown(nodes: NodeMap, root: BlockChainNode, seen: set<Block>, n: BlockChainNode)
    requires TreeInv(nodes, root, seen) && n in nodes.Values && n.Block.BlockCount != 0
    ensures n.previousBlockChainNode != null && n.previousBlockChainNode in nodes.Values
    ensures n.Block.BlockCount == n.previousBlockChainNode.Block.BlockCount + 1
    ensures Follows(n.Block, n.previousBlockChainNode.Block) && Comparable(n.Block) && Verify(n.Block)
  {
    KeyOf(nodes, root, seen, n);
    assert PlacedAt(nodes, root, seen, n.Hash);
    OneHigher(nodes, root, seen, n);
    assert PlacedAt(nodes, root, seen, n.Block.PrevHash);
  }

  lemma BottomIsRoot(nodes: NodeMap, root: BlockChainNode, seen: set<Block>, n: BlockChainNode,
                     bytes: seq<Bytes>, headers: seq<Block>, top: Block)
    requires TreeInv(nodes, root, seen) && n in nodes.Values && n.Block.BlockCount == 0
    requires Collected(bytes, headers, n.Block, top, seen)
    ensures HeaderChain(headers, root.Block) && bytes == Encoded(headers)
    ensures headers[|headers| - 1] == top && forall b :: b in headers ==> b in seen
  {
    if n != root {
      OneHigher(nodes, root, seen, n);
    }
  }
}
