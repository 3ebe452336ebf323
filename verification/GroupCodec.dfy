/** How a transaction block group travels: a size, a height, 16-bit lengths and the blocks one after the other. */
module GroupCodec {
  import opened Bytes
  import opened Transactions
  import opened MerkleTrees
  import opened TransactionCodec
  import opened Blocks
  import opened ChainState

  const LENGTH_LIMIT: nat := 0x1_0000

  // ---------------------------------------------------------------- layout

  /** `uint16(len(stb))`. */
  function LengthOf(b: Bytes): nat {
    |b| % LENGTH_LIMIT
  }

  function LengthChunks(blocks: seq<Bytes>): (chunks: seq<Bytes>)
    ensures |chunks| == |blocks|
    ensures forall i :: 0 <= i < |chunks| ==> chunks[i] == LittleEndian(LengthOf(blocks[i]), 2)
  {
    seq(|blocks|, i requires 0 <= i < |blocks| => LittleEndian(LengthOf(blocks[i]), 2))
  }

  /** What is sent of each block: as much as the 16-bit length admits. */
  function Sent(blocks: seq<Bytes>): (chunks: seq<Bytes>)
    ensures |chunks| == |blocks|
    ensures forall i :: 0 <= i < |chunks| ==> chunks[i] == blocks[i][..LengthOf(blocks[i])]
  {
    seq(|blocks|, i requires 0 <= i < |blocks| => blocks[i][..LengthOf(blocks[i])])
  }

  function EncodeGroup(g: Group): Bytes
    requires |g.transactionBlocks| < 256
  {
    [|g.transactionBlocks| as byte] + LittleEndian(g.Height, 2) + Join(LengthChunks(g.transactionBlocks))
    + Join(Sent(g.transactionBlocks))
  }

  /** Room for the table of lengths. */
  predicate HasTable(s: Bytes) {
    |s| >= 3 && |s| >= 3 + 2 * s[0] as nat
  }

  function LengthAt(s: Bytes, i: nat): nat
    requires HasTable(s) && i < s[0] as nat
  {
    FromLittleEndian(s[3 + 2 * i..5 + 2 * i])
  }

  function StartAt(s: Bytes, i: nat): (at: nat)
    requires HasTable(s) && i <= s[0] as nat
    ensures at >= 3
  {
    if i == 0 then 3 + 2 * s[0] as nat else StartAt(s, i - 1) + LengthAt(s, i - 1)
  }

  lemma {:induction false} StartsAscend(s: Bytes, i: nat, j: nat)
    requires HasTable(s) && i <= j <= s[0] as nat
    ensures StartAt(s, i) <= StartAt(s, j)
  {
    if i < j {
      StartsAscend(s, i, j - 1);
    }
  }

  predicate HasParts(s: Bytes) {
    HasTable(s) && |s| >= StartAt(s, s[0] as nat)
  }

  function PartAt(s: Bytes, i: nat): Bytes
    requires HasParts(s) && i < s[0] as nat
  {
    StartsAscend(s, i + 1, s[0] as nat);
    s[StartAt(s, i)..StartAt(s, i + 1)]
  }

  /** What the source can take apart without running off the end; it cannot finalize a group without blocks. */
  predicate GroupDecodable(s: Bytes) {
    HasParts(s) && s[0] > 0 && forall i :: 0 <= i < s[0] as nat ==> BlockDecodable(PartAt(s, i))
  }

  function HeightOfGroup(s: Bytes): Uint16
    requires |s| >= 3
  {
    FromLittleEndianBound(s[1..3]);
    TwoBytes();
    FromLittleEndian(s[1..3])
  }

  lemma TwoBytes()
    ensures Pow256(2) == LENGTH_LIMIT
  {
  }

  function DecodeGroup(s: Bytes, lookup: Lookup): (g: Group)
    requires GroupDecodable(s)
    ensures |g.transactionBlocks| == |g.TransactionBlockStructs| == s[0] as nat
  {
    Group(HeightOfGroup(s),
          seq(s[0] as nat, i requires 0 <= i < s[0] as nat => DecodeBlock(PartAt(s, i), lookup)),
          seq(s[0] as nat, i requires 0 <= i < s[0] as nat => PartAt(s, i)))
  }

  // ---------------------------------------------------------------- what receiving guarantees

  /** Looking references up changes nothing else. */
  lemma LookupLater(b: Bytes, lookup: Lookup, later: Lookup)
    requires BlockDecodable(b)
    ensures DecodeBlock(b, later) == Resolved(DecodeBlock(b, lookup), later)
  {
    assert DecodeBlock(b, later).InputList == Resolved(DecodeBlock(b, lookup), later).InputList;
  }

  /** Whatever was received can be put into the block tree: every block is what its bytes say. */
  lemma ReceivedIsValid(s: Bytes, lookup: Lookup)
    requires GroupDecodable(s)
    ensures DecodeGroup(s, lookup).Valid()
  {
    var g := DecodeGroup(s, lookup);
    forall k | 0 <= k < |g.TransactionBlockStructs| ensures BlockMatches(g.TransactionBlockStructs[k],
          g.transactionBlocks[k]) {
      LookupLater(PartAt(s, k), lookup, _ => None);
    }
  }

  /** Resolving while reading is reading, then resolving against the tree. */
  lemma ResolvedOnArrival(s: Bytes, view: View, before: Lookup)
    requires GroupDecodable(s)
    ensures DecodeGroup(s, LookupIn(view)) == ResolveGroup(view, DecodeGroup(s, before))
  {
    var g := DecodeGroup(s, LookupIn(view));
    var r := ResolveGroup(view, DecodeGroup(s, before));
    forall k | 0 <= k < |g.TransactionBlockStructs|
      ensures g.TransactionBlockStructs[k] == r.TransactionBlockStructs[k]
    {
      LookupLater(PartAt(s, k), before, LookupIn(view));
    }
    assert g.TransactionBlockStructs == r.TransactionBlockStructs;
  }

  // ---------------------------------------------------------------- round trip

  /** Every block is short enough for a 16-bit length. */
  predicate LengthsFit(blocks: seq<Bytes>) {
    forall i :: 0 <= i < |blocks| ==> |blocks[i]| < LENGTH_LIMIT
  }

  lemma LengthsRoundTrip(g: Group, i: nat)
    requires 0 < |g.transactionBlocks| < 256 && i < |g.transactionBlocks|
    ensures HasTable(EncodeGroup(g)) && EncodeGroup(g)[0] as nat == |g.transactionBlocks|
    ensures LengthAt(EncodeGroup(g), i) == LengthOf(g.transactionBlocks[i])
  {
    var s, blocks := EncodeGroup(g), g.transactionBlocks;
    var chunks := LengthChunks(blocks);
    JoinLength(chunks, 2);
    JoinChunk(chunks, 2, i);
    var head := [|blocks| as byte] + LittleEndian(g.Height, 2);
    SliceWithin(head, Join(chunks), Join(Sent(blocks)), 2 * i, 2 * i + 2);
    assert s[3 + 2 * i..5 + 2 * i] == chunks[i];
    TwoBytes();
    LittleEndianRoundTrip(LengthOf(blocks[i]), 2);
  }

  lemma {:induction false} StartsRoundTrip(g: Group, i: nat)
    requires 0 < |g.transactionBlocks| < 256 && i <= |g.transactionBlocks|
    ensures HasTable(EncodeGroup(g)) && EncodeGroup(g)[0] as nat == |g.transactionBlocks|
    ensures StartAt(EncodeGroup(g), i) == 3 + 2 * |g.transactionBlocks| + |Join(Sent(g.transactionBlocks)[..i])|
  {
    hide Sent, LengthChunks, EncodeGroup, Join, HasTable, LengthAt;
    LengthsRoundTrip(g, 0);
    var sent := Sent(g.transactionBlocks);
    if i == 0 {
      StartOfJoin(sent);
    } else {
      StartsRoundTrip(g, i - 1);
      LengthsRoundTrip(g, i - 1);
      JoinOneMore(sent, i - 1);
      assert |sent[i - 1]| == LengthOf(g.transactionBlocks[i - 1]);
    }
  }

  /** Everything before the blocks. */
  function Preamble(g: Group): Bytes
    requires |g.transactionBlocks| < 256
  {
    [|g.transactionBlocks| as byte] + LittleEndian(g.Height, 2) + Join(LengthChunks(g.transactionBlocks))
  }

  lemma Regroup(a: Bytes, b: Bytes, c: Bytes, d: Bytes)
    ensures a + (b + c + d) == (a + b) + c + d
  {
  }

  lemma BlocksInPlace(g: Group, i: nat)
    requires 0 < |g.transactionBlocks| < 256 && i < |g.transactionBlocks|
    ensures |Preamble(g)| == 3 + 2 * |g.transactionBlocks|
    ensures var sent := Sent(g.transactionBlocks);
            EncodeGroup(g) == (Preamble(g) + Join(sent[..i])) + sent[i] + Join(sent[i + 1..])
  {
    hide Sent, LengthChunks, Join;
    var sent := Sent(g.transactionBlocks);
    JoinLength(LengthChunks(g.transactionBlocks), 2);
    JoinSplit(sent, i);
    Regroup(Preamble(g), Join(sent[..i]), sent[i], Join(sent[i + 1..]));
  }

  lemma EndOfBlocks(g: Group)
    requires 0 < |g.transactionBlocks| < 256
    ensures HasParts(EncodeGroup(g)) && EncodeGroup(g)[0] as nat == |g.transactionBlocks|
  {
    hide Sent, LengthChunks;
    StartsRoundTrip(g, |g.transactionBlocks|);
    JoinLength(LengthChunks(g.transactionBlocks), 2);
    assert Sent(g.transactionBlocks)[..|g.transactionBlocks|] == Sent(g.transactionBlocks);
  }

  /** The parts that are read are the parts that were sent. */
  lemma PartsRoundTrip(g: Group, i: nat)
    requires 0 < |g.transactionBlocks| < 256 && i < |g.transactionBlocks|
    ensures HasParts(EncodeGroup(g)) && EncodeGroup(g)[0] as nat == |g.transactionBlocks|
    ensures PartAt(EncodeGroup(g), i) == Sent(g.transactionBlocks)[i]
  {
    hide EncodeGroup, Sent, Preamble, Join, HasParts, HasTable, StartAt, LengthAt;
    var s, sent := EncodeGroup(g), Sent(g.transactionBlocks);
    EndOfBlocks(g);
    StartsRoundTrip(g, i);
    StartsRoundTrip(g, i + 1);
    BlocksInPlace(g, i);
    JoinOneMore(sent, i);
    Middle(Preamble(g) + Join(sent[..i]), sent[i], Join(sent[i + 1..]));
  }

  /** A group comes back block by block, with every reference looked up by the receiver and the same Merkle root,
      if and only if every block is shorter than 65536 bytes: longer ones are cut. */
  lemma GroupRoundTrip(g: Group, lookup: Lookup)
    requires g.Valid()
    ensures LengthsFit(g.transactionBlocks) <==>
            GroupDecodable(EncodeGroup(g))
                && DecodeGroup(EncodeGroup(g), lookup).transactionBlocks == g.transactionBlocks
    ensures LengthsFit(g.transactionBlocks) ==>
              var r := DecodeGroup(EncodeGroup(g), lookup);
              && r.Height == g.Height && r.MerkleRoot() == g.MerkleRoot()
              && forall k :: 0 <= k < |g.TransactionBlockStructs| ==>
                   r.TransactionBlockStructs[k] == Resolved(g.TransactionBlockStructs[k], lookup)
  {
    var s, blocks := EncodeGroup(g), g.transactionBlocks;
    LengthsRoundTrip(g, 0);
    forall i | 0 <= i < |blocks| ensures HasParts(s) && PartAt(s, i) == Sent(blocks)[i] {
      PartsRoundTrip(g, i);
    }
    if LengthsFit(blocks) {
      forall i | 0 <= i < |blocks|
        ensures PartAt(s, i) == blocks[i] && BlockDecodable(PartAt(s, i))
        ensures DecodeBlock(PartAt(s, i), lookup) == Resolved(g.TransactionBlockStructs[i], lookup)
      {
        PartIsBlock(g, i, lookup);
      }
      assert DecodeGroup(s, lookup).transactionBlocks == blocks;
      HeightRoundTrip(g);
    } else if GroupDecodable(s) {
      var i :| 0 <= i < |blocks| && |blocks[i]| >= LENGTH_LIMIT;
      assert |DecodeGroup(s, lookup).transactionBlocks[i]| < LENGTH_LIMIT;
    }
  }

  lemma PartIsBlock(g: Group, i: nat, lookup: Lookup)
    requires g.Valid() && i < |g.transactionBlocks| && |g.transactionBlocks[i]| < LENGTH_LIMIT
    ensures Sent(g.transactionBlocks)[i] == g.transactionBlocks[i] && BlockDecodable(g.transactionBlocks[i])
    ensures DecodeBlock(g.transactionBlocks[i], lookup) == Resolved(g.TransactionBlockStructs[i], lookup)
  {
    var tb, b := g.TransactionBlockStructs[i], g.transactionBlocks[i];
    assert BlockMatches(tb, b);
    LookupLater(b, _ => None, lookup);
    assert Resolved(Unresolved(tb), lookup).InputList == Resolved(tb, lookup).InputList;
  }

  lemma HeightRoundTrip(g: Group)
    requires |g.transactionBlocks| < 256
    ensures HeightOfGroup(EncodeGroup(g)) == g.Height
  {
    TwoBytes();
    LittleEndianRoundTrip(g.Height, 2);
    assert EncodeGroup(g)[1..3] == LittleEndian(g.Height, 2);
  }

  /** 181 outputs are enough to make a block too long. */
  lemma TooManyOutputs(tb: TransactionBlock)
    requires tb.CountsMatch()
    ensures |tb.OutputList| >= 181 ==> |EncodeBlock(tb)| >= LENGTH_LIMIT
  {
    EncodeBlockLength(tb);
  }

  // ---------------------------------------------------------------- serializers

  method TotalLength(g: Group) returns (totalSize: nat)
    requires |g.transactionBlocks| < 256
    ensures totalSize == |EncodeGroup(g)|
  {
    ghost var sent := Sent(g.transactionBlocks);
    totalSize := 3 + |g.transactionBlocks| * 2;
    assert sent[..0] == [];
    for i := 0 to |g.transactionBlocks|
      invariant totalSize == 3 + |g.transactionBlocks| * 2 + |Join(sent[..i])|
    {
      JoinOneMore(sent, i);
      totalSize := totalSize + LengthOf(g.transactionBlocks[i]);
    }
    assert sent[..|sent|] == sent;
    JoinLength(LengthChunks(g.transactionBlocks), 2);
  }

  method PutLengths(ret: array<byte>, g: Group, ghost head: Bytes)
    requires |head| == 3 && ret.Length >= 3 + 2 * |g.transactionBlocks| && ret[..3] == head
    modifies ret
    ensures ret[..3 + 2 * |g.transactionBlocks|] == head + Join(LengthChunks(g.transactionBlocks))
  {
    ghost var chunks := LengthChunks(g.transactionBlocks);
    assert chunks[..0] == [];
    for i := 0 to |g.transactionBlocks|
      invariant ret[..3 + 2 * i] == head + Join(chunks[..i])
    {
      JoinOneMore(chunks, i);
      Put(ret, 3 + 2 * i, LittleEndian(LengthOf(g.transactionBlocks[i]), 2), head + Join(chunks[..i]));
    }
    assert chunks[..|chunks|] == chunks;
  }

  method PutBlocks(ret: array<byte>, start: nat, g: Group, ghost before: Bytes)
    requires |before| == start && ret.Length == start + |Join(Sent(g.transactionBlocks))| && ret[..start] == before
    modifies ret
    ensures ret[..] == before + Join(Sent(g.transactionBlocks))
  {
    hide Join, Sent;
    ghost var sent := Sent(g.transactionBlocks);
    var index := start;
    StartOfJoin(sent);
    for i := 0 to |g.transactionBlocks|
      invariant index == start + |Join(sent[..i])| <= ret.Length && ret[..index] == before + Join(sent[..i])
    {
      var length := LengthOf(g.transactionBlocks[i]);
      JoinSplit(sent, i);
      JoinOneMore(sent, i);
      Put(ret, index, g.transactionBlocks[i][0..length], before + Join(sent[..i]));
      index := index + length;
    }
    assert sent[..|sent|] == sent;
    assert ret[..] == ret[..index];
  }

  method serializeTransactionBlockGroup(g: Group) returns (out: Bytes)
    requires |g.transactionBlocks| < 256
    ensures out == EncodeGroup(g)
  {
    var n := |g.transactionBlocks|;
    var totalSize := TotalLength(g);
    JoinLength(LengthChunks(g.transactionBlocks), 2);
    ghost var head := [n as byte] + LittleEndian(g.Height, 2);
    var ret := new byte[totalSize];
    ret[0] := n as byte;
    Put(ret, 1, LittleEndian(g.Height, 2), [n as byte]);
    PutLengths(ret, g, head);
    PutBlocks(ret, 3 + 2 * n, g, head + Join(LengthChunks(g.transactionBlocks)));
    out := ret[..];
  }

  lemma FirstPart(ret: Bytes, lookup: Lookup)
    requires GroupDecodable(ret)
    ensures HasTable(ret) && ret[0] > 0 && StartAt(ret, 0) == 3 + 2 * ret[0] as nat
    ensures DecodeGroup(ret, lookup).Height == HeightOfGroup(ret)
    ensures |DecodeGroup(ret, lookup).transactionBlocks| == |DecodeGroup(ret,
          lookup).TransactionBlockStructs| == ret[0] as nat
  {
  }

  lemma NextPart(ret: Bytes, lookup: Lookup, i: nat)
    requires GroupDecodable(ret) && i < ret[0] as nat
    ensures StartAt(ret, i + 1) == StartAt(ret, i) + LengthAt(ret, i) <= |ret|
    ensures var part := ret[StartAt(ret, i)..StartAt(ret, i) + LengthAt(ret, i)];
            && part == DecodeGroup(ret, lookup).transactionBlocks[i] && BlockDecodable(part)
            && DecodeBlock(part, lookup) == DecodeGroup(ret, lookup).TransactionBlockStructs[i]
  {
    StartsAscend(ret, i + 1, ret[0] as nat);
    assert ret[StartAt(ret, i)..StartAt(ret, i) + LengthAt(ret, i)] == PartAt(ret, i);
  }

  /** Takes a group apart and builds its Merkle tree. */
  method deserializeTransactionBlockGroup(ret: Bytes, lookup: Lookup) returns (tbg: Group, merkleTree: MerkleTree)
    requires GroupDecodable(ret)
    ensures tbg == DecodeGroup(ret, lookup) && tbg.Valid()
    ensures merkleTree.Valid() && merkleTree.finalized && merkleTree.data == tbg.transactionBlocks
    ensures fresh(merkleTree) && fresh(merkleTree.Repr)
  {
    hide DecodeGroup, StartAt, LengthAt, PartAt, DecodeBlock, BlockDecodable, GroupDecodable, Group.Valid;
    ghost var g := DecodeGroup(ret, lookup);
    ReceivedIsValid(ret, lookup);
    FirstPart(ret, lookup);
    var n := ret[0] as nat;
    var blocks: seq<Bytes>, structs: seq<TransactionBlock> := [], [];
    merkleTree := new MerkleTree.InitializeMerkleTree();
    var index := 3 + n * 2;
    for i := 0 to n
      invariant index == StartAt(ret, i)
      invariant |blocks| == |structs| == i && blocks == g.transactionBlocks[..i]
                && structs == g.TransactionBlockStructs[..i]
      invariant merkleTree.Valid() && !merkleTree.finalized && merkleTree.data == blocks && fresh(merkleTree.Repr)
    {
      NextPart(ret, lookup, i);
      var length := LengthAt(ret, i);
      var part := ret[index..index + length];
      var tb, unresolved := deserializeTransactionBlock(part, lookup);
      blocks, structs := blocks + [part], structs + [tb];
      index := index + length;
      merkleTree.Add(part);
    }
    merkleTree.FinalizeTree();
    tbg := Group(HeightOfGroup(ret), structs, blocks);
  }
}
