/** Every layout by position: which bytes stand where, with the sizes as numbers. */
module Layouts {
  import opened Bytes
  import opened Transactions
  import opened MerkleShape
  import MP = MerkleProof
  import PC = ProofCodec
  import opened GroupCodec
  import opened Blocks

  // ---------------------------------------------------------------- integers

  /** The lowest byte comes first. */
  lemma {:induction false} LittleEndianAt(x: nat, width: nat, i: nat)
    requires i < width
    ensures LittleEndian(x, width)[i] as nat == x / Pow256(i) % 256
  {
    if i > 0 {
      LittleEndianAt(x / 256, width - 1, i - 1);
      DivTwice(x, Pow256(i - 1));
    }
  }

  lemma DivTwice(x: nat, p: nat)
    requires p > 0
    ensures x / 256 / p == x / (256 * p)
  {
    var y, r := x / 256, x % 256;
    var q, s := y / p, y % p;
    assert x == 256 * y + r && y == p * q + s;
    assert x == 256 * p * q + (256 * s + r) by {
      assert 256 * (p * q) == 256 * p * q;
    }
    assert 256 * s + r < 256 * p;
    DivUnique(x, 256 * p, q, 256 * s + r);
  }

  lemma DivUnique(x: nat, d: nat, q: nat, r: nat)
    requires d > 0 && x == d * q + r && r < d
    ensures x / d == q
  {
    var q', r' := x / d, x % d;
    assert d * q + r == d * q' + r';
    Monotone(d, q, q');
    Monotone(d, q', q);
  }

  lemma Monotone(d: nat, a: nat, b: nat)
    ensures a < b ==> d * b >= d * a + d
  {
    if a < b {
      var e := b - a - 1;
      assert d * (a + 1 + e) == d * a + d + d * e;
      assert b == a + 1 + e;
    }
  }

  lemma FourBytesInOrder(x: Uint32)
    ensures LittleEndian(x, 4)
         == [(x % 256) as byte, (x / 256 % 256) as byte, (x / 65536 % 256) as byte, (x / 16777216 % 256) as byte]
  {
    var s := LittleEndian(x, 4);
    assert Pow256(0) == 1 && Pow256(1) == 256 && Pow256(2) == 65536 && Pow256(3) == 16777216;
    LittleEndianAt(x, 4, 0);
    LittleEndianAt(x, 4, 1);
    LittleEndianAt(x, 4, 2);
    LittleEndianAt(x, 4, 3);
  }

  // ---------------------------------------------------------------- headers

  lemma HeaderLayout(b: Block)
    ensures var d := EncodeHeader(b);
            && |d| == 76 && d[0..32] == b.MerkleRoot && d[32..64] == b.PrevHash && d[64..68] == LittleEndian(b.Nonce, 4)
            && d[68..72] == LittleEndian(b.Difficulty, 4) && d[72..76] == LittleEndian(b.BlockCount, 4)
            && Blocks.Hash(b) == Sum256(d)
  {
    var pre := b.MerkleRoot + b.PrevHash + LittleEndian(b.Nonce, 4) + LittleEndian(b.Difficulty, 4);
    assert |pre| == 72 && EncodeHeader(b) == pre + LittleEndian(b.BlockCount, 4);
  }

  // ---------------------------------------------------------------- transactions

  lemma RefLayout(tr: TransactionRef)
    ensures var s := EncodeRef(tr);
            |s| == 34 && s[0..32] == tr.BlockHash && s[32] == tr.OutputNumber && s[33] == tr.TransactionBlockNumber
  {
  }

  lemma InputLayout(ti: TransactionInput)
    ensures var s := EncodeInput(ti);
            |s| == 162 && s[0..128] == ti.VerificationChallenge && s[128..162] == EncodeRef(ti.reference)
  {
  }

  /** The last 32 bytes of an output are spare. */
  lemma OutputLayout(to: TransactionOutput)
    ensures var s := EncodeOutput(to);
            && |s| == 362 && s[0..8] == LittleEndian(to.Amount, 8) && s[8..170] == to.ReceiverPublicKey
            && s[170..202] == to.text && s[202..330] == to.Signature
            && forall i :: 330 <= i < 362 ==> s[i] == 0
  {
  }

  lemma BlockLayoutInput(tb: TransactionBlock, i: nat)
    requires i < |tb.InputList|
    ensures var s, at := EncodeBlock(tb), 2 + 162 * i;
            && |s| == 2 + 162 * |tb.InputList| + 362 * |tb.OutputList| + 162 + 128 && at + 162 <= |s|
            && s[at..at + 162] == EncodeInput(tb.InputList[i])
  {
    hide InputChunks, OutputChunks, Transactions.Join;
    var chunks := InputChunks(tb.InputList);
    EncodeBlockLength(tb);
    JoinChunk(chunks, INPUT_SIZE, i);
    BlockLayout(tb);
    SliceWithin([tb.InputNumber, tb.OutputNumber], Join(chunks),
                Join(OutputChunks(tb.OutputList)) + tb.PayerPublicKey + tb.Signature, i * INPUT_SIZE,
                (i + 1) * INPUT_SIZE);
  }

  lemma BlockLayoutOutput(tb: TransactionBlock, j: nat)
    requires j < |tb.OutputList|
    ensures var s, at := EncodeBlock(tb), 2 + 162 * |tb.InputList| + 362 * j;
            && |s| == 2 + 162 * |tb.InputList| + 362 * |tb.OutputList| + 162 + 128 && at + 362 <= |s|
            && s[at..at + 362] == EncodeOutput(tb.OutputList[j])
  {
    hide EncodeBlock;
    EncodeBlockLength(tb);
    BlockOutputBytes(tb, j);
  }

  lemma BlockLayoutRest(tb: TransactionBlock)
    ensures var s, at := EncodeBlock(tb), 2 + 162 * |tb.InputList| + 362 * |tb.OutputList|;
            && |s| == at + 162 + 128 && s[0] == tb.InputNumber && s[1] == tb.OutputNumber
            && s[at..at + 162] == tb.PayerPublicKey && s[at + 162..] == tb.Signature
  {
    EncodeBlockLength(tb);
    var ahead := [tb.InputNumber, tb.OutputNumber] + Join(InputChunks(tb.InputList))
        + Join(OutputChunks(tb.OutputList));
    assert EncodeBlock(tb) == ahead + tb.PayerPublicKey + tb.Signature;
    assert |ahead| == 2 + 162 * |tb.InputList| + 362 * |tb.OutputList|;
  }

  /** What a receiver reads, field by field. */
  lemma BlockReadBack(tb: TransactionBlock, lookup: Lookup)
    requires tb.CountsMatch()
    ensures BlockDecodable(EncodeBlock(tb))
    ensures var d := DecodeBlock(EncodeBlock(tb), lookup);
            && d.InputNumber == tb.InputNumber && d.OutputNumber == tb.OutputNumber
            && d.OutputList == tb.OutputList && d.Signature == tb.Signature && d.PayerPublicKey == tb.PayerPublicKey
            && |d.InputList| == |tb.InputList|
            && forall i :: 0 <= i < |d.InputList| ==>
                 && d.InputList[i].VerificationChallenge == tb.InputList[i].VerificationChallenge
                 && d.InputList[i].reference == tb.InputList[i].reference
                 && d.InputList[i].OutputBlock == lookup(tb.InputList[i].reference)
  {
    hide EncodeBlock, DecodeBlock;
    BlockRoundTrip(tb, lookup);
  }

  // ---------------------------------------------------------------- groups

  /** How many bytes are sent of the blocks before block `i`. */
  function SentBefore(blocks: seq<Bytes>, i: nat): nat
    requires i <= |blocks|
  {
    if i == 0 then 0 else SentBefore(blocks, i - 1) + |blocks[i - 1]| % 65536
  }

  lemma {:induction false} SentLength(blocks: seq<Bytes>, i: nat)
    requires i <= |blocks|
    ensures |Join(Sent(blocks)[..i])| == SentBefore(blocks, i)
  {
    if i > 0 {
      SentLength(blocks, i - 1);
      assert Sent(blocks)[..i][..i - 1] == Sent(blocks)[..i - 1];
    }
  }

  lemma GroupLayoutTable(g: Group, i: nat)
    requires |g.transactionBlocks| < 256 && i < |g.transactionBlocks|
    ensures var s, n, b := EncodeGroup(g), |g.transactionBlocks|, g.transactionBlocks[i];
            && 5 + 2 * i <= 3 + 2 * n <= |s|
            && s[0] as nat == n && s[1..3] == LittleEndian(g.Height, 2)
            && s[3 + 2 * i..5 + 2 * i] == LittleEndian(|b| % 65536, 2)
  {
    hide LengthChunks, Sent, Join, LittleEndian;
    var blocks, n := g.transactionBlocks, |g.transactionBlocks|;
    var head, table, data := [n as byte] + LittleEndian(g.Height, 2), Join(LengthChunks(blocks)), Join(Sent(blocks));
    JoinLength(LengthChunks(blocks), 2);
    JoinChunk(LengthChunks(blocks), 2, i);
    assert EncodeGroup(g) == head + table + data;
    SliceWithin(head, table, data, i * 2, (i + 1) * 2);
  }

  lemma GroupLayoutBlock(g: Group, i: nat)
    requires |g.transactionBlocks| < 256 && i < |g.transactionBlocks|
    ensures var s, n, b := EncodeGroup(g), |g.transactionBlocks|, g.transactionBlocks[i];
            var at := 3 + 2 * n + SentBefore(g.transactionBlocks, i);
            at + |b| % 65536 <= |s| && s[at..at + |b| % 65536] == b[..|b| % 65536]
  {
    hide LengthChunks, Join, LittleEndian, SentBefore;
    var blocks, n := g.transactionBlocks, |g.transactionBlocks|;
    var ahead := [n as byte] + LittleEndian(g.Height, 2) + Join(LengthChunks(blocks));
    JoinLength(LengthChunks(blocks), 2);
    JoinSplit(Sent(blocks), i);
    SentLength(blocks, i);
    var before, here, after := Join(Sent(blocks)[..i]), Sent(blocks)[i], Join(Sent(blocks)[i + 1..]);
    assert EncodeGroup(g) == ahead + (before + here + after);
    assert ahead + (before + here + after) == (ahead + before) + here + after;
    Middle(ahead + before, here, after);
  }

  // ---------------------------------------------------------------- Merkle proofs and trees

  lemma ProofLayout(ps: MP.ProofStruct, k: nat)
    requires ps.WellFormed() && k < ps.proofSize as nat
    ensures var s := PC.Encode(ps);
            && |s| == 2 + 32 * ps.proofSize as nat + |ps.data| && s[0] == ps.applicationOrder && s[1] == ps.proofSize
            && s[2 + 32 * k..34 + 32 * k] == ps.proofArray[32 * k..32 * k + 32]
            && s[2 + 32 * ps.proofSize as nat..] == ps.data
  {
    var used := ps.proofArray[..32 * ps.proofSize as nat];
    assert PC.Encode(ps) == [ps.applicationOrder, ps.proofSize] + used + ps.data;
    SliceWithin([ps.applicationOrder, ps.proofSize], used, ps.data, 32 * k, 32 * k + 32);
  }

  /** Proofs of one and of two hashes, hash by hash: the lowest bit of the order byte is used first, and a one puts the
      hash from the proof on the left. */
  lemma SmallProofs(ps: MP.ProofStruct, order: byte)
    requires ps.WellFormed() && ps.applicationOrder == order && 1 <= ps.proofSize <= 2
    ensures var own, first := Sum256(ps.data), ps.proofArray[0..32];
            var up := if order % 2 == 1 then Sum256(first + own) else Sum256(own + first);
            && (ps.proofSize == 1 ==> MP.ProofRoot(ps) == up)
            && (ps.proofSize == 2 ==>
                  var second := ps.proofArray[32..64];
                  MP.ProofRoot(ps) == if order / 2 % 2 == 1 then Sum256(second + up) else Sum256(up + second))
  {
    assert MP.Shr(order as nat, 0) == order as nat && MP.Shr(order as nat, 1) == order as nat / 2;
    assert MP.Fold(ps, 0) == Sum256(ps.data) && ps.Sibling(0) == ps.proofArray[0..32];
    assert MP.Fold(ps, 1) == MP.Join(MP.Bit(order, 0), ps.Sibling(0), MP.Fold(ps, 0));
    if ps.proofSize == 2 {
      assert ps.Sibling(1) == ps.proofArray[32..64];
      assert MP.Fold(ps, 2) == MP.Join(MP.Bit(order, 1), ps.Sibling(1), MP.Fold(ps, 1));
    }
  }

  /** The roots of small trees, hash by hash: the first elements share the lowest level. */
  lemma SmallRoots(a: Bytes, b: Bytes, c: Bytes)
    ensures Root(Compact([a])) == Sum256(a)
    ensures Root(Compact([a, b])) == Sum256(Sum256(a) + Sum256(b))
    ensures Root(Compact([a, b, c])) == Sum256(Sum256(Sum256(a) + Sum256(b)) + Sum256(c))
  {
    assert Len8(0) == 0 && Len8(1) == 1 && Len8(2) == 2 && Len8(3) == 2;
    assert Pow2(0) == 1 && Pow2(1) == 2;
    assert Compact([a]) == Leaf(a);
    var two, three := [a, b], [a, b, c];
    assert Node(two, 1, 0) == Leaf(a) && Node(two, 1, 1) == Leaf(b);
    assert Node(three, 1, 0) == Inner(Leaf(a), Leaf(b)) && Node(three, 1, 1) == Leaf(c);
    TwoLeaves(a, b);
  }

  lemma TwoLeaves(a: Bytes, b: Bytes)
    ensures Root(Leaf(a)) == Sum256(a) && Root(Inner(Leaf(a), Leaf(b))) == Sum256(Sum256(a) + Sum256(b))
  {
  }

  lemma FiveLeaves(a: Bytes, b: Bytes, c: Bytes, d: Bytes, e: Bytes)
    ensures var left, right := Sum256(Sum256(Sum256(a) + Sum256(b)) + Sum256(c)), Sum256(Sum256(d) + Sum256(e));
            Root(Compact([a, b, c, d, e])) == Sum256(left + right)
  {
    hide Root, HashPair;
    var five := [a, b, c, d, e];
    assert Len8(5) == 3 by {
      assert Len8(0) == 0 && Len8(1) == 1 && Len8(2) == 2;
    }
    assert Pow2(0) == 1 && Pow2(1) == 2 && Pow2(2) == 4;
    assert Node(five, 2, 0) == Inner(Leaf(a), Leaf(b)) && Node(five, 2, 1) == Leaf(c);
    assert Node(five, 2, 2) == Leaf(d) && Node(five, 2, 3) == Leaf(e);
    assert Node(five, 1, 0) == Inner(Inner(Leaf(a), Leaf(b)), Leaf(c)) && Node(five, 1, 1) == Inner(Leaf(d), Leaf(e));
    var left, right := Inner(Inner(Leaf(a), Leaf(b)), Leaf(c)), Inner(Leaf(d), Leaf(e));
    assert Compact(five) == Inner(left, right);
    TwoLeaves(a, b);
    TwoLeaves(d, e);
    TwoLeaves(c, c);
    RootOfInner(Inner(Leaf(a), Leaf(b)), Leaf(c));
    RootOfInner(left, right);
  }

  lemma RootOfInner(left: Tree, right: Tree)
    ensures Root(Inner(left, right)) == Sum256(Root(left) + Root(right))
  {
  }
}
