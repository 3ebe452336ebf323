/** Block headers: layout, hash and proof of work; and the transaction data a header commits to. */
module Blocks {
  import opened Bytes
  import opened MerkleShape
  import opened Transactions

  type Uint32 = x: nat | x < 0x1_0000_0000
  type Uint16 = x: nat | x < 0x1_0000

  const BLOCK_SIZE: nat := 76

  datatype Block =
    Block(MerkleRoot: Digest, PrevHash: Digest, Nonce: Uint32, Difficulty: Uint32, BlockCount: Uint32)

  function EncodeHeader(b: Block): (d: Bytes)
    ensures |d| == BLOCK_SIZE
  {
    b.MerkleRoot + b.PrevHash + LittleEndian(b.Nonce, 4) + LittleEndian(b.Difficulty, 4) + LittleEndian(b.BlockCount, 4)
  }

  lemma FourBytes()
    ensures Pow256(4) == 0x1_0000_0000
  {
  }

  function DecodeHeader(d: Bytes): Block
    requires |d| == BLOCK_SIZE
  {
    FourBytes();
    FromLittleEndianBound(d[64..68]);
    FromLittleEndianBound(d[68..72]);
    FromLittleEndianBound(d[72..76]);
    Block(d[0..32], d[32..64],
          FromLittleEndian(d[64..68]), FromLittleEndian(d[68..72]), FromLittleEndian(d[72..76]))
  }

  lemma HeaderRoundTrip(b: Block)
    ensures DecodeHeader(EncodeHeader(b)) == b
  {
    var d := EncodeHeader(b);
    FourBytes();
    LittleEndianRoundTrip(b.Nonce, 4);
    LittleEndianRoundTrip(b.Difficulty, 4);
    LittleEndianRoundTrip(b.BlockCount, 4);
    var pre := b.MerkleRoot + b.PrevHash + LittleEndian(b.Nonce, 4) + LittleEndian(b.Difficulty, 4);
    assert |pre| == 72 && d == pre + LittleEndian(b.BlockCount, 4);
    assert d[0..32] == b.MerkleRoot && d[32..64] == b.PrevHash;
    assert d[64..68] == LittleEndian(b.Nonce, 4);
    assert d[68..72] == LittleEndian(b.Difficulty, 4);
    assert d[72..76] == LittleEndian(b.BlockCount, 4);
  }

  method serializeBlock(b: Block) returns (out: Bytes)
    ensures out == EncodeHeader(b)
  {
    var d := new byte[BLOCK_SIZE];
    CopyInto(d, 0, b.MerkleRoot);
    CopyInto(d, 32, b.PrevHash);
    CopyInto(d, 64, LittleEndian(b.Nonce, 4));
    CopyInto(d, 68, LittleEndian(b.Difficulty, 4));
    CopyInto(d, 72, LittleEndian(b.BlockCount, 4));
    out := d[..];
  }

  function Hash(b: Block): Digest {
    Sum256(EncodeHeader(b))
  }

  /** Two headers with one hash are equal or an explicit collision. */
  lemma HashBinds(a: Block, b: Block)
    requires Hash(a) == Hash(b)
    ensures a == b || Collision(EncodeHeader(a), EncodeHeader(b))
  {
    HeaderRoundTrip(a);
    HeaderRoundTrip(b);
  }

  /** `compHash` slices `Difficulty` bytes off a hash, which fails above 32. */
  predicate Comparable(b: Block) {
    b.Difficulty <= 32
  }

  predicate Verify(b: Block)
    requires Comparable(b)
  {
    Hash(b)[..b.Difficulty] == Zeros(b.Difficulty)
  }

  /** The proof of work, byte by byte: as many zeros as the difficulty says lead the hash of the 76 header bytes. */
  ghost predicate Worked(b: Block) {
    b.Difficulty <= 32 && forall i :: 0 <= i < b.Difficulty ==> Sum256(EncodeHeader(b))[i] == 0
  }

  lemma WorkedExactly(b: Block)
    ensures Worked(b) <==> Comparable(b) && Verify(b)
    ensures Comparable(b) <==> b.Difficulty <= 32
  {
    if Comparable(b) && Worked(b) {
      assert Hash(b)[..b.Difficulty] == Zeros(b.Difficulty);
    }
    if Comparable(b) && Verify(b) {
      forall i | 0 <= i < b.Difficulty ensures Sum256(EncodeHeader(b))[i] == 0 {
        assert Hash(b)[..b.Difficulty][i] == Zeros(b.Difficulty)[i];
      }
    }
  }

  /** What a miner hashes: the header of a block on top of `head`, up to the nonce that is searched. */
  function PrepareBlock(head: Block, merkleRoot: Digest, nonce: Uint32): Block {
    Block(merkleRoot, Hash(head), nonce, head.Difficulty, (head.BlockCount + 1) % 0x1_0000_0000)
  }

  /** A header on top of `head`: it commits to the data, names the hash of the head, demands the same work, and counts
      one more. */
  ghost predicate PreparedFor(b: Block, head: Block, merkleRoot: Digest) {
    && b.MerkleRoot == merkleRoot && b.PrevHash == Sum256(EncodeHeader(head)) && b.Difficulty == head.Difficulty
    && b.BlockCount == if head.BlockCount == 0xFFFF_FFFF then 0 else head.BlockCount + 1
  }

  lemma PreparedExactly(b: Block, head: Block, merkleRoot: Digest)
    ensures PreparedFor(b, head, merkleRoot) <==> b == PrepareBlock(head, merkleRoot, b.Nonce)
  {
  }

  // ---------------------------------------------------------------- groups

  /** A finalized transaction block group: it is never changed again. */
  datatype Group = Group(Height: Uint16, TransactionBlockStructs: seq<TransactionBlock>,
        transactionBlocks: seq<Bytes>) {
    /** What building and receiving both guarantee, for groups of 1 to 255 blocks. */
    predicate Valid() {
      && 0 < |TransactionBlockStructs| == |transactionBlocks| < 256
      && forall k :: 0 <= k < |TransactionBlockStructs| ==> BlockMatches(TransactionBlockStructs[k],
            transactionBlocks[k])
    }

    function MerkleRoot(): Digest
      requires transactionBlocks != []
    {
      Root(Compact(transactionBlocks))
    }
  }

  /** Nothing is resolved. */
  function Unresolved(tb: TransactionBlock): TransactionBlock {
    Resolved(tb, _ => None)
  }

  /** The block is what its bytes decode to, whatever was resolved since. */
  predicate BlockMatches(tb: TransactionBlock, bytes: Bytes) {
    tb.CountsMatch() && BlockDecodable(bytes) && Unresolved(tb) == DecodeBlock(bytes, _ => None)
  }
}
