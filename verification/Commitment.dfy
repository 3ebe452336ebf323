/** What the Merkle root in a header says about transactions.  The tree does not tell leaves from inner nodes, but no
    transaction block is as short as the 64 bytes under an inner node. */
module Commitments {
  import opened Bytes
  import opened Transactions
  import opened MerkleShape
  import opened MerkleProof
  import opened Blocks

  lemma BlocksAreLong(b: Bytes)
    requires BlockDecodable(b)
    ensures |b| > 64
  {
    assert BlockLength(b[0] as nat, b[1] as nat) >= 2 + KEY_SIZE + SIGNATURE_SIZE;
  }

  lemma LeavesAreLong(g: Group)
    requires g.Valid()
    ensures forall d :: d in g.transactionBlocks ==> |d| != 64
  {
    forall k | 0 <= k < |g.transactionBlocks| ensures |g.transactionBlocks[k]| != 64 {
      assert BlockMatches(g.TransactionBlockStructs[k], g.transactionBlocks[k]);
      BlocksAreLong(g.transactionBlocks[k]);
    }
  }

  /** A header commits to its data: two groups with its Merkle root hold the same transactions, or two byte strings with
      one hash are at hand. */
  lemma HeaderCommitsToData(g: Group, h: Group)
    requires g.Valid() && h.Valid() && g.MerkleRoot() == h.MerkleRoot()
    ensures var c := RootCollision(Compact(g.transactionBlocks), Compact(h.transactionBlocks));
            || Collision(c.0, c.1)
            || (&& g.transactionBlocks == h.transactionBlocks
                && forall k :: 0 <= k < |g.TransactionBlockStructs| ==>
                     Unresolved(g.TransactionBlockStructs[k]) == Unresolved(h.TransactionBlockStructs[k]))
  {
    LeavesAreLong(g);
    LeavesAreLong(h);
    RootBinding(g.transactionBlocks, h.transactionBlocks);
    if g.transactionBlocks == h.transactionBlocks {
      forall k | 0 <= k < |g.TransactionBlockStructs|
        ensures Unresolved(g.TransactionBlockStructs[k]) == Unresolved(h.TransactionBlockStructs[k])
      {
        assert BlockMatches(g.TransactionBlockStructs[k], g.transactionBlocks[k]);
        assert BlockMatches(h.TransactionBlockStructs[k], h.transactionBlocks[k]);
      }
    }
  }

  /** A proof for a header, whatever its size and order bytes, whose data can be read as a transaction block proves a
      block of the group behind the header, or two byte strings with one hash are at hand. */
  lemma ProvenBlockIsInGroup(g: Group, ps: ProofStruct)
    requires g.Valid() && ps.WellFormed() && BlockDecodable(ps.data) && ProofRoot(ps) == g.MerkleRoot()
    ensures var size := ps.proofSize as nat;
            var i := ProvenIndex(|g.transactionBlocks|, ps.applicationOrder, size);
            var c := ProofCollision(Compact(g.transactionBlocks), ps, size);
            || Collision(c.0, c.1)
            || (i < |g.TransactionBlockStructs|
                && Unresolved(g.TransactionBlockStructs[i]) == DecodeBlock(ps.data, _ => None))
  {
    LeavesAreLong(g);
    BlocksAreLong(ps.data);
    Soundness(g.transactionBlocks, ps);
    var i := ProvenIndex(|g.transactionBlocks|, ps.applicationOrder, ps.proofSize as nat);
    if i < |g.transactionBlocks| {
      assert BlockMatches(g.TransactionBlockStructs[i], g.transactionBlocks[i]);
    }
  }
}
