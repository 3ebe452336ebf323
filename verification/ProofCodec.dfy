/** The transport form of a Merkle proof. */
module ProofCodec {
  import opened Bytes
  import opened MerkleProof
  import opened MerkleTrees

  function Encode(ps: ProofStruct): Bytes
    requires ps.WellFormed()
  {
    [ps.applicationOrder, ps.proofSize] + ps.proofArray[..32 * ps.proofSize as nat] + ps.data
  }

  /** Decoding slices as many hashes off the input as its second byte says. */
  predicate Decodable(ret: Bytes) {
    |ret| >= 2 && |ret| >= 2 + 32 * ret[1] as nat
  }

  function Decode(ret: Bytes): ProofStruct
    requires Decodable(ret)
  {
    var psize := 32 * ret[1] as nat;
    ProofStruct(ret[0], ret[1], ret[2..2 + psize], ret[2 + psize..])
  }

  method SerializeProofStruct(ps: ProofStruct) returns (out: Bytes)
    requires ps.WellFormed()
    ensures out == Encode(ps)
  {
    var dlen := |ps.data|;
    var psize := 32 * ps.proofSize as nat;
    var ret := new byte[1 + 1 + psize + dlen];
    ret[0] := ps.applicationOrder;
    ret[1] := ps.proofSize;
    CopyInto(ret, 2, ps.proofArray[0..psize]);
    CopyInto(ret, 2 + psize, ps.data);
    out := ret[..];
  }

  method DeserializeProofStruct(ret: Bytes) returns (pf: ProofStruct)
    requires Decodable(ret)
    ensures pf == Decode(ret) && pf.WellFormed()
  {
    var psize := 32 * ret[1] as nat;
    var dlen := |ret| - psize - 2;
    var proofArray := new byte[psize];
    CopyInto(proofArray, 0, ret[2..2 + psize]);
    var data := new byte[dlen];
    CopyInto(data, 0, ret[2 + psize..2 + psize + dlen]);
    pf := ProofStruct(ret[0], ret[1], proofArray[..], data[..]);
  }

  /** Only surplus bytes of the proof array are lost, and those are never looked at. */
  lemma DecodeEncode(ps: ProofStruct)
    requires ps.WellFormed()
    ensures Decodable(Encode(ps))
    ensures Decode(Encode(ps)) == ps.(proofArray := ps.proofArray[..32 * ps.proofSize as nat])
  {
    var ret := Encode(ps);
    var psize := 32 * ps.proofSize as nat;
    assert ret[2..2 + psize] == ps.proofArray[..psize];
    assert ret[2 + psize..] == ps.data;
  }

  lemma EncodeDecode(ret: Bytes)
    requires Decodable(ret)
    ensures Encode(Decode(ret)) == ret
  {
    var psize := 32 * ret[1] as nat;
    assert ret == ret[..2] + ret[2..2 + psize] + ret[2 + psize..];
  }

  lemma {:induction false} SurplusIsIgnored(ps: ProofStruct, qs: ProofStruct, k: nat)
    requires ps.WellFormed() && k <= ps.proofSize as nat
    requires qs == ps.(proofArray := ps.proofArray[..32 * ps.proofSize as nat])
    ensures Fold(qs, k) == Fold(ps, k)
  {
    if k > 0 {
      SurplusIsIgnored(ps, qs, k - 1);
      assert qs.Sibling(k - 1) == ps.Sibling(k - 1);
    }
  }

  /** A proof that went over the network computes the same root as the one that was sent. */
  lemma TransportKeepsRoot(ps: ProofStruct)
    requires ps.WellFormed()
    ensures Decodable(Encode(ps)) && Decode(Encode(ps)).WellFormed()
    ensures ProofRoot(Decode(Encode(ps))) == ProofRoot(ps)
  {
    DecodeEncode(ps);
    SurplusIsIgnored(ps, Decode(Encode(ps)), ps.proofSize as nat);
  }

  /** The whole way: finalize, generate for any element, send, receive, verify. */
  method ProveAndSend(tree: MerkleTree, i: byte) returns (ok: bool)
    requires tree.Valid() && tree.finalized && i as nat < tree.elements
    ensures ok
  {
    var proof := tree.GenerareteMerkleProof(i);
    var sent := SerializeProofStruct(proof.value);
    TransportKeepsRoot(proof.value);
    var received := DeserializeProofStruct(sent);
    var root := tree.GetMerkleRoot();
    ok := VerifyProofStruct(received, root);
  }
}
