/** How a miner forms a group: a fee block, then requested transactions as long as they do not spend the same output
    twice between them. */
module GroupBuilding {
  import opened Bytes
  import opened Transactions
  import opened MerkleTrees
  import opened TransactionCodec
  import opened GroupCodec
  import opened Ledger
  import opened Verification
  import opened Blocks
  import opened UtxoManagers

  /** RSA signing, as an arbitrary function. */
  const SignWith: (Digest, Bytes) -> Signature

  /** What is signed with `priv` is accepted under `pub`. */
  ghost predicate KeyPair(priv: Bytes, pub: PublicKey) {
    forall d: Digest :: SignatureOk(d, SignWith(d, priv), pub)
  }

  // ---------------------------------------------------------------- what Add checks

  /** No block refers to an output that an earlier block of the group refers to. */
  ghost predicate CrossDistinct(blocks: seq<TransactionBlock>) {
    forall k :: 0 <= k < |blocks| ==> NewRefs(blocks[..k], blocks[k])
  }

  ghost predicate NewRefs(blocks: seq<TransactionBlock>, tb: TransactionBlock) {
    forall r :: r in tb.Refs() ==> r !in GroupRefs(blocks)
  }

  lemma CrossDistinctPrefix(blocks: seq<TransactionBlock>, k: nat)
    requires CrossDistinct(blocks) && k <= |blocks|
    ensures CrossDistinct(blocks[..k])
  {
    forall j | 0 <= j < k ensures NewRefs(blocks[..k][..j], blocks[..k][j]) {
      assert blocks[..k][..j] == blocks[..j] && NewRefs(blocks[..j], blocks[j]);
    }
  }

  /** Two lists may be spent together iff each of them may and they have nothing in common. */
  lemma RefsOkTogether(m: Utxo, a: seq<TransactionRef>, b: seq<TransactionRef>)
    requires forall r :: r in b ==> r !in a
    ensures RefsOk(m, a + b) <==> RefsOk(m, a) && RefsOk(m, b)
  {
    var all := a + b;
    if RefsOk(m, all) {
      assert forall i :: 0 <= i < |a| ==> a[i] == all[i];
      assert forall i :: 0 <= i < |b| ==> b[i] == all[|a| + i];
    }
    if RefsOk(m, a) && RefsOk(m, b) {
      forall i, j | 0 <= i < j < |all| ensures all[i] != all[j] {
        if i < |a| <= j {
          assert all[j] == b[j - |a|] && b[j - |a|] in b && all[i] in a;
        }
      }
    }
  }

  /** Building implies verification: a group that `Add` put together passes the check of the whole group exactly when
      each of its blocks passes the check of a single block. */
  lemma {:induction false} GroupRefsOk(m: Utxo, blocks: seq<TransactionBlock>)
    requires CrossDistinct(blocks)
    ensures RefsOk(m, GroupRefs(blocks)) <==> forall k :: 0 <= k < |blocks| ==> RefsOk(m, blocks[k].Refs())
  {
    if blocks != [] {
      var n := |blocks| - 1;
      var front := blocks[..n];
      CrossDistinctPrefix(blocks, n);
      GroupRefsOk(m, front);
      assert NewRefs(front, blocks[n]);
      RefsOkTogether(m, GroupRefs(front), blocks[n].Refs());
      assert forall k :: 0 <= k < n ==> front[k] == blocks[k];
    }
  }

  /** The single check is needed: `Add` itself takes a block that spends one output twice. */
  lemma AddMissesRepetition(m: Utxo, tb: TransactionBlock, r: TransactionRef)
    requires tb.Refs() == [r, r]
    ensures CrossDistinct([tb]) && !RefsOk(m, GroupRefs([tb]))
  {
    var refs := GroupRefs([tb]);
    assert [tb][..0] == [] && GroupRefs([tb][..0]) == [];
    assert refs == [r, r] && refs[0] == refs[1];
  }

  // ---------------------------------------------------------------- the builder

  ghost predicate Serialized(structs: seq<TransactionBlock>, blocks: seq<Bytes>, lengths: seq<Uint16>) {
    && |structs| == |blocks| == |lengths|
    && forall k :: 0 <= k < |structs| ==>
         structs[k].CountsMatch() && blocks[k] == EncodeBlock(structs[k]) && lengths[k] == LengthOf(blocks[k])
  }

  lemma SerializedMatches(height: Uint16, structs: seq<TransactionBlock>, blocks: seq<Bytes>, lengths: seq<Uint16>)
    requires Serialized(structs, blocks, lengths) && 0 < |structs| < 256
    ensures Group(height, structs, blocks).Valid()
  {
    forall k | 0 <= k < |structs| ensures BlockMatches(structs[k], blocks[k]) {
      BlockRoundTrip(structs[k], _ => None);
      assert Unresolved(structs[k]).InputList == DecodeBlock(blocks[k], _ => None).InputList;
    }
  }

  class TransactionBlockGroup {
    var size: byte
    var lengths: seq<Uint16>
    var transactionBlocks: seq<Bytes>
    var TransactionBlockStructs: seq<TransactionBlock>
    const merkleTree: MerkleTree
    var finalized: bool
    var Height: Uint16
    var inputRefsMap: set<Bytes>

    ghost predicate Valid()
      reads this, merkleTree, merkleTree.Repr
    {
      && merkleTree.Valid() && this !in merkleTree.Repr && merkleTree.finalized == finalized
      && size as nat == U8(|TransactionBlockStructs|)
      && merkleTree.data == Covered(transactionBlocks)
      && Serialized(TransactionBlockStructs, transactionBlocks, lengths)
      && KeysOf(inputRefsMap, GroupRefs(TransactionBlockStructs)) && CrossDistinct(TransactionBlockStructs)
    }

    function AsGroup(): Group
      reads this
    {
      Group(Height, TransactionBlockStructs, transactionBlocks)
    }

    constructor initializeTransactionBlockGroup()
      ensures Valid() && !finalized && TransactionBlockStructs == [] && fresh(merkleTree) && fresh(merkleTree.Repr)
    {
      size, lengths, transactionBlocks, TransactionBlockStructs := 0, [], [], [];
      merkleTree := new MerkleTree.InitializeMerkleTree();
      finalized, Height, inputRefsMap := false, 0, {};
    }

    /** The keys of the inputs, unless one of them is taken. */
    method CollectKeys(tb: TransactionBlock) returns (ok: bool, keylist: set<Bytes>)
      requires Valid()
      ensures ok <==> NewRefs(TransactionBlockStructs, tb)
      ensures ok ==> KeysOf(keylist, tb.Refs())
    {
      var refs := tb.Refs();
      keylist := {};
      for i := 0 to |tb.InputList|
        invariant forall j :: 0 <= j < i ==> refs[j] !in GroupRefs(TransactionBlockStructs)
        invariant KeysOf(keylist, refs[..i])
      {
        var key := EncodeRef(tb.InputList[i].reference);
        if key in inputRefsMap {
          assert refs[i] in tb.Refs();
          return false, keylist;
        }
        OneMoreKey(keylist, refs, i);
        keylist := keylist + {key};
      }
      assert refs[..|tb.InputList|] == refs;
      ok := true;
    }

    method Add(tb: TransactionBlock) returns (ok: bool)
      requires Valid() && tb.CountsMatch()
      modifies this, merkleTree
      ensures Valid() && finalized == old(finalized) && merkleTree.Repr == old(merkleTree.Repr) && Height == old(Height)
      ensures ok <==> !old(finalized) && NewRefs(old(TransactionBlockStructs), tb)
      ensures TransactionBlockStructs ==
                if ok then old(TransactionBlockStructs) + [tb] else old(TransactionBlockStructs)
    {
      hide KeysOf, CrossDistinct, Serialized, NewRefs, MerkleTree.Valid;
      if finalized {
        return false;
      }
      var keylist;
      ok, keylist := CollectKeys(tb);
      if !ok {
        return;
      }
      var stb := serializeTransactionBlock(tb);
      Append(tb, stb, keylist);
    }

    method Append(tb: TransactionBlock, stb: Bytes, keylist: set<Bytes>)
      requires Valid() && !finalized && tb.CountsMatch() && stb == EncodeBlock(tb)
      requires NewRefs(TransactionBlockStructs, tb) && KeysOf(keylist, tb.Refs())
      modifies this, merkleTree
      ensures Valid() && !finalized && merkleTree.Repr == old(merkleTree.Repr) && Height == old(Height)
      ensures TransactionBlockStructs == old(TransactionBlockStructs) + [tb]
    {
      hide KeysOf, CrossDistinct, Serialized, NewRefs, MerkleTree.Valid, EncodeBlock;
      TreeHasElements();
      GroupGrows(TransactionBlockStructs, tb, inputRefsMap, keylist);
      inputRefsMap := inputRefsMap + keylist;
      size := U8(size as nat + 1) as byte;
      SerializedGrows(TransactionBlockStructs, transactionBlocks, lengths, tb, stb);
      lengths := lengths + [LengthOf(stb)];
      transactionBlocks := transactionBlocks + [stb];
      merkleTree.Add(stb);
      TransactionBlockStructs := TransactionBlockStructs + [tb];
    }

    lemma NothingShared()
      requires Valid()
      ensures CrossDistinct(TransactionBlockStructs)
    {
    }

    lemma TreeHasElements()
      requires Valid()
      ensures merkleTree.elements == |merkleTree.data|
      ensures TransactionBlockStructs != [] ==> merkleTree.elements > 0
      ensures |transactionBlocks| == |TransactionBlockStructs|
    {
    }

    method finalizeTransactionBlockGroup()
      requires Valid() && TransactionBlockStructs != []
      modifies this, merkleTree
      ensures Valid() && finalized && TransactionBlockStructs == old(TransactionBlockStructs)
      ensures |TransactionBlockStructs| < 256 ==> AsGroup().Valid() && merkleTree.data == AsGroup().transactionBlocks
      ensures fresh(merkleTree.Repr - old(merkleTree.Repr))
    {
      hide KeysOf, CrossDistinct, Serialized;
      TreeHasElements();
      merkleTree.FinalizeTree();
      finalized := true;
      if |TransactionBlockStructs| < 256 {
        SerializedMatches(Height, TransactionBlockStructs, transactionBlocks, lengths);
      }
    }
  }

  /** The Merkle tree takes no more than 255 blocks and ignores the rest. */
  function Covered(blocks: seq<Bytes>): seq<Bytes> {
    if |blocks| <= 255 then blocks else blocks[..255]
  }

  lemma OneMoreKey(keys: set<Bytes>, refs: seq<TransactionRef>, i: nat)
    requires i < |refs| && KeysOf(keys, refs[..i])
    ensures KeysOf(keys + {EncodeRef(refs[i])}, refs[..i + 1])
  {
    assert refs[..i + 1] == refs[..i] + [refs[i]];
    forall tr ensures EncodeRef(tr) in keys + {EncodeRef(refs[i])} <==> tr in refs[..i + 1] {
      if EncodeRef(tr) == EncodeRef(refs[i]) {
        RefKeysAreInjective(tr, refs[i]);
      }
    }
  }

  lemma SerializedGrows(structs: seq<TransactionBlock>, blocks: seq<Bytes>, lengths: seq<Uint16>,
                        tb: TransactionBlock, stb: Bytes)
    requires Serialized(structs, blocks, lengths) && tb.CountsMatch() && stb == EncodeBlock(tb)
    ensures Serialized(structs + [tb], blocks + [stb], lengths + [LengthOf(stb)])
    ensures |structs| == |blocks| == |lengths| && U8(U8(|structs|) + 1) == U8(|structs| + 1)
    ensures Covered(blocks + [stb]) == if |blocks| <= 254 then Covered(blocks) + [stb] else Covered(blocks)
    ensures |Covered(blocks)| <= 254 <==> |blocks| <= 254
  {
    hide EncodeBlock;
    assert |blocks| > 254 ==> (blocks + [stb])[..255] == blocks[..255];
  }

  lemma GroupGrows(blocks: seq<TransactionBlock>, tb: TransactionBlock, keys: set<Bytes>, more: set<Bytes>)
    requires CrossDistinct(blocks) && NewRefs(blocks, tb) && KeysOf(keys, GroupRefs(blocks)) && KeysOf(more, tb.Refs())
    ensures CrossDistinct(blocks + [tb]) && KeysOf(keys + more, GroupRefs(blocks + [tb]))
  {
    var longer := blocks + [tb];
    assert longer[..|blocks|] == blocks;
    forall k | 0 <= k < |longer| ensures NewRefs(longer[..k], longer[k]) {
      if k < |blocks| {
        assert longer[..k] == blocks[..k] && NewRefs(blocks[..k], blocks[k]);
      }
    }
  }
}
