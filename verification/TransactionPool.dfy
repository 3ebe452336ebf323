/** The pool of requested transactions and the groups a miner forms from it. */
module TransactionPools {
  import opened Bytes
  import opened Transactions
  import opened TransactionCodec
  import opened Ledger
  import opened Verification
  import opened Blocks
  import opened UtxoManagers
  import opened GroupBuilding

  // ---------------------------------------------------------------- signing

  /** An output is signed while its signature is zero. */
  function SignOutput(to: TransactionOutput, priv: Bytes): TransactionOutput {
    to.(Signature := SignWith(Sum256(OutputPreSignature(to)), priv))
  }

  function SignBlock(tb: TransactionBlock, priv: Bytes): TransactionBlock {
    tb.(Signature := SignWith(GetPreSignature(tb), priv))
  }

  /** A signed block carries a signature that is accepted for it. */
  lemma SignedBlockIsAccepted(tb: TransactionBlock, priv: Bytes)
    requires KeyPair(priv, tb.PayerPublicKey)
    ensures var s := SignBlock(tb, priv); SignatureOk(GetPreSignature(s), s.Signature, s.PayerPublicKey)
  {
    BlockSignatureExcludesItself(tb, SignWith(GetPreSignature(tb), priv));
  }

  /** An output that was signed when its signature was still zero: over its first 202 bytes and 32 zeros. */
  ghost predicate SignedOutput(o: TransactionOutput, priv: Bytes) {
    o.Signature == SignWith(Sum256(EncodeOutput(o)[..202] + Zeros(32)), priv)
  }

  lemma SigningSigns(to: TransactionOutput, priv: Bytes)
    requires to.Signature == Zeros(128)
    ensures SignedOutput(SignOutput(to, priv), priv)
  {
    var ahead := LittleEndian(to.Amount, 8) + to.ReceiverPublicKey + to.text;
    assert OutputPreSignature(to) == ahead + Zeros(32);
    assert EncodeOutput(SignOutput(to, priv))[..202] == ahead;
  }

  // ---------------------------------------------------------------- fee blocks

  /** A block without inputs and with one output: one coin, of 10^9, to the miner, who pays for it, too.  The text of
      the output starts with a counter, so that no two of them are alike. */
  ghost predicate FeeFor(tb: TransactionBlock, pub: PublicKey, i: Uint32) {
    && tb.InputList == [] && tb.PayerPublicKey == pub && |tb.OutputList| == 1
    && tb.OutputList[0].Amount == 1_000_000_000 && tb.OutputList[0].ReceiverPublicKey == pub
    && tb.OutputList[0].text[..4] == LittleEndian(i, 4) && forall k :: 4 <= k < 32 ==> tb.OutputList[0].text[k] == 0
  }

  lemma FeesDiffer(a: TransactionBlock, b: TransactionBlock, pub: PublicKey, i: Uint32, j: Uint32)
    requires FeeFor(a, pub, i) && FeeFor(b, pub, j) && i != j
    ensures a.OutputList[0] != b.OutputList[0]
  {
    assert Pow256(4) == 0x1_0000_0000;
    LittleEndianRoundTrip(i, 4);
    LittleEndianRoundTrip(j, 4);
  }

  function FeeText(i: Uint32): Text {
    LittleEndian(i, 4) + Zeros(28)
  }

  /** One coin for the miner, from nowhere. */
  method generateFeeBlock(i: Uint32, pub: PublicKey, priv: Bytes) returns (tb: TransactionBlock)
    ensures tb.CountsMatch() && FeeFor(tb, pub, i) && SignedOutput(tb.OutputList[0], priv)
    ensures tb.Refs() == [] && OutputSum(tb.OutputList) == DAVIDCOIN
    ensures KeyPair(priv, pub) ==> Passes(tb, true)
    ensures !Passes(tb, false)
  {
    var to := TransactionOutput(1 * DAVIDCOIN, Zeros(SIGNATURE_SIZE), pub, FeeText(i));
    SigningSigns(to, priv);
    to := SignOutput(to, priv);
    tb := TransactionBlock(0, 1, [], [to], Zeros(SIGNATURE_SIZE), pub);
    assert OutputSum([to][..0]) == 0;
    if KeyPair(priv, pub) {
      SignedBlockIsAccepted(tb, priv);
    }
    tb := SignBlock(tb, priv);
  }

  // ---------------------------------------------------------------- the pool

  function HashOf(tb: TransactionBlock): Digest {
    Sum256(EncodeBlock(tb))
  }

  ghost predicate Requests(pool: map<Digest, TransactionBlock>) {
    forall h :: h in pool ==> pool[h].CountsMatch() && h == HashOf(pool[h])
  }

  /** A request that enters replaces no other one: whatever was in the pool still is, or it is the same request, or two
      byte strings with one hash are at hand. */
  lemma OthersStay(pool: map<Digest, TransactionBlock>, h: Digest, tb: TransactionBlock)
    requires Requests(pool) && h in pool && tb.CountsMatch()
    ensures var other, pool' := pool[h], pool[HashOf(tb) := tb];
            || (h in pool' && pool'[h] == other)
            || Unresolved(other) == Unresolved(tb)
            || Collision(EncodeBlock(other), EncodeBlock(tb))
    ensures tb in pool[HashOf(tb) := tb].Values
  {
    hide EncodeBlock, DecodeBlock;
    assert pool[HashOf(tb) := tb][HashOf(tb)] == tb;
    var other := pool[h];
    if EncodeBlock(other) == EncodeBlock(tb) {
      BlockRoundTrip(other, _ => None);
      BlockRoundTrip(tb, _ => None);
    }
  }

  /** The blocks of a growing group: the fee block, then requests of either kind. */
  ghost predicate FromPool(blocks: seq<TransactionBlock>, feeblock: TransactionBlock,
                           priority: map<Digest, TransactionBlock>, verified: map<Digest, TransactionBlock>, m: Utxo)
  {
    && blocks != [] && blocks[0] == feeblock
    && forall k :: 0 < k < |blocks| ==> blocks[k] in priority.Values || Selected(blocks[k], verified, m)
  }

  ghost predicate Selected(tb: TransactionBlock, verified: map<Digest, TransactionBlock>, m: Utxo) {
    tb in verified.Values && RefsOk(m, tb.Refs())
  }

  lemma FromPoolGrows(blocks: seq<TransactionBlock>, tb: TransactionBlock, feeblock: TransactionBlock,
                      priority: map<Digest, TransactionBlock>, verified: map<Digest, TransactionBlock>, m: Utxo)
    requires FromPool(blocks, feeblock, priority, verified, m)
    requires tb in priority.Values || Selected(tb, verified, m)
    ensures FromPool(blocks + [tb], feeblock, priority, verified, m)
  {
  }

  /** A block without inputs is always added. */
  lemma FeeBlockFirst(feeblock: TransactionBlock, priority: map<Digest, TransactionBlock>,
                      verified: map<Digest, TransactionBlock>, m: Utxo)
    requires feeblock.Refs() == []
    ensures NewRefs([], feeblock) && FromPool([] + [feeblock], feeblock, priority, verified, m)
  {
  }

  /** A request is in the group, or was turned away because another block of the group refers to the same output. */
  ghost predicate Entered(blocks: seq<TransactionBlock>, tb: TransactionBlock) {
    tb in blocks || exists r :: r in tb.Refs() && r in GroupRefs(blocks)
  }

  /** Every request under `done` that may be spent, or that need not be checked, was entered. */
  ghost predicate AllEntered(blocks: seq<TransactionBlock>, requests: map<Digest, TransactionBlock>, done: set<Digest>,
                             m: Utxo, checked: bool)
  {
    forall h :: h in done && h in requests ==>
      (checked && !RefsOk(m, requests[h].Refs())) || Entered(blocks, requests[h])
  }

  lemma EnteredStays(blocks: seq<TransactionBlock>, tb: TransactionBlock, other: TransactionBlock)
    ensures Entered(blocks, other) ==> Entered(blocks + [tb], other)
    ensures Entered(blocks + [tb], tb)
  {
    assert (blocks + [tb])[..|blocks|] == blocks;
    if Entered(blocks, other) && other !in blocks {
      var r :| r in other.Refs() && r in GroupRefs(blocks);
      assert r in GroupRefs(blocks + [tb]);
    }
  }

  lemma NoneEntered(blocks: seq<TransactionBlock>, requests: map<Digest, TransactionBlock>, m: Utxo, checked: bool)
    ensures AllEntered(blocks, requests, {}, m, checked)
  {
  }

  /** What `Add` does with `requests[h]`. */
  lemma OneTried(blocks: seq<TransactionBlock>, after: seq<TransactionBlock>, tb: TransactionBlock,
                 requests: map<Digest, TransactionBlock>, done: set<Digest>, h: Digest, m: Utxo, checked: bool)
    requires AllEntered(blocks, requests, done, m, checked)
    requires after == if NewRefs(blocks, tb) then blocks + [tb] else blocks
    ensures AllEntered(after, requests, done, m, checked)
    ensures h in requests && requests[h] == tb ==> AllEntered(after, requests, done + {h}, m, checked)
  {
    hide RefsOk;
    forall k | k in done && k in requests ensures Entered(blocks, requests[k]) ==> Entered(after, requests[k]) {
      EnteredStays(blocks, tb, requests[k]);
    }
    EnteredStays(blocks, tb, tb);
  }

  lemma OnePassedOver(blocks: seq<TransactionBlock>, requests: map<Digest, TransactionBlock>, done: set<Digest>,
                      h: Digest, m: Utxo)
    requires AllEntered(blocks, requests, done, m, true) && h in requests && !RefsOk(m, requests[h].Refs())
    ensures AllEntered(blocks, requests, done + {h}, m, true)
  {
    hide RefsOk, Entered;
  }

  lemma NotEmpty(blocks: seq<TransactionBlock>, feeblock: TransactionBlock,
                 priority: map<Digest, TransactionBlock>, verified: map<Digest, TransactionBlock>, m: Utxo)
    requires FromPool(blocks, feeblock, priority, verified, m)
    ensures blocks != [] && blocks[0] == feeblock
  {
  }

  class TransactionPool {
    var signatureVerifiedRequest: map<Digest, TransactionBlock>
    var priorityRequest: map<Digest, TransactionBlock>
    var i: Uint32

    ghost predicate Valid()
      reads this
    {
      && Requests(signatureVerifiedRequest) && Requests(priorityRequest)
      && forall h :: h in signatureVerifiedRequest ==> Passes(signatureVerifiedRequest[h], false)
    }

    constructor initializeTransactionPool()
      ensures Valid() && signatureVerifiedRequest == map[] && priorityRequest == map[]
    {
      signatureVerifiedRequest, priorityRequest, i := map[], map[], 0;
    }

    /** A request from the network: only one that passes every check but the one against the outputs is kept. */
    method receiveTransactionBlock(tbArr: Bytes, lookup: Lookup) returns (verdict: Verdict)
      requires Valid() && BlockDecodable(tbArr)
      modifies this`signatureVerifiedRequest
      ensures Valid()
      ensures verdict == Good <==> Passes(DecodeBlock(tbArr, lookup), false)
      ensures signatureVerifiedRequest == if verdict != Good then old(signatureVerifiedRequest) else
                old(signatureVerifiedRequest)[HashOf(DecodeBlock(tbArr, lookup)) := DecodeBlock(tbArr, lookup)]
    {
      hide Passes, Crashes, EncodeBlock;
      var tb, unresolved := deserializeTransactionBlock(tbArr, lookup);
      verdict := verifyExceptUTXO(tb, false);
      if verdict == Good {
        signatureVerifiedRequest := signatureVerifiedRequest[HashOf(tb) := tb];
      }
    }

    /** A request of this miner's own wallet: nothing is checked. */
    method receiveInternal(tb: TransactionBlock)
      modifies this`priorityRequest
      ensures priorityRequest == old(priorityRequest)[HashOf(tb) := tb]
      ensures old(Valid()) && tb.CountsMatch() ==> Valid()
    {
      priorityRequest := priorityRequest[HashOf(tb) := tb];
    }

    method AddPriority(tbg: TransactionBlockGroup, ghost feeblock: TransactionBlock, ghost m: Utxo)
      requires Valid() && tbg.Valid() && !tbg.finalized
      requires FromPool(tbg.TransactionBlockStructs, feeblock, priorityRequest, signatureVerifiedRequest, m)
      modifies tbg, tbg.merkleTree
      ensures tbg.Valid() && !tbg.finalized && tbg.merkleTree.Repr == old(tbg.merkleTree.Repr)
      ensures FromPool(tbg.TransactionBlockStructs, feeblock, priorityRequest, signatureVerifiedRequest, m)
      ensures AllEntered(tbg.TransactionBlockStructs, priorityRequest, priorityRequest.Keys, m, false)
    {
      hide TransactionBlockGroup.Valid, FromPool, NewRefs, AllEntered;
      var left := priorityRequest.Keys;
      NoneEntered(tbg.TransactionBlockStructs, priorityRequest, m, false);
      assert priorityRequest.Keys - left == {};
      while left != {}
        invariant left <= priorityRequest.Keys
        invariant tbg.Valid() && !tbg.finalized && tbg.merkleTree.Repr == old(tbg.merkleTree.Repr)
        invariant FromPool(tbg.TransactionBlockStructs, feeblock, priorityRequest, signatureVerifiedRequest, m)
        invariant AllEntered(tbg.TransactionBlockStructs, priorityRequest, priorityRequest.Keys - left, m, false)
        decreases left
      {
        var h :| h in left;
        ghost var blocks, done := tbg.TransactionBlockStructs, priorityRequest.Keys - left;
        FromPoolGrows(blocks, priorityRequest[h], feeblock, priorityRequest, signatureVerifiedRequest, m);
        var ok := tbg.Add(priorityRequest[h]);
        OneTried(blocks, tbg.TransactionBlockStructs, priorityRequest[h], priorityRequest, done, h, m, false);
        left := left - {h};
        assert priorityRequest.Keys - left == done + {h};
      }
      assert priorityRequest.Keys - left == priorityRequest.Keys;
    }

    method AddVerified(tbg: TransactionBlockGroup, utxo: UTxOManager, ghost feeblock: TransactionBlock)
      requires Valid() && tbg.Valid() && !tbg.finalized && utxo.Valid() && {tbg, tbg.merkleTree} !! utxo.Repr
      requires FromPool(tbg.TransactionBlockStructs, feeblock, priorityRequest, signatureVerifiedRequest, utxo.Contents)
      requires AllEntered(tbg.TransactionBlockStructs, priorityRequest, priorityRequest.Keys, utxo.Contents, false)
      modifies tbg, tbg.merkleTree
      ensures tbg.Valid() && !tbg.finalized && tbg.merkleTree.Repr == old(tbg.merkleTree.Repr)
      ensures FromPool(tbg.TransactionBlockStructs, feeblock, priorityRequest, signatureVerifiedRequest, utxo.Contents)
      ensures AllEntered(tbg.TransactionBlockStructs, priorityRequest, priorityRequest.Keys, utxo.Contents, false)
      ensures AllEntered(tbg.TransactionBlockStructs, signatureVerifiedRequest, signatureVerifiedRequest.Keys,
                         utxo.Contents, true)
    {
      hide TransactionBlockGroup.Valid, UTxOManager.Valid, RefsOk, Passes, FromPool, NewRefs, AllEntered;
      var left := signatureVerifiedRequest.Keys;
      ghost var m := utxo.Contents;
      NoneEntered(tbg.TransactionBlockStructs, signatureVerifiedRequest, m, true);
      assert signatureVerifiedRequest.Keys - left == {};
      while left != {}
        invariant left <= signatureVerifiedRequest.Keys && utxo.Valid() && utxo.Contents == m
        invariant tbg.Valid() && !tbg.finalized && tbg.merkleTree.Repr == old(tbg.merkleTree.Repr)
        invariant FromPool(tbg.TransactionBlockStructs, feeblock, priorityRequest, signatureVerifiedRequest, m)
        invariant AllEntered(tbg.TransactionBlockStructs, priorityRequest, priorityRequest.Keys, m, false)
        invariant AllEntered(tbg.TransactionBlockStructs, signatureVerifiedRequest,
                             signatureVerifiedRequest.Keys - left, m, true)
        decreases left
      {
        var h :| h in left;
        ghost var blocks, done := tbg.TransactionBlockStructs, signatureVerifiedRequest.Keys - left;
        var good := utxo.VerifyTransactionBlockRefs(signatureVerifiedRequest[h]);
        if good {
          assert Selected(signatureVerifiedRequest[h], signatureVerifiedRequest, m);
          FromPoolGrows(blocks, signatureVerifiedRequest[h], feeblock, priorityRequest, signatureVerifiedRequest, m);
          var ok := tbg.Add(signatureVerifiedRequest[h]);
          OneTried(blocks, tbg.TransactionBlockStructs, signatureVerifiedRequest[h], signatureVerifiedRequest, done, h,
                   m, true);
          OneTried(blocks, tbg.TransactionBlockStructs, signatureVerifiedRequest[h], priorityRequest,
                   priorityRequest.Keys, h, m, false);
        } else {
          OnePassedOver(blocks, signatureVerifiedRequest, done, h, m);
        }
        left := left - {h};
        assert signatureVerifiedRequest.Keys - left == done + {h};
      }
      assert signatureVerifiedRequest.Keys - left == signatureVerifiedRequest.Keys;
    }

    /** The group to be mined on top of a head with manager `utxo`; `null` stands for a head that is not up to date.
        It holds the fee block and as many requests as possible. */
    method generateTransctionBlockGroup(utxo: UTxOManager?, pub: PublicKey, priv: Bytes)
      returns (tbg: TransactionBlockGroup?)
      requires Valid() && (utxo != null ==> utxo.Valid())
      modifies this`i
      ensures Valid() && (tbg == null <==> utxo == null) && i == (old(i) + 1) % 0x1_0000_0000
      ensures tbg != null ==>
                && fresh(tbg) && fresh(tbg.merkleTree.Repr) && tbg.Valid() && tbg.finalized
                && Formed(tbg.TransactionBlockStructs, priorityRequest, signatureVerifiedRequest, utxo.Contents)
                && tbg.TransactionBlockStructs != [] && FeeFor(tbg.TransactionBlockStructs[0], pub, i)
                && (|tbg.TransactionBlockStructs| < 256 ==> tbg.AsGroup().Valid())
                && (KeyPair(priv, pub) && AllOwnPass(priorityRequest) ==> GroupPasses(tbg.TransactionBlockStructs))
                && (AllSpendable(priorityRequest, utxo.Contents) ==>
                      RefsOk(utxo.Contents, GroupRefs(tbg.TransactionBlockStructs)))
    {
      hide TransactionBlockGroup.Valid, UTxOManager.Valid, RefsOk, Passes, KeyPair, GroupPasses, FromPool, NewRefs;
      hide AllOwnPass, AllSpendable, AllEntered, Group.Valid;
      i := (i + 1) % 0x1_0000_0000;
      var feeblock := generateFeeBlock(i, pub, priv);
      var group := new TransactionBlockGroup.initializeTransactionBlockGroup();
      var ok := group.Add(feeblock);
      if utxo == null {
        return null;
      }
      FeeBlockFirst(feeblock, priorityRequest, signatureVerifiedRequest, utxo.Contents);
      AddPriority(group, feeblock, utxo.Contents);
      AddVerified(group, utxo, feeblock);
      NotEmpty(group.TransactionBlockStructs, feeblock, priorityRequest, signatureVerifiedRequest, utxo.Contents);
      group.finalizeTransactionBlockGroup();
      tbg := group;
      tbg.NothingShared();
      PoolGroupIsGood(tbg.TransactionBlockStructs, feeblock, priorityRequest, signatureVerifiedRequest, utxo.Contents);
    }
  }

  /** The shape of a group that is formed from a pool: a fee block that mints one coin, then requests only, and every
      request that could enter. */
  ghost predicate Formed(blocks: seq<TransactionBlock>, priority: map<Digest, TransactionBlock>,
                         verified: map<Digest, TransactionBlock>, m: Utxo)
  {
    && blocks != [] && blocks[0].Refs() == [] && OutputSum(blocks[0].OutputList) == DAVIDCOIN
    && FromPool(blocks, blocks[0], priority, verified, m) && CrossDistinct(blocks)
    && AllEntered(blocks, priority, priority.Keys, m, false) && AllEntered(blocks, verified, verified.Keys, m, true)
  }

  ghost predicate AllOwnPass(priority: map<Digest, TransactionBlock>) {
    forall h :: h in priority ==> Passes(priority[h], false)
  }

  ghost predicate AllSpendable(priority: map<Digest, TransactionBlock>, m: Utxo) {
    forall h :: h in priority ==> RefsOk(m, priority[h].Refs())
  }

  /** What is formed from a pool passes both checks if the miner's own requests do. */
  lemma PoolGroupIsGood(blocks: seq<TransactionBlock>, feeblock: TransactionBlock,
                        priority: map<Digest, TransactionBlock>, verified: map<Digest, TransactionBlock>, m: Utxo)
    requires CrossDistinct(blocks) && FromPool(blocks, feeblock, priority, verified, m) && feeblock.Refs() == []
    requires forall h :: h in verified ==> Passes(verified[h], false)
    ensures Passes(feeblock, true) && AllOwnPass(priority) ==> GroupPasses(blocks)
    ensures AllSpendable(priority, m) ==> RefsOk(m, GroupRefs(blocks))
  {
    hide Passes;
    if AllSpendable(priority, m) {
      forall k | 0 <= k < |blocks| ensures RefsOk(m, blocks[k].Refs()) {
      }
      GroupRefsOk(m, blocks);
    }
  }
}
