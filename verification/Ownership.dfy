/** Who may spend: what the signature of a transaction block covers, and that nobody spends what is not his. */
module Ownership {
  import opened Bytes
  import opened Transactions
  import opened Ledger
  import opened Verification
  import opened Supply

  // ---------------------------------------------------------------- what a signature covers

  /** Everything of a transaction block that travels, but its signature. */
  ghost predicate SameButSignature(a: TransactionBlock, b: TransactionBlock) {
    && a.InputNumber == b.InputNumber && a.OutputNumber == b.OutputNumber
    && |a.InputList| == |b.InputList|
    && (forall i :: 0 <= i < |a.InputList| ==> SameInput(a.InputList[i], b.InputList[i]))
    && a.OutputList == b.OutputList && a.PayerPublicKey == b.PayerPublicKey
  }

  ghost predicate SameInput(a: TransactionInput, b: TransactionInput) {
    a.VerificationChallenge == b.VerificationChallenge && a.reference == b.reference
  }

  /** The bytes that are hashed for the signature: all but the 128 of the signature, which end the block. */
  function SignedBytes(tb: TransactionBlock): Bytes {
    EncodeBlockLength(tb);
    EncodeBlock(tb)[..|EncodeBlock(tb)| - 128]
  }

  lemma SignedBytesAreAllButTheSignature(tb: TransactionBlock)
    ensures GetPreSignature(tb) == Sum256(SignedBytes(tb)) && EncodeBlock(tb) == SignedBytes(tb) + tb.Signature
  {
    EncodeBlockLength(tb);
    var ahead := [tb.InputNumber, tb.OutputNumber] + Join(InputChunks(tb.InputList))
        + Join(OutputChunks(tb.OutputList)) + tb.PayerPublicKey;
    assert EncodeBlock(tb) == ahead + tb.Signature;
    assert SignedBytes(tb) == ahead;
  }

  /** A signature covers all of a transaction block: two blocks with one signed hash have the same counts, challenges,
      references, outputs and payer, or two byte strings with one hash are at hand.  And nothing but the signature is
      left out. */
  lemma SignatureCoversBlock(a: TransactionBlock, b: TransactionBlock)
    requires a.CountsMatch() && b.CountsMatch()
    ensures GetPreSignature(a) == GetPreSignature(b) ==>
              SameButSignature(a, b) || Collision(SignedBytes(a), SignedBytes(b))
    ensures SameButSignature(a, b) ==> GetPreSignature(a) == GetPreSignature(b)
  {
    hide EncodeBlock, DecodeBlock, SignedBytes;
    SignedBytesAreAllButTheSignature(a);
    SignedBytesAreAllButTheSignature(b);
    if SignedBytes(a) == SignedBytes(b) {
      SameBytes(a, b);
    }
    if SameButSignature(a, b) {
      SameFields(a, b);
    }
  }

  lemma SameBytes(a: TransactionBlock, b: TransactionBlock)
    requires a.CountsMatch() && b.CountsMatch() && SignedBytes(a) == SignedBytes(b)
    ensures SameButSignature(a, b)
  {
    hide EncodeBlock, DecodeBlock, SignedBytes;
    var a', none: Lookup := a.(Signature := b.Signature), _ => None;
    SignedBytesAreAllButTheSignature(a);
    SignedBytesAreAllButTheSignature(a');
    SignedBytesAreAllButTheSignature(b);
    OtherSignature(a, b.Signature);
    BlockRoundTrip(a', none);
    BlockRoundTrip(b, none);
    var x, y := Resolved(a', none), Resolved(b, none);
    assert x == y;
    forall i | 0 <= i < |a.InputList| ensures SameInput(a.InputList[i], b.InputList[i]) {
      assert x.InputList[i] == y.InputList[i];
    }
  }

  lemma OtherSignature(tb: TransactionBlock, sig: Signature)
    ensures SignedBytes(tb.(Signature := sig)) == SignedBytes(tb)
  {
    var tb' := tb.(Signature := sig);
    EncodeBlockLength(tb);
    EncodeBlockLength(tb');
    var s, s' := EncodeBlock(tb), EncodeBlock(tb');
    assert s[..|s| - 128] == s'[..|s'| - 128];
  }

  lemma SameFields(a: TransactionBlock, b: TransactionBlock)
    requires SameButSignature(a, b)
    ensures GetPreSignature(a) == GetPreSignature(b)
  {
    hide EncodeBlock, DecodeBlock, SignedBytes;
    forall i | 0 <= i < |a.InputList| ensures InputChunks(a.InputList)[i] == InputChunks(b.InputList)[i] {
      assert SameInput(a.InputList[i], b.InputList[i]);
    }
    assert InputChunks(a.InputList) == InputChunks(b.InputList);
    SameChunks(a, b);
    BlockSignatureExcludesItself(a, b.Signature);
    assert GetPreSignature(a.(Signature := b.Signature)) == GetPreSignature(b);
  }

  lemma SameChunks(a: TransactionBlock, b: TransactionBlock)
    requires SameButSignature(a, b) && InputChunks(a.InputList) == InputChunks(b.InputList)
    ensures EncodeBlock(a.(Signature := b.Signature)) == EncodeBlock(b)
  {
  }

  // ---------------------------------------------------------------- what the checks demand

  /** The output of an input is there, paid to the payer, and signed for with his key. */
  ghost predicate InputInOrder(tb: TransactionBlock, i: nat)
    requires i < |tb.InputList|
  {
    && tb.InputList[i].OutputBlock.Some?
    && var o := tb.InputList[i].OutputBlock.value;
    && o.ReceiverPublicKey == tb.PayerPublicKey
    && SignatureOk(Sum256(EncodeOutput(o)), tb.InputList[i].VerificationChallenge, o.ReceiverPublicKey)
  }

  /** A transaction block passes exactly if it is signed by its payer, each input is in order, and the sums, of
      `uint64`, compare. */
  lemma AcceptedExactly(tb: TransactionBlock, feeBlock: bool)
    ensures Passes(tb, feeBlock) <==>
            && SignatureOk(Sum256(SignedBytes(tb)), tb.Signature, tb.PayerPublicKey)
            && (forall i :: 0 <= i < |tb.InputList| ==> InputInOrder(tb, i))
            && OutputSum(tb.OutputList) % 18_446_744_073_709_551_616
            <= (InputSum(tb.InputList) + if feeBlock then 1_000_000_000 else 0) % 18_446_744_073_709_551_616
  {
    hide EncodeBlock, EncodeOutput, OutputSum, InputSum, SignedBytes, GetPreSignature;
    SignedBytesAreAllButTheSignature(tb);
    if Passes(tb, feeBlock) {
      forall i | 0 <= i < |tb.InputList| ensures InputInOrder(tb, i) {
        assert InputSigned(tb.InputList[i]) && Owned(tb, i);
      }
    }
    if forall i :: 0 <= i < |tb.InputList| ==> InputInOrder(tb, i) {
      forall i | 0 <= i < |tb.InputList|
        ensures tb.InputList[i].OutputBlock.Some? && InputSigned(tb.InputList[i]) && Owned(tb, i)
      {
        assert InputInOrder(tb, i);
      }
    }
  }

  /** The check of a block panics exactly if the block is signed and it meets an input without an output, after inputs
      that are there and signed for. */
  lemma PanicsExactly(tb: TransactionBlock)
    ensures Crashes(tb) <==>
            && SignatureOk(Sum256(SignedBytes(tb)), tb.Signature, tb.PayerPublicKey)
            && exists i :: 0 <= i < |tb.InputList| && tb.InputList[i].OutputBlock.None? && AllSignedBefore(tb, i)
  {
    hide EncodeBlock, EncodeOutput, SignedBytes, GetPreSignature;
    SignedBytesAreAllButTheSignature(tb);
    forall i | 0 <= i < |tb.InputList| ensures SignedBefore(tb, i) <==> AllSignedBefore(tb, i) {
      SameBefore(tb, i);
    }
  }

  ghost predicate AllSignedBefore(tb: TransactionBlock, i: nat)
    requires i <= |tb.InputList|
  {
    forall j :: 0 <= j < i ==> SignedAt(tb.InputList[j])
  }

  ghost predicate SignedAt(ti: TransactionInput) {
    && ti.OutputBlock.Some?
    && SignatureOk(Sum256(EncodeOutput(ti.OutputBlock.value)), ti.VerificationChallenge,
                   ti.OutputBlock.value.ReceiverPublicKey)
  }

  lemma SameBefore(tb: TransactionBlock, i: nat)
    requires i <= |tb.InputList|
    ensures SignedBefore(tb, i) <==> AllSignedBefore(tb, i)
  {
    hide EncodeOutput;
    if SignedBefore(tb, i) {
      assert forall j :: 0 <= j < i ==> InputSigned(tb.InputList[j]);
    }
    if AllSignedBefore(tb, i) {
      assert forall j :: 0 <= j < i ==> SignedAt(tb.InputList[j]);
    }
  }

  /** The check of a group passes exactly if it has blocks and each passes, the first one alone as a fee block; and it
      panics exactly if it has none or the first block that does not pass panics. */
  lemma GroupAcceptedExactly(blocks: seq<TransactionBlock>)
    ensures GroupPasses(blocks) <==>
            blocks != [] && Passes(blocks[0], true) && forall k :: 1 <= k < |blocks| ==> Passes(blocks[k], false)
    ensures GroupCrashes(blocks) <==>
            || blocks == []
            || exists k :: 0 <= k < |blocks| && Crashes(blocks[k]) && (k > 0 ==> Passes(blocks[0], true))
                           && forall j :: 1 <= j < k ==> Passes(blocks[j], false)
  {
    hide Passes, Crashes;
  }

  // ---------------------------------------------------------------- nobody spends what is not his

  /** `tr` is output number `o` of an earlier block of the chain, its receiver is the payer, and both signatures are
      his: one under what he spends, and one under the whole transaction block. */
  ghost predicate SpentByItsOwner(chain: seq<Record>, c: nat, tb: TransactionBlock, a: nat)
    requires c < |chain| && a < |tb.InputList|
  {
    var ti := tb.InputList[a];
    var k, j := ti.reference.TransactionBlockNumber as nat, ti.reference.OutputNumber as nat;
    && chain[c].hash == ti.reference.BlockHash && k < |chain[c].blocks| && j < |chain[c].blocks[k].OutputList|
    && var o := chain[c].blocks[k].OutputList[j];
    && o.ReceiverPublicKey == tb.PayerPublicKey
    && SignatureOk(Sum256(EncodeOutput(o)), ti.VerificationChallenge, o.ReceiverPublicKey)
    && SignatureOk(Sum256(SignedBytes(tb)), tb.Signature, o.ReceiverPublicKey)
  }

  /** No theft: every input along a verified chain spends an output of an earlier block, which was paid to whoever pays
      now and signed for by him. */
  lemma NoTheft(chain: seq<Record>, i: nat, k: nat, a: nat)
    requires Supply.Verified(chain) && i < |chain| && k < |chain[i].blocks| && a < |chain[i].blocks[k].InputList|
    ensures exists c :: 0 <= c < i && SpentByItsOwner(chain, c, chain[i].blocks[k], a)
  {
    hide EncodeBlock, EncodeOutput;
    var tb := chain[i].blocks[k];
    var ti := tb.InputList[a];
    RefInGroup(chain[i].blocks, k, a);
    var c := SpentWasCreated(chain, i, ti.reference);
    assert VerifiedAt(chain, i) && AllResolve(chain, tb) && Resolves(chain, ti);
    assert GroupPasses(chain[i].blocks) && Passes(tb, k == 0);
    assert InputSigned(ti) && Owned(tb, a);
    SignedBytesAreAllButTheSignature(tb);
    assert SpentByItsOwner(chain, c, tb, a);
  }

  /** A transaction block without inputs is signed, too. */
  lemma EveryBlockIsSigned(chain: seq<Record>, i: nat, k: nat)
    requires Supply.Verified(chain) && i < |chain| && k < |chain[i].blocks|
    ensures var tb := chain[i].blocks[k]; SignatureOk(Sum256(SignedBytes(tb)), tb.Signature, tb.PayerPublicKey)
  {
    hide EncodeBlock;
    assert VerifiedAt(chain, i) && Passes(chain[i].blocks[k], k == 0);
    SignedBytesAreAllButTheSignature(chain[i].blocks[k]);
  }

  // ---------------------------------------------------------------- no input twice

  /** Where an input's reference is in the list of its group. */
  lemma {:induction false} PlaceInGroup(blocks: seq<TransactionBlock>, k: nat, a: nat)
    requires k < |blocks| && a < |blocks[k].InputList|
    ensures |GroupRefs(blocks[..k])| + a < |GroupRefs(blocks)|
    ensures GroupRefs(blocks)[|GroupRefs(blocks[..k])| + a] == blocks[k].InputList[a].reference
  {
    GroupRefsPrefix(blocks, k);
    var x, y, all := GroupRefs(blocks[..k]), blocks[k].Refs(), GroupRefs(blocks);
    assert (x + y)[|x| + a] == all[|x| + a];
  }

  lemma PlacesDiffer(blocks: seq<TransactionBlock>, k: nat, a: nat, l: nat, b: nat)
    requires k < l < |blocks| && a < |blocks[k].InputList| && b < |blocks[l].InputList|
    ensures |GroupRefs(blocks[..k])| + a < |GroupRefs(blocks[..l])| + b
  {
    PlaceInGroup(blocks[..l], k, a);
    assert blocks[..l][..k] == blocks[..k];
  }

  /** No double spend: two inputs along a verified chain that name one output are the same input. */
  lemma NoInputTwice(chain: seq<Record>, i: nat, k: nat, a: nat, j: nat, l: nat, b: nat)
    requires Supply.Verified(chain) && i < |chain| && k < |chain[i].blocks| && a < |chain[i].blocks[k].InputList|
    requires j < |chain| && l < |chain[j].blocks| && b < |chain[j].blocks[l].InputList|
    requires chain[i].blocks[k].InputList[a].reference == chain[j].blocks[l].InputList[b].reference
    ensures i == j && k == l && a == b
  {
    hide Passes;
    PlaceInGroup(chain[i].blocks, k, a);
    PlaceInGroup(chain[j].blocks, l, b);
    var x, y := |GroupRefs(chain[i].blocks[..k])| + a, |GroupRefs(chain[j].blocks[..l])| + b;
    NoDoubleSpend(chain, i, x, j, y);
    if k < l {
      PlacesDiffer(chain[i].blocks, k, a, l, b);
    } else if l < k {
      PlacesDiffer(chain[i].blocks, l, b, k, a);
    }
  }
}
