/** The checks of a transaction block that need no UTXO map: signatures, ownership and amounts. */
module Verification {
  import opened Bytes
  import opened Transactions

  const DAVIDCOIN: nat := 1_000_000_000

  /** The RSA check, as an arbitrary predicate. */
  const SignatureOk: (Digest, Signature, PublicKey) -> bool

  /** `Crash`: the source dereferences an unresolved output, or indexes an empty group. */
  datatype Verdict = Good | Bad | Crash

  function OutputSum(outputs: seq<TransactionOutput>): nat {
    if outputs == [] then 0 else OutputSum(outputs[..|outputs| - 1]) + outputs[|outputs| - 1].Amount
  }

  /** An unresolved input counts for nothing. */
  function InputAmount(ti: TransactionInput): nat {
    if ti.OutputBlock.Some? then ti.OutputBlock.value.Amount else 0
  }

  function InputSum(inputs: seq<TransactionInput>): nat {
    if inputs == [] then 0 else InputSum(inputs[..|inputs| - 1]) + InputAmount(inputs[|inputs| - 1])
  }

  predicate IsResolved(tb: TransactionBlock) {
    forall i :: 0 <= i < |tb.InputList| ==> tb.InputList[i].OutputBlock.Some?
  }

  /** `transactionInput.verify` on a resolved input. */
  predicate InputSigned(ti: TransactionInput)
    requires ti.OutputBlock.Some?
  {
    var o := ti.OutputBlock.value;
    SignatureOk(Sum256(EncodeOutput(o)), ti.VerificationChallenge, o.ReceiverPublicKey)
  }

  predicate Owned(tb: TransactionBlock, i: nat)
    requires i < |tb.InputList| && tb.InputList[i].OutputBlock.Some?
  {
    tb.InputList[i].OutputBlock.value.ReceiverPublicKey == tb.PayerPublicKey
  }

  function Fee(feeBlock: bool): nat {
    if feeBlock then DAVIDCOIN else 0
  }

  /** The comparison the source makes, in `uint64` arithmetic. */
  predicate AmountsPass(tb: TransactionBlock, feeBlock: bool) {
    U64(OutputSum(tb.OutputList)) <= U64(InputSum(tb.InputList) + Fee(feeBlock))
  }

  /** The comparison it stands for. */
  predicate AmountRule(tb: TransactionBlock, feeBlock: bool) {
    OutputSum(tb.OutputList) <= InputSum(tb.InputList) + Fee(feeBlock)
  }

  predicate Passes(tb: TransactionBlock, feeBlock: bool) {
    && SignatureOk(GetPreSignature(tb), tb.Signature, tb.PayerPublicKey)
    && IsResolved(tb)
    && (forall i :: 0 <= i < |tb.InputList| ==> InputSigned(tb.InputList[i]) && Owned(tb, i))
    && AmountsPass(tb, feeBlock)
  }

  /** The block is reached by the check of an unresolved input: everything before it is in order. */
  predicate Crashes(tb: TransactionBlock) {
    && SignatureOk(GetPreSignature(tb), tb.Signature, tb.PayerPublicKey)
    && exists i :: 0 <= i < |tb.InputList| && tb.InputList[i].OutputBlock.None? && SignedBefore(tb, i)
  }

  predicate SignedBefore(tb: TransactionBlock, i: nat)
    requires i <= |tb.InputList|
  {
    forall j :: 0 <= j < i ==> tb.InputList[j].OutputBlock.Some? && InputSigned(tb.InputList[j])
  }

  lemma U64Step(a: nat, b: nat)
    ensures U64(U64(a) + b) == U64(a + b)
  {
    var q, r := a / TWO_TO_THE_64, a % TWO_TO_THE_64;
    assert a == q * TWO_TO_THE_64 + r;
    var q', r' := (r + b) / TWO_TO_THE_64, (r + b) % TWO_TO_THE_64;
    assert a + b == (q + q') * TWO_TO_THE_64 + r';
  }

  lemma SumOneMoreInput(inputs: seq<TransactionInput>, i: nat)
    requires i < |inputs|
    ensures InputSum(inputs[..i + 1]) == InputSum(inputs[..i]) + InputAmount(inputs[i])
  {
    assert inputs[..i + 1][..i] == inputs[..i];
  }

  lemma SumOneMoreOutput(outputs: seq<TransactionOutput>, i: nat)
    requires i < |outputs|
    ensures OutputSum(outputs[..i + 1]) == OutputSum(outputs[..i]) + outputs[i].Amount
  {
    assert outputs[..i + 1][..i] == outputs[..i];
  }

  method verifyExceptUTXO(tb: TransactionBlock, feeBlock: bool) returns (verdict: Verdict)
    ensures verdict == Good <==> Passes(tb, feeBlock)
    ensures verdict == Crash <==> Crashes(tb)
  {
    if !SignatureOk(GetPreSignature(tb), tb.Signature, tb.PayerPublicKey) {
      return Bad;
    }
    verdict := VerifyInputs(tb);
    if verdict != Good {
      return;
    }
    var inputAmount, owned := SumInputs(tb);
    if !owned {
      return Bad;
    }
    var outputAmount := SumOutputs(tb.OutputList);
    RunningSums(tb, inputAmount, outputAmount, feeBlock);
    var ok := if feeBlock then outputAmount <= U64(inputAmount + 1 * DAVIDCOIN) else outputAmount <= inputAmount;
    verdict := if ok then Good else Bad;
  }

  lemma RunningSums(tb: TransactionBlock, inputAmount: nat, outputAmount: nat, feeBlock: bool)
    requires inputAmount == U64(InputSum(tb.InputList)) && outputAmount == U64(OutputSum(tb.OutputList))
    ensures AmountsPass(tb, feeBlock) <==>
            if feeBlock then outputAmount <= U64(inputAmount + 1 * DAVIDCOIN) else outputAmount <= inputAmount
  {
    U64Step(InputSum(tb.InputList), DAVIDCOIN);
  }

  method SumInputs(tb: TransactionBlock) returns (inputAmount: nat, owned: bool)
    requires IsResolved(tb)
    ensures owned <==> forall i :: 0 <= i < |tb.InputList| ==> Owned(tb, i)
    ensures owned ==> inputAmount == U64(InputSum(tb.InputList))
  {
    inputAmount, owned := 0, true;
    for i := 0 to |tb.InputList|
      invariant forall j :: 0 <= j < i ==> Owned(tb, j)
      invariant inputAmount == U64(InputSum(tb.InputList[..i])) && owned
    {
      if tb.InputList[i].OutputBlock.value.ReceiverPublicKey != tb.PayerPublicKey {
        assert !Owned(tb, i);
        owned := false;
        return;
      }
      SumOneMoreInput(tb.InputList, i);
      U64Step(InputSum(tb.InputList[..i]), InputAmount(tb.InputList[i]));
      inputAmount := U64(inputAmount + tb.InputList[i].OutputBlock.value.Amount);
    }
    assert tb.InputList[..|tb.InputList|] == tb.InputList;
  }

  method VerifyInputs(tb: TransactionBlock) returns (verdict: Verdict)
    ensures verdict == Good <==> SignedBefore(tb, |tb.InputList|)
    ensures verdict == Crash <==>
            exists i :: 0 <= i < |tb.InputList| && tb.InputList[i].OutputBlock.None? && SignedBefore(tb, i)
  {
    for i := 0 to |tb.InputList|
      invariant SignedBefore(tb, i)
    {
      if tb.InputList[i].OutputBlock.None? {
        return Crash;
      }
      if !InputSigned(tb.InputList[i]) {
        return Bad;
      }
    }
    verdict := Good;
  }

  method SumOutputs(outputs: seq<TransactionOutput>) returns (outputAmount: nat)
    ensures outputAmount == U64(OutputSum(outputs))
  {
    outputAmount := 0;
    for i := 0 to |outputs|
      invariant outputAmount == U64(OutputSum(outputs[..i]))
    {
      SumOneMoreOutput(outputs, i);
      U64Step(OutputSum(outputs[..i]), outputs[i].Amount);
      outputAmount := U64(outputAmount + outputs[i].Amount);
    }
    assert outputs[..|outputs|] == outputs;
  }

  // ---------------------------------------------------------------- groups

  /** The first block of a group may mint one coin, no other may. */
  predicate GroupPasses(blocks: seq<TransactionBlock>) {
    && blocks != []
    && forall k :: 0 <= k < |blocks| ==> Passes(blocks[k], k == 0)
  }

  predicate GroupCrashes(blocks: seq<TransactionBlock>) {
    || blocks == []
    || exists k :: 0 <= k < |blocks| && Crashes(blocks[k]) && PassBefore(blocks, k)
  }

  predicate PassBefore(blocks: seq<TransactionBlock>, k: nat)
    requires k <= |blocks|
  {
    forall j :: 0 <= j < k ==> Passes(blocks[j], j == 0)
  }

  lemma CrashExcludesPass(tb: TransactionBlock, feeBlock: bool)
    requires Crashes(tb)
    ensures !Passes(tb, feeBlock)
  {
  }

  method VerifyExceptUTXO(blocks: seq<TransactionBlock>) returns (verdict: Verdict)
    ensures verdict == Good <==> GroupPasses(blocks)
    ensures verdict == Crash <==> GroupCrashes(blocks)
  {
    hide Passes, Crashes;
    if blocks == [] {
      return Crash;
    }
    verdict := Good;
    for k := 0 to |blocks|
      invariant verdict == Good && PassBefore(blocks, k)
      invariant forall j :: 0 <= j < k ==> !Crashes(blocks[j])
    {
      verdict := verifyExceptUTXO(blocks[k], k == 0);
      if verdict != Good {
        return;
      }
      if Crashes(blocks[k]) {
        CrashExcludesPass(blocks[k], k == 0);
      }
    }
  }

  // ---------------------------------------------------------------- wrap-around

  /** Where the inputs are worth less than 2^64, a block that passes obeys the amount rule exactly when its
      outputs are, too. */
  lemma RuleIffNoOverflow(tb: TransactionBlock, feeBlock: bool)
    requires AmountsPass(tb, feeBlock) && InputSum(tb.InputList) + Fee(feeBlock) < TWO_TO_THE_64
    ensures AmountRule(tb, feeBlock) <==> OutputSum(tb.OutputList) < TWO_TO_THE_64
  {
  }

  /** Two outputs of 2^63 pass as the outputs of a block without inputs, and break the rule. */
  lemma OverflowBreaksRule(o: TransactionOutput, tb: TransactionBlock)
    requires o.Amount == 0x8000_0000_0000_0000 && tb.OutputList == [o, o] && tb.InputList == []
    ensures AmountsPass(tb, false) && !AmountRule(tb, false)
  {
    assert OutputSum([o]) == o.Amount;
    assert [o, o][..1] == [o];
    assert OutputSum([o, o]) == TWO_TO_THE_64;
  }
}
