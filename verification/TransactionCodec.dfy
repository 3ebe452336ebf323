/** The serializers of transaction blocks and their parts, which fill and read byte buffers in place. */
module TransactionCodec {
  import opened Bytes
  import opened Transactions

  method Put(buf: array<byte>, at: nat, src: Bytes, ghost before: Bytes)
    requires at + |src| <= buf.Length && buf[..at] == before
    modifies buf
    ensures buf[..at + |src|] == before + src
  {
    CopyInto(buf, at, src);
  }

  // ---------------------------------------------------------------- references, inputs, outputs

  method SerializeTransactionRef(tr: TransactionRef) returns (out: Bytes)
    ensures out == EncodeRef(tr)
  {
    var ret := new byte[REF_SIZE];
    CopyInto(ret, 0, tr.BlockHash);
    ret[32] := tr.OutputNumber;
    ret[33] := tr.TransactionBlockNumber;
    out := ret[..];
  }

  method SerializeTransactionInput(ti: TransactionInput) returns (out: Bytes)
    ensures out == EncodeInput(ti)
  {
    var d := new byte[INPUT_SIZE];
    CopyInto(d, 0, ti.VerificationChallenge);
    var temp := SerializeTransactionRef(ti.reference);
    CopyInto(d, SIGNATURE_SIZE, temp);
    out := d[..];
  }

  method serializeTransactionOutput(to: TransactionOutput) returns (out: Bytes)
    ensures out == EncodeOutput(to)
  {
    var d := new byte[OUTPUT_SIZE](_ => 0);
    assert d[330..] == Zeros(32);
    CopyInto(d, 0, LittleEndian(to.Amount, 8));
    CopyInto(d, 8, to.ReceiverPublicKey);
    var ind := 8 + KEY_SIZE;
    CopyInto(d, ind, to.text);
    ind := ind + TEXT_SIZE;
    assert d[330..] == Zeros(32);
    CopyInto(d, ind, to.Signature);
    out := d[..];
    assert d[..330] == LittleEndian(to.Amount, 8) + to.ReceiverPublicKey + to.text + to.Signature;
    assert out == d[..330] + d[330..];
  }

  // ---------------------------------------------------------------- transaction blocks

  lemma JoinOneMore(chunks: seq<Bytes>, i: nat)
    requires i < |chunks|
    ensures Join(chunks[..i + 1]) == Join(chunks[..i]) + chunks[i]
  {
    assert chunks[..i + 1][..i] == chunks[..i];
  }

  lemma StartOfJoin(chunks: seq<Bytes>)
    ensures Join(chunks[..0]) == []
  {
  }

  method PutInputs(buf: array<byte>, inputs: seq<TransactionInput>, ghost before: Bytes)
    requires |before| == 2 && buf.Length >= 2 + |inputs| * INPUT_SIZE && buf[..2] == before
    modifies buf
    ensures buf[..2 + |inputs| * INPUT_SIZE] == before + Join(InputChunks(inputs))
  {
    hide Join, InputChunks, EncodeInput;
    ghost var chunks := InputChunks(inputs);
    StartOfJoin(chunks);
    for i := 0 to |inputs|
      invariant buf[..2 + i * INPUT_SIZE] == before + Join(chunks[..i])
    {
      var a := SerializeTransactionInput(inputs[i]);
      JoinOneMore(chunks, i);
      Put(buf, 2 + i * INPUT_SIZE, a, before + Join(chunks[..i]));
    }
    assert chunks[..|inputs|] == chunks;
  }

  method PutOutputs(buf: array<byte>, ind: nat, outputs: seq<TransactionOutput>, ghost before: Bytes)
    requires buf.Length >= ind + |outputs| * OUTPUT_SIZE && buf[..ind] == before
    modifies buf
    ensures buf[..ind + |outputs| * OUTPUT_SIZE] == before + Join(OutputChunks(outputs))
  {
    hide Join, OutputChunks, EncodeOutput;
    ghost var chunks := OutputChunks(outputs);
    StartOfJoin(chunks);
    for i := 0 to |outputs|
      invariant buf[..ind + i * OUTPUT_SIZE] == before + Join(chunks[..i])
    {
      var a := serializeTransactionOutput(outputs[i]);
      JoinOneMore(chunks, i);
      Put(buf, ind + i * OUTPUT_SIZE, a, before + Join(chunks[..i]));
    }
    assert chunks[..|outputs|] == chunks;
  }

  method serializeTransactionBlock(tb: TransactionBlock) returns (out: Bytes)
    requires tb.CountsMatch()
    ensures out == EncodeBlock(tb)
  {
    var size := BlockLength(tb.InputNumber as nat, tb.OutputNumber as nat);
    var buf := new byte[size];
    buf[0] := tb.InputNumber;
    buf[1] := tb.OutputNumber;
    ghost var head := [tb.InputNumber, tb.OutputNumber];
    PutInputs(buf, tb.InputList, head);
    var ind := tb.InputNumber as nat * INPUT_SIZE + 2;
    PutOutputs(buf, ind, tb.OutputList, head + Join(InputChunks(tb.InputList)));
    ind := ind + tb.OutputNumber as nat * OUTPUT_SIZE;
    Put(buf, ind, tb.PayerPublicKey, head + Join(InputChunks(tb.InputList)) + Join(OutputChunks(tb.OutputList)));
    ind := ind + KEY_SIZE;
    Put(buf, ind, tb.Signature,
        head + Join(InputChunks(tb.InputList)) + Join(OutputChunks(tb.OutputList)) + tb.PayerPublicKey);
    out := buf[..];
    assert out == buf[..ind + SIGNATURE_SIZE];
  }

  /** How many references could not be looked up. */
  function Missing(inputs: seq<TransactionInput>): (n: nat)
    ensures n <= |inputs|
    ensures n == 0 <==> forall i :: 0 <= i < |inputs| ==> inputs[i].OutputBlock.Some?
  {
    if inputs == [] then 0
    else Missing(inputs[..|inputs| - 1]) + if inputs[|inputs| - 1].OutputBlock.None? then 1 else 0
  }

  /** The first `n` parts of a block; `unresolved` counts the references that could not be looked up. */
  method ReadInputs(buf: Bytes, n: nat, m: nat, lookup: Lookup)
    returns (inputs: seq<TransactionInput>, unresolved: nat)
    requires |buf| >= BlockLength(n, m)
    ensures |inputs| == n && forall j :: 0 <= j < n ==> inputs[j] == InputAt(buf, n, m, j, lookup)
    ensures unresolved == Missing(inputs)
  {
    inputs, unresolved := [], 0;
    for i := 0 to n
      invariant |inputs| == i && forall j :: 0 <= j < i ==> inputs[j] == InputAt(buf, n, m, j, lookup)
      invariant unresolved == Missing(inputs)
    {
      assert (i + 1) * INPUT_SIZE <= n * INPUT_SIZE;
      var inp := DecodeInput(buf[2 + i * INPUT_SIZE..2 + (i + 1) * INPUT_SIZE], lookup);
      assert (inputs + [inp])[..i] == inputs;
      if inp.OutputBlock.None? {
        unresolved := unresolved + 1;
      }
      inputs := inputs + [inp];
    }
  }

  method ReadOutputs(buf: Bytes, n: nat, m: nat) returns (outputs: seq<TransactionOutput>)
    requires |buf| >= BlockLength(n, m)
    ensures |outputs| == m && forall j :: 0 <= j < m ==> outputs[j] == OutputAt(buf, n, m, j)
  {
    var ind := 2 + n * INPUT_SIZE;
    outputs := [];
    for i := 0 to m
      invariant |outputs| == i && forall j :: 0 <= j < i ==> outputs[j] == OutputAt(buf, n, m, j)
    {
      assert (i + 1) * OUTPUT_SIZE <= m * OUTPUT_SIZE;
      outputs := outputs + [DecodeOutput(buf[ind + i * OUTPUT_SIZE..ind + (i + 1) * OUTPUT_SIZE])];
    }
  }

  method deserializeTransactionBlock(buf: Bytes, lookup: Lookup) returns (tb: TransactionBlock, unresolved: nat)
    requires BlockDecodable(buf)
    ensures tb == DecodeBlock(buf, lookup)
    ensures unresolved == Missing(tb.InputList) < 256
  {
    hide InputAt, OutputAt, Missing;
    var n, m := buf[0] as nat, buf[1] as nat;
    var inputs;
    inputs, unresolved := ReadInputs(buf, n, m, lookup);
    var outputs := ReadOutputs(buf, n, m);
    var ind := n * INPUT_SIZE + m * OUTPUT_SIZE + 2;
    var key := buf[ind..ind + KEY_SIZE];
    ind := ind + KEY_SIZE;
    tb := TransactionBlock(buf[0], buf[1], inputs, outputs, buf[ind..ind + SIGNATURE_SIZE], key);
    assert inputs == DecodeBlock(buf, lookup).InputList && outputs == DecodeBlock(buf, lookup).OutputList;
  }
}
