/** Transaction entities, their byte layouts and the fact that every layout can be read back. */
module Transactions {
  import opened Bytes

  const SIGNATURE_SIZE: nat := 128
  const KEY_SIZE: nat := 162
  const TEXT_SIZE: nat := 32
  const REF_SIZE: nat := 34
  const INPUT_SIZE: nat := SIGNATURE_SIZE + REF_SIZE
  /** 32 bytes more than the fields of an output take up. */
  const OUTPUT_SIZE: nat := 8 + SIGNATURE_SIZE + KEY_SIZE + 32 + TEXT_SIZE

  type Signature = s: Bytes | |s| == 128 witness seq(128, _ => 0)
  type PublicKey = s: Bytes | |s| == 162 witness seq(162, _ => 0)
  type Text = s: Bytes | |s| == 32 witness seq(32, _ => 0)
  type Uint64 = x: nat | x < 0x1_0000_0000_0000_0000

  datatype TransactionRef = TransactionRef(BlockHash: Digest, TransactionBlockNumber: byte, OutputNumber: byte)

  datatype TransactionOutput =
    TransactionOutput(Amount: Uint64, Signature: Signature, ReceiverPublicKey: PublicKey, text: Text)

  /** `OutputBlock` is not transmitted: the receiver fills it in by looking the reference up. */
  datatype TransactionInput =
    TransactionInput(VerificationChallenge: Signature, OutputBlock: Option<TransactionOutput>,
          reference: TransactionRef)

  datatype TransactionBlock =
    TransactionBlock(InputNumber: byte, OutputNumber: byte,
                     InputList: seq<TransactionInput>, OutputList: seq<TransactionOutput>,
                     Signature: Signature, PayerPublicKey: PublicKey)
  {
    predicate CountsMatch() {
      InputNumber as nat == |InputList| && OutputNumber as nat == |OutputList|
    }

    /** The references of the inputs, in order. */
    function Refs(): (refs: seq<TransactionRef>)
      ensures |refs| == |InputList|
    {
      seq(|InputList|, i requires 0 <= i < |InputList| => InputList[i].reference)
    }
  }

  /** How the receiver of a transaction resolves its references. */
  type Lookup = TransactionRef -> Option<TransactionOutput>

  // ---------------------------------------------------------------- fixed-size layouts

  function EncodeRef(tr: TransactionRef): (s: Bytes)
    ensures |s| == REF_SIZE
  {
    tr.BlockHash + [tr.OutputNumber, tr.TransactionBlockNumber]
  }

  function DecodeRef(s: Bytes): TransactionRef
    requires |s| == REF_SIZE
  {
    TransactionRef(s[..32], s[33], s[32])
  }

  lemma RefRoundTrip(tr: TransactionRef)
    ensures DecodeRef(EncodeRef(tr)) == tr
  {
    assert EncodeRef(tr)[..32] == tr.BlockHash;
  }

  /** The serialized reference identifies the reference, so it can serve as a map key. */
  lemma RefKeysAreInjective(a: TransactionRef, b: TransactionRef)
    requires EncodeRef(a) == EncodeRef(b)
    ensures a == b
  {
    RefRoundTrip(a);
    RefRoundTrip(b);
  }

  function EncodeInput(ti: TransactionInput): (s: Bytes)
    ensures |s| == INPUT_SIZE
  {
    ti.VerificationChallenge + EncodeRef(ti.reference)
  }

  function DecodeInput(s: Bytes, lookup: Lookup): TransactionInput
    requires |s| == INPUT_SIZE
  {
    var tr := DecodeRef(s[SIGNATURE_SIZE..]);
    TransactionInput(s[..SIGNATURE_SIZE], lookup(tr), tr)
  }

  lemma InputRoundTrip(ti: TransactionInput, lookup: Lookup)
    ensures DecodeInput(EncodeInput(ti), lookup) == ti.(OutputBlock := lookup(ti.reference))
  {
    RefRoundTrip(ti.reference);
    assert EncodeInput(ti)[..SIGNATURE_SIZE] == ti.VerificationChallenge;
    assert EncodeInput(ti)[SIGNATURE_SIZE..] == EncodeRef(ti.reference);
  }

  function EncodeOutput(to: TransactionOutput): (s: Bytes)
    ensures |s| == OUTPUT_SIZE
  {
    LittleEndian(to.Amount, 8) + to.ReceiverPublicKey + to.text + to.Signature + Zeros(32)
  }

  function DecodeOutput(s: Bytes): TransactionOutput
    requires |s| == OUTPUT_SIZE
  {
    FromLittleEndianBound(s[0..8]);
    EightBytes();
    TransactionOutput(FromLittleEndian(s[0..8]), s[202..330], s[8..170], s[170..202])
  }

  lemma EightBytes()
    ensures Pow256(8) == 0x1_0000_0000_0000_0000
  {
    assert Pow256(4) == 0x1_0000_0000;
  }

  lemma OutputRoundTrip(to: TransactionOutput)
    ensures DecodeOutput(EncodeOutput(to)) == to
  {
    var s := EncodeOutput(to);
    EightBytes();
    LittleEndianRoundTrip(to.Amount, 8);
    assert s[0..8] == LittleEndian(to.Amount, 8);
    assert s[8..170] == to.ReceiverPublicKey;
    assert s[170..202] == to.text;
    assert s[202..330] == to.Signature;
  }

  // ---------------------------------------------------------------- chunks

  function Join(chunks: seq<Bytes>): Bytes {
    if chunks == [] then [] else Join(chunks[..|chunks| - 1]) + chunks[|chunks| - 1]
  }

  lemma {:induction false} JoinAppend(a: seq<Bytes>, b: seq<Bytes>)
    ensures Join(a + b) == Join(a) + Join(b)
  {
    if b == [] {
      assert a + b == a;
    } else {
      var b' := b[..|b| - 1];
      JoinAppend(a, b');
      assert (a + b)[..|a + b| - 1] == a + b';
    }
  }

  ghost predicate AllOfSize(chunks: seq<Bytes>, size: nat) {
    forall c :: c in chunks ==> |c| == size
  }

  lemma OneMore(n: nat, size: nat)
    ensures (n + 1) * size == n * size + size
  {
  }

  lemma {:induction false} JoinLength(chunks: seq<Bytes>, size: nat)
    requires AllOfSize(chunks, size)
    ensures |Join(chunks)| == |chunks| * size
  {
    if chunks != [] {
      var front := chunks[..|chunks| - 1];
      assert |chunks[|chunks| - 1]| == size;
      JoinLength(front, size);
      OneMore(|front|, size);
    }
  }

  lemma Middle(x: Bytes, y: Bytes, z: Bytes)
    ensures (x + y + z)[|x|..|x| + |y|] == y
  {
  }

  lemma JoinThree(a: seq<Bytes>, c: Bytes, b: seq<Bytes>)
    ensures Join(a + [c] + b) == Join(a) + c + Join(b)
  {
    JoinAppend(a + [c], b);
    assert (a + [c])[..|a|] == a;
  }

  lemma SplitAt(chunks: seq<Bytes>, i: nat)
    requires i < |chunks|
    ensures chunks == chunks[..i] + [chunks[i]] + chunks[i + 1..]
  {
  }

  lemma JoinSplit(chunks: seq<Bytes>, i: nat)
    requires i < |chunks|
    ensures Join(chunks) == Join(chunks[..i]) + chunks[i] + Join(chunks[i + 1..])
  {
    SplitAt(chunks, i);
    JoinThree(chunks[..i], chunks[i], chunks[i + 1..]);
  }

  lemma JoinChunk(chunks: seq<Bytes>, size: nat, i: nat)
    requires AllOfSize(chunks, size) && i < |chunks|
    ensures 0 <= i * size <= i * size + size == (i + 1) * size <= |Join(chunks)|
    ensures Join(chunks)[i * size..(i + 1) * size] == chunks[i]
  {
    JoinSplit(chunks, i);
    JoinLength(chunks[..i], size);
    OneMore(i, size);
    assert |chunks[i]| == size;
    Middle(Join(chunks[..i]), chunks[i], Join(chunks[i + 1..]));
  }

  // ---------------------------------------------------------------- transaction blocks

  function InputChunks(inputs: seq<TransactionInput>): (chunks: seq<Bytes>)
    ensures |chunks| == |inputs|
    ensures forall i :: 0 <= i < |chunks| ==> chunks[i] == EncodeInput(inputs[i])
  {
    seq(|inputs|, i requires 0 <= i < |inputs| => EncodeInput(inputs[i]))
  }

  function OutputChunks(outputs: seq<TransactionOutput>): (chunks: seq<Bytes>)
    ensures |chunks| == |outputs|
    ensures forall i :: 0 <= i < |chunks| ==> chunks[i] == EncodeOutput(outputs[i])
  {
    seq(|outputs|, i requires 0 <= i < |outputs| => EncodeOutput(outputs[i]))
  }

  function EncodeBlock(tb: TransactionBlock): Bytes {
    [tb.InputNumber, tb.OutputNumber] + Join(InputChunks(tb.InputList)) + Join(OutputChunks(tb.OutputList))
    + tb.PayerPublicKey + tb.Signature
  }

  function BlockLength(inputs: nat, outputs: nat): nat {
    2 + inputs * INPUT_SIZE + outputs * OUTPUT_SIZE + KEY_SIZE + SIGNATURE_SIZE
  }

  predicate BlockDecodable(s: Bytes) {
    |s| >= 2 && |s| >= BlockLength(s[0] as nat, s[1] as nat)
  }

  function DecodeBlock(s: Bytes, lookup: Lookup): TransactionBlock
    requires BlockDecodable(s)
  {
    var n, m := s[0] as nat, s[1] as nat;
    var outputsAt := 2 + n * INPUT_SIZE;
    var keyAt := outputsAt + m * OUTPUT_SIZE;
    TransactionBlock(
      s[0], s[1],
      seq(n, i requires 0 <= i < n => InputAt(s, n, m, i, lookup)),
      seq(m, i requires 0 <= i < m => OutputAt(s, n, m, i)),
      s[keyAt + KEY_SIZE..keyAt + KEY_SIZE + SIGNATURE_SIZE],
      s[keyAt..keyAt + KEY_SIZE])
  }

  function InputAt(s: Bytes, n: nat, m: nat, i: nat, lookup: Lookup): TransactionInput
    requires i < n && |s| >= BlockLength(n, m)
  {
    assert (i + 1) * INPUT_SIZE <= n * INPUT_SIZE;
    DecodeInput(s[2 + i * INPUT_SIZE..2 + (i + 1) * INPUT_SIZE], lookup)
  }

  function OutputAt(s: Bytes, n: nat, m: nat, i: nat): TransactionOutput
    requires i < m && |s| >= BlockLength(n, m)
  {
    assert (i + 1) * OUTPUT_SIZE <= m * OUTPUT_SIZE;
    var at := 2 + n * INPUT_SIZE;
    DecodeOutput(s[at + i * OUTPUT_SIZE..at + (i + 1) * OUTPUT_SIZE])
  }

  lemma EncodeBlockLength(tb: TransactionBlock)
    ensures |EncodeBlock(tb)| == BlockLength(|tb.InputList|, |tb.OutputList|)
    ensures |Join(InputChunks(tb.InputList))| == |tb.InputList| * INPUT_SIZE
    ensures |Join(OutputChunks(tb.OutputList))| == |tb.OutputList| * OUTPUT_SIZE
  {
    JoinLength(InputChunks(tb.InputList), INPUT_SIZE);
    JoinLength(OutputChunks(tb.OutputList), OUTPUT_SIZE);
  }

  /** What a receiver makes of a transaction block: the same, with every reference resolved by its own lookup. */
  function Resolved(tb: TransactionBlock, lookup: Lookup): TransactionBlock {
    tb.(InputList := ResolvedInputs(tb.InputList, lookup))
  }

  function ResolvedInputs(inputs: seq<TransactionInput>, lookup: Lookup): (r: seq<TransactionInput>)
    ensures |r| == |inputs|
  {
    seq(|inputs|, i requires 0 <= i < |inputs| => inputs[i].(OutputBlock := lookup(inputs[i].reference)))
  }

  lemma SliceWithin(x: Bytes, y: Bytes, z: Bytes, from: nat, to: nat)
    requires from <= to <= |y|
    ensures (x + y + z)[|x| + from..|x| + to] == y[from..to]
  {
  }

  lemma BlockLayout(tb: TransactionBlock)
    ensures var head := [tb.InputNumber, tb.OutputNumber];
            var inputs, outputs := Join(InputChunks(tb.InputList)), Join(OutputChunks(tb.OutputList));
            && EncodeBlock(tb) == head + inputs + (outputs + tb.PayerPublicKey + tb.Signature)
            && EncodeBlock(tb) == (head + inputs) + outputs + (tb.PayerPublicKey + tb.Signature)
  {
  }

  lemma BlockInputsRoundTrip(tb: TransactionBlock, lookup: Lookup, i: nat)
    requires i < |tb.InputList| && |EncodeBlock(tb)| >= BlockLength(|tb.InputList|, |tb.OutputList|)
    ensures InputAt(EncodeBlock(tb), |tb.InputList|, |tb.OutputList|, i, lookup)
         == ResolvedInputs(tb.InputList, lookup)[i]
  {
    var chunks := InputChunks(tb.InputList);
    JoinChunk(chunks, INPUT_SIZE, i);
    var tail := Join(OutputChunks(tb.OutputList)) + tb.PayerPublicKey + tb.Signature;
    BlockLayout(tb);
    SliceWithin([tb.InputNumber, tb.OutputNumber], Join(chunks), tail, i * INPUT_SIZE, (i + 1) * INPUT_SIZE);
    InputRoundTrip(tb.InputList[i], lookup);
  }

  lemma BlockOutputBytes(tb: TransactionBlock, i: nat)
    requires i < |tb.OutputList|
    ensures var at := 2 + |tb.InputList| * INPUT_SIZE;
            && 0 <= at + i * OUTPUT_SIZE <= at + (i + 1) * OUTPUT_SIZE <= |EncodeBlock(tb)|
            && EncodeBlock(tb)[at + i * OUTPUT_SIZE..at + (i + 1) * OUTPUT_SIZE] == EncodeOutput(tb.OutputList[i])
  {
    var chunks := OutputChunks(tb.OutputList);
    JoinChunk(chunks, OUTPUT_SIZE, i);
    EncodeBlockLength(tb);
    var head := [tb.InputNumber, tb.OutputNumber] + Join(InputChunks(tb.InputList));
    BlockLayout(tb);
    SliceWithin(head, Join(chunks), tb.PayerPublicKey + tb.Signature, i * OUTPUT_SIZE, (i + 1) * OUTPUT_SIZE);
  }

  lemma BlockOutputsRoundTrip(tb: TransactionBlock, i: nat)
    requires i < |tb.OutputList| && |EncodeBlock(tb)| >= BlockLength(|tb.InputList|, |tb.OutputList|)
    ensures OutputAt(EncodeBlock(tb), |tb.InputList|, |tb.OutputList|, i) == tb.OutputList[i]
  {
    BlockOutputBytes(tb, i);
    OutputRoundTrip(tb.OutputList[i]);
  }

  lemma BlockRoundTrip(tb: TransactionBlock, lookup: Lookup)
    requires tb.CountsMatch()
    ensures BlockDecodable(EncodeBlock(tb)) && DecodeBlock(EncodeBlock(tb), lookup) == Resolved(tb, lookup)
  {
    var s := EncodeBlock(tb);
    EncodeBlockLength(tb);
    var d := DecodeBlock(s, lookup);
    forall i | 0 <= i < |tb.InputList| ensures d.InputList[i] == Resolved(tb, lookup).InputList[i] {
      BlockInputsRoundTrip(tb, lookup, i);
    }
    forall i | 0 <= i < |tb.OutputList| ensures d.OutputList[i] == tb.OutputList[i] {
      BlockOutputsRoundTrip(tb, i);
    }
    assert d.InputList == Resolved(tb, lookup).InputList && d.OutputList == tb.OutputList;
  }

  // ---------------------------------------------------------------- what the signatures cover

  function GetPreSignature(tb: TransactionBlock): Digest
  {
    EncodeBlockLength(tb);
    var ser := EncodeBlock(tb);
    Sum256(ser[..|ser| - SIGNATURE_SIZE])
  }

  /** The signed bytes of a transaction block do not depend on its signature, ... */
  lemma BlockSignatureExcludesItself(tb: TransactionBlock, sig: Signature)
    ensures GetPreSignature(tb.(Signature := sig)) == GetPreSignature(tb)
  {
    var tb' := tb.(Signature := sig);
    EncodeBlockLength(tb);
    EncodeBlockLength(tb');
    var s, s' := EncodeBlock(tb), EncodeBlock(tb');
    assert s[..|s| - SIGNATURE_SIZE] == s'[..|s'| - SIGNATURE_SIZE];
  }

  /** The bytes hashed by `presSignatureHash`. */
  function OutputPreSignature(to: TransactionOutput): Bytes {
    EncodeOutput(to)[..OUTPUT_SIZE - SIGNATURE_SIZE]
  }

  /** ... but those of an output do: because the layout ends in 32 spare bytes, cutting a signature's length off
      its end leaves the first 32 bytes of the signature in.  An output is signed while its signature is zero,
      so checking it hashes the bytes that were signed exactly when the signature starts with 32 zeros. */
  lemma OutputSignatureCoversItself(to: TransactionOutput, sig: Signature)
    requires to.Signature == Zeros(128)
    ensures OutputPreSignature(to.(Signature := sig)) == OutputPreSignature(to) <==> sig[..32] == Zeros(32)
  {
    var head := LittleEndian(to.Amount, 8) + to.ReceiverPublicKey + to.text;
    assert OutputPreSignature(to.(Signature := sig)) == head + sig[..32];
    assert OutputPreSignature(to) == head + Zeros(32);
    assert (head + sig[..32])[|head|..] == sig[..32] && (head + Zeros(32))[|head|..] == Zeros(32);
  }
}
