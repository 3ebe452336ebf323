/** The wallet: what it holds, which of it is spent on a payment, and the proofs it keeps. */
module Wallets {
  import opened Bytes
  import opened Transactions
  import opened MerkleShape
  import MP = MerkleProof
  import opened MerkleTrees
  import PC = ProofCodec
  import opened Ledger
  import opened Verification
  import opened Supply
  import opened Blocks
  import opened ChainState
  import opened UtxoManagers
  import opened GroupBuilding
  import opened TransactionPools

  /** An output that was received: its block, a serialized Merkle proof of it, and where it is. */
  datatype TransactionAndProof = TransactionAndProof(tb: TransactionBlock, tp: Bytes, tr: TransactionRef) {
    predicate InRange() {
      tr.OutputNumber as nat < |tb.OutputList|
    }

    function Output(): TransactionOutput
      requires InRange()
    {
      tb.OutputList[tr.OutputNumber as nat]
    }
  }

  predicate AllInRange(entries: seq<TransactionAndProof>) {
    forall i :: 0 <= i < |entries| ==> entries[i].InRange()
  }

  function RefsOfEntries(entries: seq<TransactionAndProof>): (refs: seq<TransactionRef>)
    ensures |refs| == |entries|
  {
    seq(|entries|, i requires 0 <= i < |entries| => entries[i].tr)
  }

  function Worth(entries: seq<TransactionAndProof>): nat
    requires AllInRange(entries)
  {
    if entries == [] then 0 else Worth(entries[..|entries| - 1]) + entries[|entries| - 1].Output().Amount
  }

  /** What of it is unspent. */
  function Available(entries: seq<TransactionAndProof>, m: Utxo): nat
    requires AllInRange(entries)
  {
    if entries == [] then 0
    else
      var e := entries[|entries| - 1];
      Available(entries[..|entries| - 1], m) + if Spendable(m, e.tr) then e.Output().Amount else 0
  }

  // ---------------------------------------------------------------- coin selection

  /** Selection ends with the first output that makes the running sum, a `uint64`, large enough. */
  predicate Enough(chosen: seq<TransactionAndProof>, amount: Uint64)
    requires AllInRange(chosen)
  {
    chosen != [] && U64(Worth(chosen)) >= amount
  }

  function Chosen(entries: seq<TransactionAndProof>, m: Utxo, amount: Uint64): (chosen: seq<TransactionAndProof>)
    requires AllInRange(entries)
    ensures AllInRange(chosen)
  {
    if entries == [] then []
    else
      var e, chosen := entries[|entries| - 1], Chosen(entries[..|entries| - 1], m, amount);
      if Enough(chosen, amount) || !Spendable(m, e.tr) then chosen else chosen + [e]
  }

  /** The sum is large enough at the end. */
  predicate Affordable(chosen: seq<TransactionAndProof>, amount: Uint64)
    requires AllInRange(chosen)
  {
    U64(Worth(chosen)) >= amount
  }

  lemma OneMoreEntry(entries: seq<TransactionAndProof>, m: Utxo, amount: Uint64, i: nat)
    requires AllInRange(entries) && i < |entries|
    ensures Available(entries[..i + 1], m)
         == Available(entries[..i], m) + if Spendable(m, entries[i].tr) then entries[i].Output().Amount else 0
    ensures Chosen(entries[..i + 1], m, amount)
         == if Enough(Chosen(entries[..i], m, amount), amount) || !Spendable(m, entries[i].tr)
            then Chosen(entries[..i], m, amount) else Chosen(entries[..i], m, amount) + [entries[i]]
  {
    assert entries[..i + 1][..i] == entries[..i];
  }

  lemma {:induction false} StopsThere(entries: seq<TransactionAndProof>, m: Utxo, amount: Uint64, i: nat)
    requires AllInRange(entries) && i <= |entries| && Enough(Chosen(entries[..i], m, amount), amount)
    ensures Chosen(entries, m, amount) == Chosen(entries[..i], m, amount)
  {
    if i < |entries| {
      var front := entries[..|entries| - 1];
      assert front[..i] == entries[..i];
      StopsThere(front, m, amount, i);
    } else {
      assert entries[..i] == entries;
    }
  }

  lemma {:induction false} ChosenWorth(entries: seq<TransactionAndProof>, m: Utxo, amount: Uint64)
    requires AllInRange(entries)
    ensures var chosen := Chosen(entries, m, amount);
            && Worth(chosen) <= Available(entries, m)
            && (Enough(chosen, amount) || Worth(chosen) == Available(entries, m))
  {
    if entries != [] {
      ChosenWorth(entries[..|entries| - 1], m, amount);
      var chosen, e := Chosen(entries[..|entries| - 1], m, amount), entries[|entries| - 1];
      assert (chosen + [e])[..|chosen|] == chosen;
    }
  }

  /** A payment can be made exactly when the amount is available. */
  lemma PaysExactlyIfAvailable(entries: seq<TransactionAndProof>, m: Utxo, amount: Uint64)
    requires AllInRange(entries) && Available(entries, m) < TWO_TO_THE_64
    ensures Affordable(Chosen(entries, m, amount), amount) <==> amount <= Available(entries, m)
  {
    ChosenWorth(entries, m, amount);
  }

  /** Only unspent outputs are chosen, in the order in which they are held, none more often than it is held. */
  lemma {:induction false} ChosenRefs(entries: seq<TransactionAndProof>, m: Utxo, amount: Uint64)
    requires AllInRange(entries) && Distinct(RefsOfEntries(entries))
    ensures RefsOk(m, RefsOfEntries(Chosen(entries, m, amount)))
  {
    if entries != [] {
      var n := |entries| - 1;
      var front, e := entries[..n], entries[n];
      var refs := RefsOfEntries(entries);
      assert forall i :: 0 <= i < n ==> refs[i] == RefsOfEntries(front)[i];
      ChosenRefs(front, m, amount);
      ChosenAreHeld(front, m, amount);
      var chosen := Chosen(front, m, amount);
      forall c | c in chosen ensures c.tr != e.tr {
        var i :| 0 <= i < n && front[i] == c;
        assert refs[i] == c.tr && refs[n] == e.tr;
      }
      assert RefsOfEntries(chosen + [e]) == RefsOfEntries(chosen) + [e.tr];
      if Spendable(m, e.tr) {
        RefsOkOneMore(m, RefsOfEntries(chosen), e.tr);
      }
    }
  }

  lemma RefsOkOneMore(m: Utxo, refs: seq<TransactionRef>, tr: TransactionRef)
    requires RefsOk(m, refs) && Spendable(m, tr) && tr !in refs
    ensures RefsOk(m, refs + [tr])
  {
  }

  // ---------------------------------------------------------------- the transaction

  function InputFor(e: TransactionAndProof, priv: Bytes): TransactionInput
    requires e.InRange()
  {
    TransactionInput(SignWith(Sum256(EncodeOutput(e.Output())), priv), Some(e.Output()), e.tr)
  }

  function InputsFor(chosen: seq<TransactionAndProof>, priv: Bytes): (inputs: seq<TransactionInput>)
    requires AllInRange(chosen)
    ensures |inputs| == |chosen|
  {
    seq(|chosen|, i requires 0 <= i < |chosen| => InputFor(chosen[i], priv))
  }

  lemma {:induction false} InputsWorthChosen(chosen: seq<TransactionAndProof>, priv: Bytes)
    requires AllInRange(chosen)
    ensures InputSum(InputsFor(chosen, priv)) == Worth(chosen)
  {
    if chosen != [] {
      var n := |chosen| - 1;
      InputsWorthChosen(chosen[..n], priv);
      assert InputsFor(chosen, priv)[..n] == InputsFor(chosen[..n], priv);
    }
  }

  const EXCHANGE: Text := [101, 120, 99, 104, 97, 110, 103, 101] + Zeros(24)

  function Pay(amount: Uint64, receiver: PublicKey, text: Text, priv: Bytes): TransactionOutput {
    SignOutput(TransactionOutput(amount, Zeros(128), receiver, text), priv)
  }

  /** The payment, and the change if there is any. */
  function Payment(amount: Uint64, exchange: Uint64, receiver: PublicKey, msg: Text, own: PublicKey, priv: Bytes):
    seq<TransactionOutput>
  {
    [Pay(amount, receiver, msg, priv)] + if exchange != 0 then [Pay(exchange, own, EXCHANGE, priv)] else []
  }

  lemma PaymentSum(amount: Uint64, exchange: Uint64, receiver: PublicKey, msg: Text, own: PublicKey, priv: Bytes)
    ensures OutputSum(Payment(amount, exchange, receiver, msg, own, priv)) == amount + exchange
  {
    var first := [Pay(amount, receiver, msg, priv)];
    assert first[..0] == [] && OutputSum(first) == amount;
    if exchange != 0 {
      var both := Payment(amount, exchange, receiver, msg, own, priv);
      assert both[..1] == first;
    }
  }

  lemma FewPayments(amount: Uint64, exchange: Uint64, receiver: PublicKey, msg: Text, own: PublicKey, priv: Bytes)
    ensures |Payment(amount, exchange, receiver, msg, own, priv)| <= 2
  {
  }

  /** The outputs one by one. */
  lemma PaymentOutputs(amount: Uint64, exchange: Uint64, receiver: PublicKey, msg: Text, own: PublicKey, priv: Bytes)
    ensures var outputs := Payment(amount, exchange, receiver, msg, own, priv);
            && |outputs| == (if exchange == 0 then 1 else 2)
            && outputs[0].Amount == amount && outputs[0].ReceiverPublicKey == receiver && outputs[0].text == msg
            && (forall o :: o in outputs[1..] ==> o.ReceiverPublicKey == own)
            && (exchange != 0 ==>
                  && outputs[1].Amount == exchange && outputs[1].ReceiverPublicKey == own
                  && outputs[1].text == [101, 120, 99, 104, 97, 110, 103, 101] + Zeros(24))
  {
  }

  lemma PaymentSigned(amount: Uint64, exchange: Uint64, receiver: PublicKey, msg: Text, own: PublicKey, priv: Bytes)
    ensures forall o :: o in Payment(amount, exchange, receiver, msg, own, priv) ==> SignedOutput(o, priv)
  {
    SigningSigns(TransactionOutput(amount, Zeros(128), receiver, msg), priv);
    SigningSigns(TransactionOutput(exchange, Zeros(128), own, EXCHANGE), priv);
  }

  /** What a payment is worth to whoever checks it. */
  ghost predicate Balanced(tx: TransactionBlock, chosen: seq<TransactionAndProof>)
    requires AllInRange(chosen)
  {
    && tx.Refs() == RefsOfEntries(chosen) && InputSum(tx.InputList) == Worth(chosen)
    && OutputSum(tx.OutputList) == U64(InputSum(tx.InputList))
  }

  /** An assembled payment passes every check there is. */
  lemma PaymentPasses(tx: TransactionBlock, chosen: seq<TransactionAndProof>, priv: Bytes)
    requires AllInRange(chosen) && tx.InputList == InputsFor(chosen, priv) && Balanced(tx, chosen)
    requires forall e :: e in chosen ==> e.Output().ReceiverPublicKey == tx.PayerPublicKey
    requires KeyPair(priv, tx.PayerPublicKey)
    requires SignatureOk(GetPreSignature(tx), tx.Signature, tx.PayerPublicKey)
    ensures Passes(tx, false)
  {
    forall i | 0 <= i < |tx.InputList| ensures InputSigned(tx.InputList[i]) && Owned(tx, i) {
      assert chosen[i] in chosen && tx.InputList[i] == InputFor(chosen[i], priv);
    }
  }

  /** Where the chosen entries are, and how many entries were looked at. */
  function ChosenAt(entries: seq<TransactionAndProof>, m: Utxo, amount: Uint64): seq<nat>
    requires AllInRange(entries)
  {
    if entries == [] then []
    else
      var n := |entries| - 1;
      var at := ChosenAt(entries[..n], m, amount);
      if Enough(Chosen(entries[..n], m, amount), amount) || !Spendable(m, entries[n].tr) then at else at + [n]
  }

  function LookedAt(entries: seq<TransactionAndProof>, m: Utxo, amount: Uint64): (p: nat)
    requires AllInRange(entries)
    ensures p <= |entries|
  {
    if entries == [] then 0
    else if Enough(Chosen(entries[..|entries| - 1], m, amount), amount) then
      LookedAt(entries[..|entries| - 1], m, amount)
    else |entries|
  }

  /** The inputs are for the unspent ones of the first `p` entries, in their order, at the places `at`.  No proper part
      of them, but the first alone, comes before without its sum being less than the amount; and if entries are left
      over, their sum is at least the amount.  Sums are those of `uint64`. */
  ghost predicate Selection(entries: seq<TransactionAndProof>, m: Utxo, amount: nat, inputs: seq<TransactionInput>,
                            at: seq<nat>, p: nat)
  {
    && p <= |entries| && |at| == |inputs| && (forall k :: 0 <= k < |at| ==> at[k] < p)
    && (forall k, l :: 0 <= k < l < |at| ==> at[k] < at[l])
    && (forall i :: 0 <= i < p ==> (i in at <==> entries[i].tr in m && m[entries[i].tr]))
    && (forall k :: 0 <= k < |inputs| ==>
          && inputs[k].reference == entries[at[k]].tr && entries[at[k]].InRange()
          && inputs[k].OutputBlock == Some(entries[at[k]].Output()))
    && (forall q :: 1 <= q < |inputs| ==> InputSum(inputs[..q]) % 18_446_744_073_709_551_616 < amount)
    && (p < |entries| ==> inputs != [] && InputSum(inputs) % 18_446_744_073_709_551_616 >= amount)
  }

  /** `chosen` are the unspent ones of the first `p` entries, at the places `at`. */
  ghost predicate Places(entries: seq<TransactionAndProof>, m: Utxo, chosen: seq<TransactionAndProof>, at: seq<nat>,
                         p: nat)
  {
    && p <= |entries| && |at| == |chosen|
    && (forall k :: 0 <= k < |at| ==> at[k] < p && chosen[k] == entries[at[k]])
    && (forall k, l :: 0 <= k < l < |at| ==> at[k] < at[l])
    && (forall i :: 0 <= i < p ==> (i in at <==> Spendable(m, entries[i].tr)))
  }

  lemma PlacesStay(front: seq<TransactionAndProof>, e: TransactionAndProof, m: Utxo, chosen: seq<TransactionAndProof>,
                   at: seq<nat>, p: nat)
    requires Places(front, m, chosen, at, p)
    ensures Places(front + [e], m, chosen, at, p)
    ensures p == |front| && !Spendable(m, e.tr) ==> Places(front + [e], m, chosen, at, p + 1)
  {
  }

  lemma OnePlaceMore(front: seq<TransactionAndProof>, e: TransactionAndProof, m: Utxo,
                     chosen: seq<TransactionAndProof>, at: seq<nat>)
    requires Places(front, m, chosen, at, |front|) && Spendable(m, e.tr)
    ensures Places(front + [e], m, chosen + [e], at + [|front|], |front| + 1)
  {
    var all, at' := front + [e], at + [|front|];
    forall i | 0 <= i < |all| ensures i in at' <==> Spendable(m, all[i].tr) {
      assert i in at' <==> i in at || i == |front|;
    }
  }

  /** Where the chosen entries are. */
  lemma {:induction false} ChosenPlaces(entries: seq<TransactionAndProof>, m: Utxo, amount: Uint64)
    requires AllInRange(entries)
    ensures var p, chosen := LookedAt(entries, m, amount), Chosen(entries, m, amount);
            && Places(entries, m, chosen, ChosenAt(entries, m, amount), p)
            && (p < |entries| ==> Enough(chosen, amount))
            && (!Enough(chosen, amount) ==> p == |entries|)
  {
    hide Places, Spendable, Enough;
    if entries != [] {
      var n := |entries| - 1;
      var front, e := entries[..n], entries[n];
      ChosenPlaces(front, m, amount);
      var at, p, chosen := ChosenAt(front, m, amount), LookedAt(front, m, amount), Chosen(front, m, amount);
      assert entries == front + [e];
      PlacesStay(front, e, m, chosen, at, p);
      if !Enough(chosen, amount) && Spendable(m, e.tr) {
        OnePlaceMore(front, e, m, chosen, at);
      }
    } else {
      NoPlaces(m);
    }
  }

  lemma NoPlaces(m: Utxo)
    ensures Places([], m, [], [], 0)
  {
  }

  /** Before the last of the chosen entries the sum was not enough. */
  lemma {:induction false} NotEnoughBefore(entries: seq<TransactionAndProof>, m: Utxo, amount: Uint64, q: nat)
    requires AllInRange(entries) && 1 <= q < |Chosen(entries, m, amount)|
    ensures AllInRange(Chosen(entries, m, amount)[..q]) && U64(Worth(Chosen(entries, m, amount)[..q])) < amount
  {
    var n := |entries| - 1;
    var chosen, before := Chosen(entries, m, amount), Chosen(entries[..n], m, amount);
    if q < |before| {
      NotEnoughBefore(entries[..n], m, amount, q);
      assert chosen[..q] == before[..q];
    } else {
      assert chosen == before + [entries[n]] && chosen[..q] == before;
    }
  }

  /** Selection stops where the source stops. */
  lemma SelectionIsRight(entries: seq<TransactionAndProof>, m: Utxo, amount: Uint64, priv: Bytes)
    requires AllInRange(entries)
    ensures Selection(entries, m, amount, InputsFor(Chosen(entries, m, amount), priv), ChosenAt(entries, m, amount),
                      LookedAt(entries, m, amount))
  {
    hide Chosen, ChosenAt, LookedAt, InputSum, Worth;
    var chosen := Chosen(entries, m, amount);
    var inputs, at, p := InputsFor(chosen, priv), ChosenAt(entries, m, amount), LookedAt(entries, m, amount);
    ChosenPlaces(entries, m, amount);
    forall k | 0 <= k < |inputs|
      ensures inputs[k].reference == entries[at[k]].tr && inputs[k].OutputBlock == Some(entries[at[k]].Output())
    {
      assert inputs[k] == InputFor(chosen[k], priv);
    }
    forall q | 1 <= q < |inputs| ensures InputSum(inputs[..q]) % 18_446_744_073_709_551_616 < amount {
      NotEnoughBefore(entries, m, amount, q);
      InputsWorthChosen(chosen[..q], priv);
      assert InputsFor(chosen[..q], priv) == inputs[..q];
    }
    InputsWorthChosen(chosen, priv);
  }

  // ---------------------------------------------------------------- what a block pays

  /** The outputs of transaction block `k` that pay `key`. */
  function ReceivedFrom(hash: Digest, k: nat, outputs: seq<TransactionOutput>, key: PublicKey): seq<TransactionRef> {
    if outputs == [] then []
    else
      var j := |outputs| - 1;
      ReceivedFrom(hash, k, outputs[..j], key) + if outputs[j].ReceiverPublicKey == key then [RefAt(hash, k, j)] else []
  }

  function Received(hash: Digest, blocks: seq<TransactionBlock>, key: PublicKey): seq<TransactionRef> {
    if blocks == [] then []
    else
      var k := |blocks| - 1;
      Received(hash, blocks[..k], key) + ReceivedFrom(hash, k, blocks[k].OutputList, key)
  }

  ghost predicate PaysAt(hash: Digest, blocks: seq<TransactionBlock>, key: PublicKey, tr: TransactionRef) {
    CreatedBy(hash, blocks, tr) && Named(blocks, tr).ReceiverPublicKey == key
  }

  lemma {:induction false} ReceivedFromMeaning(hash: Digest, k: nat, outputs: seq<TransactionOutput>, key: PublicKey)
    requires k < 256 && |outputs| <= 256
    ensures Distinct(ReceivedFrom(hash, k, outputs, key))
    ensures forall tr :: tr in ReceivedFrom(hash, k, outputs, key) <==>
              && tr.BlockHash == hash && tr.TransactionBlockNumber as nat == k && tr.OutputNumber as nat < |outputs|
              && outputs[tr.OutputNumber as nat].ReceiverPublicKey == key
  {
    if outputs != [] {
      ReceivedFromMeaning(hash, k, outputs[..|outputs| - 1], key);
    }
  }

  /** An update lists every output of the block that pays the wallet, once. */
  lemma {:induction false} ReceivedMeaning(hash: Digest, blocks: seq<TransactionBlock>, key: PublicKey)
    requires Numbered(blocks)
    ensures Distinct(Received(hash, blocks, key))
    ensures forall tr :: tr in Received(hash, blocks, key) <==> PaysAt(hash, blocks, key, tr)
  {
    if blocks != [] {
      var k := |blocks| - 1;
      ReceivedMeaning(hash, blocks[..k], key);
      ReceivedFromMeaning(hash, k, blocks[k].OutputList, key);
      assert forall tr :: PaysAt(hash, blocks[..k], key, tr) ==> tr.TransactionBlockNumber as nat < k;
    }
  }

  /** A wallet without duplicates stays so exactly if it holds nothing of the block yet: being told of a block twice,
      as happens when a branch is rebuilt, lists what it pays twice. */
  lemma UpdateKeepsDistinct(refs: seq<TransactionRef>, hash: Digest, blocks: seq<TransactionBlock>, key: PublicKey)
    requires Numbered(blocks) && Distinct(refs)
    ensures Distinct(refs + Received(hash, blocks, key)) <==> forall tr :: PaysAt(hash, blocks, key, tr) ==> tr !in refs
  {
    ReceivedMeaning(hash, blocks, key);
    var more := Received(hash, blocks, key);
    if Distinct(refs + more) {
      DistinctParts(refs, more);
    }
    if forall tr :: PaysAt(hash, blocks, key, tr) ==> tr !in refs {
      forall i, j | 0 <= i < j < |refs + more| ensures (refs + more)[i] != (refs + more)[j] {
        if i < |refs| <= j {
          assert (refs + more)[j] in more && (refs + more)[i] in refs;
        }
      }
    }
  }

  // ---------------------------------------------------------------- what the wallet holds is real

  /** What an entry says of the block tree: its block is part of the data held for its hash, its output pays `key`,
      and its proof leads from the bytes of the block to the Merkle root of that data. */
  ghost predicate EntryOk(view: View, key: PublicKey, e: TransactionAndProof) {
    && e.InRange() && e.Output().ReceiverPublicKey == key
    && e.tr.BlockHash in view && view[e.tr.BlockHash].transactionBlocks != []
    && var g, k := view[e.tr.BlockHash], e.tr.TransactionBlockNumber as nat;
    && k < |g.TransactionBlockStructs| == |g.transactionBlocks| && g.TransactionBlockStructs[k] == e.tb
    && ProvesBlock(e.tp, g.transactionBlocks[k], g.MerkleRoot())
  }

  /** A receiver of `tp` finds that `data` is a leaf below `root`. */
  ghost predicate ProvesBlock(tp: Bytes, data: Bytes, root: Digest) {
    && PC.Decodable(tp) && PC.Decode(tp).WellFormed()
    && PC.Decode(tp).data == data && MP.ProofRoot(PC.Decode(tp)) == root
  }

  ghost predicate EntriesOk(view: View, key: PublicKey, entries: seq<TransactionAndProof>) {
    forall i :: 0 <= i < |entries| ==> EntryOk(view, key, entries[i])
  }

  /** What is held stays held while data only arrives. */
  lemma EntriesStay(view: View, view': View, key: PublicKey, entries: seq<TransactionAndProof>)
    requires EntriesOk(view, key, entries) && Extends(view, view')
    ensures EntriesOk(view', key, entries)
  {
    forall i | 0 <= i < |entries| ensures EntryOk(view', key, entries[i]) {
      assert EntryOk(view, key, entries[i]);
    }
  }

  /** A payment carries the outputs its references name. */
  lemma PaymentIsResolved(view: View, key: PublicKey, entries: seq<TransactionAndProof>, m: Utxo, amount: Uint64,
                          priv: Bytes, tx: TransactionBlock)
    requires EntriesOk(view, key, entries) && AllInRange(entries)
    requires tx.InputList == InputsFor(Chosen(entries, m, amount), priv)
    ensures BlockResolved(view, tx)
  {
    hide Chosen;
    var chosen := Chosen(entries, m, amount);
    ChosenAreHeld(entries, m, amount);
    forall i | 0 <= i < |tx.InputList| ensures InputResolved(view, tx.InputList[i]) {
      var e := chosen[i];
      assert e in entries && EntryOk(view, key, e) && tx.InputList[i] == InputFor(e, priv);
    }
  }

  /** What the wallet takes an unspent output for is what the chain takes it for. */
  lemma EntryIsWorthItsCoin(view: View, history: seq<Record>, key: PublicKey, e: TransactionAndProof)
    requires EntryOk(view, key, e) && InView(view, history) && WellFormed(history)
    requires Spendable(Replay(history), e.tr)
    ensures e.tr in ChainCoins(history) && ChainCoins(history)[e.tr] == e.Output().Amount
  {
    ChainCoinsMeaning(history, e.tr);
    ReplayMeaning(history, e.tr);
    var c :| 0 <= c < |history| && CreatedAt(history, c, e.tr);
    assert RecordInView(view, history[c]);
  }

  lemma EntriesInRange(view: View, key: PublicKey, entries: seq<TransactionAndProof>)
    requires EntriesOk(view, key, entries)
    ensures AllInRange(entries)
  {
    forall i | 0 <= i < |entries| ensures entries[i].InRange() {
      assert EntryOk(view, key, entries[i]);
    }
  }

  /** The unspent references of the wallet. */
  function UnspentRefs(entries: seq<TransactionAndProof>, m: Utxo): seq<TransactionRef> {
    if entries == [] then []
    else
      var e := entries[|entries| - 1];
      UnspentRefs(entries[..|entries| - 1], m) + if Spendable(m, e.tr) then [e.tr] else []
  }

  lemma {:induction false} UnspentRefsMeaning(entries: seq<TransactionAndProof>, m: Utxo)
    requires Distinct(RefsOfEntries(entries))
    ensures Distinct(UnspentRefs(entries, m))
    ensures forall tr :: tr in UnspentRefs(entries, m) <==> Spendable(m, tr) && tr in RefsOfEntries(entries)
  {
    if entries != [] {
      var n := |entries| - 1;
      var refs := RefsOfEntries(entries);
      assert forall i :: 0 <= i < n ==> refs[i] == RefsOfEntries(entries[..n])[i];
      assert refs == RefsOfEntries(entries[..n]) + [entries[n].tr];
      UnspentRefsMeaning(entries[..n], m);
      forall i | 0 <= i < n ensures RefsOfEntries(entries[..n])[i] != entries[n].tr {
        assert refs[i] != refs[n];
      }
    }
  }

  lemma {:induction false} AvailableIsRefSum(view: View, history: seq<Record>, key: PublicKey,
                                             entries: seq<TransactionAndProof>)
    requires EntriesOk(view, key, entries) && InView(view, history) && WellFormed(history)
    ensures AllInRange(entries)
    ensures forall tr :: tr in UnspentRefs(entries, Replay(history)) ==> tr in ChainCoins(history)
    ensures Available(entries, Replay(history)) == RefSum(ChainCoins(history), UnspentRefs(entries, Replay(history)))
  {
    hide Replay, WellFormed, ChainCoins, EntryOk, InView, Spendable;
    EntriesInRange(view, key, entries);
    if entries != [] {
      var n := |entries| - 1;
      AvailableIsRefSum(view, history, key, entries[..n]);
      assert EntryOk(view, key, entries[n]);
      var before, all := UnspentRefs(entries[..n], Replay(history)), UnspentRefs(entries, Replay(history));
      if Spendable(Replay(history), entries[n].tr) {
        EntryIsWorthItsCoin(view, history, key, entries[n]);
        assert all == before + [entries[n].tr];
        assert all[..|before|] == before;
      } else {
        assert all == before;
      }
    }
  }

  /** What a wallet can spend is part of the money supply, so its sum does not wrap. */
  lemma AvailableIsBounded(view: View, history: seq<Record>, key: PublicKey, entries: seq<TransactionAndProof>)
    requires EntriesOk(view, key, entries) && InView(view, history) && Distinct(RefsOfEntries(entries))
    requires Verified(history) && NoOverflow(history) && |history| < 0x1_0000_0000
    ensures AllInRange(entries)
    ensures Available(entries, Replay(history)) <= |history| * DAVIDCOIN < TWO_TO_THE_64
  {
    var c, refs := ChainCoins(history), UnspentRefs(entries, Replay(history));
    AvailableIsRefSum(view, history, key, entries);
    UnspentRefsMeaning(entries, Replay(history));
    RemoveTotal(c, refs);
    MoneySupply(history);
    assert SupplyAfter(history, |history|) <= |history| * DAVIDCOIN;
    assert history[..|history|] == history;
  }

  // ---------------------------------------------------------------- what it was shown

  /** What the block of `n` pays. */
  ghost function Paid(view: View, n: BlockChainNode, key: PublicKey): seq<TransactionRef> {
    if n.Hash in view then Received(n.Hash, view[n.Hash].TransactionBlockStructs, key) else []
  }

  /** What a wallet lists after it was shown these nodes. */
  ghost function Listed(view: View, told: seq<BlockChainNode>, key: PublicKey): seq<TransactionRef> {
    if told == [] then [] else Listed(view, told[..|told| - 1], key) + Paid(view, told[|told| - 1], key)
  }

  lemma StillRight(w: Wallet, view: View, view': View)
    requires w.Right(view) && Extends(view, view')
    ensures w.Right(view')
  {
    EntriesStay(view, view', w.PublicKey, w.transactions);
  }

  lemma ListedNothing(view: View, key: PublicKey)
    ensures Listed(view, [], key) == []
  {
  }

  lemma ListedOne(view: View, n: BlockChainNode, key: PublicKey)
    ensures Listed(view, [n], key) == Paid(view, n, key)
  {
    assert [n][..0] == [];
  }

  lemma ListedOneMore(view: View, told: seq<BlockChainNode>, n: BlockChainNode, key: PublicKey)
    ensures Listed(view, told + [n], key) == Listed(view, told, key) + Paid(view, n, key)
  {
    assert (told + [n])[..|told|] == told;
  }

  lemma {:induction false} ListedMore(view: View, told: seq<BlockChainNode>, more: seq<BlockChainNode>, key: PublicKey)
    ensures Listed(view, told + more, key) == Listed(view, told, key) + Listed(view, more, key)
  {
    hide Listed, Paid;
    if more == [] {
      assert told + more == told;
      ListedNothing(view, key);
    } else {
      var n := |more| - 1;
      ListedMore(view, told, more[..n], key);
      ListedOneMore(view, told + more[..n], more[n], key);
      ListedOneMore(view, more[..n], more[n], key);
      assert told + more == (told + more[..n]) + [more[n]] && more == more[..n] + [more[n]];
    }
  }

  lemma {:induction false} ListedStays(view: View, view': View, told: seq<BlockChainNode>, key: PublicKey)
    requires Extends(view, view') && forall n :: n in told ==> n.Hash in view
    ensures Listed(view', told, key) == Listed(view, told, key)
  {
    if told != [] {
      ListedStays(view, view', told[..|told| - 1], key);
    }
  }

  lemma PaidMeaning(view: View, n: BlockChainNode, key: PublicKey)
    requires ViewValid(view) && n.Hash in view
    ensures Numbered(view[n.Hash].TransactionBlockStructs) && Distinct(Paid(view, n, key))
    ensures forall tr :: tr in Paid(view, n, key) <==>
              PaysAt(n.Hash, view[n.Hash].TransactionBlockStructs, key, tr)
    ensures forall tr :: tr in Paid(view, n, key) ==> tr.BlockHash == n.Hash
  {
    hide Group.Valid;
    NumberedGroup(view[n.Hash]);
    ReceivedMeaning(n.Hash, view[n.Hash].TransactionBlockStructs, key);
  }

  lemma {:induction false} ListedMeaning(view: View, told: seq<BlockChainNode>, key: PublicKey, tr: TransactionRef)
    ensures tr in Listed(view, told, key) <==> exists n :: n in told && tr in Paid(view, n, key)
  {
    hide Paid;
    if told != [] {
      var n := |told| - 1;
      ListedMeaning(view, told[..n], key, tr);
      assert told == told[..n] + [told[n]];
    }
  }

  /** No block that pays the wallet was shown to it twice. */
  ghost predicate ShownOnce(view: View, told: seq<BlockChainNode>, key: PublicKey) {
    forall i, j :: 0 <= i < j < |told| && told[i].Hash == told[j].Hash ==> Paid(view, told[j], key) == []
  }

  ghost predicate ToldBefore(told: seq<BlockChainNode>, n: BlockChainNode) {
    exists m :: m in told && m.Hash == n.Hash
  }

  lemma OneMoreShown(view: View, told: seq<BlockChainNode>, n: BlockChainNode, key: PublicKey)
    requires ViewValid(view) && n.Hash in view && forall m :: m in told ==> m.Hash in view
    requires Distinct(Listed(view, told, key))
    ensures Distinct(Listed(view, told, key) + Paid(view, n, key)) <==>
            (ToldBefore(told, n) ==> Paid(view, n, key) == [])
  {
    hide ViewValid, Received, Listed, Paid;
    var refs, more := Listed(view, told, key), Paid(view, n, key);
    PaidMeaning(view, n, key);
    if ToldBefore(told, n) && more != [] {
      var m :| m in told && m.Hash == n.Hash;
      SamePaid(view, m, n, key);
      ListedMeaning(view, told, key, more[0]);
      var i :| 0 <= i < |refs| && refs[i] == more[0];
      assert (refs + more)[i] == (refs + more)[|refs|];
    } else {
      forall i, j | 0 <= i < j < |refs + more| ensures (refs + more)[i] != (refs + more)[j] {
        if i < |refs| <= j {
          ListedMeaning(view, told, key, refs[i]);
          var m :| m in told && refs[i] in Paid(view, m, key);
          PaidMeaning(view, m, key);
          assert (refs + more)[j] in more && refs[i] in refs;
        }
      }
    }
  }

  lemma SamePaid(view: View, m: BlockChainNode, n: BlockChainNode, key: PublicKey)
    requires m.Hash == n.Hash
    ensures Paid(view, m, key) == Paid(view, n, key)
  {
  }

  /** The wallet lists nothing twice exactly if no block that pays it was shown to it twice. */
  lemma {:induction false} ListsNothingTwice(view: View, told: seq<BlockChainNode>, key: PublicKey)
    requires ViewValid(view) && forall n :: n in told ==> n.Hash in view
    ensures Distinct(Listed(view, told, key)) <==> ShownOnce(view, told, key)
  {
    hide ViewValid, Paid;
    if told != [] {
      var k := |told| - 1;
      var front, n := told[..k], told[k];
      assert told == front + [n];
      ListsNothingTwice(view, front, key);
      assert Listed(view, told, key) == Listed(view, front, key) + Paid(view, n, key);
      if Distinct(Listed(view, front, key)) {
        OneMoreShown(view, front, n, key);
      } else {
        DistinctFront(Listed(view, front, key), Paid(view, n, key));
      }
      assert ShownOnce(view, told, key) <==>
             ShownOnce(view, front, key) && (ToldBefore(front, n) ==> Paid(view, n, key) == []);
    }
  }

  lemma DistinctFront(refs: seq<TransactionRef>, more: seq<TransactionRef>)
    requires !Distinct(refs)
    ensures !Distinct(refs + more)
  {
    var i, j :| 0 <= i < j < |refs| && refs[i] == refs[j];
    assert (refs + more)[i] == (refs + more)[j];
  }

  // ---------------------------------------------------------------- the wallet itself

  class Wallet {
    const PublicKey: PublicKey
    const privateKey: Bytes
    var transactions: seq<TransactionAndProof>

    ghost predicate Valid()
      reads this
    {
      && AllInRange(transactions)
      && forall e :: e in transactions ==> e.Output().ReceiverPublicKey == PublicKey
    }

    /** What it lists is part of the data held. */
    ghost predicate Right(view: View)
      reads this
    {
      Valid() && EntriesOk(view, PublicKey, transactions)
    }

    constructor initializeWallet(pub: PublicKey, priv: Bytes)
      ensures Valid() && transactions == [] && PublicKey == pub && privateKey == priv
    {
      PublicKey, privateKey, transactions := pub, priv, [];
    }

    /** Serialized proof of transaction block `i`. */
    method ProofOf(merkleTree: MerkleTree, i: nat) returns (serProof: Bytes)
      requires merkleTree.Valid() && merkleTree.finalized && i < |merkleTree.data|
      ensures ProvesBlock(serProof, merkleTree.data[i], Root(Compact(merkleTree.data)))
    {
      hide MP.IsProofOf, MP.ProofRoot, PC.Decode, PC.Decodable;
      var proof := merkleTree.GenerareteMerkleProof(U8(i) as byte);
      DataOfProof(merkleTree.data, i, proof.value);
      serProof := PC.SerializeProofStruct(proof.value);
      PC.TransportKeepsRoot(proof.value);
      PC.DecodeEncode(proof.value);
    }

    /** Everything a new block pays this wallet is listed, with a proof. */
    method updateWithBlock(bcn: BlockChainNode, merkleTree: MerkleTree, ghost view: View)
      requires Valid() && EntriesOk(view, PublicKey, transactions)
      requires bcn.Hash in view && bcn.dataPointer == Some(view[bcn.Hash]) && view[bcn.Hash].Valid()
      requires merkleTree.Valid() && merkleTree.finalized && merkleTree.data == view[bcn.Hash].transactionBlocks
      requires this !in merkleTree.Repr
      modifies this`transactions
      ensures Valid() && EntriesOk(view, PublicKey, transactions)
      ensures RefsOfEntries(transactions)
           == old(RefsOfEntries(transactions)) + Received(bcn.Hash, view[bcn.Hash].TransactionBlockStructs, PublicKey)
    {
      hide EntryOk, EntriesOk, ProvesBlock, MerkleTree.Valid, Group.Valid, Received;
      var dp := bcn.dataPointer.value;
      var blocks := dp.TransactionBlockStructs;
      ghost var before := RefsOfEntries(transactions);
      NothingReceived(bcn.Hash, 0, blocks, [], PublicKey);
      for i := 0 to |blocks|
        invariant Valid() && EntriesOk(view, PublicKey, transactions) && merkleTree.Valid()
        invariant RefsOfEntries(transactions) == before + Received(bcn.Hash, blocks[..i], PublicKey)
      {
        ListOutputs(bcn.Hash, dp, merkleTree, i, view);
        OneMoreBlock(bcn.Hash, blocks, i, PublicKey);
      }
      assert blocks[..|blocks|] == blocks;
    }

    method ListOutputs(hash: Digest, dp: Group, merkleTree: MerkleTree, i: nat, ghost view: View)
      requires Valid() && EntriesOk(view, PublicKey, transactions)
      requires hash in view && dp == view[hash] && dp.Valid() && i < |dp.TransactionBlockStructs|
      requires merkleTree.Valid() && merkleTree.finalized && merkleTree.data == dp.transactionBlocks
      requires this !in merkleTree.Repr
      modifies this`transactions
      ensures Valid() && EntriesOk(view, PublicKey, transactions)
      ensures RefsOfEntries(transactions)
           == old(RefsOfEntries(transactions)) + ReceivedFrom(hash, i, dp.TransactionBlockStructs[i].OutputList,
                 PublicKey)
    {
      hide EntryOk, EntriesOk, ProvesBlock, MerkleTree.Valid, ReceivedFrom;
      var p := dp.TransactionBlockStructs[i];
      ghost var before := RefsOfEntries(transactions);
      FewOutputs(dp, i);
      NothingReceived(hash, i, [], p.OutputList, PublicKey);
      for j := 0 to |p.OutputList|
        invariant Valid() && EntriesOk(view, PublicKey, transactions)
        invariant RefsOfEntries(transactions) == before + ReceivedFrom(hash, i, p.OutputList[..j], PublicKey)
      {
        OneMoreOutput(hash, i, p.OutputList, j, PublicKey);
        if p.OutputList[j].ReceiverPublicKey == PublicKey {
          var serProof := ProofOf(merkleTree, i);
          var e := TransactionAndProof(p, serProof, RefAt(hash, i, j));
          NewEntryIsOk(view, PublicKey, e, hash, i, j);
          ListGrows(view, PublicKey, transactions, e);
          transactions := transactions + [e];
        }
      }
      assert p.OutputList[..|p.OutputList|] == p.OutputList;
    }

    /** What can be spent at a head; nothing if the head is not up to date. */
    method TotalAvailable(head: BlockChainNode) returns (amount: Uint64)
      requires Valid()
      requires head.uTxOManagerIsUpToDate ==> head.uTxOManagerPointer != null && head.uTxOManagerPointer.Valid()
      ensures amount == if head.uTxOManagerIsUpToDate
                        then U64(Available(transactions, head.uTxOManagerPointer.Contents)) else 0
    {
      hide UTxOManager.Valid, Available, Spendable, U64;
      amount := 0;
      NothingAvailable(transactions,
            if head.uTxOManagerPointer == null then map[] else head.uTxOManagerPointer.Contents);
      if !head.uTxOManagerIsUpToDate {
        return;
      }
      var utxo := head.uTxOManagerPointer;
      for i := 0 to |transactions|
        invariant amount == U64(Available(transactions[..i], utxo.Contents))
      {
        OneMoreEntry(transactions, utxo.Contents, 0, i);
        var goodTrans := utxo.verifyTransactionRef(transactions[i].tr);
        if goodTrans {
          U64Step(Available(transactions[..i], utxo.Contents), transactions[i].Output().Amount);
          amount := U64(amount + transactions[i].Output().Amount);
        }
      }
      assert transactions[..|transactions|] == transactions;
    }

    /** The inputs of a payment. */
    method SelectCoins(utxo: UTxOManager, amount: Uint64)
      returns (inputs: seq<TransactionInput>, inputNumber: byte, currentAmount: Uint64)
      requires Valid() && utxo.Valid()
      ensures var chosen := Chosen(transactions, utxo.Contents, amount);
              && inputs == InputsFor(chosen, privateKey) && inputNumber as nat == U8(|chosen|)
              && currentAmount == U64(Worth(chosen))
      ensures exists at, p :: Selection(transactions, utxo.Contents, amount, inputs, at, p)
    {
      hide UTxOManager.Valid, Spendable, Available, Chosen, Worth, InputsFor, InputFor, U64, U8, Selection;
      SelectionIsRight(transactions, utxo.Contents, amount, privateKey);
      NothingChosen(transactions, utxo.Contents, amount, privateKey);
      ghost var chosen: seq<TransactionAndProof> := [];
      inputs, inputNumber, currentAmount := [], 0, 0;
      for i := 0 to |transactions|
        invariant chosen == Chosen(transactions[..i], utxo.Contents, amount) && !Enough(chosen, amount)
        invariant inputs == InputsFor(chosen, privateKey) && inputNumber as nat == U8(|chosen|)
        invariant currentAmount == U64(Worth(chosen))
      {
        var bl := transactions[i];
        OneMoreEntry(transactions, utxo.Contents, amount, i);
        var goodtrans := utxo.verifyTransactionRef(bl.tr);
        if goodtrans {
          OneMoreInput(chosen, bl, privateKey);
          inputs := inputs + [InputFor(bl, privateKey)];
          inputNumber := U8(inputNumber as nat + 1) as byte;
          currentAmount := U64(currentAmount + bl.Output().Amount);
          chosen := chosen + [bl];
          if currentAmount >= amount {
            StopsThere(transactions, utxo.Contents, amount, i + 1);
            return;
          }
        }
      }
      assert transactions[..|transactions|] == transactions;
    }

    /** `tx` spends what was chosen, once each, it balances to the last unit, and with at most 255 inputs it passes
        every check. */
    ghost predicate IsPayment(tx: TransactionBlock, m: Utxo, Receiver: PublicKey, msg: Text, amount: Uint64)
      requires Valid()
      reads this
    {
      var chosen := Chosen(transactions, m, amount);
      && Balanced(tx, chosen) && tx.PayerPublicKey == PublicKey && tx.InputList == InputsFor(chosen, privateKey)
      && (exists at, p :: Selection(transactions, m, amount, tx.InputList, at, p))
      && 1 <= |tx.OutputList| <= 2 && (forall o :: o in tx.OutputList ==> SignedOutput(o, privateKey))
      && tx.OutputList[0].Amount == amount && tx.OutputList[0].ReceiverPublicKey == Receiver
      && tx.OutputList[0].text == msg
      && (|tx.OutputList| == 1 <==> InputSum(tx.InputList) % 18_446_744_073_709_551_616 == amount)
      && (|tx.OutputList| == 2 ==>
            && tx.OutputList[1].ReceiverPublicKey == PublicKey
            && tx.OutputList[1].text == [101, 120, 99, 104, 97, 110, 103, 101] + Zeros(24)
            && tx.OutputList[1].Amount == InputSum(tx.InputList) % 18_446_744_073_709_551_616 - amount)
      && (tx.CountsMatch() <==> |chosen| <= 255)
      && (Distinct(RefsOfEntries(transactions)) ==> RefsOk(m, tx.Refs()))
      && (KeyPair(privateKey, PublicKey) ==> Passes(tx, false))
    }

    /** Builds and signs a payment, and hands it to the pool, if there is one.  It is made exactly if what was chosen
        suffices. */
    method MakeTransaction(head: BlockChainNode, Receiver: PublicKey, msg: Text, amount: Uint64, pool: TransactionPool?)
      returns (tx: Option<TransactionBlock>)
      requires Valid()
      requires head.uTxOManagerIsUpToDate ==> head.uTxOManagerPointer != null && head.uTxOManagerPointer.Valid()
      requires head.uTxOManagerIsUpToDate ==> pool !in head.uTxOManagerPointer.Repr
      modifies if pool == null then {} else {pool}
      ensures pool != null ==>
                && pool.signatureVerifiedRequest == old(pool.signatureVerifiedRequest) && pool.i == old(pool.i)
                && pool.priorityRequest == (if tx.None? then old(pool.priorityRequest) else
                      old(pool.priorityRequest)[HashOf(tx.value) := tx.value])
      ensures tx.Some? <==> head.uTxOManagerIsUpToDate &&
                            Affordable(Chosen(transactions, head.uTxOManagerPointer.Contents, amount), amount)
      ensures tx.Some? ==> IsPayment(tx.value, head.uTxOManagerPointer.Contents, Receiver, msg, amount)
    {
      hide UTxOManager.Valid, IsPayment, Affordable, HashOf;
      tx := PrepareTransaction(head, Receiver, msg, amount);
      if tx.Some? && pool != null {
        pool.receiveInternal(tx.value);
      }
    }

    method PrepareTransaction(head: BlockChainNode, Receiver: PublicKey, msg: Text, amount: Uint64)
      returns (tx: Option<TransactionBlock>)
      requires Valid()
      requires head.uTxOManagerIsUpToDate ==> head.uTxOManagerPointer != null && head.uTxOManagerPointer.Valid()
      ensures tx.Some? <==> head.uTxOManagerIsUpToDate &&
                            Affordable(Chosen(transactions, head.uTxOManagerPointer.Contents, amount), amount)
      ensures tx.Some? ==> IsPayment(tx.value, head.uTxOManagerPointer.Contents, Receiver, msg, amount)
    {
      hide Chosen, UTxOManager.Valid, IsPayment, InputsFor, Worth, Payment, SignBlock;
      if !head.uTxOManagerIsUpToDate {
        return None;
      }
      ghost var m := head.uTxOManagerPointer.Contents;
      var inputs, inputNumber, currentAmount := SelectCoins(head.uTxOManagerPointer, amount);
      if currentAmount < amount {
        return None;
      }
      var exchange := currentAmount - amount;
      var outputs := Payment(amount, exchange, Receiver, msg, PublicKey, privateKey);
      FewPayments(amount, exchange, Receiver, msg, PublicKey, privateKey);
      var t := TransactionBlock(inputNumber, |outputs| as byte, inputs, outputs, Zeros(128), PublicKey);
      t := SignBlock(t, privateKey);
      PaymentIsRight(t, m, Receiver, msg, amount, exchange);
      tx := Some(t);
    }

    lemma PaymentIsRight(t: TransactionBlock, m: Utxo, Receiver: PublicKey, msg: Text, amount: Uint64, exchange: Uint64)
      requires Valid()
      requires var chosen := Chosen(transactions, m, amount);
               var outputs := Payment(amount, exchange, Receiver, msg, PublicKey, privateKey);
               && |outputs| <= 2 && U64(Worth(chosen)) == amount + exchange
               && t == SignBlock(TransactionBlock(U8(|chosen|) as byte, |outputs| as byte,
                                                  InputsFor(chosen, privateKey), outputs, Zeros(128), PublicKey),
                                 privateKey)
      ensures IsPayment(t, m, Receiver, msg, amount)
    {
      hide Chosen, InputSum, OutputSum, Passes, EncodeBlock, RefsOk, KeyPair, EncodeOutput, Selection, SignedOutput;
      hide GetPreSignature, Worth, Payment;
      var chosen := Chosen(transactions, m, amount);
      SelectionIsRight(transactions, m, amount, privateKey);
      PaymentSum(amount, exchange, Receiver, msg, PublicKey, privateKey);
      PaymentSigned(amount, exchange, Receiver, msg, PublicKey, privateKey);
      PaymentOutputs(amount, exchange, Receiver, msg, PublicKey, privateKey);
      InputsWorthChosen(chosen, privateKey);
      assert t.Refs() == RefsOfEntries(chosen);
      if Distinct(RefsOfEntries(transactions)) {
        ChosenRefs(transactions, m, amount);
      }
      if KeyPair(privateKey, PublicKey) {
        ChosenAreHeld(transactions, m, amount);
        SignedBlockIsAccepted(t.(Signature := Zeros(128)), privateKey);
        PaymentPasses(t, chosen, privateKey);
      }
    }
  }

  lemma NothingReceived(hash: Digest, k: nat, blocks: seq<TransactionBlock>, outputs: seq<TransactionOutput>,
                        key: PublicKey)
    ensures Received(hash, blocks[..0], key) == [] && ReceivedFrom(hash, k, outputs[..0], key) == []
  {
  }

  lemma OneMoreBlock(hash: Digest, blocks: seq<TransactionBlock>, i: nat, key: PublicKey)
    requires i < |blocks|
    ensures Received(hash, blocks[..i + 1], key)
         == Received(hash, blocks[..i], key) + ReceivedFrom(hash, i, blocks[i].OutputList, key)
  {
    assert blocks[..i + 1][..i] == blocks[..i];
  }

  lemma OneMoreOutput(hash: Digest, k: nat, outputs: seq<TransactionOutput>, j: nat, key: PublicKey)
    requires j < |outputs|
    ensures ReceivedFrom(hash, k, outputs[..j + 1], key)
         == ReceivedFrom(hash, k, outputs[..j], key)
            + if outputs[j].ReceiverPublicKey == key then [RefAt(hash, k, j)] else []
  {
    assert outputs[..j + 1][..j] == outputs[..j];
  }

  lemma DataOfProof(data: seq<Bytes>, i: nat, ps: MP.ProofStruct)
    requires i < |data| && MP.IsProofOf(data, i, ps)
    ensures ps.WellFormed() && ps.data == data[i]
  {
  }

  lemma FewOutputs(g: Group, i: nat)
    requires g.Valid() && i < |g.TransactionBlockStructs|
    ensures i < 256 && |g.TransactionBlockStructs[i].OutputList| < 256
  {
    assert BlockMatches(g.TransactionBlockStructs[i], g.transactionBlocks[i]);
  }

  lemma NewEntryIsOk(view: View, key: PublicKey, e: TransactionAndProof, hash: Digest, i: nat, j: nat)
    requires hash in view && view[hash].Valid() && i < |view[hash].TransactionBlockStructs| && i < 256 && j < 256
    requires e.tb == view[hash].TransactionBlockStructs[i] && e.tr == RefAt(hash, i, j)
    requires j < |e.tb.OutputList| && e.tb.OutputList[j].ReceiverPublicKey == key
    requires ProvesBlock(e.tp, view[hash].transactionBlocks[i], view[hash].MerkleRoot())
    ensures EntryOk(view, key, e)
  {
  }

  lemma ListGrows(view: View, key: PublicKey, entries: seq<TransactionAndProof>, e: TransactionAndProof)
    requires EntriesOk(view, key, entries) && EntryOk(view, key, e)
    ensures EntriesOk(view, key, entries + [e]) && e.InRange() && e.Output().ReceiverPublicKey == key
    ensures RefsOfEntries(entries + [e]) == RefsOfEntries(entries) + [e.tr]
  {
  }

  lemma NothingAvailable(entries: seq<TransactionAndProof>, m: Utxo)
    ensures Available(entries[..0], m) == 0
  {
  }

  lemma NothingChosen(entries: seq<TransactionAndProof>, m: Utxo, amount: Uint64, priv: Bytes)
    ensures Chosen(entries[..0], m, amount) == [] && InputsFor([], priv) == [] && Worth([]) == 0
  {
  }

  lemma OneMoreInput(chosen: seq<TransactionAndProof>, e: TransactionAndProof, priv: Bytes)
    requires AllInRange(chosen) && e.InRange()
    ensures AllInRange(chosen + [e])
    ensures InputsFor(chosen + [e], priv) == InputsFor(chosen, priv) + [InputFor(e, priv)]
    ensures U64(Worth(chosen + [e])) == U64(U64(Worth(chosen)) + e.Output().Amount)
    ensures U8(|chosen + [e]|) == U8(U8(|chosen|) + 1)
  {
    assert (chosen + [e])[..|chosen|] == chosen;
    U64Step(Worth(chosen), e.Output().Amount);
  }

  lemma {:induction false} ChosenAreHeld(entries: seq<TransactionAndProof>, m: Utxo, amount: Uint64)
    requires AllInRange(entries)
    ensures forall e :: e in Chosen(entries, m, amount) ==> e in entries
  {
    if entries != [] {
      ChosenAreHeld(entries[..|entries| - 1], m, amount);
    }
  }

  /** The Merkle tree of some data; the program keeps it with the data. */
  method TreeOfData(data: seq<Bytes>) returns (merkleTree: MerkleTree)
    requires 0 < |data| < 256
    ensures merkleTree.Valid() && merkleTree.finalized && merkleTree.data == data && fresh(merkleTree.Repr)
  {
    merkleTree := new MerkleTree.InitializeMerkleTree();
    for i := 0 to |data|
      invariant merkleTree.Valid() && !merkleTree.finalized && merkleTree.data == data[..i] && fresh(merkleTree.Repr)
    {
      merkleTree.Add(data[i]);
    }
    assert data[..|data|] == data;
    merkleTree.FinalizeTree();
  }
}
