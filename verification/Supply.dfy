/** The money supply along a chain. */
module Supply {
  import opened Bytes
  import opened Transactions
  import opened Ledger
  import opened Verification

  /** The unspent outputs and what they are worth. */
  type Coins = map<TransactionRef, nat>

  ghost function Total(c: Coins): nat {
    if c == map[] then 0 else var k :| k in c; c[k] + Total(c - {k})
  }

  lemma {:induction false} TotalRemove(c: Coins, k: TransactionRef)
    requires k in c
    ensures Total(c) == c[k] + Total(c - {k})
    decreases |c|
  {
    var j :| j in c && Total(c) == c[j] + Total(c - {j});
    if j != k {
      TotalRemove(c - {j}, k);
      TotalRemove(c - {k}, j);
      assert c - {j} - {k} == c - {k} - {j};
    }
  }

  lemma TotalAdd(c: Coins, k: TransactionRef, v: nat)
    requires k !in c
    ensures Total(c[k := v]) == Total(c) + v
  {
    TotalRemove(c[k := v], k);
    assert c[k := v] - {k} == c;
  }

  // ---------------------------------------------------------------- one block

  function Remove(c: Coins, refs: seq<TransactionRef>): Coins {
    if refs == [] then c else Remove(c, refs[..|refs| - 1]) - {refs[|refs| - 1]}
  }

  function Mint(c: Coins, hash: Digest, k: nat, outputs: seq<TransactionOutput>): Coins {
    if outputs == [] then c
    else Mint(c, hash, k, outputs[..|outputs| - 1])[RefAt(hash, k, |outputs| - 1) := outputs[|outputs| - 1].Amount]
  }

  function GroupCoins(c: Coins, hash: Digest, blocks: seq<TransactionBlock>): Coins {
    if blocks == [] then c
    else
      var n := |blocks| - 1;
      Mint(Remove(GroupCoins(c, hash, blocks[..n]), blocks[n].Refs()), hash, n, blocks[n].OutputList)
  }

  function ChainCoins(chain: seq<Record>): Coins {
    if chain == [] then map[]
    else GroupCoins(ChainCoins(chain[..|chain| - 1]), chain[|chain| - 1].hash, chain[|chain| - 1].blocks)
  }

  ghost function RefSum(c: Coins, refs: seq<TransactionRef>): nat
    requires forall r :: r in refs ==> r in c
  {
    if refs == [] then 0 else RefSum(c, refs[..|refs| - 1]) + c[refs[|refs| - 1]]
  }

  function GroupOutputSum(blocks: seq<TransactionBlock>): nat {
    if blocks == [] then 0 else GroupOutputSum(blocks[..|blocks| - 1]) + OutputSum(blocks[|blocks| - 1].OutputList)
  }

  lemma {:induction false} RemoveMeaning(c: Coins, refs: seq<TransactionRef>, r: TransactionRef)
    ensures r in Remove(c, refs) <==> r in c && r !in refs
    ensures r in Remove(c, refs) ==> Remove(c, refs)[r] == c[r]
  {
    if refs != [] {
      RemoveMeaning(c, refs[..|refs| - 1], r);
      assert refs == refs[..|refs| - 1] + [refs[|refs| - 1]];
    }
  }

  lemma {:induction false} RemoveTotal(c: Coins, refs: seq<TransactionRef>)
    requires Distinct(refs) && forall r :: r in refs ==> r in c
    ensures Total(Remove(c, refs)) + RefSum(c, refs) == Total(c)
  {
    if refs != [] {
      var front, last := refs[..|refs| - 1], refs[|refs| - 1];
      RemoveTotal(c, front);
      RemoveMeaning(c, front, last);
      TotalRemove(Remove(c, front), last);
    }
  }

  lemma {:induction false} MintMeaning(c: Coins, hash: Digest, k: nat, outputs: seq<TransactionOutput>,
        r: TransactionRef)
    requires k < 256 && |outputs| <= 256
    ensures var made := r.BlockHash == hash && r.TransactionBlockNumber as nat == k
              && r.OutputNumber as nat < |outputs|;
            && (r in Mint(c, hash, k, outputs) <==> r in c || made)
            && (made ==> Mint(c, hash, k, outputs)[r] == outputs[r.OutputNumber as nat].Amount)
            && (r in c && !made ==> Mint(c, hash, k, outputs)[r] == c[r])
  {
    if outputs != [] {
      var n := |outputs| - 1;
      MintMeaning(c, hash, k, outputs[..n], r);
      assert r == RefAt(hash, k, n) <==>
             r.BlockHash == hash && r.TransactionBlockNumber as nat == k && r.OutputNumber as nat == n;
    }
  }

  lemma {:induction false} MintTotal(c: Coins, hash: Digest, k: nat, outputs: seq<TransactionOutput>)
    requires k < 256 && |outputs| <= 256
    requires forall r :: r in c ==> !(r.BlockHash == hash && r.TransactionBlockNumber as nat == k)
    ensures Total(Mint(c, hash, k, outputs)) == Total(c) + OutputSum(outputs)
  {
    if outputs != [] {
      var n := |outputs| - 1;
      MintTotal(c, hash, k, outputs[..n]);
      MintMeaning(c, hash, k, outputs[..n], RefAt(hash, k, n));
      TotalAdd(Mint(c, hash, k, outputs[..n]), RefAt(hash, k, n), outputs[n].Amount);
    }
  }

  /** The output that a reference into this block names. */
  function Named(blocks: seq<TransactionBlock>, r: TransactionRef): TransactionOutput
    requires r.TransactionBlockNumber as nat < |blocks|
    requires r.OutputNumber as nat < |blocks[r.TransactionBlockNumber as nat].OutputList|
  {
    blocks[r.TransactionBlockNumber as nat].OutputList[r.OutputNumber as nat]
  }

  lemma {:induction false} GroupCoinsMeaning(c: Coins, hash: Digest, blocks: seq<TransactionBlock>, r: TransactionRef)
    requires Numbered(blocks)
    requires forall s :: s in c ==> s.BlockHash != hash
    requires forall s :: s in GroupRefs(blocks) ==> s in c
    ensures r in GroupCoins(c, hash, blocks) <==> CreatedBy(hash, blocks, r) || (r in c && r !in GroupRefs(blocks))
    ensures CreatedBy(hash, blocks, r) ==> GroupCoins(c, hash, blocks)[r] == Named(blocks, r).Amount
    ensures r in c && r in GroupCoins(c, hash, blocks) ==> GroupCoins(c, hash, blocks)[r] == c[r]
  {
    if blocks != [] {
      var n := |blocks| - 1;
      var front, last := blocks[..n], blocks[n];
      assert GroupRefs(blocks) == GroupRefs(front) + last.Refs();
      GroupCoinsMeaning(c, hash, front, r);
      var mid := GroupCoins(c, hash, front);
      RemoveMeaning(mid, last.Refs(), r);
      MintMeaning(Remove(mid, last.Refs()), hash, n, last.OutputList, r);
    }
  }

  lemma {:induction false} RefSumAppend(c: Coins, a: seq<TransactionRef>, b: seq<TransactionRef>)
    requires forall r :: r in a + b ==> r in c
    ensures forall r :: (r in a ==> r in c) && (r in b ==> r in c)
    ensures RefSum(c, a + b) == RefSum(c, a) + RefSum(c, b)
  {
    assert forall r :: r in a || r in b ==> r in a + b;
    if b == [] {
      assert a + b == a;
    } else {
      var b' := b[..|b| - 1];
      assert (a + b)[..|a + b| - 1] == a + b';
      RefSumAppend(c, a, b');
    }
  }

  lemma {:induction false} RefSumSame(c: Coins, d: Coins, refs: seq<TransactionRef>)
    requires forall r :: r in refs ==> r in c && r in d && c[r] == d[r]
    ensures RefSum(c, refs) == RefSum(d, refs)
  {
    if refs != [] {
      RefSumSame(c, d, refs[..|refs| - 1]);
    }
  }

  /** Conservation: a block removes from the supply what its inputs are worth and adds what its outputs are worth. */
  lemma {:induction false} Conservation(c: Coins, hash: Digest, blocks: seq<TransactionBlock>)
    requires Numbered(blocks)
    requires forall s :: s in c ==> s.BlockHash != hash
    requires Distinct(GroupRefs(blocks)) && forall s :: s in GroupRefs(blocks) ==> s in c
    ensures Total(GroupCoins(c, hash, blocks)) + RefSum(c, GroupRefs(blocks)) == Total(c) + GroupOutputSum(blocks)
  {
    if blocks != [] {
      var n := |blocks| - 1;
      var front, last := blocks[..n], blocks[n];
      var a, b := GroupRefs(front), last.Refs();
      assert GroupRefs(blocks) == a + b;
      DistinctParts(a, b);
      Conservation(c, hash, front);
      var mid := GroupCoins(c, hash, front);
      forall r | r in b ensures r in mid && mid[r] == c[r] {
        GroupCoinsMeaning(c, hash, front, r);
      }
      RefSumAppend(c, a, b);
      RefSumSame(c, mid, b);
      RemoveTotal(mid, b);
      forall r | r in Remove(mid, b) ensures !(r.BlockHash == hash && r.TransactionBlockNumber as nat == n) {
        RemoveMeaning(mid, b, r);
        GroupCoinsMeaning(c, hash, front, r);
      }
      MintTotal(Remove(mid, b), hash, n, last.OutputList);
    }
  }

  lemma DistinctParts(a: seq<TransactionRef>, b: seq<TransactionRef>)
    requires Distinct(a + b)
    ensures Distinct(a) && Distinct(b)
    ensures forall r :: r in a ==> r !in b
  {
    forall i, j | 0 <= i < j < |a| ensures a[i] != a[j] {
      assert (a + b)[i] == a[i] && (a + b)[j] == a[j];
    }
    forall i, j | 0 <= i < j < |b| ensures b[i] != b[j] {
      assert (a + b)[|a| + i] == b[i] && (a + b)[|a| + j] == b[j];
    }
    forall i, j | 0 <= i < |a| && 0 <= j < |b| ensures a[i] != b[j] {
      assert (a + b)[i] == a[i] && (a + b)[|a| + j] == b[j];
    }
  }

  // ---------------------------------------------------------------- whole chains

  lemma {:induction false} ChainCoinsMeaning(chain: seq<Record>, r: TransactionRef)
    requires WellFormed(chain)
    ensures r in ChainCoins(chain) <==> Spendable(Replay(chain), r)
    ensures forall i :: 0 <= i < |chain| && CreatedAt(chain, i, r) && r in ChainCoins(chain) ==>
              ChainCoins(chain)[r] == Named(chain[i].blocks, r).Amount
  {
    if chain != [] {
      var n := |chain| - 1;
      var pre, last := chain[..n], chain[n];
      PrefixWellFormed(chain, n);
      assert AcceptedAt(chain, n);
      HashIsNew(chain);
      forall s | s in ChainCoins(pre) || s in GroupRefs(last.blocks)
        ensures s in ChainCoins(pre) && s.BlockHash != last.hash
      {
        ChainCoinsMeaning(pre, s);
      }
      ChainCoinsMeaning(pre, r);
      ApplyMeaning(Replay(pre), last.hash, last.blocks, r);
      GroupCoinsMeaning(ChainCoins(pre), last.hash, last.blocks, r);
      forall i | 0 <= i < |chain| && CreatedAt(chain, i, r) && r in ChainCoins(chain)
        ensures ChainCoins(chain)[r] == Named(chain[i].blocks, r).Amount
      {
        if i < n {
          assert CreatedAt(pre, i, r);
        }
      }
    }
  }

  /** An input carries the output that its reference names. */
  ghost predicate Resolves(chain: seq<Record>, ti: TransactionInput) {
    && ti.OutputBlock.Some?
    && forall c :: 0 <= c < |chain| && CreatedAt(chain, c, ti.reference) ==>
         ti.OutputBlock.value == Named(chain[c].blocks, ti.reference)
  }

  ghost predicate AllResolve(chain: seq<Record>, tb: TransactionBlock) {
    forall a :: 0 <= a < |tb.InputList| ==> Resolves(chain, tb.InputList[a])
  }

  /** A chain whose every block passed both checks of the source, with inputs that carry the outputs they name. */
  ghost predicate Verified(chain: seq<Record>) {
    && WellFormed(chain)
    && forall i :: 0 <= i < |chain| ==> VerifiedAt(chain, i)
  }

  ghost predicate VerifiedAt(chain: seq<Record>, i: nat)
    requires i < |chain|
  {
    && GroupPasses(chain[i].blocks)
    && forall k :: 0 <= k < |chain[i].blocks| ==> AllResolve(chain, chain[i].blocks[k])
  }

  /** The reference of an input of a group is among the references of the group. */
  lemma {:induction false} RefInGroup(blocks: seq<TransactionBlock>, k: nat, a: nat)
    requires k < |blocks| && a < |blocks[k].InputList|
    ensures blocks[k].InputList[a].reference in GroupRefs(blocks)
  {
    var n := |blocks| - 1;
    if k < n {
      RefInGroup(blocks[..n], k, a);
    } else {
      assert blocks[n].Refs()[a] in blocks[n].Refs();
    }
  }

  /** What an input claims to be worth is what the coin it spends is worth. */
  lemma InputIsWorthItsCoin(chain: seq<Record>, i: nat, k: nat, a: nat)
    requires Verified(chain) && i < |chain| && k < |chain[i].blocks| && a < |chain[i].blocks[k].InputList|
    ensures var ti := chain[i].blocks[k].InputList[a];
            ti.reference in ChainCoins(chain[..i]) && InputAmount(ti) == ChainCoins(chain[..i])[ti.reference]
  {
    var ti := chain[i].blocks[k].InputList[a];
    PrefixWellFormed(chain, i);
    RefInGroup(chain[i].blocks, k, a);
    assert AcceptedAt(chain, i);
    ChainCoinsMeaning(chain[..i], ti.reference);
    ReplayMeaning(chain[..i], ti.reference);
    var c :| 0 <= c < i && CreatedAt(chain[..i], c, ti.reference);
    assert VerifiedAt(chain, i) && AllResolve(chain, chain[i].blocks[k]) && Resolves(chain, ti);
    assert CreatedAt(chain, c, ti.reference);
  }

  lemma {:induction false} InputsWorth(inputs: seq<TransactionInput>, refs: seq<TransactionRef>, c: Coins)
    requires |refs| == |inputs|
    requires forall a :: 0 <= a < |inputs| ==>
               refs[a] == inputs[a].reference && refs[a] in c && InputAmount(inputs[a]) == c[refs[a]]
    ensures InputSum(inputs) == RefSum(c, refs)
  {
    if inputs != [] {
      InputsWorth(inputs[..|inputs| - 1], refs[..|refs| - 1], c);
    }
  }

  lemma BlockInputsWorth(chain: seq<Record>, i: nat, k: nat)
    requires Verified(chain) && i < |chain| && k < |chain[i].blocks|
    ensures forall r :: r in chain[i].blocks[k].Refs() ==> r in ChainCoins(chain[..i])
    ensures InputSum(chain[i].blocks[k].InputList) == RefSum(ChainCoins(chain[..i]), chain[i].blocks[k].Refs())
  {
    var tb := chain[i].blocks[k];
    forall a | 0 <= a < |tb.InputList|
      ensures tb.Refs()[a] in ChainCoins(chain[..i])
                && InputAmount(tb.InputList[a]) == ChainCoins(chain[..i])[tb.Refs()[a]]
    {
      InputIsWorthItsCoin(chain, i, k, a);
    }
    InputsWorth(tb.InputList, tb.Refs(), ChainCoins(chain[..i]));
  }

  /** `k` transaction blocks of block `i` and the coins they draw on. */
  lemma {:induction false} GroupAmounts(chain: seq<Record>, i: nat, k: nat)
    requires Verified(chain) && i < |chain| && k <= |chain[i].blocks|
    requires forall j :: 0 <= j < k ==> AmountRule(chain[i].blocks[j], j == 0)
    ensures forall r :: r in GroupRefs(chain[i].blocks[..k]) ==> r in ChainCoins(chain[..i])
    ensures GroupOutputSum(chain[i].blocks[..k])
         <= RefSum(ChainCoins(chain[..i]), GroupRefs(chain[i].blocks[..k])) + if k > 0 then DAVIDCOIN else 0
  {
    if k > 0 {
      var part, tb := chain[i].blocks[..k], chain[i].blocks[k - 1];
      assert part[..k - 1] == chain[i].blocks[..k - 1];
      GroupAmounts(chain, i, k - 1);
      BlockInputsWorth(chain, i, k - 1);
      RefSumAppend(ChainCoins(chain[..i]), GroupRefs(part[..k - 1]), tb.Refs());
    }
  }

  /** The hypotheses of `Conservation` hold for every block of a verified chain. */
  lemma BlockIsConservative(chain: seq<Record>, i: nat)
    requires WellFormed(chain) && i < |chain|
    ensures Numbered(chain[i].blocks)
    ensures forall s :: s in ChainCoins(chain[..i]) ==> s.BlockHash != chain[i].hash
    ensures Distinct(GroupRefs(chain[i].blocks))
    ensures forall s :: s in GroupRefs(chain[i].blocks) ==> s in ChainCoins(chain[..i])
  {
    PrefixWellFormed(chain, i + 1);
    var upTo := chain[..i + 1];
    assert upTo[..i] == chain[..i];
    HashIsNew(upTo);
    PrefixWellFormed(chain, i);
    assert AcceptedAt(chain, i);
    forall s | s in ChainCoins(chain[..i]) || s in GroupRefs(chain[i].blocks)
      ensures s in ChainCoins(chain[..i]) && s.BlockHash != chain[i].hash
    {
      ChainCoinsMeaning(chain[..i], s);
    }
  }

  ghost function SupplyAfter(chain: seq<Record>, n: nat): nat
    requires n <= |chain|
  {
    Total(ChainCoins(chain[..n]))
  }

  lemma SupplyStep(chain: seq<Record>, i: nat)
    requires WellFormed(chain) && i < |chain|
    ensures forall s :: s in GroupRefs(chain[i].blocks) ==> s in ChainCoins(chain[..i])
    ensures SupplyAfter(chain, i + 1) + RefSum(ChainCoins(chain[..i]), GroupRefs(chain[i].blocks))
         == SupplyAfter(chain, i) + GroupOutputSum(chain[i].blocks)
    ensures RefSum(ChainCoins(chain[..i]), GroupRefs(chain[i].blocks)) <= SupplyAfter(chain, i)
  {
    BlockIsConservative(chain, i);
    Conservation(ChainCoins(chain[..i]), chain[i].hash, chain[i].blocks);
    assert chain[..i + 1][..i] == chain[..i];
    RemoveTotal(ChainCoins(chain[..i]), GroupRefs(chain[i].blocks));
  }

  /** No transaction block of the chain creates 2^64 or more. */
  predicate NoOverflow(chain: seq<Record>) {
    forall i, k :: 0 <= i < |chain| && 0 <= k < |chain[i].blocks| ==> OutputsFit(chain[i].blocks[k])
  }

  predicate OutputsFit(tb: TransactionBlock) {
    OutputSum(tb.OutputList) < TWO_TO_THE_64
  }

  /** One coin a block at most. */
  ghost predicate SupplyIsBounded(chain: seq<Record>) {
    forall n :: 0 <= n <= |chain| ==> SupplyAfter(chain, n) <= n * DAVIDCOIN
  }

  /** In a chain of less than 2^32 blocks with a bounded supply, no sum of inputs that verification forms wraps. */
  lemma InputSumsDoNotWrap(chain: seq<Record>, i: nat, k: nat)
    requires Verified(chain) && i < |chain| < 0x1_0000_0000 && k < |chain[i].blocks|
    requires SupplyAfter(chain, i) <= i * DAVIDCOIN
    ensures InputSum(chain[i].blocks[k].InputList) <= SupplyAfter(chain, i)
    ensures InputSum(chain[i].blocks[k].InputList) + DAVIDCOIN < TWO_TO_THE_64
  {
    var c, refs := ChainCoins(chain[..i]), chain[i].blocks[k].Refs();
    BlockInputsWorth(chain, i, k);
    BlockIsConservative(chain, i);
    BlockRefsDistinct(chain[i].blocks, k);
    RemoveTotal(c, refs);
  }

  lemma {:induction false} BlockRefsDistinct(blocks: seq<TransactionBlock>, k: nat)
    requires k < |blocks| && Distinct(GroupRefs(blocks))
    ensures Distinct(blocks[k].Refs())
  {
    var n := |blocks| - 1;
    DistinctParts(GroupRefs(blocks[..n]), blocks[n].Refs());
    if k < n {
      BlockRefsDistinct(blocks[..n], k);
    }
  }

  lemma {:induction false} BoundUpTo(chain: seq<Record>, n: nat)
    requires Verified(chain) && NoOverflow(chain) && n <= |chain| < 0x1_0000_0000
    ensures SupplyAfter(chain, n) <= n * DAVIDCOIN
  {
    if n > 0 {
      var i := n - 1;
      BoundUpTo(chain, i);
      var blocks := chain[i].blocks;
      forall k | 0 <= k < |blocks| ensures AmountRule(blocks[k], k == 0) {
        InputSumsDoNotWrap(chain, i, k);
        assert VerifiedAt(chain, i) && OutputsFit(blocks[k]);
      }
      GroupAmounts(chain, i, |blocks|);
      assert blocks[..|blocks|] == blocks;
      SupplyStep(chain, i);
    }
  }

  lemma {:induction false} GroupOutputsAtLeast(blocks: seq<TransactionBlock>, k: nat)
    requires k < |blocks|
    ensures GroupOutputSum(blocks) >= OutputSum(blocks[k].OutputList)
  {
    var n := |blocks| - 1;
    if k < n {
      GroupOutputsAtLeast(blocks[..n], k);
    }
  }

  lemma SameBounds(chain: seq<Record>)
    ensures SupplyIsBounded(chain) <==>
            forall n :: 0 <= n <= |chain| ==> Total(ChainCoins(chain[..n])) <= n * 1_000_000_000
    ensures NoOverflow(chain) <==>
            forall i, k :: 0 <= i < |chain| && 0 <= k < |chain[i].blocks| ==>
              OutputSum(chain[i].blocks[k].OutputList) < 18_446_744_073_709_551_616
  {
    hide ChainCoins, OutputSum;
    if SupplyIsBounded(chain) {
      forall n | 0 <= n <= |chain| ensures Total(ChainCoins(chain[..n])) <= n * 1_000_000_000 {
        assert SupplyAfter(chain, n) <= n * DAVIDCOIN;
      }
    }
    if NoOverflow(chain) {
      forall i, k | 0 <= i < |chain| && 0 <= k < |chain[i].blocks|
        ensures OutputSum(chain[i].blocks[k].OutputList) < 18_446_744_073_709_551_616
      {
        assert OutputsFit(chain[i].blocks[k]);
      }
    }
  }

  /** The money supply: after every block of a verified chain, all unspent outputs together are worth at most one
      coin a block, if and only if no transaction block of the chain creates 2^64 or more. */
  lemma MoneySupply(chain: seq<Record>)
    requires Verified(chain) && |chain| < 0x1_0000_0000
    ensures SupplyIsBounded(chain) <==> NoOverflow(chain)
    ensures SupplyIsBounded(chain) <==>
            forall n :: 0 <= n <= |chain| ==> Total(ChainCoins(chain[..n])) <= n * 1_000_000_000
    ensures NoOverflow(chain) <==>
            forall i, k :: 0 <= i < |chain| && 0 <= k < |chain[i].blocks| ==>
              OutputSum(chain[i].blocks[k].OutputList) < 18_446_744_073_709_551_616
  {
    SameBounds(chain);
    if NoOverflow(chain) {
      forall n | 0 <= n <= |chain| ensures SupplyAfter(chain, n) <= n * DAVIDCOIN {
        BoundUpTo(chain, n);
      }
    }
    if SupplyIsBounded(chain) {
      forall i, k | 0 <= i < |chain| && 0 <= k < |chain[i].blocks| ensures OutputsFit(chain[i].blocks[k]) {
        SupplyStep(chain, i);
        GroupOutputsAtLeast(chain[i].blocks, k);
        assert SupplyAfter(chain, i + 1) <= (i + 1) * DAVIDCOIN;
      }
    }
  }
}
