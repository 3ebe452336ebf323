/** What a chain of blocks means for its outputs: the replay of every block from the root, and its consequences. */
module Ledger {
  import opened Bytes
  import opened Transactions

  /** `true`: unspent.  A spent output stays in the map. */
  type Utxo = map<TransactionRef, bool>

  /** A block of a chain: the hash of its header and its transaction blocks. */
  datatype Record = Record(hash: Digest, blocks: seq<TransactionBlock>)

  predicate Spendable(m: Utxo, tr: TransactionRef) {
    tr in m && m[tr]
  }

  predicate Distinct<T(==)>(s: seq<T>) {
    forall i, j :: 0 <= i < j < |s| ==> s[i] != s[j]
  }

  /** The references of all inputs of a group, in order. */
  function GroupRefs(blocks: seq<TransactionBlock>): seq<TransactionRef> {
    if blocks == [] then [] else GroupRefs(blocks[..|blocks| - 1]) + blocks[|blocks| - 1].Refs()
  }

  /** A list of references may be spent together. */
  predicate RefsOk(m: Utxo, refs: seq<TransactionRef>) {
    && Distinct(refs)
    && forall tr :: tr in refs ==> Spendable(m, tr)
  }

  // ---------------------------------------------------------------- one block

  function Spend(m: Utxo, refs: seq<TransactionRef>): Utxo {
    if refs == [] then m else Spend(m, refs[..|refs| - 1])[refs[|refs| - 1] := false]
  }

  /** Output `j` of transaction block `k`; the source indexes both with a `uint8`. */
  function RefAt(hash: Digest, k: nat, j: nat): TransactionRef {
    TransactionRef(hash, U8(k) as byte, U8(j) as byte)
  }

  function Create(m: Utxo, hash: Digest, k: nat, n: nat): Utxo {
    if n == 0 then m else Create(m, hash, k, n - 1)[RefAt(hash, k, n - 1) := true]
  }

  function ApplyBlock(m: Utxo, hash: Digest, k: nat, tb: TransactionBlock): Utxo {
    Create(Spend(m, tb.Refs()), hash, k, |tb.OutputList|)
  }

  function ApplyGroup(m: Utxo, hash: Digest, blocks: seq<TransactionBlock>): Utxo {
    if blocks == [] then m
    else ApplyBlock(ApplyGroup(m, hash, blocks[..|blocks| - 1]), hash, |blocks| - 1, blocks[|blocks| - 1])
  }

  /** The outcome of applying every block of a chain, from the root on. */
  function Replay(chain: seq<Record>): Utxo {
    if chain == [] then map[]
    else ApplyGroup(Replay(chain[..|chain| - 1]), chain[|chain| - 1].hash, chain[|chain| - 1].blocks)
  }

  // ---------------------------------------------------------------- what a block does to a reference

  ghost predicate CreatedBy(hash: Digest, blocks: seq<TransactionBlock>, tr: TransactionRef) {
    && tr.BlockHash == hash
    && tr.TransactionBlockNumber as nat < |blocks|
    && tr.OutputNumber as nat < |blocks[tr.TransactionBlockNumber as nat].OutputList|
  }

  /** Sizes the `uint8` numbering can tell apart. */
  predicate Numbered(blocks: seq<TransactionBlock>) {
    && |blocks| <= 256
    && forall k :: 0 <= k < |blocks| ==> |blocks[k].OutputList| <= 256
  }

  lemma {:induction false} SpendMeaning(m: Utxo, refs: seq<TransactionRef>, tr: TransactionRef)
    ensures tr in Spend(m, refs) <==> tr in m || tr in refs
    ensures tr in Spend(m, refs) ==> Spend(m, refs)[tr] == (tr !in refs && m[tr])
  {
    if refs != [] {
      var front := refs[..|refs| - 1];
      SpendMeaning(m, front, tr);
      assert refs == front + [refs[|refs| - 1]];
    }
  }

  lemma {:induction false} CreateMeaning(m: Utxo, hash: Digest, k: nat, n: nat, tr: TransactionRef)
    requires k < 256 && n <= 256
    ensures var made := tr.BlockHash == hash && tr.TransactionBlockNumber as nat == k && tr.OutputNumber as nat < n;
            && (tr in Create(m, hash, k, n) <==> tr in m || made)
            && (tr in Create(m, hash, k, n) ==> Create(m, hash, k, n)[tr] == (made || m[tr]))
  {
    if n > 0 {
      CreateMeaning(m, hash, k, n - 1, tr);
      assert tr == RefAt(hash, k, n - 1) <==>
        tr.BlockHash == hash && tr.TransactionBlockNumber as nat == k && tr.OutputNumber as nat == n - 1;
    }
  }

  /** If a block brings outputs under a new hash and spends only what was there, then afterwards an output exists
      iff it existed or was just made, and is unspent iff it was just made or was unspent and not spent now. */
  lemma {:induction false} ApplyMeaning(m: Utxo, hash: Digest, blocks: seq<TransactionBlock>, tr: TransactionRef)
    requires Numbered(blocks)
    requires forall r :: r in GroupRefs(blocks) ==> r in m
    requires forall r :: r in m ==> r.BlockHash != hash
    ensures var m' := ApplyGroup(m, hash, blocks);
            && (tr in m' <==> tr in m || CreatedBy(hash, blocks, tr))
            && (tr in m' ==> m'[tr] == (CreatedBy(hash, blocks, tr) || (m[tr] && tr !in GroupRefs(blocks))))
  {
    if blocks != [] {
      var n := |blocks| - 1;
      var front, last := blocks[..n], blocks[n];
      assert GroupRefs(blocks) == GroupRefs(front) + last.Refs();
      ApplyMeaning(m, hash, front, tr);
      var mid := ApplyGroup(m, hash, front);
      SpendMeaning(mid, last.Refs(), tr);
      CreateMeaning(Spend(mid, last.Refs()), hash, n, |last.OutputList|, tr);
      var made := tr.BlockHash == hash && tr.TransactionBlockNumber as nat == n
          && tr.OutputNumber as nat < |last.OutputList|;
      assert CreatedBy(hash, blocks, tr) <==> (CreatedBy(hash, front, tr) || made);
    }
  }

  lemma {:induction false} GroupRefsPrefix(blocks: seq<TransactionBlock>, k: nat)
    requires k < |blocks|
    ensures GroupRefs(blocks[..k]) + blocks[k].Refs() <= GroupRefs(blocks)
  {
    var n := |blocks| - 1;
    if k < n {
      GroupRefsPrefix(blocks[..n], k);
      assert blocks[..n][..k] == blocks[..k];
    }
  }

  /** Blocks of a group leave every unspent output alone that they do not refer to. */
  lemma {:induction false} ApplyKeepsOthers(m: Utxo, hash: Digest, blocks: seq<TransactionBlock>, tr: TransactionRef)
    requires Spendable(m, tr) && tr !in GroupRefs(blocks)
    ensures Spendable(ApplyGroup(m, hash, blocks), tr)
  {
    if blocks != [] {
      var n := |blocks| - 1;
      var front, last := blocks[..n], blocks[n];
      assert GroupRefs(blocks) == GroupRefs(front) + last.Refs();
      ApplyKeepsOthers(m, hash, front, tr);
      SpendMeaning(ApplyGroup(m, hash, front), last.Refs(), tr);
      CreateKeeps(Spend(ApplyGroup(m, hash, front), last.Refs()), hash, n, |last.OutputList|, tr);
    }
  }

  lemma {:induction false} CreateKeeps(m: Utxo, hash: Digest, k: nat, n: nat, tr: TransactionRef)
    requires Spendable(m, tr)
    ensures Spendable(Create(m, hash, k, n), tr)
  {
    if n > 0 {
      CreateKeeps(m, hash, k, n - 1, tr);
    }
  }

  /** What a whole group may spend, each of its blocks may still spend when its turn comes. */
  lemma StillSpendable(m: Utxo, hash: Digest, blocks: seq<TransactionBlock>, k: nat)
    requires RefsOk(m, GroupRefs(blocks)) && k < |blocks|
    ensures RefsOk(ApplyGroup(m, hash, blocks[..k]), blocks[k].Refs())
  {
    var a, b, all := GroupRefs(blocks[..k]), blocks[k].Refs(), GroupRefs(blocks);
    GroupRefsPrefix(blocks, k);
    assert forall i :: 0 <= i < |b| ==> b[i] == all[|a| + i];
    assert forall i :: 0 <= i < |a| ==> a[i] == all[i];
    forall tr | tr in b ensures Spendable(ApplyGroup(m, hash, blocks[..k]), tr) {
      var i :| 0 <= i < |b| && b[i] == tr;
      assert all[|a| + i] == tr;
      ApplyKeepsOthers(m, hash, blocks[..k], tr);
    }
  }

  // ---------------------------------------------------------------- whole chains

  predicate DistinctHashes(chain: seq<Record>) {
    forall i, j :: 0 <= i < j < |chain| ==> chain[i].hash != chain[j].hash
  }

  predicate NumberedChain(chain: seq<Record>) {
    forall i :: 0 <= i < |chain| ==> Numbered(chain[i].blocks)
  }

  /** Every block was checked against the replay of the blocks before it. */
  ghost predicate Accepted(chain: seq<Record>) {
    forall i :: 0 <= i < |chain| ==> AcceptedAt(chain, i)
  }

  ghost predicate AcceptedAt(chain: seq<Record>, i: nat)
    requires i < |chain|
  {
    RefsOk(Replay(chain[..i]), GroupRefs(chain[i].blocks))
  }

  ghost predicate WellFormed(chain: seq<Record>) {
    Accepted(chain) && DistinctHashes(chain) && NumberedChain(chain)
  }

  ghost predicate CreatedAt(chain: seq<Record>, i: nat, tr: TransactionRef)
    requires i < |chain|
  {
    CreatedBy(chain[i].hash, chain[i].blocks, tr)
  }

  ghost predicate Created(chain: seq<Record>, tr: TransactionRef) {
    exists i :: 0 <= i < |chain| && CreatedAt(chain, i, tr)
  }

  ghost predicate SpentAt(chain: seq<Record>, i: nat, tr: TransactionRef)
    requires i < |chain|
  {
    tr in GroupRefs(chain[i].blocks)
  }

  ghost predicate Spent(chain: seq<Record>, tr: TransactionRef) {
    exists i :: 0 <= i < |chain| && SpentAt(chain, i, tr)
  }

  lemma PrefixWellFormed(chain: seq<Record>, n: nat)
    requires WellFormed(chain) && n <= |chain|
    ensures WellFormed(chain[..n])
  {
    var pre := chain[..n];
    forall i | 0 <= i < n ensures AcceptedAt(pre, i) {
      assert AcceptedAt(chain, i);
      assert pre[..i] == chain[..i];
    }
  }

  lemma CreatedSplit(chain: seq<Record>, tr: TransactionRef)
    requires chain != []
    ensures var n := |chain| - 1; Created(chain, tr) <==> Created(chain[..n], tr) || CreatedAt(chain, n, tr)
    ensures var n := |chain| - 1; Spent(chain, tr) <==> Spent(chain[..n], tr) || SpentAt(chain, n, tr)
  {
    var n := |chain| - 1;
    var pre := chain[..n];
    assert forall i :: 0 <= i < n ==> pre[i] == chain[i];
    if Created(chain, tr) {
      var i :| 0 <= i < |chain| && CreatedAt(chain, i, tr);
      assert i < n ==> CreatedAt(pre, i, tr);
    }
    if Created(pre, tr) {
      var i :| 0 <= i < n && CreatedAt(pre, i, tr);
      assert CreatedAt(chain, i, tr);
    }
    if Spent(chain, tr) {
      var i :| 0 <= i < |chain| && SpentAt(chain, i, tr);
      assert i < n ==> SpentAt(pre, i, tr);
    }
    if Spent(pre, tr) {
      var i :| 0 <= i < n && SpentAt(pre, i, tr);
      assert SpentAt(chain, i, tr);
    }
  }

  /** The replay of a chain lists exactly the outputs its blocks made, and marks unspent exactly those that no
      input of the chain refers to. */
  lemma {:induction false} ReplayMeaning(chain: seq<Record>, tr: TransactionRef)
    requires WellFormed(chain)
    ensures tr in Replay(chain) <==> Created(chain, tr)
    ensures tr in Replay(chain) ==> (Replay(chain)[tr] <==> !Spent(chain, tr))
    decreases |chain|, 2
  {
    if chain != [] {
      var n := |chain| - 1;
      var pre, last := chain[..n], chain[n];
      PrefixWellFormed(chain, n);
      ReplayMeaning(pre, tr);
      CreatedSplit(chain, tr);
      assert AcceptedAt(chain, n);
      HashIsNew(chain);
      ApplyMeaning(Replay(pre), last.hash, last.blocks, tr);
      if CreatedAt(chain, n, tr) {
        NotYetCreatedNotSpent(chain, tr);
      }
    }
  }

  /** An output that a block refers to was made by an earlier block. */
  lemma {:induction false} SpentWasCreated(chain: seq<Record>, i: nat, tr: TransactionRef) returns (c: nat)
    requires WellFormed(chain) && i < |chain| && SpentAt(chain, i, tr)
    ensures c < i && CreatedAt(chain, c, tr)
    decreases i, 3
  {
    assert AcceptedAt(chain, i);
    PrefixWellFormed(chain, i);
    ReplayMeaning(chain[..i], tr);
    c :| 0 <= c < i && CreatedAt(chain[..i], c, tr);
  }

  /** No output of the replayed blocks carries the hash of the next block. */
  lemma {:induction false} HashIsNew(chain: seq<Record>)
    requires chain != [] && WellFormed(chain)
    ensures forall r :: r in Replay(chain[..|chain| - 1]) ==> r.BlockHash != chain[|chain| - 1].hash
    decreases |chain|, 0
  {
    var n := |chain| - 1;
    PrefixWellFormed(chain, n);
    forall r | r in Replay(chain[..n]) ensures r.BlockHash != chain[n].hash {
      ReplayMeaning(chain[..n], r);
      var i :| 0 <= i < n && CreatedAt(chain[..n], i, r);
    }
  }

  lemma {:induction false} NotYetCreatedNotSpent(chain: seq<Record>, tr: TransactionRef)
    requires chain != [] && WellFormed(chain) && CreatedAt(chain, |chain| - 1, tr)
    ensures !Spent(chain, tr)
    decreases |chain|, 0
  {
    forall i | 0 <= i < |chain| ensures !SpentAt(chain, i, tr) {
      if SpentAt(chain, i, tr) {
        var c := SpentWasCreated(chain, i, tr);
        assert false;
      }
    }
  }

  // ---------------------------------------------------------------- double spending

  lemma {:induction false} SpentIsMarked(chain: seq<Record>, i: nat, tr: TransactionRef)
    requires WellFormed(chain) && i < |chain| && SpentAt(chain, i, tr)
    ensures tr in Replay(chain) && !Replay(chain)[tr]
  {
    var c := SpentWasCreated(chain, i, tr);
    assert Created(chain, tr);
    ReplayMeaning(chain, tr);
  }

  /** Along an accepted chain no output is spent twice: two inputs with one reference are the same input. */
  lemma NoDoubleSpend(chain: seq<Record>, i: nat, a: nat, j: nat, b: nat)
    requires WellFormed(chain) && i < |chain| && j < |chain|
    requires a < |GroupRefs(chain[i].blocks)| && b < |GroupRefs(chain[j].blocks)|
    requires GroupRefs(chain[i].blocks)[a] == GroupRefs(chain[j].blocks)[b]
    ensures i == j && a == b
  {
    var tr := GroupRefs(chain[i].blocks)[a];
    if i != j {
      var first, later := if i < j then i else j, if i < j then j else i;
      PrefixWellFormed(chain, later);
      assert AcceptedAt(chain, later) && SpentAt(chain, later, tr);
      SpentIsMarked(chain[..later], first, tr);
    } else {
      assert AcceptedAt(chain, i);
    }
  }

  /** ... and only by a block strictly after the one that made it. */
  lemma SpentAfterCreation(chain: seq<Record>, i: nat, a: nat)
    requires WellFormed(chain) && i < |chain| && a < |GroupRefs(chain[i].blocks)|
    ensures exists c :: 0 <= c < i && CreatedAt(chain, c, GroupRefs(chain[i].blocks)[a])
    ensures forall c :: 0 <= c < |chain| && CreatedAt(chain, c, GroupRefs(chain[i].blocks)[a]) ==> c < i
  {
    var c := SpentWasCreated(chain, i, GroupRefs(chain[i].blocks)[a]);
  }
}
