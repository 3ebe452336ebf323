/** The UTXO manager: nested maps of outputs that are changed in place, checked against and copied; and the
    block tree node that a manager is attached to. */
module UtxoManagers {
  import opened Bytes
  import opened Transactions
  import opened Ledger
  import opened Blocks

  /** Innermost map: output number to unspent flag.  The ghost constants say where in the nest it belongs. */
  class OutputFlags {
    ghost const hash: Digest
    ghost const number: byte
    var flags: map<byte, bool>

    constructor (ghost hash: Digest, ghost number: byte, flags: map<byte, bool>)
      ensures this.hash == hash && this.number == number && this.flags == flags
    {
      this.hash, this.number, this.flags := hash, number, flags;
    }
  }

  /** Middle map: transaction block number to its outputs. */
  class BlockOutputs {
    ghost const hash: Digest
    var outputs: map<byte, OutputFlags>

    constructor (ghost hash: Digest, outputs: map<byte, OutputFlags>)
      ensures this.hash == hash && this.outputs == outputs
    {
      this.hash, this.outputs := hash, outputs;
    }
  }

  class BlockChainNode {
    const Block: Block
    const Hash: Digest
    var previousBlockChainNode: BlockChainNode?
    var nextBlockChainNode: BlockChainNode?
    var hasData: bool
    var dataPointer: Option<Group>
    var uTxOManagerPointer: UTxOManager?
    var uTxOManagerIsUpToDate: bool
    var verifiedWithUtxoManager: bool
    var badblock: bool
    /** The blocks from the root to this node, set when the node is verified. */
    ghost var history: seq<Record>

    constructor (block: Block)
      ensures this.Block == block && Hash == Blocks.Hash(block)
      ensures previousBlockChainNode == null && nextBlockChainNode == null
      ensures !hasData && dataPointer == None
      ensures uTxOManagerPointer == null && !uTxOManagerIsUpToDate
      ensures !verifiedWithUtxoManager && !badblock && history == []
    {
      Block, Hash := block, Blocks.Hash(block);
      previousBlockChainNode, nextBlockChainNode := null, null;
      hasData, dataPointer := false, None;
      uTxOManagerPointer, uTxOManagerIsUpToDate := null, false;
      verifiedWithUtxoManager, badblock, history := false, false, [];
    }
  }

  /** Why an update did not happen.  `NotInSync` stands for the source's four messages about a reference that
      is missing or was spent before. */
  datatype UpdateError = NoError | NoData | NoPrevious | WrongNode | PreviousNotUpToDate | NotInSync

  class UTxOManager {
    var attachedBlockChainNode: BlockChainNode
    var utxOMap: map<Digest, BlockOutputs>
    ghost var Contents: Utxo
    ghost var Repr: set<object>

    ghost predicate Nested()
      reads this, Repr
    {
      && this in Repr
      && (forall o :: o in Repr ==> o == this || o is BlockOutputs || o is OutputFlags)
      && (forall h :: h in utxOMap ==> utxOMap[h] in Repr && utxOMap[h].hash == h)
      && (forall h, k :: h in utxOMap && k in utxOMap[h].outputs ==>
            && utxOMap[h].outputs[k] in Repr
            && utxOMap[h].outputs[k].hash == h && utxOMap[h].outputs[k].number == k)
    }

    ghost predicate Has(tr: TransactionRef)
      requires Nested()
      reads this, Repr
    {
      && tr.BlockHash in utxOMap
      && tr.TransactionBlockNumber in utxOMap[tr.BlockHash].outputs
      && tr.OutputNumber in utxOMap[tr.BlockHash].outputs[tr.TransactionBlockNumber].flags
    }

    ghost predicate Valid()
      reads this, Repr
      ensures Valid() ==> this in Repr
      ensures Valid() ==> forall o :: o in Repr ==> o == this || o is BlockOutputs || o is OutputFlags
    {
      && Nested()
      && forall tr :: Agrees(tr)
    }

    /** The nested maps and the abstract one say the same of `tr`. */
    ghost predicate Agrees(tr: TransactionRef)
      requires Nested()
      reads this, Repr
    {
      && (tr in Contents <==> Has(tr))
      && (Has(tr) ==>
            Contents[tr] == utxOMap[tr.BlockHash].outputs[tr.TransactionBlockNumber].flags[tr.OutputNumber])
    }

    /** The first manager; the root starts without data and up to date. */
    constructor initializeUTxOMananger(root: BlockChainNode)
      modifies root`hasData, root`uTxOManagerIsUpToDate
      ensures Valid() && fresh(Repr) && attachedBlockChainNode == root
      ensures Contents == map[] && Repr == {this}
      ensures !root.hasData && root.uTxOManagerIsUpToDate
    {
      attachedBlockChainNode := root;
      utxOMap, Contents := map[], map[];
      Repr := {this};
      new;
      root.hasData := false;
      root.uTxOManagerIsUpToDate := true;
    }

    /** A manager that is about to be filled. */
    constructor Empty(attached: BlockChainNode)
      ensures Valid() && fresh(Repr) && attachedBlockChainNode == attached
      ensures Contents == map[] && Repr == {this}
    {
      attachedBlockChainNode := attached;
      utxOMap, Contents := map[], map[];
      Repr := {this};
    }

    method verifyTransactionRef(tr: TransactionRef) returns (ok: bool)
      requires Valid()
      ensures ok <==> Spendable(Contents, tr)
    {
      assert Agrees(tr);
      if tr.BlockHash !in utxOMap {
        return false;
      }
      var a := utxOMap[tr.BlockHash].outputs;
      if tr.TransactionBlockNumber !in a {
        return false;
      }
      var b := a[tr.TransactionBlockNumber].flags;
      if tr.OutputNumber !in b {
        return false;
      }
      ok := b[tr.OutputNumber];
    }

    /** One pass over the inputs of a block; `keys` holds the serialized references seen before it. */
    method VerifyInputRefs(tb: TransactionBlock, keys: set<Bytes>, ghost seen: seq<TransactionRef>)
      returns (ok: bool, keys': set<Bytes>)
      requires Valid() && RefsOk(Contents, seen) && KeysOf(keys, seen)
      ensures ok <==> RefsOk(Contents, seen + tb.Refs())
      ensures ok ==> KeysOf(keys', seen + tb.Refs())
    {
      var refs := tb.Refs();
      keys' := keys;
      assert seen + refs[..0] == seen;
      for i := 0 to |tb.InputList|
        invariant RefsOk(Contents, seen + refs[..i]) && KeysOf(keys', seen + refs[..i])
      {
        var tr := tb.InputList[i].reference;
        var key := EncodeRef(tr);
        OneMoreRef(Contents, seen, refs, i, keys');
        if key in keys' {
          return false, keys';
        }
        var spendable := verifyTransactionRef(tr);
        if !spendable {
          return false, keys';
        }
        keys' := keys' + {key};
      }
      assert refs[..|tb.InputList|] == refs;
      ok := true;
    }

    method VerifyTransactionBlockRefs(tb: TransactionBlock) returns (ok: bool)
      requires Valid()
      ensures ok <==> RefsOk(Contents, tb.Refs())
    {
      assert [] + tb.Refs() == tb.Refs();
      var keys;
      ok, keys := VerifyInputRefs(tb, {}, []);
    }

    method verifyTransactionBlockGroupRefs(blocks: seq<TransactionBlock>) returns (ok: bool)
      requires Valid()
      ensures ok <==> RefsOk(Contents, GroupRefs(blocks))
    {
      var keys: set<Bytes> := {};
      for k := 0 to |blocks|
        invariant RefsOk(Contents, GroupRefs(blocks[..k])) && KeysOf(keys, GroupRefs(blocks[..k]))
      {
        assert blocks[..k + 1][..k] == blocks[..k];
        var blockOk;
        blockOk, keys := VerifyInputRefs(blocks[k], keys, GroupRefs(blocks[..k]));
        if !blockOk {
          GroupRefsPrefix(blocks, k);
          PrefixRefsOk(Contents, GroupRefs(blocks[..k]) + blocks[k].Refs(), GroupRefs(blocks));
          return false;
        }
      }
      assert blocks[..|blocks|] == blocks;
      ok := true;
    }

    // -------------------------------------------------------------- single steps of an update

    /** Marks an unspent output as spent. */
    method SpendRef(tr: TransactionRef) returns (err: UpdateError)
      requires Valid()
      modifies Repr
      ensures Valid() && Repr == old(Repr) && attachedBlockChainNode == old(attachedBlockChainNode)
      ensures err == if Spendable(old(Contents), tr) then NoError else NotInSync
      ensures Contents == if err == NoError then old(Contents)[tr := false] else old(Contents)
    {
      assert Agrees(tr);
      if tr.BlockHash !in utxOMap {
        return NotInSync;
      }
      var a := utxOMap[tr.BlockHash].outputs;
      if tr.TransactionBlockNumber !in a {
        return NotInSync;
      }
      var b := a[tr.TransactionBlockNumber];
      if tr.OutputNumber !in b.flags {
        return NotInSync;
      }
      if !b.flags[tr.OutputNumber] {
        return NotInSync;
      }
      SetFlag(b, tr, false);
      err := NoError;
    }

    method SetFlag(b: OutputFlags, tr: TransactionRef, flag: bool)
      requires Valid()
      requires tr.BlockHash in utxOMap && tr.TransactionBlockNumber in utxOMap[tr.BlockHash].outputs
      requires b == utxOMap[tr.BlockHash].outputs[tr.TransactionBlockNumber]
      modifies this`Contents, b
      ensures Valid() && Contents == old(Contents)[tr := flag]
    {
      b.flags := b.flags[tr.OutputNumber := flag];
      Contents := Contents[tr := flag];
      forall r ensures Agrees(r) {
        assert old(Agrees(r));
      }
    }

    /** The map of a transaction block, made on first use. */
    method OutputsOf(hash: Digest, uk: byte) returns (b: OutputFlags)
      requires Valid()
      modifies Repr
      ensures Valid() && fresh(Repr - old(Repr)) && attachedBlockChainNode == old(attachedBlockChainNode)
      ensures Contents == old(Contents)
      ensures hash in utxOMap && uk in utxOMap[hash].outputs && b == utxOMap[hash].outputs[uk]
    {
      if hash !in utxOMap {
        var made := new BlockOutputs(hash, map[]);
        utxOMap := utxOMap[hash := made];
        Repr := Repr + {made};
        forall r ensures Agrees(r) {
          assert old(Agrees(r));
        }
      }
      var a := utxOMap[hash];
      if uk !in a.outputs {
        b := AddFlags(a, hash, uk);
      } else {
        b := a.outputs[uk];
      }
    }

    method AddFlags(a: BlockOutputs, hash: Digest, uk: byte) returns (b: OutputFlags)
      requires Valid()
      requires hash in utxOMap && a == utxOMap[hash] && uk !in a.outputs
      modifies this`Repr, a
      ensures Valid() && fresh(Repr - old(Repr)) && Contents == old(Contents) && utxOMap == old(utxOMap)
      ensures uk in a.outputs && b == a.outputs[uk]
    {
      b := new OutputFlags(hash, uk, map[]);
      a.outputs := a.outputs[uk := b];
      Repr := Repr + {b};
      assert Nested();
      forall r ensures Agrees(r) {
        assert old(Agrees(r));
      }
    }

    /** All outputs of transaction block `k`. */
    method AddOutputs(hash: Digest, k: nat, n: nat, waiting: int) returns (waiting': int)
      requires Valid()
      modifies Repr
      ensures Valid() && fresh(Repr - old(Repr)) && attachedBlockChainNode == old(attachedBlockChainNode)
      ensures Contents == Create(old(Contents), hash, k, n)
      ensures waiting' == waiting - n
    {
      var uk := U8(k) as byte;
      var b := OutputsOf(hash, uk);
      waiting' := waiting;
      for j := 0 to n
        invariant Valid() && fresh(Repr - old(Repr)) && attachedBlockChainNode == old(attachedBlockChainNode)
        invariant hash in utxOMap && uk in utxOMap[hash].outputs && b == utxOMap[hash].outputs[uk]
        invariant Contents == Create(old(Contents), hash, k, j)
        invariant waiting' == waiting - j
      {
        SetFlag(b, RefAt(hash, k, j), true);
        waiting' := waiting' - 1;
      }
    }

    /** All inputs of a transaction block, up to the first that cannot be spent. */
    method SpendInputs(tb: TransactionBlock, waiting: int) returns (err: UpdateError, waiting': int)
      requires Valid()
      modifies Repr
      ensures Valid() && Repr == old(Repr) && attachedBlockChainNode == old(attachedBlockChainNode)
      ensures err in {NoError, NotInSync}
      ensures err == NoError ==> Contents == Spend(old(Contents), tb.Refs()) && waiting' == waiting - |tb.InputList|
      ensures RefsOk(old(Contents), tb.Refs()) ==> err == NoError
    {
      var refs := tb.Refs();
      err, waiting' := NoError, waiting;
      for i := 0 to |tb.InputList|
        invariant Valid() && Repr == old(Repr) && attachedBlockChainNode == old(attachedBlockChainNode)
        invariant err == NoError && waiting' == waiting - i
        invariant Contents == Spend(old(Contents), refs[..i])
      {
        assert refs[..i + 1][..i] == refs[..i];
        SpendMeaning(old(Contents), refs[..i], refs[i]);
        err := SpendRef(tb.InputList[i].reference);
        if err != NoError {
          return;
        }
        waiting' := waiting' - 1;
      }
      assert refs[..|tb.InputList|] == refs;
    }

    /** Every transaction block of a group: inputs, then outputs.  `waiting` is the wait group's counter. */
    method ApplyBlocks(hash: Digest, blocks: seq<TransactionBlock>) returns (err: UpdateError, waiting: int)
      requires Valid()
      requires forall k :: 0 <= k < |blocks| ==> blocks[k].CountsMatch()
      modifies Repr
      ensures Valid() && fresh(Repr - old(Repr)) && attachedBlockChainNode == old(attachedBlockChainNode)
      ensures err in {NoError, NotInSync}
      ensures err == NoError ==> Contents == ApplyGroup(old(Contents), hash, blocks) && waiting == 0
      ensures RefsOk(old(Contents), GroupRefs(blocks)) ==> err == NoError
    {
      err, waiting := NoError, 0;
      for k := 0 to |blocks|
        invariant Valid() && fresh(Repr - old(Repr)) && attachedBlockChainNode == old(attachedBlockChainNode)
        invariant err == NoError && waiting == 0
        invariant Contents == ApplyGroup(old(Contents), hash, blocks[..k])
      {
        var tb := blocks[k];
        waiting := waiting + tb.InputNumber as int + tb.OutputNumber as int;
        if RefsOk(old(Contents), GroupRefs(blocks)) {
          StillSpendable(old(Contents), hash, blocks, k);
        }
        err, waiting := SpendInputs(tb, waiting);
        if err != NoError {
          return;
        }
        waiting := AddOutputs(hash, k, |tb.OutputList|, waiting);
        assert blocks[..k + 1][..k] == blocks[..k];
      }
      assert blocks[..|blocks|] == blocks;
    }

    // -------------------------------------------------------------- update and copy

    /** What the source looks at before it touches the map. */
    ghost function Obstacle(bcn: BlockChainNode): UpdateError
      reads this, bcn, PreviousOf(bcn)
    {
      if bcn.dataPointer == None then NoData
      else if bcn.previousBlockChainNode == null then NoPrevious
      else if bcn.previousBlockChainNode != attachedBlockChainNode then WrongNode
      else if !bcn.previousBlockChainNode.uTxOManagerIsUpToDate then PreviousNotUpToDate
      else NoError
    }

    /** Moves the manager from the node it is attached to, to the next one.  With `deepCopy` a copy stays behind. */
    method updateWithNextBlockChainNode(bcn: BlockChainNode, deepCopy: bool) returns (err: UpdateError, waiting: int)
      requires Valid() && bcn.previousBlockChainNode != bcn
      requires bcn.dataPointer.Some? ==> CountsMatch(bcn.dataPointer.value)
      modifies Repr
      modifies bcn`uTxOManagerIsUpToDate, bcn`uTxOManagerPointer
      modifies PreviousOf(bcn)`uTxOManagerIsUpToDate, PreviousOf(bcn)`uTxOManagerPointer
      ensures Valid() && fresh(Repr - old(Repr))
      ensures old(Obstacle(bcn)) != NoError ==> err == old(Obstacle(bcn)) && Contents == old(Contents)
      ensures err == NoData <==> bcn.dataPointer == None
      ensures err == NoPrevious <==> bcn.dataPointer != None && bcn.previousBlockChainNode == null
      ensures err == WrongNode <==>
              && bcn.dataPointer != None && bcn.previousBlockChainNode != null
              && bcn.previousBlockChainNode != old(attachedBlockChainNode)
      ensures err == PreviousNotUpToDate <==>
              && bcn.dataPointer != None && bcn.previousBlockChainNode == old(attachedBlockChainNode)
              && !old(attachedBlockChainNode.uTxOManagerIsUpToDate)
      ensures old(Obstacle(bcn)) == NoError ==> err in {NoError, NotInSync}
      ensures old(Obstacle(bcn)) == NoError && RefsOk(old(Contents), RefsOf(bcn.dataPointer.value)) ==> err == NoError
      ensures err != NoError ==> Unmoved(bcn, old(attachedBlockChainNode))
      ensures err == NoError ==>
                && waiting == 0
                && Contents == ApplyGroup(old(Contents), bcn.Hash, bcn.dataPointer.value.TransactionBlockStructs)
                && Moved(bcn, deepCopy, old(Contents))
                && (deepCopy ==> fresh(bcn.previousBlockChainNode.uTxOManagerPointer.Repr))
    {
      var prev := bcn.previousBlockChainNode;
      waiting := 0;
      var copy: UTxOManager? := null;
      if deepCopy {
        copy := Deepcopy();
      }
      if bcn.dataPointer == None {
        return NoData, waiting;
      }
      if prev == null {
        return NoPrevious, waiting;
      }
      if prev != attachedBlockChainNode {
        return WrongNode, waiting;
      }
      if !prev.uTxOManagerIsUpToDate {
        return PreviousNotUpToDate, waiting;
      }
      err, waiting := ApplyBlocks(bcn.Hash, bcn.dataPointer.value.TransactionBlockStructs);
      if err != NoError {
        return;
      }
      MoveTo(bcn, prev, copy);
    }

    method Attach(bcn: BlockChainNode)
      requires Valid()
      modifies this`attachedBlockChainNode
      ensures Valid() && attachedBlockChainNode == bcn
    {
      attachedBlockChainNode := bcn;
      assert Nested();
      forall tr ensures Agrees(tr) {
        assert old(Agrees(tr));
      }
    }

    method MoveTo(bcn: BlockChainNode, prev: BlockChainNode, copy: UTxOManager?)
      requires Valid() && bcn != prev && bcn.previousBlockChainNode == prev
      requires copy != null ==> copy.Valid() && copy.Repr !! Repr
      modifies this`attachedBlockChainNode
      modifies bcn`uTxOManagerIsUpToDate, bcn`uTxOManagerPointer
      modifies prev`uTxOManagerIsUpToDate, prev`uTxOManagerPointer
      modifies (if copy == null then {} else {copy})`attachedBlockChainNode
      ensures Valid() && prev.uTxOManagerPointer == copy
      ensures Moved(bcn, copy != null, if copy == null then map[] else copy.Contents)
    {
      hide Nested, Agrees;
      Attach(bcn);
      if copy != null {
        prev.uTxOManagerIsUpToDate := true;
        prev.uTxOManagerPointer := copy;
        copy.Attach(prev);
      } else {
        prev.uTxOManagerIsUpToDate := false;
        prev.uTxOManagerPointer := null;
      }
      bcn.uTxOManagerIsUpToDate := true;
      bcn.uTxOManagerPointer := this;
    }

    twostate predicate Unmoved(bcn: BlockChainNode, attached: BlockChainNode)
      reads this, bcn, PreviousOf(bcn)
    {
      && attachedBlockChainNode == attached && unchanged(bcn)
      && (bcn.previousBlockChainNode != null ==> unchanged(bcn.previousBlockChainNode))
    }

    /** This manager is at `bcn`; at the node before it there is a savepoint or nothing. */
    ghost predicate Moved(bcn: BlockChainNode, deepCopy: bool, before: Utxo)
      reads this, Repr, bcn, PreviousOf(bcn), CopyRepr(bcn)
    {
      && attachedBlockChainNode == bcn && bcn.uTxOManagerIsUpToDate && bcn.uTxOManagerPointer == this
      && bcn.previousBlockChainNode != null
      && var prev := bcn.previousBlockChainNode;
      && prev.uTxOManagerIsUpToDate == deepCopy
      && (!deepCopy ==> prev.uTxOManagerPointer == null)
      && (deepCopy ==>
            && prev.uTxOManagerPointer != null
            && var copy := prev.uTxOManagerPointer;
            && copy.Valid() && copy.Repr !! Repr
            && copy.Contents == before && copy.attachedBlockChainNode == prev)
    }

    /** An equal map made of new maps only. */
    method Deepcopy() returns (umCopy: UTxOManager)
      requires Valid()
      ensures umCopy.Valid() && fresh(umCopy.Repr)
      ensures umCopy.Contents == Contents && umCopy.attachedBlockChainNode == attachedBlockChainNode
    {
      var copied: map<Digest, BlockOutputs> := map[];
      ghost var made: set<object> := {};
      var left := utxOMap.Keys;
      while left != {}
        invariant left <= utxOMap.Keys && copied.Keys == utxOMap.Keys - left
        invariant fresh(made) && forall o :: o in made ==> o is BlockOutputs || o is OutputFlags
        invariant forall h :: h in copied ==> CopyOf(copied[h], h, made) && SameOutputs(copied[h], utxOMap[h])
        decreases left
      {
        var h :| h in left;
        var newMap, newMade := CopyOutputs(utxOMap[h], h);
        copied := copied[h := newMap];
        made := made + newMade;
        left := left - {h};
      }
      umCopy := new UTxOManager.Empty(attachedBlockChainNode);
      umCopy.Fill(this, copied, made);
    }

    method Fill(ghost um: UTxOManager, copied: map<Digest, BlockOutputs>, ghost made: set<object>)
      requires um.Valid() && um != this && Repr == {this} && this !in um.Repr
      requires copied.Keys == um.utxOMap.Keys && this !in made
      requires forall o :: o in made ==> o is BlockOutputs || o is OutputFlags
      requires forall h :: h in copied ==> CopyOf(copied[h], h, made) && SameOutputs(copied[h], um.utxOMap[h])
      modifies this
      ensures Valid() && Repr == {this} + made && Contents == um.Contents
      ensures attachedBlockChainNode == old(attachedBlockChainNode)
    {
      utxOMap, Contents, Repr := copied, um.Contents, {this} + made;
      forall tr ensures Agrees(tr) {
        assert um.Agrees(tr);
      }
    }

    ghost predicate CopyOf(c: BlockOutputs, h: Digest, made: set<object>)
      reads c, c.outputs.Values
    {
      && c in made && c.hash == h
      && forall k :: k in c.outputs ==> c.outputs[k] in made && c.outputs[k].hash == h && c.outputs[k].number == k
    }

    ghost predicate SameOutputs(c: BlockOutputs, v: BlockOutputs)
      reads c, v, c.outputs.Values, v.outputs.Values
    {
      && c.outputs.Keys == v.outputs.Keys
      && forall k :: k in v.outputs ==> c.outputs[k].flags == v.outputs[k].flags
    }

    method CopyOutputs(v: BlockOutputs, h: Digest) returns (newMap: BlockOutputs, ghost made: set<object>)
      requires Valid() && h in utxOMap && v == utxOMap[h]
      ensures fresh(made) && forall o :: o in made ==> o is BlockOutputs || o is OutputFlags
      ensures CopyOf(newMap, h, made) && SameOutputs(newMap, v)
    {
      newMap := new BlockOutputs(h, map[]);
      made := {newMap};
      var left := v.outputs.Keys;
      while left != {}
        invariant left <= v.outputs.Keys && newMap.outputs.Keys == v.outputs.Keys - left
        invariant fresh(made) && newMap in made && forall o :: o in made ==> o is BlockOutputs || o is OutputFlags
        invariant forall k :: k in newMap.outputs ==>
                    && newMap.outputs[k] in made && newMap.outputs[k].hash == h && newMap.outputs[k].number == k
                    && newMap.outputs[k].flags == v.outputs[k].flags
        decreases left
      {
        var k :| k in left;
        var newMap2 := new OutputFlags(h, k, v.outputs[k].flags);
        made := made + {newMap2};
        newMap.outputs := newMap.outputs[k := newMap2];
        left := left - {k};
      }
    }
  }

  /** The node before `n` points forward to it. */
  ghost predicate Forward(n: BlockChainNode)
    reads n`previousBlockChainNode, PreviousOf(n)`nextBlockChainNode
  {
    n.previousBlockChainNode != null && n.previousBlockChainNode.nextBlockChainNode == n
  }

  ghost function PreviousOf(bcn: BlockChainNode): set<BlockChainNode>
    reads bcn`previousBlockChainNode
  {
    if bcn.previousBlockChainNode == null then {} else {bcn.previousBlockChainNode}
  }

  ghost function CopyRepr(bcn: BlockChainNode): set<object>
    reads bcn, PreviousOf(bcn)
    reads set n | n in PreviousOf(bcn) && n.uTxOManagerPointer != null :: n.uTxOManagerPointer
  {
    if bcn.previousBlockChainNode == null || bcn.previousBlockChainNode.uTxOManagerPointer == null then {}
    else {bcn.previousBlockChainNode.uTxOManagerPointer} + bcn.previousBlockChainNode.uTxOManagerPointer.Repr
  }

  predicate CountsMatch(g: Group) {
    forall k :: 0 <= k < |g.TransactionBlockStructs| ==> g.TransactionBlockStructs[k].CountsMatch()
  }

  function RefsOf(g: Group): seq<TransactionRef> {
    GroupRefs(g.TransactionBlockStructs)
  }

  ghost predicate KeysOf(keys: set<Bytes>, refs: seq<TransactionRef>) {
    forall tr :: EncodeRef(tr) in keys <==> tr in refs
  }

  lemma OneMoreRef(m: Utxo, seen: seq<TransactionRef>, refs: seq<TransactionRef>, i: nat, keys: set<Bytes>)
    requires i < |refs| && RefsOk(m, seen + refs[..i]) && KeysOf(keys, seen + refs[..i])
    ensures var ok := EncodeRef(refs[i]) !in keys && Spendable(m, refs[i]);
            && (RefsOk(m, seen + refs[..i + 1]) <==> ok)
            && (!ok ==> !RefsOk(m, seen + refs))
    ensures KeysOf(keys + {EncodeRef(refs[i])}, seen + refs[..i + 1])
  {
    var before, after := seen + refs[..i], seen + refs[..i + 1];
    assert after == before + [refs[i]];
    forall tr ensures EncodeRef(tr) in keys + {EncodeRef(refs[i])} <==> tr in after {
      if EncodeRef(tr) == EncodeRef(refs[i]) {
        RefKeysAreInjective(tr, refs[i]);
      }
    }
    if RefsOk(m, after) {
      assert after[|before|] == refs[i];
      assert forall j :: 0 <= j < |before| ==> after[j] == before[j];
    }
    if RefsOk(m, seen + refs) {
      assert after <= seen + refs;
      PrefixRefsOk(m, after, seen + refs);
    }
  }

  lemma PrefixRefsOk(m: Utxo, a: seq<TransactionRef>, b: seq<TransactionRef>)
    requires a <= b
    ensures RefsOk(m, b) ==> RefsOk(m, a)
  {
    assert forall i :: 0 <= i < |a| ==> a[i] == b[i];
  }
}
