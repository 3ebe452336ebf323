/** What a node knows besides the shape of its block tree: the headers it was sent and the data it holds. */
module ChainState {
  import opened Bytes
  import opened Transactions
  import opened Ledger
  import opened Verification
  import opened Supply
  import opened Blocks

  /** The transaction data held, by block hash. */
  type View = map<Digest, Group>

  /** What is assumed of the headers that ever arrive: no two of them collide, and each counts one more than the
      header it names as its predecessor.  The source checks neither. */
  ghost predicate GoodHeaders(seen: set<Block>, genesis: Block) {
    && genesis in seen && genesis.BlockCount == 0
    && (forall a, b :: a in seen && b in seen && Hash(a) == Hash(b) ==> a == b)
    && (forall a, b :: a in seen && b in seen && Follows(b, a) && b != genesis ==> b.BlockCount == a.BlockCount + 1)
  }

  predicate Follows(b: Block, a: Block) {
    b.PrevHash == Hash(a)
  }

  ghost predicate ViewValid(view: View) {
    forall h :: h in view ==> view[h].Valid()
  }

  /** `getTransactionOutput`: the output a reference names, when its block and its data are known. */
  function Output(view: View, tr: TransactionRef): Option<TransactionOutput> {
    if tr.BlockHash !in view then None
    else
      var blocks := view[tr.BlockHash].TransactionBlockStructs;
      var k, j := tr.TransactionBlockNumber as nat, tr.OutputNumber as nat;
      if k < |blocks| && j < |blocks[k].OutputList| then Some(blocks[k].OutputList[j]) else None
  }

  predicate InputResolved(view: View, ti: TransactionInput) {
    ti.OutputBlock.Some? ==> Output(view, ti.reference) == ti.OutputBlock
  }

  predicate BlockResolved(view: View, tb: TransactionBlock) {
    forall a :: 0 <= a < |tb.InputList| ==> InputResolved(view, tb.InputList[a])
  }

  /** Whatever outputs a group carries are the ones its references name. */
  predicate GroupResolved(view: View, g: Group) {
    forall k :: 0 <= k < |g.TransactionBlockStructs| ==> BlockResolved(view, g.TransactionBlockStructs[k])
  }

  predicate Extends(view: View, view': View) {
    forall h :: h in view ==> h in view' && view'[h] == view[h]
  }

  lemma ResolvedStays(view: View, view': View, g: Group)
    requires GroupResolved(view, g) && Extends(view, view')
    ensures GroupResolved(view', g)
  {
    forall k | 0 <= k < |g.TransactionBlockStructs| ensures BlockResolved(view', g.TransactionBlockStructs[k]) {
      var tb := g.TransactionBlockStructs[k];
      assert BlockResolved(view, tb);
      forall a | 0 <= a < |tb.InputList| ensures InputResolved(view', tb.InputList[a]) {
        assert InputResolved(view, tb.InputList[a]);
      }
    }
  }

  function LookupIn(view: View): Lookup {
    tr => Output(view, tr)
  }

  /** What deserializing a group does to its references. */
  function ResolveGroup(view: View, g: Group): (r: Group)
    ensures r.transactionBlocks == g.transactionBlocks && |r.TransactionBlockStructs| == |g.TransactionBlockStructs|
  {
    g.(TransactionBlockStructs :=
      seq(|g.TransactionBlockStructs|, k requires 0 <= k < |g.TransactionBlockStructs| =>
        Resolved(g.TransactionBlockStructs[k], LookupIn(view))))
  }

  lemma ResolvingKeepsBytes(tb: TransactionBlock, lookup: Lookup)
    ensures Unresolved(Resolved(tb, lookup)) == Unresolved(tb)
  {
    assert Unresolved(Resolved(tb, lookup)).InputList == Unresolved(tb).InputList;
  }

  lemma ResolveGroupProperties(view: View, g: Group)
    requires g.Valid()
    ensures ResolveGroup(view, g).Valid() && GroupResolved(view, ResolveGroup(view, g))
    ensures ResolveGroup(view, g).MerkleRoot() == g.MerkleRoot()
  {
    var r := ResolveGroup(view, g);
    forall k | 0 <= k < |r.TransactionBlockStructs|
      ensures BlockMatches(r.TransactionBlockStructs[k], r.transactionBlocks[k])
    {
      assert BlockMatches(g.TransactionBlockStructs[k], g.transactionBlocks[k]);
      ResolvingKeepsBytes(g.TransactionBlockStructs[k], LookupIn(view));
    }
  }

  // ---------------------------------------------------------------- arrivals

  /** Data that is held: by nodes, and by Merkle root until a node comes for it. */
  datatype DataState = DataState(view: View, dangling: map<Digest, Group>)

  /** What one arrival does, when `leads` says which block a Merkle root belongs to and `known` are the nodes there are:
      the first data for a node stays, and so does the first data that waits under a root. */
  function DataStep(s: DataState, leads: map<Digest, Digest>, known: set<Digest>, g: Group): DataState
    requires g.transactionBlocks != []
  {
    DataPlaced(s, leads, known, ResolveGroup(s.view, g))
  }

  function DataPlaced(s: DataState, leads: map<Digest, Digest>, known: set<Digest>, tb: Group): DataState
    requires tb.transactionBlocks != []
  {
    var m := tb.MerkleRoot();
    if m !in leads then
      if m in s.dangling then s else s.(dangling := s.dangling[m := tb])
    else if leads[m] in known && leads[m] !in s.view then s.(view := s.view[leads[m] := tb])
    else s
  }

  predicate AllValid(arrivals: seq<Group>) {
    forall g :: g in arrivals ==> g.Valid()
  }

  /** Arrivals are taken until block `h` has its data; the rest is left. */
  function Waited(s: DataState, leads: map<Digest, Digest>, known: set<Digest>, h: Digest, arrivals: seq<Group>):
    (r: (DataState, seq<Group>))
    requires AllValid(arrivals)
    ensures AllValid(r.1) && (h in r.0.view || r.1 == [])
    decreases |arrivals|
  {
    if arrivals == [] || h in s.view then (s, arrivals)
    else
      assert arrivals[0] in arrivals && AllValid(arrivals[1..]);
      Waited(DataStep(s, leads, known, arrivals[0]), leads, known, h, arrivals[1..])
  }

  // ---------------------------------------------------------------- histories

  /** The records of a history are the data held for their hashes. */
  ghost predicate InView(view: View, history: seq<Record>) {
    forall i :: 0 <= i < |history| ==> RecordInView(view, history[i])
  }

  ghost predicate RecordInView(view: View, r: Record) {
    r.hash in view && view[r.hash].TransactionBlockStructs == r.blocks
  }

  ghost predicate AllPass(history: seq<Record>) {
    forall i :: 0 <= i < |history| ==> GroupPasses(history[i].blocks)
  }

  lemma SameAccepted(a: seq<Record>, b: seq<Record>, i: nat)
    requires i < |a| && i < |b| && a[..i] == b[..i] && a[i] == b[i] && AcceptedAt(a, i)
    ensures AcceptedAt(b, i)
  {
  }

  lemma ReplayExtend(chain: seq<Record>, r: Record)
    ensures Replay(chain + [r]) == ApplyGroup(Replay(chain), r.hash, r.blocks)
  {
    var longer := chain + [r];
    assert longer[..|longer| - 1] == chain;
  }

  lemma AcceptedExtend(chain: seq<Record>, r: Record)
    requires Accepted(chain) && RefsOk(Replay(chain), GroupRefs(r.blocks))
    ensures Accepted(chain + [r])
    ensures Replay(chain + [r]) == ApplyGroup(Replay(chain), r.hash, r.blocks)
  {
    hide Replay, GroupRefs, RefsOk;
    var longer := chain + [r];
    forall i | 0 <= i < |longer| ensures AcceptedAt(longer, i) {
      if i < |chain| {
        assert AcceptedAt(chain, i);
        assert longer[..i] == chain[..i];
        SameAccepted(chain, longer, i);
      } else {
        assert longer[..i] == chain;
      }
    }
    ReplayExtend(chain, r);
  }

  /** A history of blocks that were accepted and passed, read off the data held, is a verified chain: nothing needs
      to be assumed about how its inputs were resolved. */
  lemma HistoryIsVerified(view: View, history: seq<Record>)
    requires ViewValid(view) && forall h :: h in view ==> GroupResolved(view, view[h])
    requires Accepted(history) && AllPass(history) && InView(view, history) && DistinctHashes(history)
    ensures Verified(history)
  {
    forall i | 0 <= i < |history| ensures Numbered(history[i].blocks) {
      assert RecordInView(view, history[i]);
      NumberedGroup(view[history[i].hash]);
    }
    forall i | 0 <= i < |history| ensures VerifiedAt(history, i) {
      forall k | 0 <= k < |history[i].blocks| ensures AllResolve(history, history[i].blocks[k]) {
        forall a | 0 <= a < |history[i].blocks[k].InputList|
          ensures Resolves(history, history[i].blocks[k].InputList[a])
        {
          InputResolves(view, history, i, k, a);
        }
      }
    }
  }

  lemma NumberedGroup(g: Group)
    requires g.Valid()
    ensures Numbered(g.TransactionBlockStructs)
  {
    forall k | 0 <= k < |g.TransactionBlockStructs| ensures |g.TransactionBlockStructs[k].OutputList| <= 256 {
      assert BlockMatches(g.TransactionBlockStructs[k], g.transactionBlocks[k]);
    }
  }

  lemma InputResolves(view: View, history: seq<Record>, i: nat, k: nat, a: nat)
    requires forall h :: h in view ==> GroupResolved(view, view[h])
    requires AllPass(history) && InView(view, history)
    requires i < |history| && k < |history[i].blocks| && a < |history[i].blocks[k].InputList|
    ensures Resolves(history, history[i].blocks[k].InputList[a])
  {
    var tb := history[i].blocks[k];
    var ti := tb.InputList[a];
    assert RecordInView(view, history[i]);
    assert BlockResolved(view, tb) && InputResolved(view, ti);
    assert GroupPasses(history[i].blocks) && Passes(tb, k == 0);
    forall c | 0 <= c < |history| && CreatedAt(history, c, ti.reference)
      ensures ti.OutputBlock.value == Named(history[c].blocks, ti.reference)
    {
      assert RecordInView(view, history[c]);
    }
  }
}
