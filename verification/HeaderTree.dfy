/** Where headers go, as a function: the hashes of the main chain, and the orphan chains in their order. */
module HeaderTrees {
  import opened Bytes
  import opened Blocks

  /** What a header that arrives leads to.  `Panicked`: its difficulty is more than the length of a hash. */
  datatype Added = Panicked | Rejected | Known | Inserted | Joined | ToOrphan | NewOrphanRoot | NewOrphan

  /** A chain that waits for the header before its root. */
  datatype OrphanChain = OrphanChain(root: Block, keys: set<Digest>)

  datatype HeaderTree = HeaderTree(keys: set<Digest>, chains: seq<OrphanChain>)

  /** The first chain that waits for this header. */
  function FirstChild(chains: seq<OrphanChain>, hash: Digest): (i: nat)
    ensures i <= |chains| && forall j :: 0 <= j < i ==> chains[j].root.PrevHash != hash
    ensures i < |chains| ==> chains[i].root.PrevHash == hash
  {
    if chains == [] || chains[0].root.PrevHash == hash then 0 else 1 + FirstChild(chains[1..], hash)
  }

  /** The first chain that holds this header. */
  function FirstWith(chains: seq<OrphanChain>, hash: Digest): (i: nat)
    ensures i <= |chains| && forall j :: 0 <= j < i ==> hash !in chains[j].keys
    ensures i < |chains| ==> hash in chains[i].keys
  {
    if chains == [] || hash in chains[0].keys then 0 else 1 + FirstWith(chains[1..], hash)
  }

  /** Element `i` makes room for the last one. */
  function Without<T>(s: seq<T>, i: nat): seq<T>
    requires i < |s|
  {
    s[i := s[|s| - 1]][..|s| - 1]
  }

  /** Chain `i` with one more header. */
  function GrownAt(chains: seq<OrphanChain>, i: nat, root: Block, hash: Digest): seq<OrphanChain>
    requires i < |chains|
  {
    chains[i := OrphanChain(root, chains[i].keys + {hash})]
  }

  function Destination(t: HeaderTree, b: Block): Added {
    var hash := Hash(b);
    if !Comparable(b) then Panicked
    else if !Verify(b) then Rejected
    else if hash in t.keys then Known
    else if b.PrevHash in t.keys then if FirstChild(t.chains, hash) < |t.chains| then Joined else Inserted
    else if FirstWith(t.chains, b.PrevHash) < |t.chains| then ToOrphan
    else if FirstChild(t.chains, hash) < |t.chains| then NewOrphanRoot
    else NewOrphan
  }

  /** The bad headers: those whose hash cannot be compared, and those with a byte that is not zero where a zero is
      demanded. */
  lemma BadExactly(t: HeaderTree, b: Block)
    ensures Destination(t, b) == Panicked <==> b.Difficulty > 32
    ensures Destination(t, b) == Rejected <==>
            b.Difficulty <= 32 && exists i :: 0 <= i < b.Difficulty && Sum256(EncodeHeader(b))[i] != 0
  {
    hide Verify;
    WorkedExactly(b);
  }

  /** The orphan chains after a header whose parent is not in the main chain. */
  function Parked(chains: seq<OrphanChain>, b: Block): seq<OrphanChain> {
    var hash, i := Hash(b), FirstWith(chains, b.PrevHash);
    if i < |chains| then GrownAt(chains, i, chains[i].root, hash)
    else
      var j := FirstChild(chains, hash);
      if j < |chains| then GrownAt(chains, j, b, hash) else chains + [OrphanChain(b, {hash})]
  }

  /** The main chain after a header whose parent is in it: of the chains that wait for it the first joins. */
  function Grown(t: HeaderTree, b: Block): HeaderTree {
    var hash := Hash(b);
    var i := FirstChild(t.chains, hash);
    if i < |t.chains| then HeaderTree(t.keys + {hash} + t.chains[i].keys, Without(t.chains, i))
    else HeaderTree(t.keys + {hash}, t.chains)
  }

  /** What an arriving header does. */
  function Arrived(t: HeaderTree, b: Block): HeaderTree {
    if !Comparable(b) || !Verify(b) || Hash(b) in t.keys then t
    else if b.PrevHash in t.keys then Grown(t, b)
    else HeaderTree(t.keys, Parked(t.chains, b))
  }

  /** Where a good new header goes, in each of the five cases. */
  lemma ArrivedExactly(t: HeaderTree, b: Block, i: nat)
    requires Worked(b) && Hash(b) !in t.keys && i <= |t.chains|
    ensures b.PrevHash in t.keys && i == |t.chains|
            && (forall j :: 0 <= j < i ==> t.chains[j].root.PrevHash != Hash(b)) ==>
              Arrived(t, b) == HeaderTree(t.keys + {Hash(b)}, t.chains) && Destination(t, b) == Inserted
    ensures b.PrevHash in t.keys && i < |t.chains| && t.chains[i].root.PrevHash == Hash(b)
            && (forall j :: 0 <= j < i ==> t.chains[j].root.PrevHash != Hash(b)) ==>
              && Arrived(t, b).keys == t.keys + {Hash(b)} + t.chains[i].keys && Destination(t, b) == Joined
              && |Arrived(t, b).chains| == |t.chains| - 1
              && forall j :: 0 <= j < |t.chains| - 1 ==>
                   Arrived(t, b).chains[j] == t.chains[if j == i then |t.chains| - 1 else j]
    ensures b.PrevHash !in t.keys && i < |t.chains| && b.PrevHash in t.chains[i].keys
            && (forall j :: 0 <= j < i ==> b.PrevHash !in t.chains[j].keys) ==>
              && Destination(t, b) == ToOrphan
              && var longer := OrphanChain(t.chains[i].root, t.chains[i].keys + {Hash(b)});
              Arrived(t, b) == t.(chains := t.chains[i := longer])
    ensures b.PrevHash !in t.keys && i < |t.chains| && t.chains[i].root.PrevHash == Hash(b)
            && (forall j :: 0 <= j < i ==> t.chains[j].root.PrevHash != Hash(b))
            && (forall c :: c in t.chains ==> b.PrevHash !in c.keys) ==>
              && Destination(t, b) == NewOrphanRoot
              && Arrived(t, b) == t.(chains := t.chains[i := OrphanChain(b, t.chains[i].keys + {Hash(b)})])
    ensures b.PrevHash !in t.keys
            && (forall c :: c in t.chains ==> b.PrevHash !in c.keys && c.root.PrevHash != Hash(b)) ==>
              && Destination(t, b) == NewOrphan
              && Arrived(t, b) == t.(chains := t.chains + [OrphanChain(b, {Hash(b)})])
  {
    hide Verify;
    WorkedExactly(b);
  }

  /** A header that is bad, or that the main chain has, changes nothing. */
  lemma StaysExactly(t: HeaderTree, b: Block)
    ensures !Worked(b) || Hash(b) in t.keys ==> Arrived(t, b) == t
    ensures Worked(b) && Hash(b) in t.keys ==> Destination(t, b) == Known
  {
    hide Verify;
    WorkedExactly(b);
  }

  lemma GrownIs(t: HeaderTree, b: Block, i: nat, keys: set<Digest>, chains: seq<OrphanChain>)
    requires Comparable(b) && Verify(b) && Hash(b) !in t.keys && b.PrevHash in t.keys
    requires i == FirstChild(t.chains, Hash(b))
    requires keys == t.keys + {Hash(b)} + if i < |t.chains| then t.chains[i].keys else {}
    requires chains == if i < |t.chains| then Without(t.chains, i) else t.chains
    ensures HeaderTree(keys, chains) == Grown(t, b)
    ensures Destination(t, b) == if i < |t.chains| then Joined else Inserted
  {
  }

  function KeysIn(chains: seq<OrphanChain>): set<Digest> {
    set c, h | c in chains && h in c.keys :: h
  }

  /** All hashes that are held, in the main chain or in an orphan chain. */
  function HeldBy(t: HeaderTree): set<Digest> {
    t.keys + KeysIn(t.chains)
  }

  lemma KeysGrownAt(chains: seq<OrphanChain>, i: nat, root: Block, hash: Digest)
    requires i < |chains|
    ensures KeysIn(GrownAt(chains, i, root, hash)) == KeysIn(chains) + {hash}
  {
    var chains' := GrownAt(chains, i, root, hash);
    assert chains'[i] in chains' && chains[i] in chains;
    forall h | h in KeysIn(chains) ensures h in KeysIn(chains') {
      var c :| c in chains && h in c.keys;
      var k :| 0 <= k < |chains| && chains[k] == c;
      assert chains'[k] in chains' && h in chains'[k].keys;
    }
  }

  lemma WithoutOne<T>(s: seq<T>, i: nat, x: T)
    requires i < |s|
    ensures x in s <==> x in Without(s, i) || x == s[i]
  {
    var l := |s| - 1;
    if x in s {
      var j :| 0 <= j < |s| && s[j] == x;
      assert j < l && j != i ==> Without(s, i)[j] == x;
      assert j == l && i < l ==> Without(s, i)[i] == x;
    }
  }

  lemma NoNewElements<T>(s: seq<T>, i: nat)
    requires i < |s|
    ensures forall x :: x in Without(s, i) ==> x in s
  {
  }

  /** An arriving header is held afterwards, unless it is bad, and nothing else changes: only where headers are held. */
  lemma ArrivedIsHeld(t: HeaderTree, b: Block)
    ensures HeldBy(Arrived(t, b))
         == HeldBy(t) + if !Comparable(b) || !Verify(b) || Hash(b) in t.keys then {} else {Hash(b)}
  {
    hide Verify, Without;
    var hash := Hash(b);
    var i, j := FirstWith(t.chains, b.PrevHash), FirstChild(t.chains, hash);
    if j < |t.chains| {
      KeysGrownAt(t.chains, j, b, hash);
      forall c ensures c in t.chains <==> c in Without(t.chains, j) || c == t.chains[j] {
        WithoutOne(t.chains, j, c);
      }
    }
    if i < |t.chains| {
      KeysGrownAt(t.chains, i, t.chains[i].root, hash);
    }
    var one := OrphanChain(b, {hash});
    assert (t.chains + [one])[|t.chains|] == one;
  }
}
