/** Merkle proofs: what verifying one computes, soundness for arbitrary proofs, completeness for generated ones. */
module MerkleProof {
  import opened Bytes
  import opened MerkleShape

  datatype ProofStruct = ProofStruct(applicationOrder: byte, proofSize: byte, proofArray: Bytes, data: Bytes) {
    /** Verifying slices `proofSize` hashes out of the array, so it must hold that many. */
    predicate WellFormed() {
      32 * proofSize as nat <= |proofArray|
    }

    function Sibling(k: nat): Digest
      requires WellFormed() && k < proofSize as nat
    {
      proofArray[32 * k..32 * (k + 1)]
    }
  }

  /** `x >> k`; a Go shift of a `uint8` is zero from 8 on. */
  function Shr(x: nat, k: nat): nat {
    if k == 0 then x else Shr(x, k - 1) / 2
  }

  /** Bit `k` of the order byte. */
  function Bit(order: byte, k: nat): (b: nat)
    ensures b < 2
  {
    Shr(order as nat, k) % 2
  }

  function Join(bit: nat, sibling: Digest, own: Digest): Digest {
    if bit == 1 then HashPair(sibling, own) else HashPair(own, sibling)
  }

  /** The running hash after `k` steps of verification. */
  function Fold(ps: ProofStruct, k: nat): Digest
    requires ps.WellFormed() && k <= ps.proofSize as nat
  {
    if k == 0 then Sum256(ps.data)
    else Join(Bit(ps.applicationOrder, k - 1), ps.Sibling(k - 1), Fold(ps, k - 1))
  }

  function ProofRoot(ps: ProofStruct): Digest
    requires ps.WellFormed()
  {
    Fold(ps, ps.proofSize as nat)
  }

  method VerifyProofStruct(ps: ProofStruct, expected: Digest) returns (ok: bool)
    requires ps.WellFormed()
    ensures ok <==> ProofRoot(ps) == expected
  {
    var temp := Sum256(ps.data);
    for i := 0 to ps.proofSize as nat
      invariant temp == Fold(ps, i)
    {
      var sibling: Digest := ps.proofArray[i * 32..(i + 1) * 32];
      if Bit(ps.applicationOrder, i) == 1 {
        temp := HashPair(sibling, temp);
      } else {
        temp := HashPair(temp, sibling);
      }
    }
    ok := temp == expected;
  }

  // ---------------------------------------------------------------- soundness

  /** The subtree the order byte leads to from `t` in one step down from height `k`. */
  function Child(t: Tree, order: byte, k: nat): Tree
    requires t.Inner? && k > 0
  {
    if Bit(order, k - 1) == 1 then t.right else t.left
  }

  /** `d` is the leaf of `t` found by following bits `k-1 .. 0` of the order byte. */
  ghost predicate LeafAt(t: Tree, order: byte, k: nat, d: Bytes) {
    if k == 0 then t == Leaf(d) else t.Inner? && LeafAt(Child(t, order, k), order, k - 1, d)
  }

  /** The bytes that were hashed to obtain `Fold(ps, k)`. */
  function Preimage(ps: ProofStruct, k: nat): Bytes
    requires ps.WellFormed() && k <= ps.proofSize as nat
  {
    if k == 0 then ps.data
    else if Bit(ps.applicationOrder, k - 1) == 1 then ps.Sibling(k - 1) + Fold(ps, k - 1)
    else Fold(ps, k - 1) + ps.Sibling(k - 1)
  }

  function TreePreimage(t: Tree): Bytes {
    if t.Leaf? then t.data else Root(t.left) + Root(t.right)
  }

  /** Walks down tree and proof together to the first place where the hashed bytes differ. */
  ghost function ProofCollision(t: Tree, ps: ProofStruct, k: nat): (Bytes, Bytes)
    requires ps.WellFormed() && k <= ps.proofSize as nat
  {
    if k > 0 && t.Inner? && Preimage(ps, k) == TreePreimage(t)
    then ProofCollision(Child(t, ps.applicationOrder, k), ps, k - 1)
    else (Preimage(ps, k), TreePreimage(t))
  }

  /** What a proof proves about `t`, for any data: following the order byte down, its data are the bytes hashed for the
      node that is reached, be that a leaf or an inner node; or a leaf comes first whose 64 bytes can be read as two
      hashes. */
  ghost predicate Proves(t: Tree, ps: ProofStruct, k: nat)
    requires ps.WellFormed() && k <= ps.proofSize as nat
  {
    if k == 0 then TreePreimage(t) == ps.data
    else if t.Inner? then Proves(Child(t, ps.applicationOrder, k), ps, k - 1)
    else t.data == Preimage(ps, k)
  }

  /** Soundness without any condition on lengths. */
  lemma {:induction false} SoundForAnyData(t: Tree, ps: ProofStruct, k: nat)
    requires ps.WellFormed() && k <= ps.proofSize as nat && Fold(ps, k) == Root(t)
    ensures var c := ProofCollision(t, ps, k); Proves(t, ps, k) || Collision(c.0, c.1)
  {
    assert Fold(ps, k) == Sum256(Preimage(ps, k)) && Root(t) == Sum256(TreePreimage(t));
    if k > 0 && t.Inner? && Preimage(ps, k) == TreePreimage(t) {
      if Bit(ps.applicationOrder, k - 1) == 1 {
        SplitDigests(ps.Sibling(k - 1), Fold(ps, k - 1), Root(t.left), Root(t.right));
      } else {
        SplitDigests(Fold(ps, k - 1), ps.Sibling(k - 1), Root(t.left), Root(t.right));
      }
      SoundForAnyData(Child(t, ps.applicationOrder, k), ps, k - 1);
    }
  }

  /** If neither the data nor a leaf is 64 bytes long, it is a leaf that is proved. */
  lemma {:induction false} ProvesLeaf(t: Tree, ps: ProofStruct, k: nat)
    requires ps.WellFormed() && k <= ps.proofSize as nat && Proves(t, ps, k)
    requires NoLeafOf64(t) && |ps.data| != 64
    ensures LeafAt(t, ps.applicationOrder, k, ps.data)
  {
    if k > 0 && t.Inner? {
      ProvesLeaf(Child(t, ps.applicationOrder, k), ps, k - 1);
    }
  }

  /** The index, on level `size - k`, of the node that the bits `size-1 .. k` of the order byte lead to. */
  function PathIndex(order: byte, size: nat, k: nat): (j: nat)
    requires k <= size
    ensures j < Pow2(size - k)
    decreases size - k
  {
    if k == size then 0 else 2 * PathIndex(order, size, k + 1) + Bit(order, k)
  }

  /** The position, among `n` leaves, that a proof of this size and order byte speaks about. */
  function ProvenIndex(n: nat, order: byte, size: nat): nat
    requires n > 0
  {
    PathIndex(order, size, 0) + if size == Lower(n) then Extra(n) else 0
  }

  lemma {:induction false} LeafAtIsProvenIndex(data: seq<Bytes>, order: byte, size: nat, k: nat, d: Bytes)
    requires 0 < |data| && k <= size && size - k <= Lower(|data|)
    requires LeafAt(Node(data, size - k, PathIndex(order, size, k)), order, k, d)
    ensures Lower(|data|) <= size <= Lower(|data|) + 1
    ensures ProvenIndex(|data|, order, size) < |data| && data[ProvenIndex(|data|, order, size)] == d
    decreases k
  {
    if size - k < Lower(|data|) {
      LeafAtIsProvenIndex(data, order, size, k - 1, d);
    } else if k > 0 {
      assert k == 1;
      assert PathIndex(order, size, 0) == 2 * PathIndex(order, size, 1) + Bit(order, 0);
    }
  }

  /** Soundness, for a proof of any size with any order byte: what it proves is the leaf at the position it
      names, or hashing it and the tree exhibits a collision. */
  lemma Soundness(data: seq<Bytes>, ps: ProofStruct)
    requires |data| > 0 && ps.WellFormed()
    requires forall d :: d in data ==> |d| != 64
    requires |ps.data| != 64
    requires ProofRoot(ps) == Root(Compact(data))
    ensures var size := ps.proofSize as nat;
            var i := ProvenIndex(|data|, ps.applicationOrder, size);
            var c := ProofCollision(Compact(data), ps, size);
            || (Lower(|data|) <= size <= Lower(|data|) + 1 && i < |data| && data[i] == ps.data)
            || Collision(c.0, c.1)
  {
    var size := ps.proofSize as nat;
    LeavesOfCompact(data);
    NoLeafOf64OfLeaves(Compact(data));
    SoundForAnyData(Compact(data), ps, size);
    if Proves(Compact(data), ps, size) {
      ProvesLeaf(Compact(data), ps, size);
      LeafAtIsProvenIndex(data, ps.applicationOrder, size, size, ps.data);
    }
  }

  /** Leaves and inner nodes are hashed alike, so the length conditions cannot be dropped: the two hashes
      below the root always verify, as data, with an empty proof. */
  lemma LengthConditionIsNeeded(data: seq<Bytes>)
    requires |data| >= 2
    ensures var t := Compact(data);
            t.Inner? &&
            var ps := ProofStruct(0, 0, [], Root(t.left) + Root(t.right));
            |ps.data| == 64 && ps.WellFormed() && ProofRoot(ps) == Root(t)
  {
    assert Extra(|data|) > 0 || Lower(|data|) > 0;
  }

  /** Nor can the condition on the leaves: a tree of one element of 64 bytes, which is a hash and the hash of some `x`,
      accepts a proof of `x`. */
  lemma LeafConditionIsNeeded(h: Digest, x: Bytes)
    requires |x| != 64
    ensures var data := [h + Sum256(x)];
            var ps := ProofStruct(1, 1, h, x);
            && |data[0]| == 64 && x !in data && ps.WellFormed() && ProofRoot(ps) == Root(Compact(data))
  {
    var data, ps := [h + Sum256(x)], ProofStruct(1, 1, h, x);
    assert Len8(1) == 1 by {
      assert Len8(0) == 0;
    }
    assert Compact(data) == Leaf(data[0]);
    assert Shr(1, 0) == 1;
    assert ps.Sibling(0) == h && Fold(ps, 0) == Sum256(x);
    assert Fold(ps, 1) == Join(1, h, Sum256(x));
  }

  // ---------------------------------------------------------------- completeness

  /** Flipping the lowest bit: `k ^ 1`. */
  function XorOne(k: nat): nat {
    if k % 2 == 0 then k + 1 else k - 1
  }

  /** Hash `j` of level `l` of `levelHash`, where level `Lower + 1` holds only the split leaves. */
  function LevelHash(data: seq<Bytes>, l: nat, j: nat): Digest
    requires |data| > 0
    requires (l <= Lower(|data|) && j < Pow2(l)) || (l == Lower(|data|) + 1 && j < 2 * Extra(|data|))
  {
    if l <= Lower(|data|) then Root(Node(data, l, j)) else Sum256(data[j])
  }

  /** The number of hashes of level `l`. */
  function Width(n: nat, l: nat): nat
    requires n > 0 && l <= Lower(n) + 1
  {
    if l <= Lower(n) then Pow2(l) else 2 * Extra(n)
  }

  function SizeFor(n: nat, i: nat): nat
    requires i < n
  {
    if i < 2 * Extra(n) then Lower(n) + 1 else Lower(n)
  }

  function OrderFor(n: nat, i: nat): (o: nat)
    requires i < n
    ensures o < Width(n, SizeFor(n, i)) <= Pow2(SizeFor(n, i))
  {
    if i < 2 * Extra(n) then i else i - Extra(n)
  }

  /** `ps` is made of element `i` and of the sibling hashes on the way up from it. */
  ghost predicate IsProofOf(data: seq<Bytes>, i: nat, ps: ProofStruct)
    requires i < |data|
  {
    && ps.WellFormed()
    && ps.data == data[i]
    && ps.proofSize as nat == SizeFor(|data|, i)
    && ps.applicationOrder as nat == OrderFor(|data|, i)
    && forall k :: 0 <= k < SizeFor(|data|, i) ==> HasSibling(data, i, ps, k)
  }

  ghost predicate HasSibling(data: seq<Bytes>, i: nat, ps: ProofStruct, k: nat)
    requires i < |data| && ps.WellFormed() && k < SizeFor(|data|, i) == ps.proofSize as nat
  {
    && SiblingInRange(|data|, i, k)
    && ps.Sibling(k) == LevelHash(data, SizeFor(|data|, i) - k, XorOne(Shr(OrderFor(|data|, i), k)))
  }

  ghost predicate SiblingInRange(n: nat, i: nat, k: nat)
    requires i < n && k < SizeFor(n, i)
  {
    XorOne(Shr(OrderFor(n, i), k)) < Width(n, SizeFor(n, i) - k)
  }

  lemma HalfInRange(n: nat, l: nat, j: nat)
    requires n > 0 && 1 < l <= Lower(n) + 1 && j < Width(n, l)
    ensures j / 2 < Width(n, l - 1) && XorOne(j / 2) < Width(n, l - 1)
  {
    assert Pow2(l - 1) == 2 * Pow2(l - 2);
  }

  /** No index taken by proof generation leaves its level. */
  lemma {:induction false} SiblingsInRange(n: nat, i: nat, k: nat)
    requires i < n && k < SizeFor(n, i)
    ensures Shr(OrderFor(n, i), k) < Width(n, SizeFor(n, i) - k)
    ensures SiblingInRange(n, i, k)
  {
    if k > 0 {
      SiblingsInRange(n, i, k - 1);
      HalfInRange(n, SizeFor(n, i) - (k - 1), Shr(OrderFor(n, i), k - 1));
    }
  }

  /** Joining a hash with its neighbour gives the hash above both. */
  lemma OneLevelUp(data: seq<Bytes>, l: nat, j: nat)
    requires |data| > 0 && 0 < l <= Lower(|data|) + 1
    requires j < Width(|data|, l) && XorOne(j) < Width(|data|, l)
    ensures j / 2 < Width(|data|, l - 1)
    ensures LevelHash(data, l - 1, j / 2) == Join(j % 2, LevelHash(data, l, XorOne(j)), LevelHash(data, l, j))
  {
    var h := j / 2;
    assert j == 2 * h + j % 2 && XorOne(j) == 2 * h + (1 - j % 2);
    if l <= Lower(|data|) {
      assert Node(data, l - 1, h) == Inner(Node(data, l, 2 * h), Node(data, l, 2 * h + 1));
    } else {
      assert Node(data, l - 1, h) == Inner(Leaf(data[2 * h]), Leaf(data[2 * h + 1]));
      assert Root(Leaf(data[2 * h])) == Sum256(data[2 * h]) && Root(Leaf(data[2 * h + 1])) == Sum256(data[2 * h + 1]);
    }
  }

  lemma {:induction false} ProofClimbs(data: seq<Bytes>, i: nat, ps: ProofStruct, k: nat)
    requires i < |data| && IsProofOf(data, i, ps) && k <= SizeFor(|data|, i)
    ensures Shr(OrderFor(|data|, i), k) < Width(|data|, SizeFor(|data|, i) - k)
    ensures Fold(ps, k) == LevelHash(data, SizeFor(|data|, i) - k, Shr(OrderFor(|data|, i), k))
  {
    if k > 0 {
      ProofClimbs(data, i, ps, k - 1);
      assert HasSibling(data, i, ps, k - 1);
      ProofClimbsOnce(data, i, ps, k - 1, SizeFor(|data|, i), Shr(OrderFor(|data|, i), k - 1));
    }
  }

  lemma ProofClimbsOnce(data: seq<Bytes>, i: nat, ps: ProofStruct, k: nat, size: nat, j: nat)
    requires |data| > 0 && ps.WellFormed() && k < size <= Lower(|data|) + 1 && size == ps.proofSize as nat
    requires j == Shr(ps.applicationOrder as nat, k)
    requires j < Width(|data|, size - k) && XorOne(j) < Width(|data|, size - k)
    requires Fold(ps, k) == LevelHash(data, size - k, j)
    requires ps.Sibling(k) == LevelHash(data, size - k, XorOne(j))
    ensures j / 2 < Width(|data|, size - (k + 1))
    ensures Fold(ps, k + 1) == LevelHash(data, size - (k + 1), j / 2)
  {
    OneLevelUp(data, size - k, j);
  }

  /** Completeness: a proof made of the sibling hashes verifies, whichever element it is for. */
  lemma Completeness(data: seq<Bytes>, i: nat, ps: ProofStruct)
    requires i < |data| && IsProofOf(data, i, ps)
    ensures ProofRoot(ps) == Root(Compact(data))
  {
    ProofClimbs(data, i, ps, SizeFor(|data|, i));
  }

  lemma {:induction false} ShrIsPathIndex(order: byte, size: nat, k: nat)
    requires k <= size && Shr(order as nat, size) == 0
    ensures PathIndex(order, size, k) == Shr(order as nat, k)
    decreases size - k
  {
    if k < size {
      ShrIsPathIndex(order, size, k + 1);
      assert Shr(order as nat, k + 1) == Shr(order as nat, k) / 2;
    }
  }

  lemma {:induction false} ShrOfSmall(x: nat, size: nat, k: nat)
    requires x < Pow2(size) && k <= size
    ensures Shr(x, k) < Pow2(size - k)
  {
    if k > 0 {
      ShrOfSmall(x, size, k - 1);
      assert Pow2(size - (k - 1)) == 2 * Pow2(size - k);
    }
  }

  /** A generated proof names the position it was generated for. */
  lemma GeneratedProofNamesItsIndex(data: seq<Bytes>, i: nat, ps: ProofStruct)
    requires i < |data| && IsProofOf(data, i, ps)
    ensures ProvenIndex(|data|, ps.applicationOrder, ps.proofSize as nat) == i
  {
    ShrOfSmall(OrderFor(|data|, i), SizeFor(|data|, i), SizeFor(|data|, i));
    ShrIsPathIndex(ps.applicationOrder, ps.proofSize as nat, 0);
  }
}
