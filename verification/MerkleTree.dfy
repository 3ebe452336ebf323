/** The Merkle tree object: adding elements, hashing the levels, generating and transporting proofs. */
module MerkleTrees {
  import opened Bytes
  import opened MerkleShape
  import opened MerkleProof

  /** Level `l` of `levelHash` as the recurrence defines it. */
  function Level(data: seq<Bytes>, l: nat): (level: seq<Digest>)
    requires |data| > 0 && l <= Lower(|data|) + 1
    ensures |level| == Width(|data|, l)
  {
    seq(Width(|data|, l), j requires 0 <= j < Width(|data|, l) => LevelHash(data, l, j))
  }

  /** All of `levelHash`: the partial level is there only when it is not empty. */
  function Levels(data: seq<Bytes>): (levels: seq<seq<Digest>>)
    requires |data| > 0
    ensures |levels| == Lower(|data|) + if Extra(|data|) > 0 then 2 else 1
    ensures forall l :: 0 <= l < |levels| ==> levels[l] == Level(data, l)
  {
    seq(Lower(|data|) + if Extra(|data|) > 0 then 2 else 1, l requires 0 <= l <= Lower(|data|) + 1 => Level(data, l))
  }

  /** For any number of elements that fits a `uint8`, none of the sizes computed from it wraps around. */
  lemma NoWrap(n: nat)
    requires 0 < n < 256
    ensures U8(Len8(n) - 1) == Lower(n) <= 7 && Pow2(Lower(n)) <= 128
    ensures U8(2 * U8(n - Pow2(Lower(n)))) == 2 * Extra(n) <= 254
  {
    Len8Bound(n);
    DoubleInByte(n, Pow2(Lower(n)), Extra(n));
  }

  lemma Len8Bound(n: nat)
    requires 0 < n < 256
    ensures Lower(n) <= 7 && Pow2(Lower(n)) <= 128
  {
    Pow2Monotone(Lower(n), 7);
    assert Pow2(7) == 128 by { assert Pow2(4) == 16; }
  }

  lemma DoubleInByte(n: int, p: int, e: int)
    requires n == p + e && 0 <= e < p <= 128
    ensures U8(2 * U8(n - p)) == 2 * e
  {
  }

  class MerkleTree {
    var elements: nat
    var data: seq<Bytes>
    var levelHash: array<array<Digest>>
    var finalized: bool
    var lowerLevel: nat
    var bitsOnHighLevel: nat
    ghost var Repr: set<object>

    ghost predicate Valid()
      reads this, Repr
    {
      && this in Repr
      && elements == |data| < 256
      && (finalized ==>
        && elements > 0
        && lowerLevel == Lower(elements)
        && bitsOnHighLevel == 2 * Extra(elements)
        && levelHash in Repr
        && levelHash.Length == |Levels(data)|
        && forall l :: 0 <= l < levelHash.Length ==> levelHash[l] in Repr && levelHash[l][..] == Levels(data)[l])
    }

    constructor InitializeMerkleTree()
      ensures Valid() && fresh(Repr)
      ensures data == [] && !finalized
    {
      elements, data, finalized := 0, [], false;
      lowerLevel, bitsOnHighLevel := 0, 0;
      Repr := {this};
      new;
      var nil := new Digest[0];
      levelHash := new array<Digest>[0](_ => nil);
    }

    method Add(a: Bytes)
      requires Valid()
      modifies this
      ensures Valid() && Repr == old(Repr) && finalized == old(finalized)
      ensures data == if !old(finalized) && old(elements) <= 254 then old(data) + [a] else old(data)
    {
      if !finalized {
        if elements <= 254 {
          elements := U8(elements + 1);
          data := data + [a];
        }
      }
    }

    method GetMerkleRoot() returns (root: Digest)
      requires Valid()
      ensures root == if finalized then Root(Compact(data)) else Zeros(32)
    {
      if !finalized {
        return Zeros(32);
      }
      RootIsLevelZero(data);
      assert levelHash[0][0] == levelHash[0][..][0];
      root := levelHash[0][0];
    }

    /** With a single element the number asked for is ignored. */
    method GenerareteMerkleProof(elementNum: byte) returns (proof: Option<ProofStruct>)
      requires Valid()
      ensures proof.Some? <==> finalized && (elements == 1 || elementNum as nat < elements)
      ensures proof.Some? ==> IsProofOf(data, if elements == 1 then 0 else elementNum as nat, proof.value)
      ensures proof.Some? ==> ProofRoot(proof.value) == Root(Compact(data))
    {
      if !finalized {
        return None;
      }
      NoWrap(|data|);
      if elements == 1 {
        var ps := ProofStruct(0, 0, [], data[0]);
        AssembledProof(data, 0, ps);
        return Some(ps);
      }
      if elementNum as nat >= elements {
        return None;
      }
      var i := elementNum as nat;
      var order: nat, size: nat;
      if i < bitsOnHighLevel {
        order, size := i, U8(lowerLevel + 1);
      } else {
        order, size := U8(i - bitsOnHighLevel / 2), lowerLevel;
      }
      var proofArray := CollectSiblings(levelHash, data, i, order, size);
      var ps := ProofStruct(order as byte, size as byte, proofArray, data[i]);
      AssembledProof(data, i, ps);
      proof := Some(ps);
    }

    /** `FinalizeTree` indexes out of range on an empty tree, so its callers must have added something. */
    method FinalizeTree()
      requires Valid() && elements > 0
      modifies this
      ensures Valid() && fresh(Repr - old(Repr))
      ensures finalized && data == old(data)
    {
      var n := elements;
      NoWrap(n);
      var lower := U8(Len8(n) - 1);
      var bits := U8(2 * U8(n - Pow2(lower)));
      lowerLevel, bitsOnHighLevel := lower, bits;
      levelHash := HashTree(data, lower, bits);
      finalized := true;
      Repr := {this, levelHash} + set l | 0 <= l < levelHash.Length :: levelHash[l];
    }
  }

  // ---------------------------------------------------------------- the two stages of FinalizeTree

  /** What the recurrence says of the levels above `lower`, and how wide they are. */
  ghost predicate Climbs(levels: seq<seq<Digest>>, lower: nat) {
    && lower < |levels|
    && (forall l :: 0 <= l < lower ==> LevelClimbs(levels, l))
  }

  ghost predicate LevelClimbs(levels: seq<seq<Digest>>, l: nat)
    requires l + 1 < |levels|
  {
    |levels[l]| == Pow2(l) <= 64 && IsAbove(levels[l], levels[l + 1])
  }

  ghost predicate IsHashed(level: seq<Digest>, data: seq<Bytes>) {
    && |level| <= |data|
    && forall j :: 0 <= j < |level| ==> level[j] == Sum256(data[j])
  }

  /** `extra` pairs of leaf hashes, joined, and then the hashes of the remaining leaves. */
  ghost predicate IsMixed(level: seq<Digest>, data: seq<Bytes>, extra: nat) {
    && extra <= |level|
    && |level| + extra == |data|
    && (forall j :: 0 <= j < extra ==> level[j] == HashPair(Sum256(data[2 * j]), Sum256(data[2 * j + 1])))
    && (forall j :: extra <= j < |level| ==> level[j] == Sum256(data[j + extra]))
  }

  ghost predicate IsAbove(level: seq<Digest>, below: seq<Digest>) {
    && |below| == 2 * |level|
    && forall j :: 0 <= j < |level| ==> level[j] == HashPair(below[2 * j], below[2 * j + 1])
  }

  /** What the loops need to know of the levels they are to compute. */
  ghost predicate LoopsCompute(data: seq<Bytes>, lower: nat, bits: nat, count: nat, levels: seq<seq<Digest>>) {
    && lower <= 7 && |data| < 256 && bits % 2 == 0
    && Climbs(levels, lower)
    && |levels[lower]| == count
    && (bits == 0 ==> |levels| == lower + 1 && count == |data| && IsHashed(levels[lower], data))
    && (bits != 0 ==> && |levels| == lower + 2 && |levels[lower + 1]| == bits
                      && IsHashed(levels[lower + 1], data) && IsMixed(levels[lower], data, bits / 2))
  }

  method HashTree(data: seq<Bytes>, lower: nat, bits: nat) returns (rows: array<array<Digest>>)
    requires 0 < |data| < 256 && lower == Lower(|data|) && bits == 2 * Extra(|data|)
    ensures fresh(rows) && rows.Length == |Levels(data)|
    ensures forall l :: 0 <= l < rows.Length ==> fresh(rows[l])
    ensures forall l :: 0 <= l < rows.Length ==> rows[l][..] == Levels(data)[l]
  {
    LevelsAsLoops(data, lower, bits, Levels(data));
    rows := HashLevels(data, lower, bits, Pow2(lower), Levels(data));
  }

  method HashLevels(data: seq<Bytes>, lower: nat, bits: nat, count: nat, ghost levels: seq<seq<Digest>>)
    returns (rows: array<array<Digest>>)
    requires LoopsCompute(data, lower, bits, count, levels)
    ensures fresh(rows) && rows.Length == |levels|
    ensures forall l :: 0 <= l < rows.Length ==> fresh(rows[l])
    ensures forall l :: 0 <= l < rows.Length ==> rows[l][..] == levels[l]
  {
    if bits != 0 {
      rows := HashPartialLevels(data, lower, bits, count, levels[lower], levels[lower + 1]);
    } else {
      rows := HashCompleteLevel(data, lower, count, levels[lower]);
    }
    HashUpperLevels(rows, lower, levels);
  }

  /** The partial level, and the lowest complete level above it. */
  method HashPartialLevels(data: seq<Bytes>, lower: nat, bits: nat, count: nat,
                           ghost low: seq<Digest>, ghost high: seq<Digest>)
    returns (rows: array<array<Digest>>)
    requires lower <= 7 && |data| < 256 && |low| == count && |high| == bits && bits % 2 == 0
    requires IsHashed(high, data) && IsMixed(low, data, bits / 2)
    ensures fresh(rows) && rows.Length == lower + 2
    ensures forall l :: 0 <= l < rows.Length ==> fresh(rows[l])
    ensures rows[lower][..] == low && rows[lower + 1][..] == high
  {
    var nil := new Digest[0];
    var highRow := HashLeaves(data, bits, high);
    var lowRow := HashMixedLevel(data, highRow, count, low);
    rows := new array<Digest>[U8(lower + 2)](_ => nil);
    rows[lower + 1] := highRow;
    rows[lower] := lowRow;
  }

  /** The lowest level when it is complete. */
  method HashCompleteLevel(data: seq<Bytes>, lower: nat, count: nat, ghost low: seq<Digest>)
    returns (rows: array<array<Digest>>)
    requires lower <= 7 && |data| == |low| == count && IsHashed(low, data)
    ensures fresh(rows) && rows.Length == lower + 1
    ensures forall l :: 0 <= l < rows.Length ==> fresh(rows[l])
    ensures rows[lower][..] == low
  {
    var nil := new Digest[0];
    var lowRow := HashLeaves(data, count, low);
    rows := new array<Digest>[U8(lower + 1)](_ => nil);
    rows[lower] := lowRow;
  }

  /** The levels above the lowest complete one, from the bottom up; the `uint8` index stops at 255. */
  method HashUpperLevels(rows: array<array<Digest>>, lower: nat, ghost levels: seq<seq<Digest>>)
    requires lower <= 7 && rows.Length == |levels| && Climbs(levels, lower)
    requires forall l :: lower <= l < rows.Length ==> rows[l][..] == levels[l]
    modifies rows
    ensures forall l :: 0 <= l < rows.Length ==> rows[l][..] == levels[l]
    ensures forall l :: 0 <= l < rows.Length ==> rows[l] == old(rows[l]) || fresh(rows[l])
  {
    var i: int := U8(lower - 1);
    ghost var next: int := lower;
    while i != 255
      invariant 0 <= next <= lower && i == U8(next - 1)
      invariant forall l :: 0 <= l < rows.Length ==> rows[l] == old(rows[l]) || fresh(rows[l])
      invariant forall l :: next <= l < rows.Length ==> rows[l][..] == levels[l]
      decreases next
    {
      assert next > 0 && i == next - 1 && LevelClimbs(levels, i);
      var below := rows[U8(i + 1)];
      assert below[..] == levels[i + 1];
      var row := HashPairs(below, Pow2(i), levels[i]);
      rows[i] := row;
      next := next - 1;
      i := U8(i - 1);
    }
  }

  // ---------------------------------------------------------------- proof generation

  lemma RootIsLevelZero(data: seq<Bytes>)
    requires 0 < |data|
    ensures |Levels(data)[0]| == 1 && Levels(data)[0][0] == Root(Compact(data))
  {
    assert Levels(data)[0] == Level(data, 0);
  }

  /** The hash beside the node `k` steps above element `i`. */
  ghost function SiblingHash(data: seq<Bytes>, i: nat, k: nat): Digest
    requires i < |data| && k < SizeFor(|data|, i)
  {
    SiblingsInRange(|data|, i, k);
    LevelHash(data, SizeFor(|data|, i) - k, XorOne(Shr(OrderFor(|data|, i), k)))
  }

  lemma SiblingInLevels(data: seq<Bytes>, i: nat, k: nat)
    requires 0 < |data| < 256 && i < |data| && k < SizeFor(|data|, i)
    ensures var l, j := SizeFor(|data|, i) - k, XorOne(Shr(OrderFor(|data|, i), k));
            l < |Levels(data)| && j < |Levels(data)[l]| && Levels(data)[l][j] == SiblingHash(data, i, k)
  {
    SiblingsInRange(|data|, i, k);
    var l := SizeFor(|data|, i) - k;
    assert Levels(data)[l] == Level(data, l);
  }

  lemma AssembledProof(data: seq<Bytes>, i: nat, ps: ProofStruct)
    requires 0 < |data| < 256 && i < |data| && ps.data == data[i]
    requires ps.applicationOrder as nat == OrderFor(|data|, i) && ps.proofSize as nat == SizeFor(|data|, i)
    requires |ps.proofArray| == 32 * SizeFor(|data|, i)
    requires forall m :: 0 <= m < SizeFor(|data|, i) ==> ps.proofArray[32 * m..32 * m + 32] == SiblingHash(data, i, m)
    ensures IsProofOf(data, i, ps) && ProofRoot(ps) == Root(Compact(data))
  {
    forall k | 0 <= k < SizeFor(|data|, i) ensures HasSibling(data, i, ps, k) {
      SiblingsInRange(|data|, i, k);
      assert ps.Sibling(k) == SiblingHash(data, i, k);
    }
    Completeness(data, i, ps);
  }

  method CollectSiblings(rows: array<array<Digest>>, ghost data: seq<Bytes>, ghost i: nat, order: nat, size: nat)
    returns (proofArray: Bytes)
    requires 0 < |data| < 256 && i < |data| && order == OrderFor(|data|, i) && size == SizeFor(|data|, i)
    requires rows.Length == |Levels(data)|
    requires forall l :: 0 <= l < rows.Length ==> rows[l][..] == Levels(data)[l]
    ensures |proofArray| == 32 * size
    ensures forall m :: 0 <= m < size ==> proofArray[32 * m..32 * m + 32] == SiblingHash(data, i, m)
  {
    var buf := new byte[32 * size];
    var k := order;
    for m := 0 to size
      invariant k == Shr(order, m)
      invariant forall m' :: 0 <= m' < m ==> buf[..][32 * m'..32 * m' + 32] == SiblingHash(data, i, m')
    {
      SiblingInLevels(data, i, m);
      var layerIndex := size - m;
      var row := rows[layerIndex];
      assert row[..][XorOne(k)] == row[XorOne(k)];
      ghost var before := buf[..];
      CopyInto(buf, m * 32, row[XorOne(k)]);
      SlicesBefore(before, buf[..], m, row[XorOne(k)]);
      k := k / 2;
    }
    proofArray := buf[..];
  }

  lemma SlicesBefore(before: Bytes, after: Bytes, m: nat, d: Digest)
    requires 32 * m + 32 <= |before| && after == before[..32 * m] + d + before[32 * m + 32..]
    ensures after[32 * m..32 * m + 32] == d
    ensures forall m' :: 0 <= m' < m ==> after[32 * m'..32 * m' + 32] == before[32 * m'..32 * m' + 32]
  {
  }

  // ---------------------------------------------------------------- the loops over one level

  /** Hashes the first `count` leaves. */
  method HashLeaves(data: seq<Bytes>, count: nat, ghost level: seq<Digest>) returns (row: array<Digest>)
    requires count == |level| && IsHashed(level, data)
    ensures fresh(row) && row[..] == level
  {
    row := new Digest[count];
    var i := 0;
    while i < count
      invariant 0 <= i <= count
      invariant row[..i] == level[..i]
    {
      row[i] := Sum256(data[i]);
      i := i + 1;
    }
  }

  /** The lowest complete level above a partial one: pairs of the partial level, then the remaining leaves. */
  method HashMixedLevel(data: seq<Bytes>, high: array<Digest>, count: nat, ghost level: seq<Digest>)
    returns (row: array<Digest>)
    requires count == |level| && high.Length % 2 == 0 && |data| < 256
    requires IsMixed(level, data, high.Length / 2) && IsHashed(high[..], data)
    ensures fresh(row) && row[..] == level
  {
    row := new Digest[count];
    var i := 0;
    while i < count
      invariant 0 <= i <= count
      invariant row[..i] == level[..i]
    {
      if i < high.Length / 2 {
        assert high[..][2 * i] == high[2 * i] && high[..][2 * i + 1] == high[2 * i + 1];
        row[i] := HashPair(high[U8(i * 2)], high[U8(U8(i * 2) + 1)]);
      } else {
        row[i] := Sum256(data[U8(i + high.Length / 2)]);
      }
      i := i + 1;
    }
  }

  /** A level from the one below it. */
  method HashPairs(below: array<Digest>, count: nat, ghost level: seq<Digest>) returns (row: array<Digest>)
    requires count == |level| && below.Length == 2 * count < 256
    requires IsAbove(level, below[..])
    ensures fresh(row) && row[..] == level
  {
    row := new Digest[count];
    var j := 0;
    while j < count
      invariant 0 <= j <= count
      invariant row[..j] == level[..j]
    {
      row[j] := HashPair(below[U8(j * 2)], below[U8(U8(j * 2) + 1)]);
      j := j + 1;
    }
  }

  // ---------------------------------------------------------------- the recurrence, level by level

  lemma PartialLevel(data: seq<Bytes>, high: seq<Digest>)
    requires 0 < |data| && high == Level(data, Lower(|data|) + 1)
    ensures |high| == 2 * Extra(|data|) && IsHashed(high, data)
  {
  }

  lemma LowestCompleteLevel(data: seq<Bytes>, low: seq<Digest>)
    requires 0 < |data| && low == Level(data, Lower(|data|))
    ensures |low| == Pow2(Lower(|data|)) && IsMixed(low, data, Extra(|data|))
  {
    forall j | 0 <= j < |low|
      ensures j < Extra(|data|) ==> low[j] == HashPair(Sum256(data[2 * j]), Sum256(data[2 * j + 1]))
      ensures j >= Extra(|data|) ==> low[j] == Sum256(data[j + Extra(|data|)])
    {
      if j < Extra(|data|) {
        OneLevelUp(data, Lower(|data|) + 1, 2 * j);
      } else {
        assert Node(data, Lower(|data|), j) == Leaf(data[j + Extra(|data|)]);
      }
    }
  }

  lemma UpperLevel(data: seq<Bytes>, l: nat, level: seq<Digest>)
    requires 0 < |data| && l < Lower(|data|) && level == Level(data, l)
    ensures IsAbove(level, Level(data, l + 1))
  {
    var below := Level(data, l + 1);
    forall j | 0 <= j < |level| ensures level[j] == HashPair(below[2 * j], below[2 * j + 1]) {
      OneLevelUp(data, l + 1, 2 * j);
    }
  }

  lemma LevelsClimb(data: seq<Bytes>, levels: seq<seq<Digest>>)
    requires 0 < |data| < 256 && levels == Levels(data)
    ensures Climbs(levels, Lower(|data|))
  {
    var lower := Lower(|data|);
    NoWrap(|data|);
    forall l | 0 <= l < lower ensures LevelClimbs(levels, l) {
      Pow2Monotone(l + 1, lower);
      assert 2 * Pow2(l) <= 128;
      UpperLevel(data, l, levels[l]);
    }
  }

  /** The recurrence, as the loops of `FinalizeTree` see it. */
  lemma LevelsAsLoops(data: seq<Bytes>, lower: nat, bits: nat, levels: seq<seq<Digest>>)
    requires 0 < |data| < 256 && lower == Lower(|data|) && bits == 2 * Extra(|data|) && levels == Levels(data)
    ensures LoopsCompute(data, lower, bits, Pow2(lower), levels)
  {
    NoWrap(|data|);
    LevelsClimb(data, levels);
    LowestCompleteLevel(data, levels[lower]);
    if bits != 0 {
      PartialLevel(data, levels[lower + 1]);
    }
  }
}
