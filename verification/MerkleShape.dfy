/** The shape of the compact Merkle tree as a recurrence on (level, index), and what that shape means. */
module MerkleShape {
  import opened Bytes

  /** `bits.Len8`: the number of bits needed to write `n`. */
  function Len8(n: nat): (b: nat)
    ensures n > 0 ==> b > 0 && Pow2(b - 1) <= n < Pow2(b)
    ensures n < 256 ==> b <= 8
  {
    if n == 0 then 0 else
      assert n < 256 ==> n / 2 < 128;
      Len8(n / 2) + 1
  }

  /** The lowest complete level. */
  function Lower(n: nat): nat
    requires n > 0
  {
    Len8(n) - 1
  }

  /** How many nodes of the lowest complete level are split into two leaves. */
  function Extra(n: nat): (e: nat)
    requires n > 0
    ensures e < Pow2(Lower(n))
    ensures n == Pow2(Lower(n)) + e
  {
    n - Pow2(Lower(n))
  }

  datatype Tree = Leaf(data: Bytes) | Inner(left: Tree, right: Tree)

  function HashPair(left: Digest, right: Digest): Digest {
    var buf: Bytes := left + right;
    Sum256(buf)
  }

  function Root(t: Tree): Digest {
    match t
    case Leaf(data) => Sum256(data)
    case Inner(left, right) => HashPair(Root(left), Root(right))
  }

  function Leaves(t: Tree): seq<Bytes> {
    match t
    case Leaf(data) => [data]
    case Inner(left, right) => Leaves(left) + Leaves(right)
  }

  ghost predicate NoLeafOf64(t: Tree) {
    match t
    case Leaf(data) => |data| != 64
    case Inner(left, right) => NoLeafOf64(left) && NoLeafOf64(right)
  }

  /** The node with index `j` of level `l`; level 0 is the root. */
  function Node(data: seq<Bytes>, l: nat, j: nat): Tree
    requires |data| > 0 && l <= Lower(|data|) && j < Pow2(l)
    decreases Lower(|data|) - l
  {
    var extra := Extra(|data|);
    if l < Lower(|data|) then Inner(Node(data, l + 1, 2 * j), Node(data, l + 1, 2 * j + 1))
    else if j < extra then Inner(Leaf(data[2 * j]), Leaf(data[2 * j + 1]))
    else Leaf(data[j + extra])
  }

  function Compact(data: seq<Bytes>): Tree
    requires |data| > 0
  {
    Node(data, 0, 0)
  }

  /** Index of the first leaf below node `i` of the lowest complete level. */
  function FirstLeaf(n: nat, i: nat): nat
    requires n > 0
  {
    if i <= Extra(n) then 2 * i else i + Extra(n)
  }

  /** Index of the first leaf below node `j` of level `l`. */
  function FirstLeafBelow(n: nat, l: nat, j: nat): nat
    requires n > 0 && l <= Lower(n)
    decreases Lower(n) - l
  {
    if l == Lower(n) then FirstLeaf(n, j) else FirstLeafBelow(n, l + 1, 2 * j)
  }

  lemma {:induction false} LevelEnds(n: nat, l: nat)
    requires n > 0 && l <= Lower(n)
    ensures FirstLeafBelow(n, l, 0) == 0 && FirstLeafBelow(n, l, Pow2(l)) == n
    decreases Lower(n) - l
  {
    if l < Lower(n) {
      LevelEnds(n, l + 1);
    }
  }

  lemma LeavesOfLowNode(data: seq<Bytes>, j: nat)
    requires |data| > 0 && j < Pow2(Lower(|data|))
    ensures FirstLeaf(|data|, j) <= FirstLeaf(|data|, j + 1) <= |data|
    ensures Leaves(Node(data, Lower(|data|), j)) == data[FirstLeaf(|data|, j)..FirstLeaf(|data|, j + 1)]
  {
    if j < Extra(|data|) {
      assert Leaves(Node(data, Lower(|data|), j)) == [data[2 * j]] + [data[2 * j + 1]];
    }
  }

  lemma {:induction false} LeavesOfNode(data: seq<Bytes>, l: nat, j: nat)
    requires |data| > 0 && l <= Lower(|data|) && j < Pow2(l)
    ensures FirstLeafBelow(|data|, l, j) <= FirstLeafBelow(|data|, l, j + 1) <= |data|
    ensures Leaves(Node(data, l, j)) == data[FirstLeafBelow(|data|, l, j)..FirstLeafBelow(|data|, l, j + 1)]
    decreases Lower(|data|) - l
  {
    if l == Lower(|data|) {
      LeavesOfLowNode(data, j);
    } else {
      LeavesOfNode(data, l + 1, 2 * j);
      LeavesOfNode(data, l + 1, 2 * j + 1);
    }
  }

  /** Every leaf is below the root exactly once, and in the order it was added. */
  lemma LeavesOfCompact(data: seq<Bytes>)
    requires |data| > 0
    ensures Leaves(Compact(data)) == data
  {
    LeavesOfNode(data, 0, 0);
    LevelEnds(|data|, 0);
  }

  lemma {:induction false} NoLeafOf64OfLeaves(t: Tree)
    requires forall d :: d in Leaves(t) ==> |d| != 64
    ensures NoLeafOf64(t)
  {
    match t
    case Leaf(data) => assert data in Leaves(t);
    case Inner(left, right) =>
      NoLeafOf64OfLeaves(left);
      NoLeafOf64OfLeaves(right);
  }

  // ---------------------------------------------------------------- binding

  /** Where two trees with one root hash first differ: the two hash preimages found there. */
  ghost function RootCollision(t: Tree, u: Tree): (Bytes, Bytes) {
    match (t, u)
    case (Leaf(d), Leaf(e)) => (d, e)
    case (Leaf(d), Inner(l, r)) => (d, Root(l) + Root(r))
    case (Inner(l, r), Leaf(e)) => (Root(l) + Root(r), e)
    case (Inner(l, r), Inner(l', r')) =>
      if Root(l) + Root(r) != Root(l') + Root(r') then (Root(l) + Root(r), Root(l') + Root(r'))
      else if l != l' then RootCollision(l, l')
      else RootCollision(r, r')
  }

  lemma SplitDigests(a: Digest, b: Digest, c: Digest, d: Digest)
    requires a + b == c + d
    ensures a == c && b == d
  {
    assert a == (a + b)[..32] && b == (a + b)[32..];
    assert c == (c + d)[..32] && d == (c + d)[32..];
  }

  lemma {:induction false} EqualRoots(t: Tree, u: Tree)
    requires NoLeafOf64(t) && NoLeafOf64(u) && Root(t) == Root(u)
    ensures var c := RootCollision(t, u); t == u || Collision(c.0, c.1)
  {
    if t.Inner? && u.Inner? && Root(t.left) + Root(t.right) == Root(u.left) + Root(u.right) {
      SplitDigests(Root(t.left), Root(t.right), Root(u.left), Root(u.right));
      EqualRoots(t.left, u.left);
      EqualRoots(t.right, u.right);
    }
  }

  /** The Merkle root binds the number, the order and the contents of the leaves. */
  lemma RootBinding(a: seq<Bytes>, b: seq<Bytes>)
    requires |a| > 0 && |b| > 0
    requires forall d :: d in a || d in b ==> |d| != 64
    requires Root(Compact(a)) == Root(Compact(b))
    ensures var c := RootCollision(Compact(a), Compact(b)); a == b || Collision(c.0, c.1)
  {
    LeavesOfCompact(a);
    LeavesOfCompact(b);
    NoLeafOf64OfLeaves(Compact(a));
    NoLeafOf64OfLeaves(Compact(b));
    EqualRoots(Compact(a), Compact(b));
  }
}
