/**
  * Merkleization. The loop works level by level and takes absent subtrees from a table
  * of zero hashes; the reference is the root of the full binary tree over padded leaves.
  */
module Merkle {
  import opened Primitives
  import opened SszBits

  const BYTES_PER_CHUNK: nat := 32
  const MAX_TREE_HEIGHT: nat := 64

  type Chunk = c: seq<Byte> | |c| == 32 witness seq(32, _ => 0)

  /** SHA-256 of two chunks; nothing is assumed of it. */
  type Hash = (Chunk, Chunk) -> Chunk

  function ZeroChunk(): Chunk {
    seq(32, _ => 0)
  }

  // ---------------------------------------------------------------------------
  // The reference: full trees
  // ---------------------------------------------------------------------------

  /** The root of the full binary tree over `2^depth` leaves. */
  function TreeRoot(h: Hash, leaves: seq<Chunk>, depth: nat): Chunk
    requires |leaves| == Pow2(depth)
  {
    if depth == 0 then leaves[0]
    else
      var half := Pow2(depth - 1);
      h(TreeRoot(h, leaves[..half], depth - 1), TreeRoot(h, leaves[half..], depth - 1))
  }

  /** The root of the tree over `2^depth` zero leaves. */
  function Zero(h: Hash, depth: nat): Chunk {
    if depth == 0 then ZeroChunk() else h(Zero(h, depth - 1), Zero(h, depth - 1))
  }

  function PadTo(nodes: seq<Chunk>, pad: Chunk, n: nat): (r: seq<Chunk>)
    requires |nodes| <= n
    ensures |r| == n
  {
    nodes + seq(n - |nodes|, _ => pad)
  }

  /** `tree_depth_for_limit`: the bit length of `limit - 1`. */
  function Depth(limit: nat): nat {
    if limit <= 1 then 0 else HighBit(limit - 1) + 1
  }

  /** The depth is the least one whose tree holds `limit` leaves. */
  lemma DepthIsLeast(limit: nat)
    ensures limit <= Pow2(Depth(limit))
    ensures forall d :: 0 <= d < Depth(limit) ==> Pow2(d) < limit
  {
    hide Pow2, HighBit;
    if limit > 1 {
      forall d | 0 <= d < Depth(limit)
        ensures Pow2(d) < limit
      {
        PowersGrow(d, HighBit(limit - 1));
      }
    } else {
      PowerOfZero();
    }
  }

  lemma PowerOfZero()
    ensures Pow2(0) == 1
  {
  }

  lemma DepthInTable(limit: nat)
    requires limit <= Pow2(MAX_TREE_HEIGHT)
    ensures Depth(limit) <= MAX_TREE_HEIGHT
  {
    hide Pow2, HighBit;
    if limit > 1 {
      HighBitBelow(limit - 1, MAX_TREE_HEIGHT);
    }
  }

  /** What merkleization should return. */
  function MerkleRoot(h: Hash, roots: seq<Chunk>, limit: nat): Chunk
    requires |roots| <= limit
  {
    DepthIsLeast(limit);
    TreeRoot(h, PadTo(roots, ZeroChunk(), Pow2(Depth(limit))), Depth(limit))
  }

  // ---------------------------------------------------------------------------
  // One level at a time
  // ---------------------------------------------------------------------------

  /** Each pair of neighbours hashed into their parent. */
  function Parents(h: Hash, nodes: seq<Chunk>): (r: seq<Chunk>)
    requires |nodes| % 2 == 0
    ensures |r| == |nodes| / 2 && forall i :: 0 <= i < |r| ==> r[i] == h(nodes[2 * i], nodes[2 * i + 1])
  {
    seq(|nodes| / 2, i requires 0 <= i < |nodes| / 2 => h(nodes[2 * i], nodes[2 * i + 1]))
  }

  lemma ParentsSplit(h: Hash, nodes: seq<Chunk>, k: nat)
    requires |nodes| % 2 == 0 && 2 * k <= |nodes|
    ensures Parents(h, nodes)[..k] == Parents(h, nodes[..2 * k])
    ensures Parents(h, nodes)[k..] == Parents(h, nodes[2 * k..])
  {
  }

  lemma TreeStep(h: Hash, leaves: seq<Chunk>, depth: nat)
    requires depth > 0 && |leaves| == Pow2(depth)
    ensures |leaves| == 2 * Pow2(depth - 1)
    ensures var half := Pow2(depth - 1);
      TreeRoot(h, leaves, depth) == h(TreeRoot(h, leaves[..half], depth - 1), TreeRoot(h, leaves[half..], depth - 1))
  {
  }

  /** Hashing the leaves pairwise first does not change the root. */
  lemma {:induction false} LevelUp(h: Hash, leaves: seq<Chunk>, depth: nat)
    requires |leaves| == 2 * Pow2(depth) && Pow2(depth + 1) == 2 * Pow2(depth)
    ensures TreeRoot(h, leaves, depth + 1) == TreeRoot(h, Parents(h, leaves), depth)
  {
    hide TreeRoot, Pow2, Parents;
    TreeStep(h, leaves, depth + 1);
    if depth == 0 {
      PowerOfZero();
      RootOfLeaf(h, leaves[..1]);
      RootOfLeaf(h, leaves[1..]);
      RootOfLeaf(h, Parents(h, leaves));
    } else {
      var half, quarter := Pow2(depth), Pow2(depth - 1);
      TreeStep(h, Parents(h, leaves), depth);
      LevelUp(h, leaves[..half], depth - 1);
      LevelUp(h, leaves[half..], depth - 1);
      ParentsSplit(h, leaves, quarter);
    }
  }

  lemma RootOfLeaf(h: Hash, leaves: seq<Chunk>)
    requires |leaves| == 1 && Pow2(0) == 1
    ensures TreeRoot(h, leaves, 0) == leaves[0]
  {
  }

  /** Padding commutes with hashing a level: parents of zero subtrees are zero subtrees. */
  lemma ParentsOfPadded(h: Hash, nodes: seq<Chunk>, level: nat, n: nat)
    requires |nodes| % 2 == 0 && |nodes| <= 2 * n
    ensures Parents(h, PadTo(nodes, Zero(h, level), 2 * n)) == PadTo(Parents(h, nodes), Zero(h, level + 1), n)
  {
    hide Pow2;
  }

  /** The remaining tree above `nodes`, which sit at `level` of a tree of height `height`. */
  ghost function Above(h: Hash, nodes: seq<Chunk>, level: nat, height: nat): Chunk
    requires level <= height && |nodes| <= Pow2(height - level)
  {
    TreeRoot(h, PadTo(nodes, Zero(h, level), Pow2(height - level)), height - level)
  }

  /** Completing a level with one zero hash and hashing it keeps the root. */
  lemma StepUp(h: Hash, nodes: seq<Chunk>, even: seq<Chunk>, level: nat, height: nat)
    requires level < height && |nodes| <= Pow2(height - level) && |even| % 2 == 0
    requires even == nodes || (|nodes| % 2 == 1 && even == nodes + [Zero(h, level)])
    ensures |even| / 2 <= Pow2(height - level - 1) && |even| <= Pow2(height - level)
    ensures Above(h, nodes, level, height) == Above(h, Parents(h, even), level + 1, height)
  {
    hide TreeRoot, Zero;
    var m := height - level - 1;
    assert Pow2(m + 1) == 2 * Pow2(m);
    assert PadTo(nodes, Zero(h, level), Pow2(m + 1)) == PadTo(even, Zero(h, level), Pow2(m + 1));
    LevelUp(h, PadTo(even, Zero(h, level), Pow2(m + 1)), m);
    ParentsOfPadded(h, even, level, Pow2(m));
  }

  lemma {:induction false} ZeroTree(h: Hash, leaves: seq<Chunk>, depth: nat)
    requires |leaves| == Pow2(depth) && forall i :: 0 <= i < |leaves| ==> leaves[i] == ZeroChunk()
    ensures TreeRoot(h, leaves, depth) == Zero(h, depth)
  {
    if depth > 0 {
      ZeroTree(h, leaves[..Pow2(depth - 1)], depth - 1);
      ZeroTree(h, leaves[Pow2(depth - 1)..], depth - 1);
    }
  }

  /** The zero-hash table, one entry per level. */
  method ZeroHashes(h: Hash) returns (table: array<Chunk>)
    ensures fresh(table) && table.Length == MAX_TREE_HEIGHT + 1
    ensures forall d :: 0 <= d <= MAX_TREE_HEIGHT ==> table[d] == Zero(h, d)
  {
    hide Zero;
    ZeroLeaf(h);
    table := new Chunk[MAX_TREE_HEIGHT + 1](_ => ZeroChunk());
    for depth := 1 to MAX_TREE_HEIGHT + 1
      invariant forall d :: 0 <= d < depth ==> table[d] == Zero(h, d)
    {
      ZeroStep(h, depth);
      var node := table[depth - 1];
      table[depth] := h(node, node);
    }
  }

  /**
    * The level-by-level loop computes the reference root, and never indexes the table
    * past its end.
    */
  method MerkleizeRoots(h: Hash, zeroHashes: array<Chunk>, roots: seq<Chunk>, limit: nat) returns (root: Chunk)
    requires |roots| <= limit <= Pow2(MAX_TREE_HEIGHT)
    requires zeroHashes.Length == MAX_TREE_HEIGHT + 1
    requires forall d :: 0 <= d <= MAX_TREE_HEIGHT ==> zeroHashes[d] == Zero(h, d)
    ensures root == MerkleRoot(h, roots, limit)
  {
    hide Pow2, TreeRoot, Zero, HighBit;
    var height := Depth(limit);
    DepthInTable(limit);
    DepthIsLeast(limit);
    PowerOfZero();
    if roots == [] {
      ZeroTree(h, PadTo(roots, ZeroChunk(), Pow2(height)), height);
      return zeroHashes[height];
    }
    var depth: nat := 0;
    var nodes := roots;
    ZeroLeaf(h);
    while |nodes| > 1
      invariant depth <= height && 1 <= |nodes| <= Pow2(height - depth)
      invariant Above(h, nodes, depth, height) == MerkleRoot(h, roots, limit)
      decreases |nodes|
    {
      var even := nodes;
      if |nodes| % 2 != 0 {
        even := nodes + [zeroHashes[depth]];
      }
      StepUp(h, nodes, even, depth, height);
      nodes := Parents(h, even);
      depth := depth + 1;
    }
    root := nodes[0];
    assert nodes == [root];
    while depth < height
      invariant depth <= height && 1 <= Pow2(height - depth)
      invariant Above(h, [root], depth, height) == MerkleRoot(h, roots, limit)
    {
      StepUp(h, [root], [root] + [zeroHashes[depth]], depth, height);
      assert Parents(h, [root] + [zeroHashes[depth]]) == [h(root, zeroHashes[depth])];
      root := h(root, zeroHashes[depth]);
      depth := depth + 1;
    }
    RootOfOne(h, root, height);
  }

  lemma ZeroStep(h: Hash, depth: nat)
    requires depth > 0
    ensures Zero(h, depth) == h(Zero(h, depth - 1), Zero(h, depth - 1))
  {
  }

  lemma ZeroLeaf(h: Hash)
    ensures Zero(h, 0) == ZeroChunk()
  {
  }

  lemma RootOfOne(h: Hash, root: Chunk, height: nat)
    ensures Above(h, [root], height, height) == root
  {
  }

  // ---------------------------------------------------------------------------
  // Binding
  // ---------------------------------------------------------------------------

  /** `(x, y)` are the children of some inner node of the tree. */
  ghost predicate Siblings(h: Hash, leaves: seq<Chunk>, depth: nat, x: Chunk, y: Chunk)
    requires |leaves| == Pow2(depth)
  {
    depth > 0 &&
    var half := Pow2(depth - 1);
    || (x == TreeRoot(h, leaves[..half], depth - 1) && y == TreeRoot(h, leaves[half..], depth - 1))
    || Siblings(h, leaves[..half], depth - 1, x, y)
    || Siblings(h, leaves[half..], depth - 1, x, y)
  }

  /** Two different pairs with the same hash. */
  predicate Collision(h: Hash, x1: Chunk, y1: Chunk, x2: Chunk, y2: Chunk) {
    (x1, y1) != (x2, y2) && h(x1, y1) == h(x2, y2)
  }

  /** A collision between a pair of siblings in each tree. */
  ghost predicate TreesCollide(h: Hash, a: seq<Chunk>, b: seq<Chunk>, depth: nat)
    requires |a| == |b| == Pow2(depth)
  {
    exists x1, y1, x2, y2 ::
      Siblings(h, a, depth, x1, y1) && Siblings(h, b, depth, x2, y2) && Collision(h, x1, y1, x2, y2)
  }

  lemma CollisionClimbs(h: Hash, a: seq<Chunk>, b: seq<Chunk>, depth: nat, lo: nat, hi: nat)
    requires depth > 0 && |a| == |b| == Pow2(depth) && Pow2(depth) == 2 * Pow2(depth - 1)
    requires (lo == 0 && hi == Pow2(depth - 1)) || (lo == Pow2(depth - 1) && hi == Pow2(depth))
    requires |a[lo..hi]| == Pow2(depth - 1) && TreesCollide(h, a[lo..hi], b[lo..hi], depth - 1)
    ensures TreesCollide(h, a, b, depth)
  {
    hide TreeRoot, Pow2;
    var x1, y1, x2, y2 :|
      && Siblings(h, a[lo..hi], depth - 1, x1, y1) && Siblings(h, b[lo..hi], depth - 1, x2, y2)
      && Collision(h, x1, y1, x2, y2);
    var half := Pow2(depth - 1);
    assert a[lo..hi] == (if lo == 0 then a[..half] else a[half..]);
    assert b[lo..hi] == (if lo == 0 then b[..half] else b[half..]);
    assert Siblings(h, a, depth, x1, y1) && Siblings(h, b, depth, x2, y2);
  }

  /** Equal roots over trees of one shape: equal leaves, or a collision inside the trees. */
  lemma {:induction false} TreeBinding(h: Hash, a: seq<Chunk>, b: seq<Chunk>, depth: nat)
    requires |a| == |b| == Pow2(depth) && TreeRoot(h, a, depth) == TreeRoot(h, b, depth)
    ensures a == b || TreesCollide(h, a, b, depth)
  {
    hide TreeRoot, Pow2, TreesCollide;
    if depth == 0 {
      PowerOfZero();
      RootOfLeaf(h, a);
      RootOfLeaf(h, b);
      assert a == [a[0]] && b == [b[0]];
    } else {
      var half := Pow2(depth - 1);
      TreeStep(h, a, depth);
      TreeStep(h, b, depth);
      var x1, y1 := TreeRoot(h, a[..half], depth - 1), TreeRoot(h, a[half..], depth - 1);
      var x2, y2 := TreeRoot(h, b[..half], depth - 1), TreeRoot(h, b[half..], depth - 1);
      if Collision(h, x1, y1, x2, y2) {
        TopCollides(h, a, b, depth);
      } else {
        TreeBinding(h, a[..half], b[..half], depth - 1);
        TreeBinding(h, a[half..], b[half..], depth - 1);
        assert a[half..] == a[half..Pow2(depth)] && b[half..] == b[half..Pow2(depth)];
        assert a[..half] == a[0..half] && b[..half] == b[0..half];
        if TreesCollide(h, a[..half], b[..half], depth - 1) {
          CollisionClimbs(h, a, b, depth, 0, half);
        } else if TreesCollide(h, a[half..], b[half..], depth - 1) {
          CollisionClimbs(h, a, b, depth, half, Pow2(depth));
        } else {
          assert a == a[..half] + a[half..] && b == b[..half] + b[half..];
        }
      }
    }
  }

  lemma TopCollides(h: Hash, a: seq<Chunk>, b: seq<Chunk>, depth: nat)
    requires depth > 0 && |a| == |b| == Pow2(depth) && Pow2(depth) == 2 * Pow2(depth - 1)
    requires var half := Pow2(depth - 1);
      Collision(h, TreeRoot(h, a[..half], depth - 1), TreeRoot(h, a[half..], depth - 1),
                TreeRoot(h, b[..half], depth - 1), TreeRoot(h, b[half..], depth - 1))
    ensures TreesCollide(h, a, b, depth)
  {
    hide TreeRoot, Pow2;
    var half := Pow2(depth - 1);
    var x1, y1 := TreeRoot(h, a[..half], depth - 1), TreeRoot(h, a[half..], depth - 1);
    var x2, y2 := TreeRoot(h, b[..half], depth - 1), TreeRoot(h, b[half..], depth - 1);
    assert Siblings(h, a, depth, x1, y1) && Siblings(h, b, depth, x2, y2);
  }

  /** The length as a chunk: eight little-endian bytes, then zeros. */
  function LengthChunk(length: U64): Chunk {
    LeBytes(length, 8) + seq(24, _ => 0)
  }

  function MixInLength(h: Hash, root: Chunk, length: U64): Chunk {
    h(root, LengthChunk(length))
  }

  lemma LengthChunkInjective(m: U64, n: U64)
    requires LengthChunk(m) == LengthChunk(n)
    ensures m == n
  {
    assert LengthChunk(m)[..8] == LeBytes(m, 8) && LengthChunk(n)[..8] == LeBytes(n, 8);
    assert Pow256(8) == 256 * 256 * 256 * 256 * Pow256(4);
    LeRoundTrip(m, 8);
    LeRoundTrip(n, 8);
  }

  /** A collision among the nodes of the two length-mixed trees. */
  ghost predicate ListsCollide(h: Hash, a: seq<Chunk>, b: seq<Chunk>, limit: nat)
    requires |a| <= limit && |b| <= limit <= U64_MAX
  {
    DepthIsLeast(limit);
    var depth := Depth(limit);
    || Collision(h, MerkleRoot(h, a, limit), LengthChunk(|a|), MerkleRoot(h, b, limit), LengthChunk(|b|))
    || TreesCollide(h, PadTo(a, ZeroChunk(), Pow2(depth)), PadTo(b, ZeroChunk(), Pow2(depth)), depth)
  }

  /** A length-mixed root binds the whole list, up to an explicit hash collision. */
  lemma ListBinding(h: Hash, a: seq<Chunk>, b: seq<Chunk>, limit: nat)
    requires |a| <= limit && |b| <= limit <= U64_MAX
    requires MixInLength(h, MerkleRoot(h, a, limit), |a|) == MixInLength(h, MerkleRoot(h, b, limit), |b|)
    ensures a == b || ListsCollide(h, a, b, limit)
  {
    hide TreeRoot, Pow2, TreesCollide, LengthChunk, Depth;
    DepthIsLeast(limit);
    var ra, rb := MerkleRoot(h, a, limit), MerkleRoot(h, b, limit);
    if !Collision(h, ra, LengthChunk(|a|), rb, LengthChunk(|b|)) {
      LengthChunkInjective(|a|, |b|);
      var n := Pow2(Depth(limit));
      var pa, pb := PadTo(a, ZeroChunk(), n), PadTo(b, ZeroChunk(), n);
      TreeBinding(h, pa, pb, Depth(limit));
      assert pa[..|a|] == a && pb[..|b|] == b;
    }
  }

  // ---------------------------------------------------------------------------
  // Packing bytes into chunks
  // ---------------------------------------------------------------------------

  function ChunkCount(bytes: nat): nat {
    (bytes + 31) / 32
  }

  /** The bytes of chunk `k`, zero past the end. */
  function ChunkAt(bytes: seq<Byte>, k: nat): Chunk {
    seq(32, i requires 0 <= i < 32 => if 32 * k + i < |bytes| then bytes[32 * k + i] else 0)
  }

  /** `pack_bytes`; no bytes at all still make one zero chunk. */
  function PackBytes(bytes: seq<Byte>): (r: seq<Chunk>)
    ensures |r| == Max(1, ChunkCount(|bytes|))
    ensures forall k :: 0 <= k < |r| ==> r[k] == ChunkAt(bytes, k)
  {
    if bytes == [] then assert ZeroChunk() == ChunkAt(bytes, 0); [ZeroChunk()]
    else seq(ChunkCount(|bytes|), k requires 0 <= k < ChunkCount(|bytes|) => ChunkAt(bytes, k))
  }

  /** Among byte strings of one length, the chunks determine the bytes. */
  lemma PackingInjective(a: seq<Byte>, b: seq<Byte>)
    requires |a| == |b| && PackBytes(a) == PackBytes(b)
    ensures a == b
  {
    forall j | 0 <= j < |a|
      ensures a[j] == b[j]
    {
      var k := j / 32;
      assert PackBytes(a)[k] == ChunkAt(a, k) && PackBytes(b)[k] == ChunkAt(b, k);
      assert ChunkAt(a, k)[j - 32 * k] == a[j] && ChunkAt(b, k)[j - 32 * k] == b[j];
    }
  }

  function PackedRoot(h: Hash, bytes: seq<Byte>, byteLimit: nat): Chunk
    requires |bytes| <= byteLimit
  {
    MerkleRoot(h, PackBytes(bytes), Max(1, ChunkCount(byteLimit)))
  }

  /** Packed basic values of one length: equal roots, equal bytes, or a collision. */
  lemma PackedBinding(h: Hash, a: seq<Byte>, b: seq<Byte>, byteLimit: nat)
    requires |a| == |b| <= byteLimit && PackedRoot(h, a, byteLimit) == PackedRoot(h, b, byteLimit)
    ensures var depth := Depth(Max(1, ChunkCount(byteLimit)));
      && |PackBytes(a)| <= Pow2(depth) && |PackBytes(b)| <= Pow2(depth)
      && (|| a == b
          || TreesCollide(h, PadTo(PackBytes(a), ZeroChunk(), Pow2(depth)),
                          PadTo(PackBytes(b), ZeroChunk(), Pow2(depth)), depth))
  {
    hide TreeRoot, Pow2, TreesCollide, Depth, PackBytes;
    var limit := Max(1, ChunkCount(byteLimit));
    DepthIsLeast(limit);
    var n := Pow2(Depth(limit));
    var pa, pb := PadTo(PackBytes(a), ZeroChunk(), n), PadTo(PackBytes(b), ZeroChunk(), n);
    TreeBinding(h, pa, pb, Depth(limit));
    if pa == pb {
      assert pa[..|PackBytes(a)|] == PackBytes(a) && pb[..|PackBytes(b)|] == PackBytes(b);
      PackingInjective(a, b);
    }
  }
}
