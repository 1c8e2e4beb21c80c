/**
  * Branches. Every leaf of a tree has a branch of sibling nodes that folds back to the root,
  * with the binary digits of its index saying on which side it stands at each level.
  */
module MerkleBranch {
  import opened Primitives
  import opened Arithmetic
  import opened SszBits
  import opened Ssz
  import opened SszLayout
  import opened Merkle
  import opened HashTreeRoot

  /** A leaf hashed up its branch: digit `d` of its index is 0 for a left child at level `d`. */
  function Fold(h: Hash, leaf: Chunk, branch: seq<Chunk>, index: nat): Chunk {
    if branch == [] then leaf
    else
      var n := |branch| - 1;
      var below := Fold(h, leaf, branch[..n], index);
      if index / Pow2(n) % 2 == 0 then h(below, branch[n]) else h(branch[n], below)
  }

  lemma {:induction false} PowersFactor(n: nat, d: nat)
    requires n < d
    ensures Pow2(d) == Pow2(n) * (2 * Pow2(d - n - 1))
  {
    PowersMultiply(n, d - n);
  }

  lemma HigherDigitsAside(i: nat, p: nat, q: nat)
    requires p > 0
    ensures (i + p * (2 * q)) / p % 2 == i / p % 2
  {
    var x, r := DivisionSplits(i, p);
    Gather(x, p, r, q);
    DivisionUnique(x + 2 * q, p, r);
  }

  lemma Gather(x: nat, p: nat, r: nat, q: nat)
    ensures x * p + r + p * (2 * q) == (x + 2 * q) * p + r
  {
  }

  lemma {:induction false} FoldReadsLowDigits(h: Hash, leaf: Chunk, branch: seq<Chunk>, index: nat, d: nat)
    requires |branch| <= d
    ensures Fold(h, leaf, branch, index + Pow2(d)) == Fold(h, leaf, branch, index)
  {
    hide Pow2;
    if branch != [] {
      var n := |branch| - 1;
      FoldReadsLowDigits(h, leaf, branch[..n], index, d);
      PowersFactor(n, d);
      HigherDigitsAside(index, Pow2(n), Pow2(d - n - 1));
    }
  }

  lemma TopDigit(i: nat, p: nat)
    requires 0 < p && i < 2 * p
    ensures i / p % 2 == if i < p then 0 else 1
  {
    if i < p {
      DivisionUnique(0, p, i);
    } else {
      DivisionUnique(1, p, i - p);
    }
  }

  lemma {:induction false} LeafHasBranch(h: Hash, leaves: seq<Chunk>, depth: nat, i: nat) returns (branch: seq<Chunk>)
    requires |leaves| == Pow2(depth) && i < |leaves|
    ensures |branch| == depth && Fold(h, leaves[i], branch, i) == TreeRoot(h, leaves, depth)
  {
    hide Pow2, TreeRoot;
    if depth == 0 {
      PowerOfZero();
      RootOfLeaf(h, leaves);
      branch := [];
    } else {
      TreeStep(h, leaves, depth);
      var half := Pow2(depth - 1);
      var left, right := leaves[..half], leaves[half..];
      TopDigit(i, half);
      if i < half {
        var below := LeafHasBranch(h, left, depth - 1, i);
        branch := below + [TreeRoot(h, right, depth - 1)];
        assert branch[..depth - 1] == below;
      } else {
        var below := LeafHasBranch(h, right, depth - 1, i - half);
        branch := below + [TreeRoot(h, left, depth - 1)];
        assert branch[..depth - 1] == below;
        FoldReadsLowDigits(h, leaves[i], below, i - half, depth - 1);
      }
    }
  }

  /** In a tree with room for `limit`, leaf `i` has a branch of the least sufficient length. */
  lemma RootHasBranch(h: Hash, roots: seq<Chunk>, limit: nat, i: nat) returns (branch: seq<Chunk>)
    requires i < |roots| <= limit
    ensures limit <= Pow2(|branch|) && forall d :: 0 <= d < |branch| ==> Pow2(d) < limit
    ensures |branch| == Depth(limit) && i < Pow2(Depth(limit))
    ensures Fold(h, roots[i], branch, i) == MerkleRoot(h, roots, limit)
  {
    hide TreeRoot, Pow2, Depth;
    DepthIsLeast(limit);
    branch := LeafHasBranch(h, Padded(roots, limit), Depth(limit), i);
  }

  // ---------------------------------------------------------------------------
  // Branches of values
  // ---------------------------------------------------------------------------

  /** Past the last level the digit is zero: the node stands left of what is hashed to it. */
  lemma FoldOnce(h: Hash, leaf: Chunk, branch: seq<Chunk>, i: nat, last: Chunk)
    requires i < Pow2(|branch|)
    ensures Fold(h, leaf, branch + [last], i) == h(Fold(h, leaf, branch, i), last)
  {
    hide Pow2;
    TopDigit(i, Pow2(|branch|));
    assert (branch + [last])[..|branch|] == branch;
  }

  /** `branch` proves `leaf` at `index` in `root`: a tree for `limit` leaves, then the length if one is mixed in. */
  ghost predicate Proves(
    h: Hash, leaf: Chunk, index: nat, branch: seq<Chunk>, limit: nat, length: Option<U64>, root: Chunk)
  {
    var depth := |branch| - if length.Some? then 1 else 0;
    && depth >= 0 && limit <= Pow2(depth) && (forall d :: 0 <= d < depth ==> Pow2(d) < limit)
    && (length.Some? ==> branch[depth] == LengthChunk(length.value))
    && Fold(h, leaf, branch, index) == root
  }

  lemma LeafProves(h: Hash, t: Ty, v: Val, i: nat) returns (branch: seq<Chunk>)
    requires Good(t, v) && Composite(t) && i < |Leaves(h, t, v)|
    ensures Mixed(t) ==> LengthOf(v) <= U64_MAX
    ensures Proves(h, Leaves(h, t, v)[i], i, branch, LeafLimit(t), if Mixed(t) then Some(LengthOf(v)) else None,
                   Root(h, t, v))
  {
    hide Leaves, MerkleRoot, LeafLimit, Depth, Pow2, LengthChunk, Fold, Rootable, Hosted, HasType;
    var leaves := Leaves(h, t, v);
    var below := RootHasBranch(h, leaves, LeafLimit(t), i);
    branch := below;
    if Mixed(t) {
      LengthFits(t, v);
      branch := below + [LengthChunk(LengthOf(v))];
      FoldOnce(h, leaves[i], below, i, LengthChunk(LengthOf(v)));
    }
  }

  /** How many places the tree over the parts of a value has room for. */
  function Places(t: Ty): nat
    requires t.Container? || t.Vector? || t.List?
  {
    if t.Container? then |t.fields| else if t.Vector? then t.length else t.limit
  }

  /** Its elements are numbers or truth values. */
  predicate HasBasicElements(t: Ty) {
    (t.Vector? || t.List?) && (t.elem.Uint? || t.elem.Boolean?)
  }

  /**
    * The root of part `i` of a container, or of a vector or list of anything but numbers and
    * truth values, stands at place `i` of its root; a list's root has its length beside it.
    */
  lemma PartStands(h: Hash, t: Ty, v: Val, i: nat, part: Ty) returns (branch: seq<Chunk>)
    requires Good(t, v) && (t.Container? || t.Vector? || t.List?) && !HasBasicElements(t) && i < |v.items|
    requires if t.Container? then i < |t.fields| && part == t.fields[i] else part == t.elem
    ensures Good(part, v.items[i]) && |v.items| <= U64_MAX
    ensures Proves(h, Root(h, part, v.items[i]), i, branch, Places(t),
                   if t.List? then Some(|v.items|) else None, Root(h, t, v))
  {
    hide Proves, Root;
    PartIsGood(t, v, i);
    branch := LeafProves(h, t, v, i);
  }

  /** The bytes any other value is packed into, and how many there is room for. */
  ghost predicate PacksInto(t: Ty, v: Val, bytes: seq<Byte>, room: nat) {
    match t
    case ByteArray(length) => v.Blob? && bytes == v.bytes && room == length
    case Bitvector(length) => v.Bits? && Packed(v.bits, bytes) && room == (length + 7) / 8
    case Bitlist(limit) => v.Bits? && Packed(v.bits, bytes) && room == (limit + 7) / 8
    case Vector(elem, length) =>
      v.Items? && PacksElements(elem, v.items, bytes) && room == length * Span(elem)
    case List(elem, limit) =>
      v.Items? && PacksElements(elem, v.items, bytes) && room == limit * Span(elem)
    case _ => false
  }

  /** The encodings of basic elements, one after the other. */
  ghost predicate PacksElements(elem: Ty, vs: seq<Val>, bytes: seq<Byte>) {
    && (elem.Uint? || elem.Boolean?) && |bytes| == |vs| * Span(elem)
    && forall j, i :: 0 <= j < |vs| && 0 <= i < Span(elem) ==> ElementByte(elem, vs, bytes, j, i)
  }

  ghost predicate ElementByte(elem: Ty, vs: seq<Val>, bytes: seq<Byte>, j: nat, i: nat) {
    && j < |vs| && HasType(elem, vs[j]) && Encode(elem, vs[j]).Some? && i < |Encode(elem, vs[j]).value|
    && j * Span(elem) + i < |bytes| && bytes[j * Span(elem) + i] == Encode(elem, vs[j]).value[i]
  }

  lemma FlatPacks(t: Ty, v: Val)
    requires HasType(t, v) && Composite(t) && !Nested(t)
    ensures PacksInto(t, v, FlatBytes(t, v), ByteLimit(t))
  {
    hide Pack, PackedBasics, Span, ElementByte;
    if t.Vector? || t.List? {
      forall j, i | 0 <= j < |v.items| && 0 <= i < Span(t.elem)
        ensures ElementByte(t.elem, v.items, PackedBasics(t.elem, v.items), j, i)
      {
        OneElementByte(t.elem, v.items, j, i);
      }
    }
  }

  lemma OneElementByte(elem: Ty, vs: seq<Val>, j: nat, i: nat)
    requires (elem.Uint? || elem.Boolean?) && j < |vs| && i < Span(elem)
    requires forall k :: 0 <= k < |vs| ==> HasType(elem, vs[k])
    ensures ElementByte(elem, vs, PackedBasics(elem, vs), j, i)
  {
    hide PackedBasics, LeBytes;
    ElementBytes(elem, vs, j, i);
  }

  /** Chunk `k` of the packed bytes of any other value stands at place `k` of its root. */
  lemma ChunkStands(h: Hash, t: Ty, v: Val, k: nat) returns (bytes: seq<Byte>, room: nat, branch: seq<Chunk>)
    requires Good(t, v) && !t.Uint? && !t.Boolean? && !t.Container? && (t.Vector? || t.List? ==> HasBasicElements(t))
    ensures PacksInto(t, v, bytes, room) && (t.Bitlist? || t.List? ==> LengthOf(v) <= U64_MAX)
    ensures k < Max(1, (|bytes| + 31) / 32) ==>
      Proves(h, ChunkAt(bytes, k), k, branch, Max(1, (room + 31) / 32),
             if t.Bitlist? || t.List? then Some(LengthOf(v)) else None, Root(h, t, v))
  {
    hide Proves, Root, FlatBytes, ByteLimit, Rootable, Hosted, PacksInto;
    bytes, room, branch := FlatBytes(t, v), ByteLimit(t), [];
    FlatPacks(t, v);
    if Mixed(t) {
      LengthFits(t, v);
    }
    if k < Max(1, (|bytes| + 31) / 32) {
      branch := LeafProves(h, t, v, k);
    }
  }

  /** The length is mixed in as eight little-endian bytes and 24 zeros. */
  lemma LengthChunkBytes(n: U64, i: nat)
    requires i < 32
    ensures Pow256(i) > 0 && LengthChunk(n)[i] == if i < 8 then n / Pow256(i) % 256 else 0
  {
    hide LeBytes, Pow256;
    PowerPositive(i);
    if i < 8 {
      LeByteAt(n, 8, i);
    }
  }

  /** The root of a number is its little-endian bytes, of a truth value one byte, then zeros. */
  lemma BasicRoot(h: Hash, t: Ty, v: Val, i: nat)
    requires Good(t, v) && (t.Uint? || t.Boolean?) && i < 32
    ensures Pow256(i) > 0
    ensures Root(h, t, v)[i] ==
      if t.Uint? then (if i < t.width then v.x / Pow256(i) % 256 else 0)
      else if i == 0 && v.b then 1 else 0
  {
    hide LeBytes, Pow256;
    PowerPositive(i);
    if t.Uint? && i < t.width {
      LeByteAt(v.x, t.width, i);
    }
  }

  /** Basic elements are packed one after the other, each over its own size. */
  lemma {:induction false} ElementBytes(elem: Ty, vs: seq<Val>, j: nat, i: nat)
    requires (elem.Uint? || elem.Boolean?) && j < |vs| && i < Span(elem)
    requires forall k :: 0 <= k < |vs| ==> HasType(elem, vs[k])
    ensures j * Span(elem) + i < |PackedBasics(elem, vs)|
    ensures PackedBasics(elem, vs)[j * Span(elem) + i] == BasicBytes(elem, vs[j])[i]
    decreases |vs|
  {
    hide BasicBytes, HasType, Span;
    var n := |vs| - 1;
    ProductsSpread(j, |vs|, Span(elem));
    if j < n {
      ElementBytes(elem, vs[..n], j, i);
    }
  }
}
