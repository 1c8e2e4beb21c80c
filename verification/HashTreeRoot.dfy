/**
  * `hash_tree_root` over the universe of SSZ types: what it returns, when it is refused,
  * and that it binds the value it was computed from up to an explicit hash collision.
  */
module HashTreeRoot {
  import opened Primitives
  import opened Arithmetic
  import opened SszBits
  import opened Ssz
  import opened SszEncoder
  import opened Merkle

  /** Basic values are packed into chunks; every other element has a root of its own. */
  predicate Composite(t: Ty) {
    !t.Uint? && !t.Boolean?
  }

  /** Roots into which the length is mixed. */
  predicate Mixed(t: Ty) {
    t.Bitlist? || t.List?
  }

  /** Values that contain roots of other values. */
  predicate Nested(t: Ty) {
    t.Container? || ((t.Vector? || t.List?) && Composite(t.elem))
  }

  function PartTy(t: Ty, i: nat): Ty
    requires Nested(t) && (t.Container? ==> i < |t.fields|)
  {
    if t.Container? then t.fields[i] else t.elem
  }

  /** Lengths and limits are numbers of the host's word size. */
  ghost predicate Hosted(t: Ty) {
    match t
    case Uint(_) => true
    case Boolean => true
    case ByteArray(length) => length <= U64_MAX
    case Bitvector(length) => length <= U64_MAX
    case Bitlist(limit) => limit <= U64_MAX
    case Vector(elem, length) => length <= U64_MAX && Hosted(elem)
    case List(elem, limit) => limit <= U64_MAX && Hosted(elem)
    case Container(fields) => |fields| <= U64_MAX && forall i :: 0 <= i < |fields| ==> Hosted(fields[i])
  }

  /** When a value has a root: its lengths fit their type and every byte limit fits a word. */
  ghost predicate Rootable(t: Ty, v: Val)
    requires HasType(t, v)
    decreases t, 0
  {
    match t
    case Uint(width) => width <= BYTES_PER_CHUNK
    case Boolean => true
    case ByteArray(_) => true
    case Bitvector(_) => true
    case Bitlist(limit) => |v.bits| <= limit
    case Vector(elem, length) => |v.items| == length && PartsRootable(elem, v.items, length)
    case List(elem, limit) => |v.items| <= limit && PartsRootable(elem, v.items, limit)
    case Container(fields) => forall i :: 0 <= i < |fields| ==> Rootable(fields[i], v.items[i])
  }

  ghost predicate PartsRootable(elem: Ty, vs: seq<Val>, limit: nat)
    requires forall i :: 0 <= i < |vs| ==> HasType(elem, vs[i])
    decreases elem, 1
  {
    if Composite(elem) then forall i :: 0 <= i < |vs| ==> Rootable(elem, vs[i])
    else limit * Span(elem) <= U64_MAX
  }

  ghost predicate Good(t: Ty, v: Val) {
    Hosted(t) && HasType(t, v) && Rootable(t, v)
  }

  // ---------------------------------------------------------------------------
  // The root
  // ---------------------------------------------------------------------------

  ghost function BasicBytes(t: Ty, v: Val): (r: seq<Byte>)
    requires !Composite(t) && HasType(t, v)
    ensures |r| == Span(t)
  {
    if t.Uint? then LeBytes(v.x, t.width) else [if v.b then 1 else 0]
  }

  /** The encodings of basic values, one after the other. */
  ghost function PackedBasics(elem: Ty, vs: seq<Val>): (r: seq<Byte>)
    requires !Composite(elem) && forall i :: 0 <= i < |vs| ==> HasType(elem, vs[i])
    ensures |r| == |vs| * Span(elem)
  {
    if vs == [] then []
    else
      var n := |vs| - 1;
      assert |vs| * Span(elem) == n * Span(elem) + Span(elem);
      PackedBasics(elem, vs[..n]) + BasicBytes(elem, vs[n])
  }

  function ChunkLimit(bytes: nat): nat {
    Max(1, ChunkCount(bytes))
  }

  /** The most bytes a value without parts is packed into. */
  function ByteLimit(t: Ty): nat
    requires Composite(t) && !Nested(t)
  {
    match t
    case ByteArray(length) => length
    case Bitvector(length) => ByteLen(length)
    case Bitlist(limit) => ByteLen(limit)
    case Vector(elem, length) => length * Span(elem)
    case List(elem, limit) => limit * Span(elem)
  }

  /** How many leaves the tree of a type is padded to hold. */
  function LeafLimit(t: Ty): nat
    requires Composite(t)
  {
    if !Nested(t) then ChunkLimit(ByteLimit(t))
    else if t.Container? then |t.fields|
    else if t.Vector? then t.length
    else t.limit
  }

  /** The length that is mixed in, or fixed by the type. */
  function LengthOf(v: Val): nat {
    match v
    case Number(_) => 0
    case Truth(_) => 0
    case Blob(bytes) => |bytes|
    case Bits(bits) => |bits|
    case Items(items) => |items|
  }

  /** The bytes a value without parts is packed into. */
  ghost function FlatBytes(t: Ty, v: Val): seq<Byte>
    requires HasType(t, v) && Composite(t) && !Nested(t)
  {
    match t
    case ByteArray(_) => v.bytes
    case Bitvector(_) => Pack(v.bits)
    case Bitlist(_) => Pack(v.bits)
    case Vector(elem, _) => PackedBasics(elem, v.items)
    case List(elem, _) => PackedBasics(elem, v.items)
  }

  lemma FlatFits(t: Ty, v: Val)
    requires Good(t, v) && Composite(t) && !Nested(t)
    ensures |FlatBytes(t, v)| <= ByteLimit(t)
  {
    hide Hosted, Pack, PackedBasics, Span, PartsRootable;
    if t.Bitlist? {
      PackGrows(v.bits, t.limit);
    } else if t.Bitvector? {
      PackGrows(v.bits, t.length);
    } else if t.List? {
      ProductsSpread(|v.items|, t.limit, Span(t.elem));
    }
  }

  lemma PackGrows(bits: seq<bool>, limit: nat)
    requires |bits| <= limit
    ensures |Pack(bits)| <= ByteLen(limit)
  {
    hide Pack;
  }

  lemma ChunksFit(bytes: seq<Byte>, limit: nat)
    requires |bytes| <= limit
    ensures |PackBytes(bytes)| <= ChunkLimit(limit)
  {
  }

  lemma PartIsGood(t: Ty, v: Val, i: nat)
    requires Good(t, v) && Nested(t) && i < |v.items|
    ensures t.Container? ==> i < |t.fields|
    ensures PartTy(t, i) < t && Good(PartTy(t, i), v.items[i])
  {
    if t.Container? {
      assert Rootable(t.fields[i], v.items[i]);
    } else {
      assert PartsRootable(t.elem, v.items, if t.Vector? then t.length else t.limit);
      assert Rootable(t.elem, v.items[i]);
    }
  }

  ghost function Leaves(h: Hash, t: Ty, v: Val): (leaves: seq<Chunk>)
    requires Good(t, v) && Composite(t)
    ensures |leaves| <= LeafLimit(t)
    decreases t, 0
  {
    if Nested(t) then
      seq(|v.items|, i requires 0 <= i < |v.items| => PartIsGood(t, v, i); Root(h, PartTy(t, i), v.items[i]))
    else
      FlatFits(t, v);
      ChunksFit(FlatBytes(t, v), ByteLimit(t));
      PackBytes(FlatBytes(t, v))
  }

  /** `hash_tree_root` */
  ghost function Root(h: Hash, t: Ty, v: Val): Chunk
    requires Good(t, v)
    decreases t, 1
  {
    if !Composite(t) then ChunkAt(BasicBytes(t, v), 0)
    else
      var root := MerkleRoot(h, Leaves(h, t, v), LeafLimit(t));
      if Mixed(t) then MixInLength(h, root, LengthOf(v)) else root
  }

  // ---------------------------------------------------------------------------
  // Encodings determine values
  // ---------------------------------------------------------------------------

  lemma BasicInjective(t: Ty, a: Val, b: Val)
    requires !Composite(t) && HasType(t, a) && HasType(t, b) && BasicBytes(t, a) == BasicBytes(t, b)
    ensures a == b
  {
    if t.Uint? {
      LeRoundTrip(a.x, t.width);
      LeRoundTrip(b.x, t.width);
    }
  }

  lemma BasicBinding(t: Ty, a: Val, b: Val)
    requires !Composite(t) && Good(t, a) && Good(t, b)
    requires ChunkAt(BasicBytes(t, a), 0) == ChunkAt(BasicBytes(t, b), 0)
    ensures a == b
  {
    var p, q := BasicBytes(t, a), BasicBytes(t, b);
    forall i | 0 <= i < |p|
      ensures p[i] == q[i]
    {
      assert ChunkAt(p, 0)[i] == p[i] && ChunkAt(q, 0)[i] == q[i];
    }
    BasicInjective(t, a, b);
  }

  lemma {:induction false} PackedBasicsInjective(elem: Ty, a: seq<Val>, b: seq<Val>)
    requires !Composite(elem) && |a| == |b|
    requires forall i :: 0 <= i < |a| ==> HasType(elem, a[i])
    requires forall i :: 0 <= i < |b| ==> HasType(elem, b[i])
    requires PackedBasics(elem, a) == PackedBasics(elem, b)
    ensures a == b
  {
    hide BasicBytes, HasType;
    if a != [] {
      var n := |a| - 1;
      var p, q := PackedBasics(elem, a[..n]), PackedBasics(elem, b[..n]);
      assert PackedBasics(elem, a)[..|p|] == p && PackedBasics(elem, b)[..|q|] == q;
      assert PackedBasics(elem, a)[|p|..] == BasicBytes(elem, a[n]);
      assert PackedBasics(elem, b)[|q|..] == BasicBytes(elem, b[n]);
      PackedBasicsInjective(elem, a[..n], b[..n]);
      BasicInjective(elem, a[n], b[n]);
      assert a == a[..n] + [a[n]] && b == b[..n] + [b[n]];
    }
  }

  lemma PackInjective(a: seq<bool>, b: seq<bool>)
    requires |a| == |b| && Pack(a) == Pack(b)
    ensures a == b
  {
    hide Pack, Bit;
    forall i | 0 <= i < |a|
      ensures a[i] == b[i]
    {
      assert BitAt(Pack(a), i) == a[i] && BitAt(Pack(b), i) == b[i];
    }
  }

  lemma FlatLength(t: Ty, a: Val, b: Val)
    requires HasType(t, a) && HasType(t, b) && Composite(t) && !Nested(t) && LengthOf(a) == LengthOf(b)
    ensures |FlatBytes(t, a)| == |FlatBytes(t, b)|
  {
    hide Pack, PackedBasics, Span;
  }

  lemma FlatInjective(t: Ty, a: Val, b: Val)
    requires HasType(t, a) && HasType(t, b) && Composite(t) && !Nested(t) && LengthOf(a) == LengthOf(b)
    requires FlatBytes(t, a) == FlatBytes(t, b)
    ensures a == b
  {
    hide Pack, PackedBasics, Span;
    if t.Bitvector? || t.Bitlist? {
      PackInjective(a.bits, b.bits);
    } else if t.Vector? || t.List? {
      PackedBasicsInjective(t.elem, a.items, b.items);
    }
  }

  // ---------------------------------------------------------------------------
  // Binding
  // ---------------------------------------------------------------------------

  /** The leaves of a tree with room for `limit`. */
  function Padded(leaves: seq<Chunk>, limit: nat): (r: seq<Chunk>)
    requires |leaves| <= limit
    ensures |r| == Pow2(Depth(limit))
  {
    DepthIsLeast(limit);
    PadTo(leaves, ZeroChunk(), Pow2(Depth(limit)))
  }

  /** Computing the root of `v` hashes the pair `(x, y)`. */
  ghost predicate Hashed(h: Hash, t: Ty, v: Val, x: Chunk, y: Chunk)
    requires Good(t, v)
    decreases t
  {
    && Composite(t)
    && var leaves, limit := Leaves(h, t, v), LeafLimit(t);
       || (Mixed(t) && x == MerkleRoot(h, leaves, limit) && y == LengthChunk(LengthOf(v)))
       || Siblings(h, Padded(leaves, limit), Depth(limit), x, y)
       || (Nested(t) && exists i ::
             0 <= i < |v.items| && (PartIsGood(t, v, i); Hashed(h, PartTy(t, i), v.items[i], x, y)))
  }

  /** Among the pairs hashed for the two values, two differ and have the same hash. */
  ghost predicate ValuesCollide(h: Hash, t: Ty, a: Val, b: Val)
    requires Good(t, a) && Good(t, b)
  {
    exists x1, y1, x2, y2 ::
      Hashed(h, t, a, x1, y1) && Hashed(h, t, b, x2, y2) && Collision(h, x1, y1, x2, y2)
  }

  lemma LeavesBinding(h: Hash, a: seq<Chunk>, b: seq<Chunk>, limit: nat)
    requires |a| == |b| <= limit && MerkleRoot(h, a, limit) == MerkleRoot(h, b, limit)
    ensures a == b || TreesCollide(h, Padded(a, limit), Padded(b, limit), Depth(limit))
  {
    hide TreeRoot, Pow2, TreesCollide, Depth;
    var pa, pb := Padded(a, limit), Padded(b, limit);
    TreeBinding(h, pa, pb, Depth(limit));
    assert pa[..|a|] == a && pb[..|b|] == b;
  }

  lemma TreeCollisionLifts(h: Hash, t: Ty, a: Val, b: Val)
    requires Good(t, a) && Good(t, b) && Composite(t)
    requires var limit := LeafLimit(t);
      TreesCollide(h, Padded(Leaves(h, t, a), limit), Padded(Leaves(h, t, b), limit), Depth(limit))
    ensures ValuesCollide(h, t, a, b)
  {
    hide Good, Leaves, Siblings, Padded, Collision, LeafLimit, Depth, Pow2;
    var limit := LeafLimit(t);
    var pa, pb := Padded(Leaves(h, t, a), limit), Padded(Leaves(h, t, b), limit);
    var x1, y1, x2, y2 :|
      && Siblings(h, pa, Depth(limit), x1, y1) && Siblings(h, pb, Depth(limit), x2, y2)
      && Collision(h, x1, y1, x2, y2);
    assert Hashed(h, t, a, x1, y1) && Hashed(h, t, b, x2, y2);
  }

  lemma PartCollisionLifts(h: Hash, t: Ty, a: Val, b: Val, i: nat)
    requires Good(t, a) && Good(t, b) && Nested(t) && i < |a.items| == |b.items|
    requires Good(PartTy(t, i), a.items[i]) && Good(PartTy(t, i), b.items[i])
    requires ValuesCollide(h, PartTy(t, i), a.items[i], b.items[i])
    ensures ValuesCollide(h, t, a, b)
  {
    hide Rootable, Hosted, Leaves, Siblings, Padded, Collision, LeafLimit, Depth, Pow2;
    var x1, y1, x2, y2 :|
      && Hashed(h, PartTy(t, i), a.items[i], x1, y1) && Hashed(h, PartTy(t, i), b.items[i], x2, y2)
      && Collision(h, x1, y1, x2, y2);
    assert Hashed(h, t, a, x1, y1) && Hashed(h, t, b, x2, y2);
  }

  lemma LengthIsFixed(t: Ty, a: Val, b: Val)
    requires Good(t, a) && Good(t, b) && Composite(t) && !Mixed(t)
    ensures LengthOf(a) == LengthOf(b)
  {
  }

  /** Below the mixing step: equal tree roots over values of one length. */
  lemma {:induction false} TreeOfValueBinds(h: Hash, t: Ty, a: Val, b: Val)
    requires Good(t, a) && Good(t, b) && Composite(t) && LengthOf(a) == LengthOf(b)
    requires MerkleRoot(h, Leaves(h, t, a), LeafLimit(t)) == MerkleRoot(h, Leaves(h, t, b), LeafLimit(t))
    ensures a == b || ValuesCollide(h, t, a, b)
    decreases t, 0
  {
    hide MerkleRoot, ValuesCollide, FlatBytes, PackBytes, LeafLimit, Depth, Padded, TreesCollide, Pow2;
    var la, lb, limit := Leaves(h, t, a), Leaves(h, t, b), LeafLimit(t);
    if !Nested(t) {
      FlatLength(t, a, b);
    }
    LeavesBinding(h, la, lb, limit);
    if TreesCollide(h, Padded(la, limit), Padded(lb, limit), Depth(limit)) {
      TreeCollisionLifts(h, t, a, b);
    } else if !Nested(t) {
      PackingInjective(FlatBytes(t, a), FlatBytes(t, b));
      FlatInjective(t, a, b);
    } else if a != b {
      var i :| 0 <= i < |a.items| && a.items[i] != b.items[i];
      PartIsGood(t, a, i);
      PartIsGood(t, b, i);
      assert la[i] == lb[i];
      RootBinds(h, PartTy(t, i), a.items[i], b.items[i]);
      PartCollisionLifts(h, t, a, b, i);
    }
  }

  /** Equal roots of two values of one type: equal values, or an explicit collision. */
  lemma {:induction false} RootBinds(h: Hash, t: Ty, a: Val, b: Val)
    requires Good(t, a) && Good(t, b) && Root(h, t, a) == Root(h, t, b)
    ensures a == b || ValuesCollide(h, t, a, b)
    decreases t, 1
  {
    hide MerkleRoot, ValuesCollide, FlatBytes, PackBytes, LeafLimit, LengthChunk, HasType, Rootable, Hosted, Leaves;
    if !Composite(t) {
      BasicBinding(t, a, b);
    } else if !Mixed(t) {
      LengthIsFixed(t, a, b);
      TreeOfValueBinds(h, t, a, b);
    } else {
      LengthFits(t, a);
      LengthFits(t, b);
      var ra := MerkleRoot(h, Leaves(h, t, a), LeafLimit(t));
      var rb := MerkleRoot(h, Leaves(h, t, b), LeafLimit(t));
      if Collision(h, ra, LengthChunk(LengthOf(a)), rb, LengthChunk(LengthOf(b))) {
        MixCollides(h, t, a, b);
      } else {
        LengthChunkInjective(LengthOf(a), LengthOf(b));
        TreeOfValueBinds(h, t, a, b);
      }
    }
  }

  lemma LengthFits(t: Ty, v: Val)
    requires Good(t, v) && Mixed(t)
    ensures LengthOf(v) <= U64_MAX
  {
  }

  lemma MixCollides(h: Hash, t: Ty, a: Val, b: Val)
    requires Good(t, a) && Good(t, b) && Composite(t) && Mixed(t)
    requires LengthOf(a) <= U64_MAX && LengthOf(b) <= U64_MAX
    requires Collision(h, MerkleRoot(h, Leaves(h, t, a), LeafLimit(t)), LengthChunk(LengthOf(a)),
                       MerkleRoot(h, Leaves(h, t, b), LeafLimit(t)), LengthChunk(LengthOf(b)))
    ensures ValuesCollide(h, t, a, b)
  {
    hide Good, Leaves, Siblings, Padded, Collision, LeafLimit, Depth, Pow2, MerkleRoot, LengthChunk;
    var ra := MerkleRoot(h, Leaves(h, t, a), LeafLimit(t));
    var rb := MerkleRoot(h, Leaves(h, t, b), LeafLimit(t));
    assert Hashed(h, t, a, ra, LengthChunk(LengthOf(a)));
    assert Hashed(h, t, b, rb, LengthChunk(LengthOf(b)));
  }

  // ---------------------------------------------------------------------------
  // The computation
  // ---------------------------------------------------------------------------

  /** The table of zero hashes merkleization reads. */
  ghost predicate IsTable(h: Hash, zeroHashes: array<Chunk>)
    reads zeroHashes
  {
    zeroHashes.Length == MAX_TREE_HEIGHT + 1
    && forall d :: 0 <= d <= MAX_TREE_HEIGHT ==> zeroHashes[d] == Zero(h, d)
  }

  lemma WordFitsTable()
    ensures U64_MAX <= Pow2(MAX_TREE_HEIGHT)
  {
    hide Pow2;
    ByteBound();
    PowersMultiply(8, 8);
    PowersMultiply(16, 16);
    PowersMultiply(32, 32);
  }

  lemma {:induction false} PowersMultiply(a: nat, b: nat)
    ensures Pow2(a + b) == Pow2(a) * Pow2(b)
  {
    if b > 0 {
      PowersMultiply(a, b - 1);
    }
  }

  method MerkleizeBytes(h: Hash, zeroHashes: array<Chunk>, bytes: seq<Byte>, byteLimit: nat) returns (root: Chunk)
    requires IsTable(h, zeroHashes) && |bytes| <= byteLimit <= U64_MAX
    ensures |PackBytes(bytes)| <= ChunkLimit(byteLimit)
    ensures root == MerkleRoot(h, PackBytes(bytes), ChunkLimit(byteLimit))
  {
    hide MerkleRoot, PackBytes, Zero, Pow2;
    WordFitsTable();
    ChunksFit(bytes, byteLimit);
    root := MerkleizeRoots(h, zeroHashes, PackBytes(bytes), ChunkLimit(byteLimit));
  }

  ghost predicate PartsGood(t: Ty, v: Val)
    requires Nested(t) && HasType(t, v)
  {
    forall i :: 0 <= i < |v.items| ==> Rootable(PartTy(t, i), v.items[i])
  }

  /** The roots of all parts, or nothing if one of them has none. */
  method PartRoots(h: Hash, zeroHashes: array<Chunk>, t: Ty, v: Val) returns (roots: Option<seq<Chunk>>)
    requires IsTable(h, zeroHashes) && Nested(t) && Hosted(t) && HasType(t, v)
    ensures roots.Some? <==> PartsGood(t, v)
    ensures roots.Some? ==> |roots.value| == |v.items|
    ensures roots.Some? ==> forall i :: 0 <= i < |v.items| ==> roots.value[i] == Root(h, PartTy(t, i), v.items[i])
    decreases t, 0
  {
    hide Root, Rootable;
    var done: seq<Chunk> := [];
    for k := 0 to |v.items|
      invariant |done| == k
      invariant forall i :: 0 <= i < k ==> Rootable(PartTy(t, i), v.items[i])
      invariant forall i :: 0 <= i < k ==> done[i] == Root(h, PartTy(t, i), v.items[i])
    {
      var root := ComputeRoot(h, zeroHashes, PartTy(t, k), v.items[k]);
      if root.None? {
        return None;
      }
      done := done + [root.value];
    }
    roots := Some(done);
  }

  function CollectionLimit(t: Ty): nat
    requires t.Vector? || t.List?
  {
    if t.Vector? then t.length else t.limit
  }

  /** `collection_root`: element roots, or packed encodings of basic elements. */
  method CollectionRoot(h: Hash, zeroHashes: array<Chunk>, t: Ty, v: Val) returns (root: Option<Chunk>)
    requires IsTable(h, zeroHashes) && (t.Vector? || t.List?) && Hosted(t) && HasType(t, v)
    requires |v.items| <= CollectionLimit(t) && (t.Vector? ==> |v.items| == t.length)
    ensures root.Some? <==> Rootable(t, v)
    ensures root.Some? ==> root.value == MerkleRoot(h, Leaves(h, t, v), LeafLimit(t))
    decreases t, 1
  {
    hide Root, MerkleRoot, PackBytes, PackedBasics, Pow2, Zero;
    if Composite(t.elem) {
      var roots := PartRoots(h, zeroHashes, t, v);
      CollectionRootable(t, v);
      if roots.None? {
        return None;
      }
      assert roots.value == Leaves(h, t, v);
      WordFitsTable();
      var r := MerkleizeRoots(h, zeroHashes, roots.value, CollectionLimit(t));
      return Some(r);
    }
    var bytes := SerializeBasics(t.elem, v.items);
    if CollectionLimit(t) * Span(t.elem) > U64_MAX {
      return None;
    }
    ProductsSpread(|v.items|, CollectionLimit(t), Span(t.elem));
    var r := MerkleizeBytes(h, zeroHashes, bytes, CollectionLimit(t) * Span(t.elem));
    return Some(r);
  }

  lemma CollectionRootable(t: Ty, v: Val)
    requires (t.Vector? || t.List?) && Composite(t.elem) && HasType(t, v)
    requires |v.items| <= CollectionLimit(t) && (t.Vector? ==> |v.items| == t.length)
    ensures Rootable(t, v) <==> PartsGood(t, v)
  {
    assert Rootable(t, v) <==> PartsRootable(t.elem, v.items, CollectionLimit(t));
  }

  method SerializeBasics(elem: Ty, values: seq<Val>) returns (bytes: seq<Byte>)
    requires !Composite(elem) && forall i :: 0 <= i < |values| ==> HasType(elem, values[i])
    ensures bytes == PackedBasics(elem, values)
  {
    var buffer := new Buffer();
    for k := 0 to |values|
      invariant buffer.bytes == PackedBasics(elem, values[..k])
    {
      assert values[..k + 1][..k] == values[..k];
      var written := Serialize(elem, values[k], buffer);
    }
    assert values[..|values|] == values;
    bytes := buffer.bytes;
  }

  /** `hash_tree_root`: refused exactly when the value has no root, else that root. */
  method ComputeRoot(h: Hash, zeroHashes: array<Chunk>, t: Ty, v: Val) returns (root: Option<Chunk>)
    requires IsTable(h, zeroHashes) && Hosted(t) && HasType(t, v)
    ensures root.Some? <==> Rootable(t, v)
    ensures root.Some? ==> root.value == Root(h, t, v)
    decreases t, 2
  {
    hide MerkleRoot, PackBytes, PackedBasics, Pow2, Zero, Pack, Packed, LeBytes, ChunkAt, LengthChunk;
    match t
    case Uint(width) =>
      return if width > BYTES_PER_CHUNK then None else Some(ChunkAt(LeBytes(v.x, width), 0));
    case Boolean =>
      return Some(ChunkAt([if v.b then 1 else 0], 0));
    case ByteArray(length) =>
      var r := MerkleizeBytes(h, zeroHashes, v.bytes, length);
      return Some(r);
    case Bitvector(length) =>
      var r := PackedBitsRoot(h, zeroHashes, v.bits, length);
      return Some(r);
    case Bitlist(limit) =>
      if |v.bits| > limit {
        return None;
      }
      var r := PackedBitsRoot(h, zeroHashes, v.bits, limit);
      return Some(MixInLength(h, r, |v.bits|));
    case Vector(_, length) =>
      if |v.items| != length {
        return None;
      }
      root := CollectionRoot(h, zeroHashes, t, v);
    case List(_, limit) =>
      if |v.items| > limit {
        return None;
      }
      var r := CollectionRoot(h, zeroHashes, t, v);
      if r.None? {
        return None;
      }
      return Some(MixInLength(h, r.value, |v.items|));
    case Container(_) =>
      root := ContainerRoot(h, zeroHashes, t, v);
  }

  method PackedBitsRoot(h: Hash, zeroHashes: array<Chunk>, bits: seq<bool>, limit: nat) returns (root: Chunk)
    requires IsTable(h, zeroHashes) && |bits| <= limit <= U64_MAX
    ensures |PackBytes(Pack(bits))| <= ChunkLimit(ByteLen(limit))
    ensures root == MerkleRoot(h, PackBytes(Pack(bits)), ChunkLimit(ByteLen(limit)))
  {
    hide MerkleRoot, PackBytes, Zero, Pack, Packed;
    var packed := PackBits(bits);
    PackedUnique(bits, packed, Pack(bits));
    PackGrows(bits, limit);
    root := MerkleizeBytes(h, zeroHashes, packed, ByteLen(limit));
  }

  method ContainerRoot(h: Hash, zeroHashes: array<Chunk>, t: Ty, v: Val) returns (root: Option<Chunk>)
    requires IsTable(h, zeroHashes) && t.Container? && Hosted(t) && HasType(t, v)
    ensures root.Some? <==> Rootable(t, v)
    ensures root.Some? ==> root.value == Root(h, t, v)
    decreases t, 1
  {
    hide MerkleRoot, Pow2, Zero;
    var roots := PartRoots(h, zeroHashes, t, v);
    if roots.None? {
      return None;
    }
    assert roots.value == Leaves(h, t, v);
    WordFitsTable();
    var r := MerkleizeRoots(h, zeroHashes, roots.value, |roots.value|);
    return Some(r);
  }
}
