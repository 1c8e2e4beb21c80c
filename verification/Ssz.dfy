/**
  * SSZ over a universe of types. `Encode` and `Decode` say what the codec computes; the
  * two theorems are that decoding inverts encoding, and that only canonical bytes decode.
  */
module Ssz {
  import opened Primitives
  import opened SszBits

  datatype Ty =
    | Uint(width: nat)
    | Boolean
    | ByteArray(length: nat)
    | Bitvector(length: nat)
    | Bitlist(limit: nat)
    | Vector(elem: Ty, length: nat)
    | List(elem: Ty, limit: nat)
    | Container(fields: seq<Ty>)

  datatype Val =
    | Number(x: nat)
    | Truth(b: bool)
    | Blob(bytes: seq<Byte>)
    | Bits(bits: seq<bool>)
    | Items(items: seq<Val>)

  const BYTES_PER_LENGTH_OFFSET: nat := 4
  const OFFSET_LIMIT: nat := 0x1_0000_0000

  // ---------------------------------------------------------------------------
  // Layout
  // ---------------------------------------------------------------------------

  predicate Variable(t: Ty) {
    match t
    case Bitlist(_) => true
    case List(_, _) => true
    case Vector(elem, _) => Variable(elem)
    case Container(fields) => AnyVariable(fields)
    case _ => false
  }

  predicate AnyVariable(ts: seq<Ty>) {
    ts != [] && (Variable(ts[0]) || AnyVariable(ts[1..]))
  }

  /** `size_hint`: the encoded length of a fixed-size type. */
  function Span(t: Ty): nat {
    match t
    case Uint(width) => width
    case Boolean => 1
    case ByteArray(length) => length
    case Bitvector(length) => ByteLen(length)
    case Bitlist(_) => BYTES_PER_LENGTH_OFFSET
    case List(_, _) => BYTES_PER_LENGTH_OFFSET
    case Vector(elem, length) => length * (if Variable(elem) then BYTES_PER_LENGTH_OFFSET else Span(elem))
    case Container(fields) => Spans(fields)
  }

  /** What a field takes of its container's fixed section. */
  function Slot(t: Ty): nat {
    if Variable(t) then BYTES_PER_LENGTH_OFFSET else Span(t)
  }

  function Spans(ts: seq<Ty>): nat {
    if ts == [] then 0
    else (if Variable(ts[0]) then BYTES_PER_LENGTH_OFFSET else Span(ts[0])) + Spans(ts[1..])
  }

  /** Elements of zero size are not supported in lists and vectors. */
  ghost predicate Supported(t: Ty) {
    match t
    case Vector(elem, _) => Supported(elem) && Slot(elem) > 0
    case List(elem, _) => Supported(elem) && Slot(elem) > 0
    case Container(fields) => forall i :: 0 <= i < |fields| ==> Supported(fields[i])
    case _ => true
  }

  ghost predicate AllSupported(ts: seq<Ty>) {
    forall i :: 0 <= i < |ts| ==> Supported(ts[i])
  }

  /** The shapes the host language's types rule in; lengths are the codec's business. */
  ghost predicate HasType(t: Ty, v: Val) {
    match t
    case Uint(width) => v.Number? && v.x < Pow256(width)
    case Boolean => v.Truth?
    case ByteArray(length) => v.Blob? && |v.bytes| == length
    case Bitvector(length) => v.Bits? && |v.bits| == length
    case Bitlist(_) => v.Bits?
    case Vector(elem, _) => v.Items? && forall i :: 0 <= i < |v.items| ==> HasType(elem, v.items[i])
    case List(elem, _) => v.Items? && forall i :: 0 <= i < |v.items| ==> HasType(elem, v.items[i])
    case Container(fields) =>
      v.Items? && |v.items| == |fields| && forall i :: 0 <= i < |fields| ==> HasType(fields[i], v.items[i])
  }

  ghost predicate AllTyped(ts: seq<Ty>, vs: seq<Val>) {
    |ts| == |vs| && forall i :: 0 <= i < |ts| ==> HasType(ts[i], vs[i])
  }

  function Height(t: Ty): nat {
    match t
    case Vector(elem, _) => 1 + Height(elem)
    case List(elem, _) => 1 + Height(elem)
    case Container(fields) => 1 + Heights(fields)
    case _ => 0
  }

  function Heights(ts: seq<Ty>): nat {
    if ts == [] then 0 else Max(Height(ts[0]), Heights(ts[1..]))
  }

  /** A homogeneous sequence is a container with equal fields. */
  function Repeat(t: Ty, n: nat): (ts: seq<Ty>)
    ensures |ts| == n && forall i :: 0 <= i < n ==> ts[i] == t
    ensures Heights(ts) <= Height(t)
  {
    if n == 0 then []
    else
      var ts := [t] + Repeat(t, n - 1);
      assert ts[1..] == Repeat(t, n - 1);
      ts
  }

  lemma {:induction false} RepeatSpans(t: Ty, n: nat)
    ensures Spans(Repeat(t, n)) == n * Slot(t)
    ensures AnyVariable(Repeat(t, n)) <==> n > 0 && Variable(t)
  {
    if n > 0 {
      RepeatSpans(t, n - 1);
      assert Repeat(t, n)[1..] == Repeat(t, n - 1);
      assert n * Slot(t) == (n - 1) * Slot(t) + Slot(t);
    }
  }

  // ---------------------------------------------------------------------------
  // Encoding
  // ---------------------------------------------------------------------------

  ghost function Encode(t: Ty, v: Val): Option<seq<Byte>>
    requires HasType(t, v)
    decreases Height(t), 0, 0
  {
    match t
    case Uint(width) => Some(LeBytes(v.x, width))
    case Boolean => Some([if v.b then 1 else 0])
    case ByteArray(_) => Some(v.bytes)
    case Bitvector(_) => Some(Pack(v.bits))
    case Bitlist(limit) => if |v.bits| > limit then None else Some(Pack(v.bits + [true]))
    case Vector(elem, length) => if |v.items| != length then None else EncodeAll(Repeat(elem, length), v.items)
    case List(elem, limit) => if |v.items| > limit then None else EncodeAll(Repeat(elem, |v.items|), v.items)
    case Container(fields) => EncodeAll(fields, v.items)
  }

  /** A fixed section followed by the variable parts its offsets point to. */
  ghost function EncodeAll(ts: seq<Ty>, vs: seq<Val>): Option<seq<Byte>>
    requires AllTyped(ts, vs)
    decreases Heights(ts), 2, 0
  {
    var (fixed, variable) :- EncodeFields(ts, vs, Spans(ts));
    Some(fixed + variable)
  }

  /** The two sections of the fields, with the next variable part going to `offset`. */
  ghost function EncodeFields(ts: seq<Ty>, vs: seq<Val>, offset: nat): Option<(seq<Byte>, seq<Byte>)>
    requires AllTyped(ts, vs)
    decreases Heights(ts), 1, |ts|
  {
    if ts == [] then Some(([], []))
    else if Variable(ts[0]) then
      if offset >= OFFSET_LIMIT then None
      else
        var part :- Encode(ts[0], vs[0]);
        var (fixed, variable) :- EncodeFields(ts[1..], vs[1..], offset + |part|);
        Some((LeBytes(offset, BYTES_PER_LENGTH_OFFSET) + fixed, part + variable))
    else
      var part :- Encode(ts[0], vs[0]);
      var (fixed, variable) :- EncodeFields(ts[1..], vs[1..], offset);
      Some((part + fixed, variable))
  }

  // ---------------------------------------------------------------------------
  // Decoding
  // ---------------------------------------------------------------------------

  function ReadOffsetAt(bytes: seq<Byte>, cursor: nat): Option<nat> {
    if cursor + BYTES_PER_LENGTH_OFFSET > |bytes| then None
    else Some(FromLe(bytes[cursor..cursor + BYTES_PER_LENGTH_OFFSET]))
  }

  function CountVariable(ts: seq<Ty>): nat {
    if ts == [] then 0 else (if Variable(ts[0]) then 1 else 0) + CountVariable(ts[1..])
  }

  /** The offset words of the fixed section from `cursor` on; refused if it runs out. */
  function ReadOffsets(ts: seq<Ty>, bytes: seq<Byte>, cursor: nat): (r: Option<seq<nat>>)
    ensures r.Some? ==> |r.value| == CountVariable(ts) && cursor + Spans(ts) <= Max(cursor, |bytes|)
  {
    if ts == [] then Some([])
    else if Variable(ts[0]) then
      var offset :- ReadOffsetAt(bytes, cursor);
      var rest :- ReadOffsets(ts[1..], bytes, cursor + BYTES_PER_LENGTH_OFFSET);
      Some([offset] + rest)
    else if cursor + Span(ts[0]) > |bytes| then None
    else ReadOffsets(ts[1..], bytes, cursor + Span(ts[0]))
  }

  predicate Monotone(bounds: seq<nat>) {
    forall i, j :: 0 <= i <= j < |bounds| ==> bounds[i] <= bounds[j]
  }

  /** The first part starts where the fixed section ends and the rest follow in order. */
  function ValidBounds(offsets: seq<nat>, fixedEnd: nat, length: nat): (r: Option<seq<nat>>)
    ensures r.Some? ==> Monotone(r.value) && r.value == offsets + [length]
  {
    if (offsets + [length])[0] == fixedEnd && Monotone(offsets + [length]) then Some(offsets + [length]) else None
  }

  ghost function Decode(t: Ty, bytes: seq<Byte>): Option<Val>
    requires Supported(t)
    decreases Height(t), 0, 0
  {
    match t
    case Uint(width) => if |bytes| != width then None else Some(Number(FromLe(bytes)))
    case Boolean => if |bytes| != 1 || bytes[0] > 1 then None else Some(Truth(bytes[0] == 1))
    case ByteArray(length) => if |bytes| != length then None else Some(Blob(bytes))
    case Bitvector(length) => var bits :- UnpackBitvector(bytes, length); Some(Bits(bits))
    case Bitlist(limit) => var bits :- UnpackBitlist(bytes, limit); Some(Bits(bits))
    case Vector(elem, length) => DecodeAll(Repeat(elem, length), bytes)
    case List(elem, limit) =>
      var count :- ListCount(elem, bytes);
      if count > limit then None else DecodeAll(Repeat(elem, count), bytes)
    case Container(fields) => DecodeAll(fields, bytes)
  }

  /** The element count a list encoding declares, before anything else is checked. */
  ghost function ListCount(elem: Ty, bytes: seq<Byte>): Option<nat>
    requires Slot(elem) > 0
  {
    if !Variable(elem) then
      if |bytes| % Span(elem) != 0 then None else Some(|bytes| / Span(elem))
    else if bytes == [] then Some(0)
    else
      var first :- ReadOffsetAt(bytes, 0);
      if first == 0 || first % BYTES_PER_LENGTH_OFFSET != 0 then None else Some(first / BYTES_PER_LENGTH_OFFSET)
  }

  ghost function DecodeAll(ts: seq<Ty>, bytes: seq<Byte>): Option<Val>
    requires AllSupported(ts)
    decreases Heights(ts), 2, 0
  {
    var offsets :- ReadOffsets(ts, bytes, 0);
    var bounds :- ValidBounds(offsets, Spans(ts), |bytes|);
    var items :- DecodeFields(ts, bytes, 0, bounds);
    Some(Items(items))
  }

  /** Each field from its own range: the fixed section at `cursor`, or between bounds. */
  ghost function DecodeFields(ts: seq<Ty>, bytes: seq<Byte>, cursor: nat, bounds: seq<nat>): Option<seq<Val>>
    requires AllSupported(ts) && cursor + Spans(ts) <= |bytes|
    requires Monotone(bounds) && |bounds| == CountVariable(ts) + 1 && bounds[|bounds| - 1] == |bytes|
    decreases Heights(ts), 1, |ts|
  {
    if ts == [] then Some([])
    else if Variable(ts[0]) then
      var item :- Decode(ts[0], bytes[bounds[0]..bounds[1]]);
      var rest :- DecodeFields(ts[1..], bytes, cursor + BYTES_PER_LENGTH_OFFSET, bounds[1..]);
      Some([item] + rest)
    else
      var item :- Decode(ts[0], bytes[cursor..cursor + Span(ts[0])]);
      var rest :- DecodeFields(ts[1..], bytes, cursor + Span(ts[0]), bounds);
      Some([item] + rest)
  }
}
