/** The codec's two laws, by induction over arbitrarily nested types. */
module SszTheorems {
  import opened Primitives
  import opened Arithmetic
  import opened SszBits
  import opened Ssz

  // ---------------------------------------------------------------------------
  // Fixed-size types encode to their declared size
  // ---------------------------------------------------------------------------

  /** A fixed-size type always encodes to exactly `Span` bytes. */
  lemma {:induction false} FixedLength(t: Ty, v: Val)
    requires HasType(t, v) && !Variable(t) && Encode(t, v).Some?
    ensures |Encode(t, v).value| == Span(t)
    decreases Height(t), 0, 0
  {
    hide Pack, LeBytes, Pow256, AnyVariable, Spans, EncodeFields;
    match t
    case Vector(elem, length) =>
      RepeatSpans(elem, length);
      FieldsLength(Repeat(elem, length), v.items, Spans(Repeat(elem, length)));
    case Container(fields) =>
      FieldsLength(fields, v.items, Spans(fields));
    case _ =>
  }

  lemma {:induction false} FieldsLength(ts: seq<Ty>, vs: seq<Val>, offset: nat)
    requires AllTyped(ts, vs) && EncodeFields(ts, vs, offset).Some?
    ensures |EncodeFields(ts, vs, offset).value.0| == Spans(ts)
    ensures !AnyVariable(ts) ==> EncodeFields(ts, vs, offset).value.1 == []
    decreases Heights(ts), 1, |ts|
  {
    hide HasType, Encode, Variable, Span;
    if ts != [] {
      var part := Encode(ts[0], vs[0]).value;
      if Variable(ts[0]) {
        FieldsLength(ts[1..], vs[1..], offset + |part|);
      } else {
        FixedLength(ts[0], vs[0]);
        FieldsLength(ts[1..], vs[1..], offset);
      }
    }
  }

  // ---------------------------------------------------------------------------
  // Canonicity
  // ---------------------------------------------------------------------------

  /** Bytes that decode are exactly the encoding of what they decode to. */
  lemma {:induction false} Canonical(t: Ty, bytes: seq<Byte>)
    requires Supported(t) && Decode(t, bytes).Some?
    ensures HasType(t, Decode(t, bytes).value)
    ensures Encode(t, Decode(t, bytes).value) == Some(bytes)
    decreases Height(t), 0, 0
  {
    hide Pack, LeBytes, FromLe, Pow256, DecodeAll, EncodeAll, Packed, UnpackBitvector, UnpackBitlist, ListCount;
    match t
    case Uint(width) =>
      FromLeInRange(bytes);
      LeCanonical(bytes);
    case Boolean =>
      assert [bytes[0]] == bytes;
    case ByteArray(_) =>
    case Bitvector(length) =>
      var bits := UnpackBitvector(bytes, length).value;
      BitvectorCodec(bytes, length, bits);
      PackedUnique(bits, bytes, Pack(bits));
    case Bitlist(limit) =>
      var bits := UnpackBitlist(bytes, limit).value;
      BitlistCodec(bytes, limit, bits);
      PackedUnique(bits + [true], bytes, Pack(bits + [true]));
    case Vector(elem, length) =>
      CanonicalAll(Repeat(elem, length), bytes);
    case List(elem, limit) =>
      CanonicalAll(Repeat(elem, ListCount(elem, bytes).value), bytes);
    case Container(fields) =>
      CanonicalAll(fields, bytes);
  }

  lemma {:induction false} CanonicalAll(ts: seq<Ty>, bytes: seq<Byte>)
    requires AllSupported(ts) && DecodeAll(ts, bytes).Some?
    ensures var v := DecodeAll(ts, bytes).value;
      v.Items? && AllTyped(ts, v.items) && EncodeAll(ts, v.items) == Some(bytes)
    decreases Heights(ts), 2, 0
  {
    hide HasType, Supported, DecodeFields, EncodeFields, ReadOffsets, Spans;
    var offsets := ReadOffsets(ts, bytes, 0).value;
    var bounds := ValidBounds(offsets, Spans(ts), |bytes|).value;
    assert bounds[..|bounds| - 1] == offsets;
    CanonicalFields(ts, bytes, 0, bounds);
    assert bytes[..Spans(ts)] + bytes[Spans(ts)..] == bytes;
  }

  lemma {:induction false} CanonicalFields(ts: seq<Ty>, bytes: seq<Byte>, cursor: nat, bounds: seq<nat>)
    requires AllSupported(ts) && cursor + Spans(ts) <= |bytes|
    requires Monotone(bounds) && |bounds| == CountVariable(ts) + 1 && bounds[|bounds| - 1] == |bytes|
    requires ReadOffsets(ts, bytes, cursor) == Some(bounds[..|bounds| - 1])
    requires DecodeFields(ts, bytes, cursor, bounds).Some?
    ensures var vs := DecodeFields(ts, bytes, cursor, bounds).value;
      && AllTyped(ts, vs)
      && EncodeFields(ts, vs, bounds[0]) == Some((bytes[cursor..cursor + Spans(ts)], bytes[bounds[0]..]))
    decreases Heights(ts), 1, |ts|, 1
  {
    hide HasType, Supported, Encode, Decode, Variable, Span, Pow256, FromLe, LeBytes, ReadOffsetAt;
    if ts == [] {
      assert bytes[cursor..cursor] == [] && bytes[bounds[0]..] == [];
    } else if Variable(ts[0]) {
      CanonicalVariable(ts, bytes, cursor, bounds);
    } else {
      CanonicalFixed(ts, bytes, cursor, bounds);
    }
  }

  lemma {:induction false} CanonicalFixed(ts: seq<Ty>, bytes: seq<Byte>, cursor: nat, bounds: seq<nat>)
    requires ts != [] && !Variable(ts[0])
    requires AllSupported(ts) && cursor + Spans(ts) <= |bytes|
    requires Monotone(bounds) && |bounds| == CountVariable(ts) + 1 && bounds[|bounds| - 1] == |bytes|
    requires ReadOffsets(ts, bytes, cursor) == Some(bounds[..|bounds| - 1])
    requires DecodeFields(ts, bytes, cursor, bounds).Some?
    ensures var vs := DecodeFields(ts, bytes, cursor, bounds).value;
      && AllTyped(ts, vs)
      && EncodeFields(ts, vs, bounds[0]) == Some((bytes[cursor..cursor + Spans(ts)], bytes[bounds[0]..]))
    decreases Heights(ts), 1, |ts|, 0
  {
    hide HasType, Supported, Encode, Decode, Variable, Span, Pow256, FromLe, LeBytes, ReadOffsetAt;
    var vs := DecodeFields(ts, bytes, cursor, bounds).value;
    var middle := cursor + Span(ts[0]);
    Canonical(ts[0], bytes[cursor..middle]);
    CanonicalFields(ts[1..], bytes, middle, bounds);
    assert vs[1..] == DecodeFields(ts[1..], bytes, middle, bounds).value;
    Glue(bytes, cursor, middle, cursor + Spans(ts));
  }

  lemma {:induction false} CanonicalVariable(ts: seq<Ty>, bytes: seq<Byte>, cursor: nat, bounds: seq<nat>)
    requires ts != [] && Variable(ts[0])
    requires AllSupported(ts) && cursor + Spans(ts) <= |bytes|
    requires Monotone(bounds) && |bounds| == CountVariable(ts) + 1 && bounds[|bounds| - 1] == |bytes|
    requires ReadOffsets(ts, bytes, cursor) == Some(bounds[..|bounds| - 1])
    requires DecodeFields(ts, bytes, cursor, bounds).Some?
    ensures var vs := DecodeFields(ts, bytes, cursor, bounds).value;
      && AllTyped(ts, vs)
      && EncodeFields(ts, vs, bounds[0]) == Some((bytes[cursor..cursor + Spans(ts)], bytes[bounds[0]..]))
    decreases Heights(ts), 1, |ts|, 0
  {
    hide HasType, Supported, Encode, Decode, Variable, Span, Pow256, FromLe, LeBytes, ReadOffsetAt;
    var vs := DecodeFields(ts, bytes, cursor, bounds).value;
    var middle := cursor + BYTES_PER_LENGTH_OFFSET;
    var part := bytes[bounds[0]..bounds[1]];
    Canonical(ts[0], part);
    OffsetWord(bytes, cursor);
    assert bounds[..|bounds| - 1][1..] == bounds[1..][..|bounds[1..]| - 1];
    CanonicalFields(ts[1..], bytes, middle, bounds[1..]);
    assert vs[1..] == DecodeFields(ts[1..], bytes, middle, bounds[1..]).value;
    assert part + bytes[bounds[1]..] == bytes[bounds[0]..];
    Glue(bytes, cursor, middle, cursor + Spans(ts));
  }

  lemma Glue(bytes: seq<Byte>, a: nat, b: nat, c: nat)
    requires a <= b <= c <= |bytes|
    ensures bytes[a..b] + bytes[b..c] == bytes[a..c]
  {
  }

  /** An offset word read back is in range and is its own little-endian form. */
  lemma OffsetWord(bytes: seq<Byte>, cursor: nat)
    requires cursor + BYTES_PER_LENGTH_OFFSET <= |bytes|
    ensures ReadOffsetAt(bytes, cursor).Some? && ReadOffsetAt(bytes, cursor).value < OFFSET_LIMIT
    ensures LeBytes(ReadOffsetAt(bytes, cursor).value, BYTES_PER_LENGTH_OFFSET)
         == bytes[cursor..cursor + BYTES_PER_LENGTH_OFFSET]
  {
    var word := bytes[cursor..cursor + BYTES_PER_LENGTH_OFFSET];
    FromLeInRange(word);
    LeCanonical(word);
    OffsetRange();
  }

  lemma OffsetRange()
    ensures Pow256(BYTES_PER_LENGTH_OFFSET) == OFFSET_LIMIT
  {
    assert Pow256(2) == 65536;
  }

  /** So no two byte strings decode to the same value. */
  lemma DecodeInjective(t: Ty, a: seq<Byte>, b: seq<Byte>)
    requires Supported(t) && Decode(t, a).Some? && Decode(t, a) == Decode(t, b)
    ensures a == b
  {
    hide Encode, Decode, HasType, Supported;
    Canonical(t, a);
    Canonical(t, b);
  }

  // ---------------------------------------------------------------------------
  // Round trip
  // ---------------------------------------------------------------------------

  /** Whatever encodes decodes to itself. */
  lemma {:induction false} RoundTrip(t: Ty, v: Val)
    requires Supported(t) && HasType(t, v) && Encode(t, v).Some?
    ensures Decode(t, Encode(t, v).value) == Some(v)
    decreases Height(t), 0, 0
  {
    hide Pack, LeBytes, FromLe, Pow256, DecodeAll, EncodeAll, Packed, UnpackBitvector, UnpackBitlist, ListCount;
    hide Spans, AnyVariable;
    var bytes := Encode(t, v).value;
    match t
    case Uint(width) => LeRoundTrip(v.x, width);
    case Boolean =>
    case ByteArray(_) =>
    case Bitvector(length) => BitvectorCodec(bytes, length, v.bits);
    case Bitlist(limit) => BitlistCodec(bytes, limit, v.bits);
    case Vector(elem, length) => RoundTripAll(Repeat(elem, length), v.items);
    case List(elem, limit) =>
      RoundTripAll(Repeat(elem, |v.items|), v.items);
      CountIsDeclared(elem, v.items);
    case Container(fields) => RoundTripAll(fields, v.items);
  }

  lemma {:induction false} RoundTripAll(ts: seq<Ty>, vs: seq<Val>)
    requires AllSupported(ts) && AllTyped(ts, vs) && EncodeAll(ts, vs).Some?
    ensures DecodeAll(ts, EncodeAll(ts, vs).value) == Some(Items(vs))
    decreases Heights(ts), 2, 0
  {
    hide HasType, Supported, DecodeFields, EncodeFields, ReadOffsets, Spans;
    var (fixed, variable) := EncodeFields(ts, vs, Spans(ts)).value;
    FieldsLength(ts, vs, Spans(ts));
    RoundTripFields(ts, vs, Spans(ts), fixed + variable, 0);
  }

  lemma {:induction false} RoundTripFields(ts: seq<Ty>, vs: seq<Val>, offset: nat, bytes: seq<Byte>, cursor: nat)
    requires AllSupported(ts) && AllTyped(ts, vs) && EncodeFields(ts, vs, offset).Some?
    requires var (fixed, variable) := EncodeFields(ts, vs, offset).value;
      && cursor + |fixed| <= |bytes| && bytes[cursor..cursor + |fixed|] == fixed
      && offset <= |bytes| && bytes[offset..] == variable
    ensures cursor + Spans(ts) <= |bytes| && ReadOffsets(ts, bytes, cursor).Some?
    ensures var bounds := ReadOffsets(ts, bytes, cursor).value + [|bytes|];
      && bounds[0] == offset && Monotone(bounds)
      && DecodeFields(ts, bytes, cursor, bounds) == Some(vs)
    decreases Heights(ts), 1, |ts|, 1
  {
    hide HasType, Supported, Encode, Decode, Variable, Span, Pow256, FromLe, LeBytes;
    FieldsLength(ts, vs, offset);
    if ts != [] {
      var part := Encode(ts[0], vs[0]).value;
      RoundTrip(ts[0], vs[0]);
      if Variable(ts[0]) {
        RoundTripVariable(ts, vs, offset, bytes, cursor, part);
      } else {
        FixedLength(ts[0], vs[0]);
        RoundTripFixed(ts, vs, offset, bytes, cursor, part);
      }
    }
  }

  lemma {:induction false} RoundTripFixed(
    ts: seq<Ty>, vs: seq<Val>, offset: nat, bytes: seq<Byte>, cursor: nat, part: seq<Byte>)
    requires ts != [] && AllSupported(ts) && AllTyped(ts, vs) && !Variable(ts[0])
    requires Encode(ts[0], vs[0]) == Some(part) && |part| == Span(ts[0]) && Decode(ts[0], part) == Some(vs[0])
    requires EncodeFields(ts, vs, offset).Some?
    requires var (fixed, variable) := EncodeFields(ts, vs, offset).value;
      && cursor + |fixed| <= |bytes| && bytes[cursor..cursor + |fixed|] == fixed
      && offset <= |bytes| && bytes[offset..] == variable
    ensures cursor + Spans(ts) <= |bytes| && ReadOffsets(ts, bytes, cursor).Some?
    ensures var bounds := ReadOffsets(ts, bytes, cursor).value + [|bytes|];
      && bounds[0] == offset && Monotone(bounds)
      && DecodeFields(ts, bytes, cursor, bounds) == Some(vs)
    decreases Heights(ts), 1, |ts|, 0
  {
    hide HasType, Supported, Encode, Decode, Variable, Span, Pow256, FromLe, LeBytes;
    var (fixed, variable) := EncodeFields(ts, vs, offset).value;
    var (rest, others) := EncodeFields(ts[1..], vs[1..], offset).value;
    assert fixed == part + rest;
    assert bytes[cursor..cursor + |part|] == fixed[..|part|] == part;
    assert bytes[cursor + |part|..cursor + |part| + |rest|] == fixed[|part|..] == rest;
    RoundTripFields(ts[1..], vs[1..], offset, bytes, cursor + |part|);
    assert [vs[0]] + vs[1..] == vs;
  }

  lemma {:induction false} RoundTripVariable(
    ts: seq<Ty>, vs: seq<Val>, offset: nat, bytes: seq<Byte>, cursor: nat, part: seq<Byte>)
    requires ts != [] && AllSupported(ts) && AllTyped(ts, vs) && Variable(ts[0])
    requires Encode(ts[0], vs[0]) == Some(part) && Decode(ts[0], part) == Some(vs[0])
    requires EncodeFields(ts, vs, offset).Some?
    requires var (fixed, variable) := EncodeFields(ts, vs, offset).value;
      && cursor + |fixed| <= |bytes| && bytes[cursor..cursor + |fixed|] == fixed
      && offset <= |bytes| && bytes[offset..] == variable
    ensures cursor + Spans(ts) <= |bytes| && ReadOffsets(ts, bytes, cursor).Some?
    ensures var bounds := ReadOffsets(ts, bytes, cursor).value + [|bytes|];
      && bounds[0] == offset && Monotone(bounds)
      && DecodeFields(ts, bytes, cursor, bounds) == Some(vs)
    decreases Heights(ts), 1, |ts|, 0
  {
    hide HasType, Supported, Encode, Decode, Variable, Span, Pow256, FromLe, LeBytes;
    var (fixed, variable) := EncodeFields(ts, vs, offset).value;
    var (rest, others) := EncodeFields(ts[1..], vs[1..], offset + |part|).value;
    var word := LeBytes(offset, BYTES_PER_LENGTH_OFFSET);
    assert fixed == word + rest && variable == part + others;
    assert bytes[cursor..cursor + 4] == fixed[..4] == word;
    assert bytes[cursor + 4..cursor + 4 + |rest|] == fixed[4..] == rest;
    OffsetRange();
    LeRoundTrip(offset, BYTES_PER_LENGTH_OFFSET);
    assert bytes[offset..offset + |part|] == variable[..|part|] == part;
    assert bytes[offset + |part|..] == variable[|part|..] == others;
    RoundTripFields(ts[1..], vs[1..], offset + |part|, bytes, cursor + 4);
    var tail := ReadOffsets(ts[1..], bytes, cursor + 4).value + [|bytes|];
    var bounds := ReadOffsets(ts, bytes, cursor).value + [|bytes|];
    assert bounds == [offset] + tail && bounds[1..] == tail;
    assert [vs[0]] + vs[1..] == vs;
  }

  /** A list's encoding declares the number of elements it holds. */
  lemma CountIsDeclared(elem: Ty, vs: seq<Val>)
    requires Slot(elem) > 0 && AllSupported(Repeat(elem, |vs|)) && AllTyped(Repeat(elem, |vs|), vs)
    requires EncodeAll(Repeat(elem, |vs|), vs).Some?
    ensures ListCount(elem, EncodeAll(Repeat(elem, |vs|), vs).value) == Some(|vs|)
  {
    hide AllTyped, AllSupported, Variable, Span, Spans, AnyVariable, Repeat, EncodeAll, ReadOffsetAt;
    var n, ts := |vs|, Repeat(elem, |vs|);
    RepeatSpans(elem, n);
    if !Variable(elem) {
      EncodedLength(ts, vs);
      DivisionUnique(n, Span(elem), 0);
    } else if n == 0 {
      NothingToEncode(ts, vs);
    } else {
      FirstOffset(ts, vs, elem);
    }
  }

  lemma EncodedLength(ts: seq<Ty>, vs: seq<Val>)
    requires AllTyped(ts, vs) && EncodeAll(ts, vs).Some? && !AnyVariable(ts)
    ensures |EncodeAll(ts, vs).value| == Spans(ts)
  {
    hide HasType, EncodeFields, Spans, AnyVariable;
    FieldsLength(ts, vs, Spans(ts));
  }

  lemma NothingToEncode(ts: seq<Ty>, vs: seq<Val>)
    requires ts == [] && vs == []
    ensures EncodeAll(ts, vs) == Some([])
  {
    assert EncodeAll(ts, vs).value == [];
  }

  lemma FirstOffset(ts: seq<Ty>, vs: seq<Val>, elem: Ty)
    requires ts != [] && ts[0] == elem && Variable(elem) && AllTyped(ts, vs) && EncodeAll(ts, vs).Some?
    ensures |EncodeAll(ts, vs).value| >= BYTES_PER_LENGTH_OFFSET
    ensures ReadOffsetAt(EncodeAll(ts, vs).value, 0) == Some(Spans(ts))
  {
    hide HasType, Encode, Variable, Span, Spans, FromLe, LeBytes, Pow256;
    var bytes := EncodeAll(ts, vs).value;
    var word := LeBytes(Spans(ts), BYTES_PER_LENGTH_OFFSET);
    var (fixed, variable) := EncodeFields(ts, vs, Spans(ts)).value;
    assert word <= fixed;
    assert bytes[0..4] == word;
    OffsetRange();
    LeRoundTrip(Spans(ts), BYTES_PER_LENGTH_OFFSET);
  }
}
