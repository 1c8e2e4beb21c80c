/** The encoder as written: buffers that grow, and a running offset. */
module SszEncoder {
  import opened Primitives
  import opened SszBits
  import opened Ssz
  import opened SszTheorems

  /** A growing byte buffer. */
  class Buffer {
    var bytes: seq<Byte>

    constructor ()
      ensures bytes == []
    {
      bytes := [];
    }

    method Extend(more: seq<Byte>)
      modifies this
      ensures bytes == old(bytes) + more
    {
      bytes := bytes + more;
    }
  }

  lemma {:induction false} HeightBelow(ts: seq<Ty>, i: nat)
    requires i < |ts|
    ensures Height(ts[i]) <= Heights(ts)
  {
    if i > 0 {
      HeightBelow(ts[1..], i - 1);
    }
  }

  /** Sections already written, completed by those still to come. */
  ghost function Joined(fixed: seq<Byte>, variable: seq<Byte>, rest: Option<(seq<Byte>, seq<Byte>)>)
    : Option<(seq<Byte>, seq<Byte>)>
  {
    if rest.None? then None else Some((fixed + rest.value.0, variable + rest.value.1))
  }

  /** Writing the next field moves its bytes from the remainder to the written part. */
  lemma NextField(ts: seq<Ty>, vs: seq<Val>, i: nat, offset: nat, fixed: seq<Byte>, variable: seq<Byte>)
    requires AllTyped(ts, vs) && i < |ts|
    ensures var part := Encode(ts[i], vs[i]);
      Joined(fixed, variable, EncodeFields(ts[i..], vs[i..], offset)) ==
      if part.None? || (Variable(ts[i]) && offset >= OFFSET_LIMIT) then None
      else if Variable(ts[i]) then
        Joined(fixed + LeBytes(offset, BYTES_PER_LENGTH_OFFSET), variable + part.value,
               EncodeFields(ts[i + 1..], vs[i + 1..], offset + |part.value|))
      else Joined(fixed + part.value, variable, EncodeFields(ts[i + 1..], vs[i + 1..], offset))
  {
    hide HasType, Encode, Variable, LeBytes;
    assert ts[i..][1..] == ts[i + 1..] && vs[i..][1..] == vs[i + 1..];
    assert AllTyped(ts[i..], vs[i..]);
    var part := Encode(ts[i], vs[i]);
    var rest := EncodeFields(ts[i..], vs[i..], offset);
    if rest.Some? && Variable(ts[i]) {
      var (f, w) := EncodeFields(ts[i + 1..], vs[i + 1..], offset + |part.value|).value;
      var word := LeBytes(offset, BYTES_PER_LENGTH_OFFSET);
      assert fixed + (word + f) == fixed + word + f && variable + (part.value + w) == variable + part.value + w;
    } else if rest.Some? {
      var (f, w) := EncodeFields(ts[i + 1..], vs[i + 1..], offset).value;
      assert fixed + (part.value + f) == fixed + part.value + f;
    }
  }

  lemma NoFieldWritten(ts: seq<Ty>, vs: seq<Val>, offset: nat)
    requires AllTyped(ts, vs)
    ensures ts[0..] == ts && vs[0..] == vs
    ensures Joined([], [], EncodeFields(ts, vs, offset)) == EncodeFields(ts, vs, offset)
  {
    hide EncodeFields, HasType;
    var r := EncodeFields(ts, vs, offset);
    if r.Some? {
      assert [] + r.value.0 == r.value.0 && [] + r.value.1 == r.value.1;
    }
  }

  lemma AllFieldsWritten(ts: seq<Ty>, vs: seq<Val>, offset: nat, fixed: seq<Byte>, variable: seq<Byte>)
    requires AllTyped(ts, vs)
    ensures Joined(fixed, variable, EncodeFields(ts[|ts|..], vs[|ts|..], offset)) == Some((fixed, variable))
  {
    assert fixed + [] == fixed && variable + [] == variable;
  }

  method WriteOffset(offset: nat, buffer: Buffer) returns (ok: bool)
    modifies buffer
    ensures ok <==> offset < OFFSET_LIMIT
    ensures buffer.bytes == old(buffer.bytes) + if ok then LeBytes(offset, BYTES_PER_LENGTH_OFFSET) else []
  {
    if offset >= OFFSET_LIMIT {
      return false;
    }
    buffer.Extend(LeBytes(offset, BYTES_PER_LENGTH_OFFSET));
    ok := true;
  }

  /**
    * Append the encoding of `v`. On success the count reported is the number of bytes
    * appended, and they are the encoding.
    */
  method Serialize(t: Ty, v: Val, buffer: Buffer) returns (written: Option<nat>)
    requires HasType(t, v)
    modifies buffer
    ensures written.Some? <==> Encode(t, v).Some?
    ensures written.Some? ==>
      buffer.bytes == old(buffer.bytes) + Encode(t, v).value && written.value == |Encode(t, v).value|
    decreases Height(t), 0, 0
  {
    hide Pack, Packed, LeBytes, EncodeAll;
    match t
    case Uint(width) =>
      buffer.Extend(LeBytes(v.x, width));
      return Some(width);
    case Boolean =>
      buffer.Extend([if v.b then 1 else 0]);
      return Some(1);
    case ByteArray(length) =>
      buffer.Extend(v.bytes);
      return Some(length);
    case Bitvector(_) =>
      var packed := PackBits(v.bits);
      PackedUnique(v.bits, packed, Pack(v.bits));
      buffer.Extend(packed);
      return Some(|packed|);
    case Bitlist(limit) =>
      written := SerializeBitlist(v.bits, limit, buffer);
    case Vector(elem, length) =>
      if |v.items| != length {
        return None;
      }
      written := SerializeSequence(elem, v.items, buffer);
    case List(elem, limit) =>
      if |v.items| > limit {
        return None;
      }
      written := SerializeSequence(elem, v.items, buffer);
    case Container(fields) =>
      written := SerializeContainer(fields, v.items, buffer);
  }

  /** The packed bits with a delimiter set just past the last of them. */
  method SerializeBitlist(bits: seq<bool>, limit: nat, buffer: Buffer) returns (written: Option<nat>)
    modifies buffer
    ensures written.Some? <==> |bits| <= limit
    ensures written.Some? ==>
      buffer.bytes == old(buffer.bytes) + Pack(bits + [true]) && written.value == |Pack(bits + [true])|
  {
    hide Pack, Packed, SetBit, Pow2;
    if |bits| > limit {
      return None;
    }
    var packed := PackBits(bits);
    var delimiter := |bits| % 8;
    PackedLength(bits, packed);
    PushBitPacks(bits, packed, true);
    ghost var pushed := PushBit(packed, |bits|, true);
    PackedUnique(bits + [true], pushed, Pack(bits + [true]));
    if delimiter == 0 {
      DelimiterByte();
      packed := packed + [1];
      assert packed == pushed;
    } else {
      ByteBound();
      var last := |packed| - 1;
      SetBitInRange(packed[last], delimiter, 8);
      packed := packed[last := SetBit(packed[last], delimiter)];
    }
    buffer.Extend(packed);
    written := Some(|packed|);
  }

  lemma PackedLength(bits: seq<bool>, bytes: seq<Byte>)
    requires Packed(bits, bytes)
    ensures |bytes| == ByteLen(|bits|)
  {
  }

  lemma DelimiterByte()
    ensures SetBit(0, 0) == 1
  {
  }

  /** A homogeneous sequence: offsets first when the elements vary in size. */
  method SerializeSequence(elem: Ty, values: seq<Val>, buffer: Buffer) returns (written: Option<nat>)
    requires forall i :: 0 <= i < |values| ==> HasType(elem, values[i])
    requires AllTyped(Repeat(elem, |values|), values)
    modifies buffer
    ensures var encoded := EncodeAll(Repeat(elem, |values|), values);
      && (written.Some? <==> encoded.Some?)
      && (written.Some? ==>
            buffer.bytes == old(buffer.bytes) + encoded.value && written.value == |encoded.value|)
    decreases Height(elem), 1, 0
  {
    hide HasType, Encode, EncodeFields, Variable, Spans, LeBytes, Repeat;
    if Variable(elem) {
      written := SerializeVariable(elem, values, buffer);
    } else {
      written := SerializeFixed(elem, values, buffer);
    }
  }

  method SerializeVariable(elem: Ty, values: seq<Val>, buffer: Buffer) returns (written: Option<nat>)
    requires Variable(elem) && forall i :: 0 <= i < |values| ==> HasType(elem, values[i])
    requires AllTyped(Repeat(elem, |values|), values)
    modifies buffer
    ensures var encoded := EncodeAll(Repeat(elem, |values|), values);
      && (written.Some? <==> encoded.Some?)
      && (written.Some? ==>
            buffer.bytes == old(buffer.bytes) + encoded.value && written.value == |encoded.value|)
    decreases Height(elem), 0, 1
  {
    hide HasType, Encode, EncodeFields, Variable, Spans, LeBytes, Repeat;
    ghost var ts := Repeat(elem, |values|);
    RepeatSpans(elem, |values|);
    var fixedSize := |values| * BYTES_PER_LENGTH_OFFSET;
    ghost var whole := EncodeFields(ts, values, fixedSize);
    var fixed := new Buffer();
    var variable := new Buffer();
    var offset: nat := fixedSize;
    NoFieldWritten(ts, values, offset);
    for i := 0 to |values|
      invariant buffer.bytes == old(buffer.bytes)
      invariant Joined(fixed.bytes, variable.bytes, EncodeFields(ts[i..], values[i..], offset)) == whole
    {
      NextField(ts, values, i, offset, fixed.bytes, variable.bytes);
      var ok := WriteOffset(offset, fixed);
      if !ok {
        return None;
      }
      var count := Serialize(elem, values[i], variable);
      if count.None? {
        return None;
      }
      offset := offset + count.value;
    }
    AllFieldsWritten(ts, values, offset, fixed.bytes, variable.bytes);
    buffer.Extend(fixed.bytes);
    buffer.Extend(variable.bytes);
    assert buffer.bytes == old(buffer.bytes) + (fixed.bytes + variable.bytes);
    written := Some(|fixed.bytes| + |variable.bytes|);
  }

  method SerializeFixed(elem: Ty, values: seq<Val>, buffer: Buffer) returns (written: Option<nat>)
    requires !Variable(elem) && forall i :: 0 <= i < |values| ==> HasType(elem, values[i])
    requires AllTyped(Repeat(elem, |values|), values)
    modifies buffer
    ensures var encoded := EncodeAll(Repeat(elem, |values|), values);
      && (written.Some? <==> encoded.Some?)
      && (written.Some? ==>
            buffer.bytes == old(buffer.bytes) + encoded.value && written.value == |encoded.value|)
    decreases Height(elem), 0, 1
  {
    hide HasType, Encode, EncodeFields, Variable, Spans, LeBytes, Repeat;
    ghost var ts := Repeat(elem, |values|);
    ghost var whole := EncodeFields(ts, values, Spans(ts));
    var start := |buffer.bytes|;
    ghost var done: seq<Byte> := [];
    NoFieldWritten(ts, values, Spans(ts));
    assert buffer.bytes == old(buffer.bytes) + done;
    for i := 0 to |values|
      invariant buffer.bytes == old(buffer.bytes) + done
      invariant Joined(done, [], EncodeFields(ts[i..], values[i..], Spans(ts))) == whole
    {
      NextField(ts, values, i, Spans(ts), done, []);
      var count := Serialize(elem, values[i], buffer);
      if count.None? {
        return None;
      }
      done := done + Encode(elem, values[i]).value;
    }
    AllFieldsWritten(ts, values, Spans(ts), done, []);
    assert done + [] == done;
    written := Some(|buffer.bytes| - start);
  }

  /** Serializes fields in order: fixed section and variable parts side by side. */
  class ContainerEncoder {
    const fixed: Buffer
    const variable: Buffer
    const fixedSize: nat
    var variableOffset: nat

    constructor (fixedSize: nat)
      ensures this.fixedSize == fixedSize && variableOffset == fixedSize
      ensures fresh(fixed) && fresh(variable) && fixed != variable
      ensures fixed.bytes == [] && variable.bytes == []
    {
      this.fixedSize := fixedSize;
      variableOffset := fixedSize;
      fixed := new Buffer();
      variable := new Buffer();
    }

    /** One more field; a variable one leaves its offset word in the fixed section. */
    method WriteField(t: Ty, v: Val) returns (ok: bool)
      requires HasType(t, v) && fixed != variable
      modifies this, fixed, variable
      ensures ok <==> Encode(t, v).Some? && (Variable(t) ==> old(variableOffset) < OFFSET_LIMIT)
      ensures ok && Variable(t) ==>
        && fixed.bytes == old(fixed.bytes) + LeBytes(old(variableOffset), BYTES_PER_LENGTH_OFFSET)
        && variable.bytes == old(variable.bytes) + Encode(t, v).value
        && variableOffset == old(variableOffset) + |Encode(t, v).value|
      ensures ok && !Variable(t) ==>
        && fixed.bytes == old(fixed.bytes) + Encode(t, v).value
        && variable.bytes == old(variable.bytes) && variableOffset == old(variableOffset)
      decreases Height(t), 1, 0
    {
      hide HasType, Encode, Variable, LeBytes;
      if Variable(t) {
        ok := WriteOffset(variableOffset, fixed);
        if !ok {
          return;
        }
        var count := Serialize(t, v, variable);
        if count.None? {
          return false;
        }
        variableOffset := variableOffset + count.value;
      } else {
        var count := Serialize(t, v, fixed);
        ok := count.Some?;
      }
    }

    /** Append both sections; refused when the fixed one missed its declared size. */
    method Finish(buffer: Buffer) returns (written: Option<nat>)
      requires buffer != fixed && buffer != variable
      modifies buffer
      ensures written.Some? <==> |fixed.bytes| == fixedSize
      ensures written.Some? ==>
        && buffer.bytes == old(buffer.bytes) + (fixed.bytes + variable.bytes)
        && written.value == |fixed.bytes| + |variable.bytes|
    {
      if |fixed.bytes| != fixedSize {
        return None;
      }
      buffer.Extend(fixed.bytes);
      buffer.Extend(variable.bytes);
      assert buffer.bytes == old(buffer.bytes) + (fixed.bytes + variable.bytes);
      written := Some(|fixed.bytes| + |variable.bytes|);
    }
  }

  method SerializeContainer(fields: seq<Ty>, values: seq<Val>, buffer: Buffer) returns (written: Option<nat>)
    requires AllTyped(fields, values)
    modifies buffer
    ensures written.Some? <==> EncodeAll(fields, values).Some?
    ensures written.Some? ==>
      && buffer.bytes == old(buffer.bytes) + EncodeAll(fields, values).value
      && written.value == |EncodeAll(fields, values).value|
    decreases Heights(fields), 2, 0
  {
    hide HasType, Encode, EncodeFields, Variable, Spans, LeBytes;
    ghost var whole := EncodeFields(fields, values, Spans(fields));
    var encoder := new ContainerEncoder(Spans(fields));
    NoFieldWritten(fields, values, Spans(fields));
    for i := 0 to |fields|
      invariant encoder.fixedSize == Spans(fields) && buffer.bytes == old(buffer.bytes)
      invariant Joined(encoder.fixed.bytes, encoder.variable.bytes,
                       EncodeFields(fields[i..], values[i..], encoder.variableOffset)) == whole
    {
      NextField(fields, values, i, encoder.variableOffset, encoder.fixed.bytes, encoder.variable.bytes);
      HeightBelow(fields, i);
      var ok := encoder.WriteField(fields[i], values[i]);
      if !ok {
        return None;
      }
    }
    AllFieldsWritten(fields, values, encoder.variableOffset, encoder.fixed.bytes, encoder.variable.bytes);
    FieldsLength(fields, values, Spans(fields));
    written := encoder.Finish(buffer);
  }
}
