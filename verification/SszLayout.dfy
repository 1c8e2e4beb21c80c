/**
  * Where every byte of an encoding sits. Numbers are written least significant byte first;
  * a field's bytes, or the offset word of its part, sit at the sum of the slots before it,
  * and the parts follow the fixed section one after the other.
  */
module SszLayout {
  import opened Primitives
  import opened Arithmetic
  import opened SszBits
  import opened Ssz
  import opened SszTheorems

  // ---------------------------------------------------------------------------
  // Numbers
  // ---------------------------------------------------------------------------

  lemma QuotientsNest(q: nat, b: nat, r: nat, a: nat, m: nat)
    requires r < b && m < a
    ensures (q * b + r) * a + m == q * (a * b) + (r * a + m) && r * a + m < a * b
  {
    ProductsSpread(r, b, a);
    assert (q * b + r) * a == q * b * a + r * a;
    assert q * b * a == q * (a * b);
  }

  lemma DivisionSplits(x: nat, d: nat) returns (q: nat, r: nat)
    requires d > 0
    ensures x == q * d + r && r < d && q == x / d
  {
    q, r := x / d, x % d;
  }

  lemma DivisionsCompose(x: nat, a: nat, b: nat)
    requires a > 0 && b > 0
    ensures a * b > 0 && x / a / b == x / (a * b)
  {
    var y, m := DivisionSplits(x, a);
    var q, r := DivisionSplits(y, b);
    QuotientsNest(q, b, r, a, m);
    DivisionUnique(q, a * b, r * a + m);
  }

  lemma PowerPositive(n: nat)
    ensures Pow256(n) > 0
  {
  }

  /** Byte `i` is the `i`-th base-256 digit. */
  lemma {:induction false} LeByteAt(x: nat, n: nat, i: nat)
    requires i < n
    ensures Pow256(i) > 0 && LeBytes(x, n)[i] == x / Pow256(i) % 256
  {
    PowerPositive(i);
    if i > 0 {
      LeByteAt(x / 256, n - 1, i - 1);
      DivisionsCompose(x, 256, Pow256(i - 1));
    }
  }

  /** The bytes as digits, most significant last. */
  function Digits(bytes: seq<Byte>, k: nat): nat
    requires k <= |bytes|
  {
    if k == 0 then 0 else Digits(bytes, k - 1) + bytes[k - 1] * Pow256(k - 1)
  }

  lemma {:induction false} DigitsShift(bytes: seq<Byte>, k: nat)
    requires 0 < k <= |bytes|
    ensures Digits(bytes, k) == bytes[0] + 256 * Digits(bytes[1..], k - 1)
  {
    if k > 1 {
      DigitsShift(bytes, k - 1);
      Scale(bytes[k - 1], Pow256(k - 2));
    }
  }

  lemma Scale(b: nat, p: nat)
    ensures b * (256 * p) == 256 * (b * p)
  {
  }

  /** Reading bytes as a number adds up the digits. */
  lemma {:induction false} FromLeIsDigits(bytes: seq<Byte>)
    ensures FromLe(bytes) == Digits(bytes, |bytes|)
  {
    if bytes != [] {
      FromLeIsDigits(bytes[1..]);
      DigitsShift(bytes, |bytes|);
    }
  }

  /** Bit `j` is the `j`-th binary digit. */
  lemma {:induction false} BitIsDigit(x: nat, j: nat)
    ensures Bit(x, j) <==> x / Pow2(j) % 2 == 1
  {
    if j > 0 {
      BitIsDigit(x / 2, j - 1);
      DivisionsCompose(x, 2, Pow2(j - 1));
    }
  }

  // ---------------------------------------------------------------------------
  // Fields
  // ---------------------------------------------------------------------------

  /** Where field `k` starts in the fixed section. */
  function SlotStart(ts: seq<Ty>, k: nat): nat
    requires k <= |ts|
  {
    if k == 0 then 0 else SlotStart(ts, k - 1) + if Variable(ts[k - 1]) then 4 else Span(ts[k - 1])
  }

  ghost predicate AllEncode(ts: seq<Ty>, vs: seq<Val>)
    requires AllTyped(ts, vs)
  {
    forall i :: 0 <= i < |ts| ==> Encode(ts[i], vs[i]).Some?
  }

  /** Where the part of field `k` starts, if it has one: after the fixed section and the parts before. */
  ghost function PartStart(ts: seq<Ty>, vs: seq<Val>, k: nat): nat
    requires AllTyped(ts, vs) && AllEncode(ts, vs) && k <= |ts|
  {
    if k == 0 then SlotStart(ts, |ts|)
    else PartStart(ts, vs, k - 1) + if Variable(ts[k - 1]) then |Encode(ts[k - 1], vs[k - 1]).value| else 0
  }

  lemma {:induction false} SlotsAddUp(ts: seq<Ty>, k: nat)
    requires k <= |ts|
    ensures SlotStart(ts, k) + Spans(ts[k..]) == Spans(ts)
    decreases k
  {
    if k == 0 {
      assert ts[0..] == ts;
    } else {
      SlotsAddUp(ts, k - 1);
      assert ts[k - 1..][1..] == ts[k..];
    }
  }

  lemma {:induction false} FieldsEncode(ts: seq<Ty>, vs: seq<Val>, offset: nat)
    requires AllTyped(ts, vs) && EncodeFields(ts, vs, offset).Some?
    ensures AllEncode(ts, vs)
    decreases |ts|
  {
    hide Encode, HasType, Variable;
    if ts != [] {
      var part := Encode(ts[0], vs[0]).value;
      FieldsEncode(ts[1..], vs[1..], if Variable(ts[0]) then offset + |part| else offset);
      forall i | 0 <= i < |ts|
        ensures Encode(ts[i], vs[i]).Some?
      {
        if i > 0 {
          assert Encode(ts[1..][i - 1], vs[1..][i - 1]).Some?;
        }
      }
    }
  }

  /** What is left to write of a container once `k` fields are. */
  ghost predicate Remaining(
    ts: seq<Ty>, vs: seq<Val>, k: nat, fixed: seq<Byte>, variable: seq<Byte>, rest: (seq<Byte>, seq<Byte>))
    requires AllTyped(ts, vs) && AllEncode(ts, vs) && k <= |ts|
  {
    && AllTyped(ts[k..], vs[k..]) && EncodeFields(ts[k..], vs[k..], PartStart(ts, vs, k)) == Some(rest)
    && |fixed| == SlotStart(ts, k) + |rest.0| && fixed[SlotStart(ts, k)..] == rest.0
    && SlotStart(ts, |ts|) + |variable| == PartStart(ts, vs, k) + |rest.1|
    && PartStart(ts, vs, k) >= SlotStart(ts, |ts|)
    && variable[PartStart(ts, vs, k) - SlotStart(ts, |ts|)..] == rest.1
  }

  /** One field as `EncodeFields` writes it. */
  lemma FieldStep(ts: seq<Ty>, vs: seq<Val>, offset: nat)
    requires AllTyped(ts, vs) && ts != [] && EncodeFields(ts, vs, offset).Some?
    ensures AllTyped(ts[1..], vs[1..]) && Encode(ts[0], vs[0]).Some?
    ensures var part := Encode(ts[0], vs[0]).value;
      var after := EncodeFields(ts[1..], vs[1..], if Variable(ts[0]) then offset + |part| else offset);
      && after.Some?
      && (Variable(ts[0]) ==> offset < OFFSET_LIMIT)
      && EncodeFields(ts, vs, offset).value ==
           if Variable(ts[0]) then (LeBytes(offset, 4) + after.value.0, part + after.value.1)
           else (part + after.value.0, after.value.1)
  {
    hide Encode, HasType, Variable, LeBytes;
  }

  /** Field `k` in its place. */
  ghost predicate FieldInPlace(
    ts: seq<Ty>, vs: seq<Val>, k: nat, fixed: seq<Byte>, variable: seq<Byte>)
    requires AllTyped(ts, vs) && AllEncode(ts, vs) && k < |ts|
  {
    var part, slot := Encode(ts[k], vs[k]).value, SlotStart(ts, k);
    && slot <= SlotStart(ts, k + 1) <= |fixed|
    && if Variable(ts[k]) then
         && PartStart(ts, vs, k) < OFFSET_LIMIT
         && fixed[slot..slot + 4] == LeBytes(PartStart(ts, vs, k), 4)
         && var from := PartStart(ts, vs, k) - SlotStart(ts, |ts|);
            0 <= from <= from + |part| <= |variable| && variable[from..from + |part|] == part
       else slot + |part| == SlotStart(ts, k + 1) && fixed[slot..slot + |part|] == part
  }

  lemma StepInPlace(
    ts: seq<Ty>, vs: seq<Val>, k: nat, fixed: seq<Byte>, variable: seq<Byte>, rest: (seq<Byte>, seq<Byte>))
    returns (next: (seq<Byte>, seq<Byte>))
    requires AllTyped(ts, vs) && AllEncode(ts, vs) && k < |ts| && Remaining(ts, vs, k, fixed, variable, rest)
    ensures Remaining(ts, vs, k + 1, fixed, variable, next) && FieldInPlace(ts, vs, k, fixed, variable)
  {
    hide Encode, HasType, Variable, LeBytes, EncodeFields, Span;
    FieldStep(ts[k..], vs[k..], PartStart(ts, vs, k));
    assert ts[k..][1..] == ts[k + 1..] && vs[k..][1..] == vs[k + 1..];
    var part := Encode(ts[k], vs[k]).value;
    next := EncodeFields(ts[k + 1..], vs[k + 1..], PartStart(ts, vs, k + 1)).value;
    var slot := SlotStart(ts, k);
    if Variable(ts[k]) {
      var word, from := LeBytes(PartStart(ts, vs, k), 4), PartStart(ts, vs, k) - SlotStart(ts, |ts|);
      assert rest.0 == word + next.0 && rest.1 == part + next.1;
      assert fixed[slot..slot + 4] == rest.0[..4] == word;
      assert fixed[slot + 4..] == rest.0[4..] == next.0;
      assert variable[from..from + |part|] == rest.1[..|part|] == part;
      assert variable[from + |part|..] == rest.1[|part|..] == next.1;
    } else {
      FixedPart(ts[k], vs[k]);
      assert rest.0 == part + next.0 && rest.1 == next.1;
      assert fixed[slot..slot + |part|] == rest.0[..|part|] == part;
      assert fixed[slot + |part|..] == rest.0[|part|..] == next.0;
    }
  }

  lemma FixedPart(t: Ty, v: Val)
    requires HasType(t, v) && !Variable(t) && Encode(t, v).Some?
    ensures |Encode(t, v).value| == Span(t)
  {
    hide Encode, HasType, Variable, Span;
    FixedLength(t, v);
  }

  lemma {:induction false} Written(ts: seq<Ty>, vs: seq<Val>, fixed: seq<Byte>, variable: seq<Byte>, k: nat)
    returns (rest: (seq<Byte>, seq<Byte>))
    requires AllTyped(ts, vs) && AllEncode(ts, vs) && k <= |ts|
    requires EncodeFields(ts, vs, Spans(ts)) == Some((fixed, variable))
    ensures Remaining(ts, vs, k, fixed, variable, rest)
    decreases k
  {
    hide HasType, Encode, EncodeFields, FieldInPlace;
    if k == 0 {
      rest := (fixed, variable);
      SlotsAddUp(ts, |ts|);
      assert ts[0..] == ts && vs[0..] == vs && fixed[0..] == fixed && variable[0..] == variable;
    } else {
      var before := Written(ts, vs, fixed, variable, k - 1);
      rest := StepInPlace(ts, vs, k - 1, fixed, variable, before);
    }
  }

  lemma NothingRemains(ts: seq<Ty>, vs: seq<Val>, fixed: seq<Byte>, variable: seq<Byte>, rest: (seq<Byte>, seq<Byte>))
    requires AllTyped(ts, vs) && AllEncode(ts, vs) && Remaining(ts, vs, |ts|, fixed, variable, rest)
    ensures |fixed| == SlotStart(ts, |ts|) && |fixed| + |variable| == PartStart(ts, vs, |ts|)
  {
    hide HasType, Encode;
  }

  /**
    * The layout of a container, and so of every list and vector. A fixed field's encoding
    * sits at the sum of the slots before it. A variable field has there four bytes that,
    * read least significant first, say where its encoding starts; it ends where the next
    * part begins, and the last one ends with the bytes.
    */
  lemma Layout(ts: seq<Ty>, vs: seq<Val>, k: nat)
    requires AllTyped(ts, vs) && EncodeAll(ts, vs).Some? && k < |ts|
    ensures AllEncode(ts, vs)
    ensures var bytes, part := EncodeAll(ts, vs).value, Encode(ts[k], vs[k]).value;
      var slot := SlotStart(ts, k);
      && |bytes| == PartStart(ts, vs, |ts|)
      && slot <= SlotStart(ts, k + 1) <= |bytes|
      && if Variable(ts[k]) then
           && slot + 4 == SlotStart(ts, k + 1)
           && Digits(bytes[slot..slot + 4], 4) == PartStart(ts, vs, k)
           && PartStart(ts, vs, k) <= PartStart(ts, vs, k + 1) <= |bytes|
           && bytes[PartStart(ts, vs, k)..PartStart(ts, vs, k + 1)] == part
         else bytes[slot..SlotStart(ts, k + 1)] == part
  {
    hide HasType, Encode, EncodeFields, Remaining, LeBytes, FromLe, Digits, Span;
    var (fixed, variable) := EncodeFields(ts, vs, Spans(ts)).value;
    FieldsEncode(ts, vs, Spans(ts));
    var rest := Written(ts, vs, fixed, variable, k);
    var next := StepInPlace(ts, vs, k, fixed, variable, rest);
    var end := Written(ts, vs, fixed, variable, |ts|);
    NothingRemains(ts, vs, fixed, variable, end);
    var bytes, slot, part := fixed + variable, SlotStart(ts, k), Encode(ts[k], vs[k]).value;
    if Variable(ts[k]) {
      var word, start := PartStart(ts, vs, k), PartStart(ts, vs, k) - |fixed|;
      assert bytes[slot..slot + 4] == fixed[slot..slot + 4];
      WordReads(word);
      assert bytes[word..word + |part|] == variable[start..start + |part|];
    } else {
      assert bytes[slot..slot + |part|] == fixed[slot..slot + |part|];
    }
  }

  lemma WordReads(x: nat)
    requires x < OFFSET_LIMIT
    ensures Digits(LeBytes(x, 4), 4) == x
  {
    hide LeBytes, FromLe, Digits, Pow256;
    OffsetRange();
    LeRoundTrip(x, 4);
    FromLeIsDigits(LeBytes(x, 4));
  }

  // ---------------------------------------------------------------------------
  // Values without parts
  // ---------------------------------------------------------------------------

  /** The bit of a packed bitfield, as a binary digit of its byte. */
  predicate BitSet(bytes: seq<Byte>, i: nat)
    requires i / 8 < |bytes|
  {
    bytes[i / 8] / Pow2(i % 8) % 2 == 1
  }

  lemma PackedDigits(bits: seq<bool>, bytes: seq<Byte>, i: nat)
    requires Packed(bits, bytes) && i < 8 * |bytes|
    ensures i / 8 < |bytes| && (BitSet(bytes, i) <==> i < |bits| && bits[i])
  {
    hide Bit, Pow2;
    BitIsDigit(bytes[i / 8], i % 8);
    assert BitAt(bytes, i) == (i < |bits| && bits[i]);
  }

  /**
    * The encodings of values without parts: digits of a number, one byte for a truth value,
    * the bytes themselves, bits eight to a byte from the least significant on, and for a
    * bitlist one more bit that ends it.
    */
  lemma ScalarEncoding(t: Ty, v: Val, i: nat)
    requires HasType(t, v) && Encode(t, v).Some?
    requires t.Uint? || t.Boolean? || t.ByteArray? || t.Bitvector? || t.Bitlist?
    ensures var bytes := Encode(t, v).value;
      match t
      case Uint(width) => |bytes| == width && (i < width ==> Pow256(i) > 0 && bytes[i] == v.x / Pow256(i) % 256)
      case Boolean => |bytes| == 1 && bytes[0] == if v.b then 1 else 0
      case ByteArray(_) => bytes == v.bytes
      case Bitvector(_) =>
        && |bytes| == (|v.bits| + 7) / 8
        && (i < 8 * |bytes| ==> i / 8 < |bytes| && (BitSet(bytes, i) <==> i < |v.bits| && v.bits[i]))
      case Bitlist(_) =>
        && |bytes| == |v.bits| / 8 + 1
        && (i < 8 * |bytes| ==>
              i / 8 < |bytes| && (BitSet(bytes, i) <==> i == |v.bits| || (i < |v.bits| && v.bits[i])))
      case _ => true
  {
    hide Pack, LeBytes, Pow256, BitSet, Packed;
    match t
    case Uint(width) =>
      if i < width {
        LeByteAt(v.x, width, i);
      }
    case Bitvector(_) =>
      PackedSize(v.bits);
      if i < 8 * |Pack(v.bits)| {
        PackedDigits(v.bits, Pack(v.bits), i);
      }
    case Bitlist(_) =>
      var bits := v.bits + [true];
      PackedSize(bits);
      if i < 8 * |Pack(bits)| {
        PackedDigits(bits, Pack(bits), i);
      }
    case _ =>
  }

  lemma PackedSize(bits: seq<bool>)
    ensures |Pack(bits)| == (|bits| + 7) / 8
  {
    hide Pack;
  }
}
