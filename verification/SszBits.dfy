/** Bytes, little-endian numbers and packed bitfields. */
module SszBits {
  import opened Primitives

  type Byte = x: nat | x < 256

  // ---------------------------------------------------------------------------
  // Little-endian numbers
  // ---------------------------------------------------------------------------

  /** The low `n` bytes of `x`, least significant first. */
  function LeBytes(x: nat, n: nat): (r: seq<Byte>)
    ensures |r| == n
  {
    if n == 0 then [] else [x % 256] + LeBytes(x / 256, n - 1)
  }

  function FromLe(bytes: seq<Byte>): nat {
    if bytes == [] then 0 else bytes[0] + 256 * FromLe(bytes[1..])
  }

  function Pow256(n: nat): nat {
    if n == 0 then 1 else 256 * Pow256(n - 1)
  }

  lemma {:induction false} FromLeInRange(bytes: seq<Byte>)
    ensures FromLe(bytes) < Pow256(|bytes|)
  {
    if bytes != [] {
      FromLeInRange(bytes[1..]);
    }
  }

  lemma {:induction false} LeRoundTrip(x: nat, n: nat)
    requires x < Pow256(n)
    ensures FromLe(LeBytes(x, n)) == x
  {
    if n > 0 {
      LeRoundTrip(x / 256, n - 1);
      assert LeBytes(x, n)[1..] == LeBytes(x / 256, n - 1);
    }
  }

  lemma {:induction false} LeCanonical(bytes: seq<Byte>)
    ensures LeBytes(FromLe(bytes), |bytes|) == bytes
  {
    if bytes != [] {
      LeCanonical(bytes[1..]);
      assert FromLe(bytes) % 256 == bytes[0] && FromLe(bytes) / 256 == FromLe(bytes[1..]);
    }
  }

  // ---------------------------------------------------------------------------
  // Bits of a number
  // ---------------------------------------------------------------------------

  function Pow2(n: nat): (r: nat)
    ensures r > 0
  {
    if n == 0 then 1 else 2 * Pow2(n - 1)
  }

  predicate Bit(x: nat, j: nat) {
    if j == 0 then x % 2 == 1 else Bit(x / 2, j - 1)
  }

  /** `x | 1 << j` */
  function SetBit(x: nat, j: nat): nat {
    if j == 0 then x / 2 * 2 + 1 else SetBit(x / 2, j - 1) * 2 + x % 2
  }

  /** `x & !(1 << j)` */
  function ClearBit(x: nat, j: nat): nat {
    if j == 0 then x / 2 * 2 else ClearBit(x / 2, j - 1) * 2 + x % 2
  }

  lemma {:induction false} SetBitSets(x: nat, j: nat, k: nat)
    ensures Bit(SetBit(x, j), k) == (k == j || Bit(x, k))
  {
    if j > 0 && k > 0 {
      SetBitSets(x / 2, j - 1, k - 1);
    }
  }

  lemma {:induction false} ClearBitClears(x: nat, j: nat, k: nat)
    ensures Bit(ClearBit(x, j), k) == (k != j && Bit(x, k))
  {
    if j > 0 && k > 0 {
      ClearBitClears(x / 2, j - 1, k - 1);
    }
  }

  lemma {:induction false} SetBitInRange(x: nat, j: nat, n: nat)
    requires x < Pow2(n) && j < n
    ensures SetBit(x, j) < Pow2(n)
  {
    if j > 0 {
      SetBitInRange(x / 2, j - 1, n - 1);
    }
  }

  lemma {:induction false} ClearBitInRange(x: nat, j: nat)
    ensures ClearBit(x, j) <= x
  {
    if j > 0 {
      ClearBitInRange(x / 2, j - 1);
    }
  }

  /** Bits at or past `n` are clear exactly when the number is below `2^n`. */
  lemma {:induction false} HighBitsClear(x: nat, n: nat, k: nat)
    requires x < Pow2(n) && n <= k
    ensures !Bit(x, k)
  {
    if n > 0 {
      HighBitsClear(x / 2, n - 1, k - 1);
    } else if k > 0 {
      HighBitsClear(x / 2, 0, k - 1);
    }
  }

  lemma {:induction false} NumberIsItsBits(x: nat, y: nat, n: nat)
    requires x < Pow2(n) && y < Pow2(n) && forall j :: 0 <= j < n ==> Bit(x, j) == Bit(y, j)
    ensures x == y
  {
    if n > 0 {
      assert Bit(x, 0) == Bit(y, 0);
      forall j | 0 <= j < n - 1
        ensures Bit(x / 2, j) == Bit(y / 2, j)
      {
        assert Bit(x, j + 1) == Bit(y, j + 1);
      }
      NumberIsItsBits(x / 2, y / 2, n - 1);
    }
  }

  /** The index of the highest set bit. */
  function HighBit(x: nat): (j: nat)
    requires x > 0
    ensures Pow2(j) <= x < Pow2(j + 1)
  {
    if x == 1 then 0 else 1 + HighBit(x / 2)
  }

  lemma {:induction false} HighBitIsSet(x: nat)
    requires x > 0
    ensures Bit(x, HighBit(x))
  {
    if x > 1 {
      HighBitIsSet(x / 2);
    }
  }

  lemma {:induction false} HighBitBelow(x: nat, n: nat)
    requires 0 < x < Pow2(n)
    ensures HighBit(x) < n
  {
    if x > 1 {
      HighBitBelow(x / 2, n - 1);
    }
  }

  /** A set bit with nothing set above it is the highest one. */
  lemma {:induction false} HighBitIs(x: nat, j: nat)
    requires Bit(x, j) && x < Pow2(j + 1)
    ensures x > 0 && HighBit(x) == j
  {
    if j > 0 {
      HighBitIs(x / 2, j - 1);
    }
  }

  // ---------------------------------------------------------------------------
  // Bitfields
  // ---------------------------------------------------------------------------

  function ByteLen(bits: nat): nat {
    (bits + 7) / 8
  }

  predicate BitAt(bytes: seq<Byte>, i: nat)
    requires i / 8 < |bytes|
  {
    Bit(bytes[i / 8], i % 8)
  }

  /** `bytes` carry `bits`, little-endian, and nothing else. */
  ghost predicate Packed(bits: seq<bool>, bytes: seq<Byte>) {
    && |bytes| == ByteLen(|bits|)
    && (forall i :: 0 <= i < 8 * |bytes| ==> BitAt(bytes, i) == (i < |bits| && bits[i]))
  }

  lemma PackedUnique(bits: seq<bool>, a: seq<Byte>, b: seq<Byte>)
    requires Packed(bits, a) && Packed(bits, b)
    ensures a == b
  {
    forall k | 0 <= k < |a|
      ensures a[k] == b[k]
    {
      forall j | 0 <= j < 8
        ensures Bit(a[k], j) == Bit(b[k], j)
      {
        var i := 8 * k + j;
        assert i / 8 == k && i % 8 == j;
        assert BitAt(a, i) == BitAt(b, i);
      }
      NumberIsItsBits(a[k], b[k], 8);
    }
  }

  lemma ZeroHasNoBits(k: nat)
    ensures !Bit(0, k)
  {
    HighBitsClear(0, 0, k);
  }

  /** `pack_bits`: a zeroed buffer with each set bit written in place. */
  method PackBits(bits: seq<bool>) returns (bytes: seq<Byte>)
    ensures Packed(bits, bytes)
  {
    hide Bit, SetBit, Pow2;
    var buffer := new Byte[ByteLen(|bits|)](_ => 0);
    forall i | 0 <= i < 8 * buffer.Length
      ensures !BitAt(buffer[..], i)
    {
      ZeroHasNoBits(i % 8);
    }
    for n := 0 to |bits|
      invariant forall i :: 0 <= i < 8 * buffer.Length ==> BitAt(buffer[..], i) == (i < n && bits[i])
    {
      if bits[n] {
        ghost var before := buffer[..];
        ByteBound();
        SetBitInRange(buffer[n / 8], n % 8, 8);
        buffer[n / 8] := SetBit(buffer[n / 8], n % 8);
        forall i | 0 <= i < 8 * buffer.Length
          ensures BitAt(buffer[..], i) == (i == n || BitAt(before, i))
        {
          SetBitSets(before[n / 8], n % 8, i % 8);
        }
      }
    }
    bytes := buffer[..];
  }

  lemma ByteBound()
    ensures Pow2(8) == 256
  {
    assert Pow2(4) == 16;
  }

  /** One more bit: a byte is added when the last one is full. */
  function PushBit(bytes: seq<Byte>, n: nat, bit: bool): seq<Byte>
    requires |bytes| == ByteLen(n)
  {
    var room := if n % 8 == 0 then bytes + [0] else bytes;
    ByteBound();
    SetBitInRange(room[n / 8], n % 8, 8);
    if bit then room[n / 8 := SetBit(room[n / 8], n % 8)] else room
  }

  lemma PushBitPacks(bits: seq<bool>, bytes: seq<Byte>, bit: bool)
    requires Packed(bits, bytes)
    ensures Packed(bits + [bit], PushBit(bytes, |bits|, bit))
  {
    hide Bit, SetBit, Pow2;
    var n := |bits|;
    var room := if n % 8 == 0 then bytes + [0] else bytes;
    var pushed := PushBit(bytes, n, bit);
    forall i | 0 <= i < 8 * |pushed|
      ensures BitAt(pushed, i) == (i < n + 1 && (bits + [bit])[i])
    {
      ZeroHasNoBits(i % 8);
      assert BitAt(room, i) == (i < n && bits[i]) by {
        if i / 8 < |bytes| {
          assert BitAt(bytes, i) == (i < n && bits[i]);
        }
      }
      ByteBound();
      SetBitInRange(room[n / 8], n % 8, 8);
      SetBitSets(room[n / 8], n % 8, i % 8);
    }
  }

  /** The bytes of a bitfield. */
  function Pack(bits: seq<bool>): (bytes: seq<Byte>)
    ensures Packed(bits, bytes)
  {
    if bits == [] then []
    else
      var n := |bits| - 1;
      PushBitPacks(bits[..n], Pack(bits[..n]), bits[n]);
      assert bits == bits[..n] + [bits[n]];
      PushBit(Pack(bits[..n]), n, bits[n])
  }

  /** `x & mask != 0` for the mask of bits `from` to 7. */
  predicate AnyBitFrom(x: Byte, from: nat) {
    exists k :: from <= k < 8 && Bit(x, k)
  }

  /** Bits of a fixed-length bitfield; padding must be clear. */
  function UnpackBitvector(bytes: seq<Byte>, n: nat): Option<seq<bool>> {
    if |bytes| != ByteLen(n) then None
    else if n % 8 != 0 && AnyBitFrom(bytes[|bytes| - 1], n % 8) then None
    else Some(seq(n, i requires 0 <= i < n => BitAt(bytes, i)))
  }

  /** Bits of a delimited bitfield; the highest set bit marks the end. */
  function UnpackBitlist(bytes: seq<Byte>, limit: nat): Option<seq<bool>> {
    if bytes == [] || bytes[|bytes| - 1] == 0 then None
    else
      var last := bytes[|bytes| - 1];
      ByteBound();
      HighBitBelow(last, 8);
      var n := (|bytes| - 1) * 8 + HighBit(last);
      if n > limit then None else Some(seq(n, i requires 0 <= i < n => BitAt(bytes, i)))
  }

  lemma BelowPowerIffHighBitsClear(x: nat, n: nat, m: nat)
    requires n <= m && x < Pow2(m)
    ensures x < Pow2(n) <==> forall k :: n <= k < m ==> !Bit(x, k)
  {
    hide Bit, Pow2, HighBit;
    if x < Pow2(n) {
      forall k | n <= k < m
        ensures !Bit(x, k)
      {
        HighBitsClear(x, n, k);
      }
    } else {
      var top := HighBit(x);
      HighBitIsSet(x);
      HighBitBelow(x, m);
      if top < n {
        PowersGrow(top + 1, n);
      }
      assert n <= top < m && Bit(x, top);
    }
  }

  lemma {:induction false} PowersGrow(a: nat, b: nat)
    requires a <= b
    ensures Pow2(a) <= Pow2(b)
  {
    if a < b {
      PowersGrow(a, b - 1);
    }
  }

  /** Decoding a bitvector accepts exactly the packing of its bits. */
  lemma BitvectorCodec(bytes: seq<Byte>, n: nat, bits: seq<bool>)
    ensures UnpackBitvector(bytes, n) == Some(bits) <==> |bits| == n && Packed(bits, bytes)
  {
    hide Bit, Pow2;
    if |bytes| == ByteLen(n) {
      if n % 8 != 0 {
        PaddingIsHighBits(bytes, n);
      }
      if UnpackBitvector(bytes, n).Some? && |bits| == n && Packed(bits, bytes) {
        assert forall i :: 0 <= i < n ==> BitAt(bytes, i) == bits[i];
        assert UnpackBitvector(bytes, n).value == bits;
      }
    }
  }

  /** The padding of the last byte is its bits from `n % 8` on. */
  lemma PaddingIsHighBits(bytes: seq<Byte>, n: nat)
    requires |bytes| == ByteLen(n) && n % 8 != 0
    ensures AnyBitFrom(bytes[|bytes| - 1], n % 8) <==> exists i :: n <= i < 8 * |bytes| && BitAt(bytes, i)
  {
    hide Bit;
    var m := |bytes| - 1;
    if AnyBitFrom(bytes[m], n % 8) {
      var k :| n % 8 <= k < 8 && Bit(bytes[m], k);
      assert BitAt(bytes, 8 * m + k);
    }
    if i :| n <= i < 8 * |bytes| && BitAt(bytes, i) {
      assert i / 8 == m && n % 8 <= i % 8;
    }
  }

  /** Decoding a bitlist accepts exactly the packing of its bits and one delimiter. */
  lemma BitlistCodec(bytes: seq<Byte>, limit: nat, bits: seq<bool>)
    ensures UnpackBitlist(bytes, limit) == Some(bits) <==> |bits| <= limit && Packed(bits + [true], bytes)
  {
    hide Bit, Pow2, HighBit;
    if |bits| <= limit && Packed(bits + [true], bytes) {
      PackingUnpacks(bytes, limit, bits);
    }
    if UnpackBitlist(bytes, limit) == Some(bits) {
      UnpackingPacked(bytes, limit, bits);
    }
  }

  lemma PackingUnpacks(bytes: seq<Byte>, limit: nat, bits: seq<bool>)
    requires |bits| <= limit && Packed(bits + [true], bytes)
    ensures UnpackBitlist(bytes, limit) == Some(bits)
  {
    hide Bit, Pow2, HighBit;
    var n := |bits|;
    var m := |bytes| - 1;
    assert m == n / 8;
    var last := bytes[m];
    ByteBound();
    forall k | n % 8 <= k < 8
      ensures Bit(last, k) <==> k == n % 8
    {
      assert BitAt(bytes, 8 * m + k) == (8 * m + k < n + 1 && (bits + [true])[8 * m + k]);
    }
    BelowPowerIffHighBitsClear(last, n % 8 + 1, 8);
    HighBitIs(last, n % 8);
    assert forall i :: 0 <= i < n ==> BitAt(bytes, i) == (bits + [true])[i];
    assert UnpackBitlist(bytes, limit).value == bits;
  }

  lemma UnpackingPacked(bytes: seq<Byte>, limit: nat, bits: seq<bool>)
    requires UnpackBitlist(bytes, limit) == Some(bits)
    ensures |bits| <= limit && Packed(bits + [true], bytes)
  {
    hide Bit, Pow2, HighBit;
    var n := |bits|;
    var m := |bytes| - 1;
    var last := bytes[m];
    ByteBound();
    HighBitBelow(last, 8);
    HighBitIsSet(last);
    BelowPowerIffHighBitsClear(last, HighBit(last) + 1, 8);
    assert n == 8 * m + HighBit(last) && last < Pow2(HighBit(last) + 1);
    assert forall k :: HighBit(last) < k < 8 ==> !Bit(last, k);
    forall i | 0 <= i < 8 * |bytes|
      ensures BitAt(bytes, i) == (i < n + 1 && (bits + [true])[i])
    {
      if i < n {
        assert bits[i] == BitAt(bytes, i);
      } else {
        assert i / 8 == m && i % 8 == i - 8 * m;
        assert Bit(last, i % 8) <==> i == n;
      }
    }
  }
}
