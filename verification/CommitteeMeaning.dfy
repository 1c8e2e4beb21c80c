/** One round of the shuffle in plain arithmetic, and how large committees are. */
module CommitteeMeaning {
  import opened Primitives
  import opened Arithmetic
  import opened SszBits
  import opened SszLayout
  import opened ForkChoiceTypes
  import opened Committees

  lemma MirrorSum(x: nat, n: nat, pivot: nat, y: nat)
    requires x < n && pivot < n && y == Flip(n, pivot, x)
    ensures (x + y) % n == pivot
  {
    if x + y == pivot {
      DivisionUnique(0, n, pivot);
    } else {
      DivisionUnique(1, n, pivot);
    }
  }

  /**
    * A round swaps an index with the one it sums up with to the pivot, or leaves it. It
    * swaps when bit `p` of the round's source is set, where `p` is the larger of the two,
    * counted through blocks of 32 bytes and in each byte from the least significant bit.
    */
  lemma RoundMeaning(seed: Seed, round: nat, n: nat, x: nat) returns (y: nat)
    requires x < n
    ensures y < n && (x + y) % n == seed.pivots(round) % n
    ensures var p := if x < y then y else x;
      && (ShuffleRound(seed, round, n, x).Some? <==> p / 256 < 0x1_0000_0000)
      && (ShuffleRound(seed, round, n, x).Some? ==>
            ShuffleRound(seed, round, n, x).value ==
            if seed.source(round, p / 256)[p % 256 / 8] / Pow2(p % 8) % 2 == 1 then y else x)
  {
    hide Bit, Pow2;
    var pivot := seed.pivots(round) % n;
    y := Flip(n, pivot, x);
    MirrorSum(x, n, pivot, y);
    var p := if x < y then y else x;
    BitIsDigit(seed.source(round, p / 256)[p % 256 / 8], p % 8);
  }

  /** The one index that sums up with `x` to the pivot. */
  lemma MirrorIsUnique(x: nat, n: nat, y: nat, z: nat)
    requires x < n && y < n && z < n && (x + y) % n == (x + z) % n
    ensures y == z
  {
    var a, r := DivisionSplits(x + y, n);
    var b, t := DivisionSplits(x + z, n);
    DivisionUnique(a, n, r);
    DivisionUnique(b, n, t);
    ProductsSpread(a, b, n);
    ProductsSpread(b, a, n);
  }

  lemma StartIs(n: nat, k: nat, count: nat, q: nat, r: nat)
    requires n * k == q * count + r && r < count
    ensures SliceStart(n, k, count) == q
  {
    DivisionUnique(q, count, r);
  }

  /** The slices of `n` into `count` differ in size by at most one. */
  lemma SliceSize(n: nat, k: nat, count: nat)
    requires k < count
    ensures var size := SliceStart(n, k + 1, count) - SliceStart(n, k, count);
      n / count <= size <= n / count + 1
  {
    hide SliceStart;
    var q, r := DivisionSplits(n * k, count);
    var a, b := DivisionSplits(n, count);
    Sum(n, k, q, r, a, b, count);
    StartIs(n, k, count, q, r);
    if r + b < count {
      StartIs(n, k + 1, count, q + a, r + b);
    } else {
      StartIs(n, k + 1, count, q + a + 1, r + b - count);
    }
  }

  lemma Sum(n: nat, k: nat, q: nat, r: nat, a: nat, b: nat, count: nat)
    requires n * k == q * count + r && n == a * count + b
    ensures n * (k + 1) == (q + a) * count + (r + b)
    ensures r + b >= count ==> n * (k + 1) == (q + a + 1) * count + (r + b - count)
  {
    assert n * (k + 1) == n * k + n;
    assert (q + a) * count == q * count + a * count;
    assert (q + a + 1) * count == q * count + a * count + count;
  }

  /** The committees of an epoch share out its active validators evenly. */
  lemma CommitteeSize(preset: Preset, seed: Seed, indices: seq<ValidatorIndex>, k: nat, count: nat)
    requires |indices| <= VALIDATOR_REGISTRY_LIMIT && k < count <= 2048
    ensures Committee(preset, seed, indices, k, count).Some?
    ensures |indices| / count <= |Committee(preset, seed, indices, k, count).value| <= |indices| / count + 1
  {
    hide Committee, SliceStart;
    CommitteeSeats(preset, seed, indices, k, count);
    SliceSize(|indices|, k, count);
  }
}
