/**
  * The swap-or-not shuffle and the committees cut from it. The hashes behind a seed are
  * arbitrary functions: nothing here depends on what they return.
  */
module Committees {
  import opened Primitives
  import opened Arithmetic
  import opened SszBits
  import opened ForkChoiceTypes
  import opened Weight

  /** The registry holds at most `2^40` validators. */
  const VALIDATOR_REGISTRY_LIMIT: nat := 0x100_0000_0000
  const CHUNK_LIMIT: nat := 0x1_0000_0000

  type Digest = d: seq<Byte> | |d| == 32 witness seq(32, _ => 0)

  /** What a seed hashes to: a pivot word per round, a source block per round and chunk. */
  datatype Seed = Seed(pivots: nat -> U64, source: (nat, nat) -> Digest)

  // ---------------------------------------------------------------------------
  // The shuffle
  // ---------------------------------------------------------------------------

  function Flip(n: nat, pivot: nat, current: nat): (flip: nat)
    requires pivot < n && current < n
    ensures flip < n
  {
    if pivot >= current then pivot - current else n - (current - pivot)
  }

  function SourceBit(seed: Seed, round: nat, position: nat): Option<bool> {
    if position / 256 >= CHUNK_LIMIT then None
    else Some(Bit(seed.source(round, position / 256)[position % 256 / 8], position % 8))
  }

  /** One round: an index and its mirror about the pivot are swapped, or not. */
  function ShuffleRound(seed: Seed, round: nat, n: nat, current: nat): (r: Option<nat>)
    requires current < n
    ensures r.Some? ==> r.value < n
  {
    var flip := Flip(n, seed.pivots(round) % n, current);
    var swap :- SourceBit(seed, round, Max(current, flip));
    Some(if swap then flip else current)
  }

  /** The index after the first `k` rounds. */
  function Shuffled(seed: Seed, n: nat, index: nat, k: nat): (r: Option<nat>)
    requires index < n
    ensures r.Some? ==> r.value < n
  {
    if k == 0 then Some(index)
    else
      var before :- Shuffled(seed, n, index, k - 1);
      ShuffleRound(seed, k - 1, n, before)
  }

  /** `compute_shuffled_index_checked` */
  method ComputeShuffledIndex(preset: Preset, seed: Seed, index: nat, n: nat) returns (shuffled: Option<nat>)
    ensures n == 0 || index >= n ==> shuffled.None?
    ensures index < n ==> shuffled == Shuffled(seed, n, index, preset.ShuffleRoundCount())
  {
    hide SourceBit, Flip, Shuffled;
    if n == 0 || index >= n {
      return None;
    }
    var current := index;
    NoRounds(seed, n, index);
    for round := 0 to preset.ShuffleRoundCount()
      invariant current < n && Shuffled(seed, n, index, round) == Some(current)
    {
      var pivot := seed.pivots(round) % n;
      var flip := if pivot >= current then pivot - current else n - (current - pivot);
      NextRound(seed, n, index, round, current, flip);
      var bit := SourceBit(seed, round, Max(current, flip));
      if bit.None? {
        ShuffleStops(seed, n, index, round + 1, preset.ShuffleRoundCount());
        return None;
      }
      if bit.value {
        current := flip;
      }
    }
    shuffled := Some(current);
  }

  lemma NoRounds(seed: Seed, n: nat, index: nat)
    requires index < n
    ensures Shuffled(seed, n, index, 0) == Some(index)
  {
  }

  lemma NextRound(seed: Seed, n: nat, index: nat, round: nat, current: nat, flip: nat)
    requires index < n && current < n && Shuffled(seed, n, index, round) == Some(current)
    requires var pivot := seed.pivots(round) % n;
      flip == if pivot >= current then pivot - current else n - (current - pivot)
    ensures flip < n
    ensures var bit := SourceBit(seed, round, Max(current, flip));
      Shuffled(seed, n, index, round + 1) ==
      if bit.None? then None else Some(if bit.value then flip else current)
  {
    hide SourceBit;
  }

  lemma {:induction false} ShuffleStops(seed: Seed, n: nat, index: nat, k: nat, m: nat)
    requires index < n && k <= m && Shuffled(seed, n, index, k).None?
    ensures Shuffled(seed, n, index, m).None?
  {
    hide ShuffleRound;
    if k < m {
      ShuffleStops(seed, n, index, k, m - 1);
    }
  }

  /** Every round undoes itself. */
  lemma RoundIsInvolution(seed: Seed, round: nat, n: nat, current: nat)
    requires current < n && ShuffleRound(seed, round, n, current).Some?
    ensures ShuffleRound(seed, round, n, ShuffleRound(seed, round, n, current).value) == Some(current)
  {
    hide SourceBit;
    var pivot := seed.pivots(round) % n;
    assert Flip(n, pivot, Flip(n, pivot, current)) == current;
  }

  /** Within the registry limit no round can fail. */
  lemma {:induction false} ShuffleSucceeds(seed: Seed, n: nat, index: nat, k: nat)
    requires index < n <= VALIDATOR_REGISTRY_LIMIT
    ensures Shuffled(seed, n, index, k).Some?
  {
    hide Bit;
    if k > 0 {
      ShuffleSucceeds(seed, n, index, k - 1);
    }
  }

  /** The rounds in reverse order. */
  function Unshuffled(seed: Seed, n: nat, index: nat, k: nat): (r: nat)
    requires index < n <= VALIDATOR_REGISTRY_LIMIT
    ensures r < n
    decreases k
  {
    if k == 0 then index
    else
      RoundSucceeds(seed, k - 1, n, index);
      Unshuffled(seed, n, ShuffleRound(seed, k - 1, n, index).value, k - 1)
  }

  lemma RoundSucceeds(seed: Seed, round: nat, n: nat, current: nat)
    requires current < n <= VALIDATOR_REGISTRY_LIMIT
    ensures ShuffleRound(seed, round, n, current).Some?
  {
    hide Bit;
  }

  /** The shuffle is a bijection on `[0, n)`: reversing the rounds inverts it both ways. */
  lemma {:induction false} ShuffleIsBijection(seed: Seed, n: nat, index: nat, k: nat)
    requires index < n <= VALIDATOR_REGISTRY_LIMIT
    ensures Shuffled(seed, n, Unshuffled(seed, n, index, k), k) == Some(index)
    ensures Shuffled(seed, n, index, k).Some?
    ensures Unshuffled(seed, n, Shuffled(seed, n, index, k).value, k) == index
    decreases k
  {
    hide ShuffleRound;
    if k > 0 {
      RoundSucceeds(seed, k - 1, n, index);
      RoundIsInvolution(seed, k - 1, n, index);
      ShuffleIsBijection(seed, n, ShuffleRound(seed, k - 1, n, index).value, k - 1);
      ShuffleIsBijection(seed, n, index, k - 1);
      var before := Shuffled(seed, n, index, k - 1).value;
      RoundSucceeds(seed, k - 1, n, before);
      RoundIsInvolution(seed, k - 1, n, before);
    }
  }

  // ---------------------------------------------------------------------------
  // Committees
  // ---------------------------------------------------------------------------

  /** Validators at shuffled positions `lo` up to `hi`. */
  function Gathered(seed: Seed, rounds: nat, indices: seq<ValidatorIndex>, lo: nat, hi: nat)
    : Option<seq<ValidatorIndex>>
    requires lo <= hi <= |indices|
    decreases hi
  {
    if lo == hi then Some([])
    else
      var before :- Gathered(seed, rounds, indices, lo, hi - 1);
      var at :- Shuffled(seed, |indices|, hi - 1, rounds);
      Some(before + [indices[at]])
  }

  /** Where slice `index` of `count` starts. */
  function SliceStart(n: nat, index: nat, count: nat): nat
    requires count > 0
  {
    n * index / count
  }

  lemma SlicesInOrder(n: nat, index: nat, count: nat)
    requires index < count
    ensures SliceStart(n, 0, count) == 0 && SliceStart(n, count, count) == n
    ensures SliceStart(n, index, count) <= SliceStart(n, index + 1, count) <= n
  {
    assert n * index <= n * (index + 1) == n * index + n;
    ProductsSpread(index + 1, count, n);
    assert n * (index + 1) == (index + 1) * n && n * count == count * n;
    DivisionMonotone(n * index, n * (index + 1), count);
    DivisionMonotone(n * (index + 1), n * count, count);
    DivisionUnique(n, count, 0);
    DivisionUnique(0, count, 0);
  }

  /** The slice of the shuffled set that is committee `index` of `count`. */
  function Committee(preset: Preset, seed: Seed, indices: seq<ValidatorIndex>, index: nat, count: nat)
    : Option<seq<ValidatorIndex>>
  {
    if count == 0 || index >= count then None
    else if |indices| * index > U64_MAX || |indices| * (index + 1) > U64_MAX then None
    else
      var lo, hi := SliceStart(|indices|, index, count), SliceStart(|indices|, index + 1, count);
      SlicesInOrder(|indices|, index, count);
      Gathered(seed, preset.ShuffleRoundCount(), indices, lo, hi)
  }

  /** `compute_committee` */
  method ComputeCommittee(preset: Preset, seed: Seed, indices: seq<ValidatorIndex>, index: nat, count: nat)
    returns (committee: Option<seq<ValidatorIndex>>)
    ensures committee == Committee(preset, seed, indices, index, count)
  {
    hide Shuffled;
    var total := |indices|;
    if count == 0 || index >= count || total * index > U64_MAX || total * (index + 1) > U64_MAX {
      return None;
    }
    var start, end := total * index / count, total * (index + 1) / count;
    SlicesInOrder(total, index, count);
    var rounds := preset.ShuffleRoundCount();
    var seats: seq<ValidatorIndex> := [];
    for i := start to end
      invariant Gathered(seed, rounds, indices, start, i) == Some(seats)
    {
      var at := ComputeShuffledIndex(preset, seed, i, total);
      if at.None? {
        GatheringStops(seed, rounds, indices, start, i + 1, end);
        return None;
      }
      seats := seats + [indices[at.value]];
    }
    committee := Some(seats);
  }

  lemma {:induction false} GatheringStops(
    seed: Seed, rounds: nat, indices: seq<ValidatorIndex>, lo: nat, mid: nat, hi: nat)
    requires lo <= mid <= hi <= |indices| && Gathered(seed, rounds, indices, lo, mid).None?
    ensures Gathered(seed, rounds, indices, lo, hi).None?
    decreases hi
  {
    hide Shuffled;
    if mid < hi {
      GatheringStops(seed, rounds, indices, lo, mid, hi - 1);
    }
  }

  /** The validator at shuffled position `i`. */
  function Holder(seed: Seed, rounds: nat, indices: seq<ValidatorIndex>, i: nat): ValidatorIndex
    requires i < |indices| <= VALIDATOR_REGISTRY_LIMIT
  {
    ShuffleSucceeds(seed, |indices|, i, rounds);
    indices[Shuffled(seed, |indices|, i, rounds).value]
  }

  /** Within the registry limit a slice is the shuffled positions, one by one. */
  lemma {:induction false} GatheredSlice(seed: Seed, rounds: nat, indices: seq<ValidatorIndex>, lo: nat, hi: nat)
    requires lo <= hi <= |indices| <= VALIDATOR_REGISTRY_LIMIT
    ensures Gathered(seed, rounds, indices, lo, hi).Some?
    ensures |Gathered(seed, rounds, indices, lo, hi).value| == hi - lo
    ensures forall j :: 0 <= j < hi - lo ==>
      Gathered(seed, rounds, indices, lo, hi).value[j] == Holder(seed, rounds, indices, lo + j)
    decreases hi
  {
    hide Shuffled;
    if lo < hi {
      GatheredSlice(seed, rounds, indices, lo, hi - 1);
      ShuffleSucceeds(seed, |indices|, hi - 1, rounds);
      var whole := Gathered(seed, rounds, indices, lo, hi).value;
      forall j | 0 <= j < hi - lo
        ensures whole[j] == Holder(seed, rounds, indices, lo + j)
      {
        if j == hi - lo - 1 {
          assert lo + j == hi - 1;
        } else {
          assert whole[j] == Gathered(seed, rounds, indices, lo, hi - 1).value[j];
        }
      }
    }
  }

  function CommitteesPerSlot(preset: Preset, active: nat): (count: nat)
    ensures 1 <= count <= preset.MaxCommitteesPerSlot()
  {
    var raw := active / preset.SlotsPerEpoch() / preset.TargetCommitteeSize();
    Max(Min(raw, preset.MaxCommitteesPerSlot()), 1)
  }

  function ActiveIndices(state: BeaconState, epoch: Epoch): seq<ValidatorIndex> {
    ActiveUpTo(state, epoch, |state.validators|)
  }

  /** The beacon committee at a slot and index, from the seed of the slot's epoch. */
  function BeaconCommittee(preset: Preset, state: BeaconState, seed: Epoch -> Seed, slot: Slot, index: U64)
    : Option<seq<ValidatorIndex>>
  {
    var epoch := preset.Epoch(slot);
    var active := ActiveIndices(state, epoch);
    var perSlot := CommitteesPerSlot(preset, |active|);
    if index >= perSlot then None
    else
      var base := (slot % preset.SlotsPerEpoch()) * perSlot;
      Committee(preset, seed(epoch), active, base + index, perSlot * preset.SlotsPerEpoch())
  }

  // ---------------------------------------------------------------------------
  // The partition
  // ---------------------------------------------------------------------------

  lemma {:induction false} ActiveAscending(state: BeaconState, epoch: Epoch, n: nat)
    requires n <= |state.validators|
    ensures var active := ActiveUpTo(state, epoch, n);
      && |active| <= n
      && (forall i, j :: 0 <= i < j < |active| ==> active[i] < active[j])
      && (forall i :: 0 <= i < |active| ==> active[i] < n && IsActive(state.validators[active[i]], epoch))
      && (forall v :: 0 <= v < n && IsActive(state.validators[v], epoch) ==> v in active)
  {
    if n > 0 {
      ActiveAscending(state, epoch, n - 1);
    }
  }

  /** Every shuffled position lies in exactly one slice. */
  lemma {:induction false} FindSlice(n: nat, count: nat, i: nat, upTo: nat) returns (k: nat)
    requires 0 < count && upTo <= count && i < SliceStart(n, upTo, count)
    ensures k < upTo && SliceStart(n, k, count) <= i < SliceStart(n, k + 1, count)
  {
    hide SliceStart;
    SlicesInOrder(n, 0, count);
    if SliceStart(n, upTo - 1, count) <= i {
      k := upTo - 1;
    } else {
      k := FindSlice(n, count, i, upTo - 1);
    }
  }

  lemma {:induction false} SlicesApart(n: nat, count: nat, k: nat, m: nat)
    requires k <= m <= count && 0 < count
    ensures SliceStart(n, k, count) <= SliceStart(n, m, count)
  {
    hide SliceStart;
    if k < m {
      SlicesApart(n, count, k, m - 1);
      SlicesInOrder(n, m - 1, count);
    }
  }

  /** Seat `j` of committee `k` is shuffled position `SliceStart(k) + j`. */
  lemma CommitteeSeats(preset: Preset, seed: Seed, indices: seq<ValidatorIndex>, k: nat, count: nat)
    requires |indices| <= VALIDATOR_REGISTRY_LIMIT && k < count <= 2048
    ensures var start := SliceStart(|indices|, k, count);
      var committee := Committee(preset, seed, indices, k, count);
      && committee.Some? && |committee.value| == SliceStart(|indices|, k + 1, count) - start
      && SliceStart(|indices|, k + 1, count) <= |indices|
      && forall j :: 0 <= j < |committee.value| ==>
           committee.value[j] == Holder(seed, preset.ShuffleRoundCount(), indices, start + j)
  {
    hide Shuffled, SliceStart, Gathered;
    var n := |indices|;
    SlicesInOrder(n, k, count);
    ProductsSpread(n, VALIDATOR_REGISTRY_LIMIT, k);
    ProductsSpread(n, VALIDATOR_REGISTRY_LIMIT, k + 1);
    GatheredSlice(seed, preset.ShuffleRoundCount(), indices, SliceStart(n, k, count), SliceStart(n, k + 1, count));
  }

  /** Committee numbers and (slot, index) pairs of an epoch correspond. */
  lemma CommitteeNumber(preset: Preset, perSlot: nat, slotInEpoch: nat, index: nat)
    requires slotInEpoch < preset.SlotsPerEpoch() && index < perSlot <= preset.MaxCommitteesPerSlot()
    ensures var k := slotInEpoch * perSlot + index;
      && k < perSlot * preset.SlotsPerEpoch() <= 2048
      && k / perSlot == slotInEpoch && k % perSlot == index
  {
    DivisionUnique(slotInEpoch, perSlot, index);
    match preset
    case Mainnet =>
      ProductsSpread(slotInEpoch, 32, perSlot);
      assert perSlot * preset.SlotsPerEpoch() == 32 * perSlot;
    case Minimal =>
      ProductsSpread(slotInEpoch, 8, perSlot);
      assert perSlot * preset.SlotsPerEpoch() == 8 * perSlot;
  }

  /** Within the registry limit every in-range committee exists. */
  lemma CommitteesExist(preset: Preset, state: BeaconState, seed: Epoch -> Seed, slot: Slot, index: U64)
    requires |state.validators| <= VALIDATOR_REGISTRY_LIMIT
    ensures BeaconCommittee(preset, state, seed, slot, index).Some? <==>
      index < CommitteesPerSlot(preset, |ActiveIndices(state, preset.Epoch(slot))|)
  {
    hide Committee, ActiveUpTo, CommitteesPerSlot;
    var epoch := preset.Epoch(slot);
    var active := ActiveIndices(state, epoch);
    var perSlot := CommitteesPerSlot(preset, |active|);
    ActiveAscending(state, epoch, |state.validators|);
    if index < perSlot {
      var s := slot % preset.SlotsPerEpoch();
      CommitteeNumber(preset, perSlot, s, index);
      CommitteeSeats(preset, seed(epoch), active, s * perSlot + index, perSlot * preset.SlotsPerEpoch());
    }
  }

  lemma SplitNumber(k: nat, perSlot: nat, slots: nat) returns (s: nat, index: nat)
    requires perSlot > 0 && k < perSlot * slots
    ensures s < slots && index < perSlot && k == s * perSlot + index
  {
    s, index := k / perSlot, k % perSlot;
    assert k == s * perSlot + index;
    ProductsSpread(slots, s, perSlot);
  }

  lemma SlotOfEpoch(preset: Preset, epoch: Epoch, s: nat)
    requires s < preset.SlotsPerEpoch() && epoch * 32 + 31 <= U64_MAX
    ensures var slot := preset.StartSlot(epoch) + s;
      slot <= U64_MAX && preset.Epoch(slot) == epoch && slot % preset.SlotsPerEpoch() == s
  {
  }

  /** Some slice holds the shuffled position that maps to `active[at]`. */
  lemma FindSeat(preset: Preset, seed: Seed, active: seq<ValidatorIndex>, at: nat, count: nat)
    returns (k: nat, i: nat)
    requires at < |active| <= VALIDATOR_REGISTRY_LIMIT && 0 < count
    ensures k < count && SliceStart(|active|, k, count) <= i < SliceStart(|active|, k + 1, count)
    ensures i < |active| && Shuffled(seed, |active|, i, preset.ShuffleRoundCount()) == Some(at)
  {
    hide Shuffled, Unshuffled, SliceStart;
    var n, rounds := |active|, preset.ShuffleRoundCount();
    ShuffleIsBijection(seed, n, at, rounds);
    i := Unshuffled(seed, n, at, rounds);
    SlicesInOrder(n, 0, count);
    k := FindSlice(n, count, i, count);
  }

  /** Committee number `k` of an epoch is at this slot and index. */
  lemma CommitteeOf(preset: Preset, state: BeaconState, seed: Epoch -> Seed, epoch: Epoch, k: nat)
    returns (slot: Slot, index: U64)
    requires |state.validators| <= VALIDATOR_REGISTRY_LIMIT && epoch * 32 + 31 <= U64_MAX
    requires k < CommitteesPerSlot(preset, |ActiveIndices(state, epoch)|) * preset.SlotsPerEpoch()
    ensures preset.Epoch(slot) == epoch
    ensures var active := ActiveIndices(state, epoch);
      var count := CommitteesPerSlot(preset, |active|) * preset.SlotsPerEpoch();
      BeaconCommittee(preset, state, seed, slot, index) == Committee(preset, seed(epoch), active, k, count)
  {
    hide Committee, ActiveUpTo, CommitteesPerSlot, BeaconCommittee;
    var perSlot := CommitteesPerSlot(preset, |ActiveIndices(state, epoch)|);
    var s, c := SplitNumber(k, perSlot, preset.SlotsPerEpoch());
    SlotOfEpoch(preset, epoch, s);
    slot, index := preset.StartSlot(epoch) + s, c;
    CommitteeAt(preset, state, seed, slot, index, epoch, s);
  }

  lemma CommitteeAt(
    preset: Preset, state: BeaconState, seed: Epoch -> Seed, slot: Slot, index: U64, epoch: Epoch, s: nat)
    requires preset.Epoch(slot) == epoch && slot % preset.SlotsPerEpoch() == s
    requires index < CommitteesPerSlot(preset, |ActiveIndices(state, epoch)|)
    ensures var active := ActiveIndices(state, epoch);
      var perSlot := CommitteesPerSlot(preset, |active|);
      BeaconCommittee(preset, state, seed, slot, index) ==
      Committee(preset, seed(epoch), active, s * perSlot + index, perSlot * preset.SlotsPerEpoch())
  {
    hide Committee, ActiveUpTo, CommitteesPerSlot;
  }

  lemma CountIsSmall(preset: Preset, n: nat)
    ensures 0 < CommitteesPerSlot(preset, n) * preset.SlotsPerEpoch() <= 2048
  {
    hide CommitteesPerSlot;
    CommitteeNumber(preset, CommitteesPerSlot(preset, n), 0, 0);
  }

  /** Every active validator sits somewhere in its epoch. */
  lemma EveryValidatorSeated(preset: Preset, state: BeaconState, seed: Epoch -> Seed, epoch: Epoch, v: ValidatorIndex)
    returns (slot: Slot, index: U64, j: nat)
    requires |state.validators| <= VALIDATOR_REGISTRY_LIMIT && epoch * 32 + 31 <= U64_MAX
    requires v < |state.validators| && IsActive(state.validators[v], epoch)
    ensures preset.Epoch(slot) == epoch
    ensures BeaconCommittee(preset, state, seed, slot, index).Some?
    ensures j < |BeaconCommittee(preset, state, seed, slot, index).value|
    ensures BeaconCommittee(preset, state, seed, slot, index).value[j] == v
  {
    hide Committee, BeaconCommittee, ActiveUpTo, CommitteesPerSlot, Shuffled, SliceStart;
    var active := ActiveIndices(state, epoch);
    ActiveAscending(state, epoch, |state.validators|);
    var at :| 0 <= at < |active| && active[at] == v;
    var count := CommitteesPerSlot(preset, |active|) * preset.SlotsPerEpoch();
    CountIsSmall(preset, |active|);
    var k, i := FindSeat(preset, seed(epoch), active, at, count);
    CommitteeSeats(preset, seed(epoch), active, k, count);
    slot, index := CommitteeOf(preset, state, seed, epoch, k);
    j := i - SliceStart(|active|, k, count);
  }

  /** A seat: which slice it is in, and which shuffled position. */
  lemma SeatOf(preset: Preset, state: BeaconState, seed: Epoch -> Seed, slot: Slot, index: U64, j: nat)
    returns (k: nat, i: nat)
    requires |state.validators| <= VALIDATOR_REGISTRY_LIMIT
    requires BeaconCommittee(preset, state, seed, slot, index).Some?
    requires j < |BeaconCommittee(preset, state, seed, slot, index).value|
    ensures var epoch := preset.Epoch(slot);
      var active := ActiveIndices(state, epoch);
      var perSlot := CommitteesPerSlot(preset, |active|);
      var count := perSlot * preset.SlotsPerEpoch();
      && index < perSlot && k == slot % preset.SlotsPerEpoch() * perSlot + index < count
      && k / perSlot == slot % preset.SlotsPerEpoch() && k % perSlot == index
      && i == SliceStart(|active|, k, count) + j < SliceStart(|active|, k + 1, count) && i < |active|
      && |active| <= VALIDATOR_REGISTRY_LIMIT
      && BeaconCommittee(preset, state, seed, slot, index).value[j]
         == Holder(seed(epoch), preset.ShuffleRoundCount(), active, i)
  {
    hide Committee, ActiveUpTo, CommitteesPerSlot, Shuffled, SliceStart;
    var epoch := preset.Epoch(slot);
    var active := ActiveIndices(state, epoch);
    var perSlot := CommitteesPerSlot(preset, |active|);
    var count := perSlot * preset.SlotsPerEpoch();
    ActiveAscending(state, epoch, |state.validators|);
    CommitteeNumber(preset, perSlot, slot % preset.SlotsPerEpoch(), index);
    k := slot % preset.SlotsPerEpoch() * perSlot + index;
    CommitteeSeats(preset, seed(epoch), active, k, count);
    i := SliceStart(|active|, k, count) + j;
  }

  lemma SameSlice(n: nat, count: nat, k: nat, m: nat, i: nat)
    requires k < count && m < count
    requires SliceStart(n, k, count) <= i < SliceStart(n, k + 1, count)
    requires SliceStart(n, m, count) <= i < SliceStart(n, m + 1, count)
    ensures k == m
  {
    hide SliceStart;
    if k < m {
      SlicesApart(n, count, k + 1, m);
    } else if m < k {
      SlicesApart(n, count, m + 1, k);
    }
  }

  /** No validator sits twice in an epoch. */
  lemma NoValidatorSeatedTwice(
    preset: Preset, state: BeaconState, seed: Epoch -> Seed,
    slot1: Slot, index1: U64, j1: nat, slot2: Slot, index2: U64, j2: nat)
    requires |state.validators| <= VALIDATOR_REGISTRY_LIMIT && preset.Epoch(slot1) == preset.Epoch(slot2)
    requires var a := BeaconCommittee(preset, state, seed, slot1, index1);
      var b := BeaconCommittee(preset, state, seed, slot2, index2);
      a.Some? && b.Some? && j1 < |a.value| && j2 < |b.value| && a.value[j1] == b.value[j2]
    ensures slot1 == slot2 && index1 == index2 && j1 == j2
  {
    hide BeaconCommittee, ActiveUpTo, CommitteesPerSlot, Shuffled, Unshuffled, SliceStart;
    var epoch := preset.Epoch(slot1);
    var active := ActiveIndices(state, epoch);
    var n, rounds := |active|, preset.ShuffleRoundCount();
    ActiveAscending(state, epoch, |state.validators|);
    var k, i := SeatOf(preset, state, seed, slot1, index1, j1);
    var m, l := SeatOf(preset, state, seed, slot2, index2, j2);
    ShuffleIsBijection(seed(epoch), n, i, rounds);
    ShuffleIsBijection(seed(epoch), n, l, rounds);
    assert i == l;
    SameSlice(n, CommitteesPerSlot(preset, n) * preset.SlotsPerEpoch(), k, m, i);
  }
}
