/**
  * The store's clock. The tick loop steps through every slot boundary; its effect is
  * the closed form `Ticked`, which looks only at where the clock starts and ends.
  */
module Clock {
  import opened Primitives
  import opened ForkChoiceTypes

  function SlotAtTime(preset: Preset, genesisTime: U64, time: U64): Slot {
    preset.SlotsIn(SaturatingMul(SaturatingSub(time, genesisTime), 1_000))
  }

  function SlotStartTime(preset: Preset, genesisTime: U64, slot: Slot): U64 {
    SaturatingAdd(genesisTime, preset.SpanMs(slot) / 1_000)
  }

  function CurrentSlot(preset: Preset, s: StoreView): Slot {
    SlotAtTime(preset, s.genesisTime, s.time)
  }

  function CurrentEpoch(preset: Preset, s: StoreView): Epoch {
    preset.Epoch(CurrentSlot(preset, s))
  }

  function TimeIntoSlotMs(preset: Preset, s: StoreView): nat {
    preset.MsIntoSlot(SaturatingMul(SaturatingSub(s.time, s.genesisTime), 1_000))
  }

  function SlotComponentMs(preset: Preset, basisPoints: nat): nat {
    basisPoints * preset.SlotDurationMs() / 10_000
  }

  function SlotsSinceEpochStart(preset: Preset, slot: Slot): nat {
    slot - preset.StartSlot(preset.Epoch(slot))
  }

  function Newer(candidate: Checkpoint, held: Checkpoint): Checkpoint {
    if candidate.epoch > held.epoch then candidate else held
  }

  function UpdateCheckpoints(s: StoreView, justified: Checkpoint, finalized: Checkpoint): StoreView {
    s.(justified := Newer(justified, s.justified), finalized := Newer(finalized, s.finalized))
  }

  /** One clock step with the boundary effects it triggers. */
  function TickPerSlot(preset: Preset, s: StoreView, time: U64): StoreView {
    var moved := s.(time := time);
    var current := CurrentSlot(preset, moved);
    if current <= CurrentSlot(preset, s) then moved
    else
      var cleared := moved.(boostRoot := ZERO_ROOT);
      if SlotsSinceEpochStart(preset, current) == 0
      then UpdateCheckpoints(cleared, s.unrealizedJustified, s.unrealizedFinalized)
      else cleared
  }

  /**
    * Where a tick to `time` leaves the store: the boost is dropped iff the slot moved,
    * the unrealized checkpoints are adopted iff the epoch moved, nothing else changes.
    */
  function Ticked(preset: Preset, s: StoreView, time: U64): StoreView {
    var moved := s.(time := time);
    var slotMoved := CurrentSlot(preset, moved) > CurrentSlot(preset, s);
    var epochMoved := CurrentEpoch(preset, moved) > CurrentEpoch(preset, s);
    moved.(
      boostRoot := if slotMoved then ZERO_ROOT else s.boostRoot,
      justified := if epochMoved then Newer(s.unrealizedJustified, s.justified) else s.justified,
      finalized := if epochMoved then Newer(s.unrealizedFinalized, s.finalized) else s.finalized)
  }

  /** `on_tick` as a value: refused when the clock would go back. */
  function OnTick(preset: Preset, s: StoreView, time: U64): Option<StoreView> {
    if time < s.time then None else Some(Ticked(preset, s, time))
  }

  lemma SlotMonotone(preset: Preset, genesisTime: U64, a: U64, b: U64)
    requires a <= b
    ensures SlotAtTime(preset, genesisTime, a) <= SlotAtTime(preset, genesisTime, b)
  {
  }

  /**
    * The start of a slot no later than that of `time` neither saturates nor passes
    * `time`, and it falls in exactly that slot.
    */
  lemma SlotStartIsExact(preset: Preset, genesisTime: U64, time: U64, slot: Slot)
    requires 0 < slot <= SlotAtTime(preset, genesisTime, time)
    ensures SlotStartTime(preset, genesisTime, slot) <= time
    ensures SlotAtTime(preset, genesisTime, SlotStartTime(preset, genesisTime, slot)) == slot
  {
    var d := preset.SlotDurationMs();
    var seconds: nat := SaturatingSub(time, genesisTime);
    assert slot * d <= SaturatingMul(seconds, 1_000) <= seconds * 1_000;
    assert slot * d / 1_000 == slot * (d / 1_000);
    assert SaturatingMul(slot * (d / 1_000), 1_000) == slot * d;
  }

  /** Moving one slot crosses an epoch boundary iff the new slot opens an epoch. */
  lemma EpochOpensAtMultiple(preset: Preset, slot: Slot)
    requires slot > 0
    ensures SlotsSinceEpochStart(preset, slot) == 0 <==> preset.Epoch(slot) > preset.Epoch(slot - 1)
    ensures preset.Epoch(slot) <= preset.Epoch(slot - 1) + 1
  {
  }

  lemma EpochMonotone(preset: Preset, a: Slot, b: Slot)
    requires a <= b
    ensures preset.Epoch(a) <= preset.Epoch(b)
  {
    match preset
    case Mainnet =>
    case Minimal =>
  }

  /** One step to the next slot boundary is a tick to that boundary. */
  lemma StepIsTick(preset: Preset, s: StoreView, boundary: U64)
    requires SlotAtTime(preset, s.genesisTime, boundary) == CurrentSlot(preset, s) + 1
    ensures TickPerSlot(preset, s, boundary) == Ticked(preset, s, boundary)
  {
    EpochOpensAtMultiple(preset, CurrentSlot(preset, s) + 1);
  }

  /** Ticking to `t1` and then to `t2` is ticking straight to `t2`. */
  lemma TicksCompose(preset: Preset, s: StoreView, t1: U64, t2: U64)
    requires s.time <= t1 <= t2
    ensures Ticked(preset, Ticked(preset, s, t1), t2) == Ticked(preset, s, t2)
  {
    SlotMonotone(preset, s.genesisTime, s.time, t1);
    SlotMonotone(preset, s.genesisTime, t1, t2);
    EpochMonotone(preset, CurrentSlot(preset, s), SlotAtTime(preset, s.genesisTime, t1));
    EpochMonotone(preset, SlotAtTime(preset, s.genesisTime, t1), SlotAtTime(preset, s.genesisTime, t2));
  }
}
