/** Machine integers, failure values and the two compile-time presets. */
module Primitives {

  const U64_MAX: nat := 0xFFFF_FFFF_FFFF_FFFF

  type U64 = x: nat | x <= 0xFFFF_FFFF_FFFF_FFFF

  /** A value or a refusal. Every error variant of the source is one `None`. */
  datatype Option<+T> = None | Some(value: T) {
    predicate IsFailure() {
      None?
    }

    function PropagateFailure<U>(): Option<U>
      requires None?
    {
      None
    }

    function Extract(): T
      requires Some?
    {
      value
    }
  }

  function Min(a: nat, b: nat): nat {
    if a <= b then a else b
  }

  function Max(a: nat, b: nat): nat {
    if a <= b then b else a
  }

  function SaturatingAdd(a: nat, b: nat): U64 {
    if a + b <= U64_MAX then a + b else U64_MAX
  }

  function SaturatingSub(a: U64, b: nat): U64 {
    if b <= a then a - b else 0
  }

  function SaturatingMul(a: nat, b: nat): U64 {
    if a * b <= U64_MAX then a * b else U64_MAX
  }

  function CheckedAdd(a: nat, b: nat): Option<U64> {
    if a + b <= U64_MAX then Some(a + b) else None
  }

  function CheckedMul(a: nat, b: nat): Option<U64> {
    if a * b <= U64_MAX then Some(a * b) else None
  }

  /** The constants that differ between the `mainnet` and `minimal` builds. */
  datatype Preset = Mainnet | Minimal {
    function SlotDurationMs(): nat {
      if Mainnet? then 12_000 else 6_000
    }

    function SlotsPerEpoch(): nat {
      if Mainnet? then 32 else 8
    }

    function PtcSize(): nat {
      if Mainnet? then 512 else 16
    }

    function ShuffleRoundCount(): nat {
      if Mainnet? then 90 else 10
    }

    function MaxCommitteesPerSlot(): nat {
      if Mainnet? then 64 else 4
    }

    function TargetCommitteeSize(): nat {
      if Mainnet? then 128 else 4
    }

    function MaxWithdrawalsPerPayload(): nat {
      if Mainnet? then 16 else 4
    }

    function MaxValidatorsPerWithdrawalsSweep(): nat {
      if Mainnet? then 16_384 else 16
    }

    function MaxBuildersPerWithdrawalsSweep(): nat {
      if Mainnet? then 16_384 else 16
    }

    function MaxPendingPartialsPerWithdrawalsSweep(): nat {
      if Mainnet? then 8 else 2
    }

    function Epoch(slot: U64): U64 {
      if Mainnet? then slot / 32 else slot / 8
    }

    function StartSlot(epoch: U64): U64 {
      if Mainnet? then SaturatingMul(epoch, 32) else SaturatingMul(epoch, 8)
    }

    /** Whole slots in a span of milliseconds. */
    function SlotsIn(ms: U64): U64 {
      if Mainnet? then ms / 12_000 else ms / 6_000
    }

    /** Milliseconds left over after the whole slots of a span. */
    function MsIntoSlot(ms: U64): U64 {
      if Mainnet? then ms % 12_000 else ms % 6_000
    }

    /** The length of a run of slots in milliseconds, saturating. */
    function SpanMs(slots: U64): U64 {
      if Mainnet? then SaturatingMul(slots, 12_000) else SaturatingMul(slots, 6_000)
    }
  }
}
