/**
  * The withdrawal sweep: four phases that fill one payload, and the updates that follow.
  * Each phase is a fold over the withdrawals selected so far.
  */
module Withdrawals {
  import opened Primitives
  import opened Arithmetic
  import opened ForkChoiceTypes

  const FAR_FUTURE_EPOCH: Epoch := U64_MAX
  const MIN_ACTIVATION_BALANCE: U64 := 32_000_000_000
  const MAX_EFFECTIVE_BALANCE: U64 := 2_048_000_000_000
  const ETH1_ADDRESS_WITHDRAWAL_PREFIX: nat := 1
  const COMPOUNDING_WITHDRAWAL_PREFIX: nat := 2

  /** Set in a validator index to mean a builder; registries stay below it. */
  const BUILDER_INDEX_FLAG: U64 := 0x100_0000_0000

  datatype Account = Account(
    prefix: nat, address: nat, effectiveBalance: U64, exitEpoch: Epoch, withdrawableEpoch: Epoch)
  {
    predicate IsCompounding() {
      prefix == COMPOUNDING_WITHDRAWAL_PREFIX
    }

    predicate HasExecutionCredential() {
      prefix == ETH1_ADDRESS_WITHDRAWAL_PREFIX || IsCompounding()
    }

    function MaxBalance(): U64 {
      if IsCompounding() then MAX_EFFECTIVE_BALANCE else MIN_ACTIVATION_BALANCE
    }

    predicate IsFullyWithdrawable(balance: U64, epoch: Epoch) {
      HasExecutionCredential() && withdrawableEpoch <= epoch && balance > 0
    }

    predicate IsPartiallyWithdrawable(balance: U64) {
      HasExecutionCredential() && effectiveBalance == MaxBalance() && balance > MaxBalance()
    }

    predicate IsEligibleForPartial(balance: U64) {
      exitEpoch == FAR_FUTURE_EPOCH && effectiveBalance >= MIN_ACTIVATION_BALANCE && balance > MIN_ACTIVATION_BALANCE
    }
  }

  datatype Builder = Builder(balance: U64, withdrawableEpoch: Epoch, address: nat)

  datatype BuilderPayment = BuilderPayment(builderIndex: U64, feeRecipient: nat, amount: U64)

  datatype PartialRequest = PartialRequest(validatorIndex: U64, amount: U64, withdrawableEpoch: Epoch)

  datatype Withdrawal = Withdrawal(index: U64, validatorIndex: U64, address: nat, amount: U64)

  /** The part of the beacon state withdrawals read and write. */
  datatype Ledger = Ledger(
    epoch: Epoch,
    validators: seq<Account>,
    balances: seq<U64>,
    builders: seq<Builder>,
    builderQueue: seq<BuilderPayment>,
    partialQueue: seq<PartialRequest>,
    nextIndex: U64,
    nextBuilder: U64,
    nextValidator: U64,
    expected: seq<Withdrawal>,
    latestBlockHash: nat,
    bidBlockHash: nat)

  /** Withdrawals selected so far, and the sequence number of the next one. */
  datatype Picked = Picked(all: seq<Withdrawal>, next: U64)

  /** A selection, and how many entries the phase has consumed. */
  datatype Progress = Progress(picked: Picked, processed: nat)

  // ---------------------------------------------------------------------------
  // Selecting
  // ---------------------------------------------------------------------------

  predicate IsBuilderIndex(index: U64) {
    index / BUILDER_INDEX_FLAG % 2 == 1
  }

  function FlaggedIndex(builder: U64): Option<U64> {
    if builder >= BUILDER_INDEX_FLAG then None else Some(builder + BUILDER_INDEX_FLAG)
  }

  /** One more withdrawal under the next sequence number. */
  function Push(p: Picked, validatorIndex: U64, address: nat, amount: U64): Option<Picked> {
    if p.next + 1 > U64_MAX then None
    else Some(Picked(p.all + [Withdrawal(p.next, validatorIndex, address, amount)], p.next + 1))
  }

  /** What the selected withdrawals take from one account. */
  function TakenFrom(all: seq<Withdrawal>, validatorIndex: U64): nat {
    if all == [] then 0
    else
      var last := all[|all| - 1];
      TakenFrom(all[..|all| - 1], validatorIndex) + if last.validatorIndex == validatorIndex then last.amount else 0
  }

  function BalanceAfter(s: Ledger, v: U64, all: seq<Withdrawal>): Option<U64> {
    if v >= |s.balances| || TakenFrom(all, v) > U64_MAX then None
    else Some(SaturatingSub(s.balances[v], TakenFrom(all, v)))
  }

  /** Phase 1: the builders' payment queue, up to one short of a full payload. */
  function BuilderPayments(preset: Preset, s: Ledger, p: Picked, i: nat): (r: Option<Progress>)
    requires i <= |s.builderQueue|
    ensures r.Some? ==> i <= r.value.processed <= |s.builderQueue|
    decreases |s.builderQueue| - i
  {
    if i >= |s.builderQueue| || |p.all| >= preset.MaxWithdrawalsPerPayload() - 1 then Some(Progress(p, i))
    else
      var entry := s.builderQueue[i];
      var index :- FlaggedIndex(entry.builderIndex);
      var more :- Push(p, index, entry.feeRecipient, entry.amount);
      BuilderPayments(preset, s, more, i + 1)
  }

  /** Phase 2: due partial requests; ineligible ones are consumed without a withdrawal. */
  function PartialRequests(s: Ledger, limit: nat, p: Picked, i: nat): (r: Option<Progress>)
    requires i <= |s.partialQueue|
    ensures r.Some? ==> i <= r.value.processed <= |s.partialQueue|
    decreases |s.partialQueue| - i
  {
    if i >= |s.partialQueue| || s.partialQueue[i].withdrawableEpoch > s.epoch || |p.all| >= limit
    then Some(Progress(p, i))
    else
      var more :- WithPartial(s, p, s.partialQueue[i]);
      PartialRequests(s, limit, more, i + 1)
  }

  function WithPartial(s: Ledger, p: Picked, entry: PartialRequest): Option<Picked> {
    if entry.validatorIndex >= |s.validators| then None
    else
      var validator := s.validators[entry.validatorIndex];
      var balance :- BalanceAfter(s, entry.validatorIndex, p.all);
      if !validator.IsEligibleForPartial(balance) then Some(p)
      else
        Push(p, entry.validatorIndex, validator.address, Min(entry.amount, balance - MIN_ACTIVATION_BALANCE))
  }

  /** The `j`-th position of a sweep that started at `start`. */
  function At(start: nat, j: nat, n: nat): nat
    requires start < n && j <= n
  {
    if start + j < n then start + j else start + j - n
  }

  /** Phase 3: builders from their cursor on; `j` have been visited. */
  function BuilderSweep(preset: Preset, s: Ledger, p: Picked, j: nat): Option<Progress>
    requires s.nextBuilder < |s.builders| && j <= |s.builders|
    decreases |s.builders| - j
  {
    var n := |s.builders|;
    if j >= Min(preset.MaxBuildersPerWithdrawalsSweep(), n) || |p.all| >= preset.MaxWithdrawalsPerPayload() - 1
    then Some(Progress(p, j))
    else
      var more :- WithBuilder(s, p, At(s.nextBuilder, j, n));
      BuilderSweep(preset, s, more, j + 1)
  }

  function WithBuilder(s: Ledger, p: Picked, b: nat): Option<Picked>
    requires b < |s.builders|
  {
    var builder := s.builders[b];
    if builder.withdrawableEpoch <= s.epoch && builder.balance > 0 then
      if b > U64_MAX then None
      else
        var index :- FlaggedIndex(b);
        Push(p, index, builder.address, builder.balance)
    else Some(p)
  }

  /** Phase 4: validators from their cursor on; this phase may fill the payload. */
  function ValidatorSweep(preset: Preset, s: Ledger, p: Picked, j: nat): Option<Progress>
    requires s.nextValidator < |s.validators| && j <= |s.validators|
    decreases |s.validators| - j
  {
    var n := |s.validators|;
    if j >= Min(preset.MaxValidatorsPerWithdrawalsSweep(), n) || |p.all| >= preset.MaxWithdrawalsPerPayload()
    then Some(Progress(p, j))
    else
      var more :- WithValidator(s, p, At(s.nextValidator, j, n));
      ValidatorSweep(preset, s, more, j + 1)
  }

  function WithValidator(s: Ledger, p: Picked, v: nat): Option<Picked>
    requires v < |s.validators|
  {
    if v > U64_MAX then None
    else
      var validator := s.validators[v];
      var balance :- BalanceAfter(s, v, p.all);
      if validator.IsFullyWithdrawable(balance, s.epoch) then Push(p, v, validator.address, balance)
      else if validator.IsPartiallyWithdrawable(balance) then
        Push(p, v, validator.address, balance - validator.MaxBalance())
      else Some(p)
  }

  /** The payload's withdrawals and how far each phase got. */
  datatype Expected = Expected(
    withdrawals: seq<Withdrawal>, payments: nat, partials: nat, builders: nat, validators: nat)

  function BuilderSweepFrom(preset: Preset, s: Ledger, p: Picked): Option<Progress> {
    if s.builders == [] then Some(Progress(p, 0))
    else if s.nextBuilder >= |s.builders| || |p.all| > preset.MaxWithdrawalsPerPayload() - 1 then None
    else BuilderSweep(preset, s, p, 0)
  }

  function ValidatorSweepFrom(preset: Preset, s: Ledger, p: Picked): Option<Progress> {
    if s.validators == [] then Some(Progress(p, 0))
    else if |p.all| >= preset.MaxWithdrawalsPerPayload() || s.nextValidator >= |s.validators| then None
    else ValidatorSweep(preset, s, p, 0)
  }

  function PartialRequestsFrom(preset: Preset, s: Ledger, p: Picked): (r: Option<Progress>)
    ensures r.Some? ==> r.value.processed <= |s.partialQueue|
  {
    var limit := Min(|p.all| + preset.MaxPendingPartialsPerWithdrawalsSweep(), preset.MaxWithdrawalsPerPayload() - 1);
    if |p.all| > limit then None else PartialRequests(s, limit, p, 0)
  }

  /** `get_expected_withdrawals` */
  function ExpectedWithdrawals(preset: Preset, s: Ledger): (r: Option<Expected>)
    ensures r.Some? ==> r.value.payments <= |s.builderQueue| && r.value.partials <= |s.partialQueue|
  {
    var first :- BuilderPayments(preset, s, Picked([], s.nextIndex), 0);
    var second :- PartialRequestsFrom(preset, s, first.picked);
    var third :- BuilderSweepFrom(preset, s, second.picked);
    var fourth :- ValidatorSweepFrom(preset, s, third.picked);
    Some(Expected(fourth.picked.all, first.processed, second.processed, third.processed, fourth.processed))
  }

  // ---------------------------------------------------------------------------
  // Applying
  // ---------------------------------------------------------------------------

  /** One withdrawal taken from its account; a builder's is clamped to what it holds. */
  function Paid(s: Ledger, w: Withdrawal): Option<Ledger> {
    if IsBuilderIndex(w.validatorIndex) then
      var b := w.validatorIndex - BUILDER_INDEX_FLAG;
      if b >= BUILDER_INDEX_FLAG || b >= |s.builders| then None
      else
        var builder := s.builders[b];
        Some(s.(builders := s.builders[b := builder.(balance := builder.balance - Min(w.amount, builder.balance))]))
    else if w.validatorIndex >= |s.validators| || w.validatorIndex >= |s.balances| then None
    else
      var v := w.validatorIndex;
      Some(s.(balances := s.balances[v := SaturatingSub(s.balances[v], w.amount)]))
  }

  function Applied(s: Ledger, withdrawals: seq<Withdrawal>): Option<Ledger> {
    if withdrawals == [] then Some(s)
    else
      var before :- Applied(s, withdrawals[..|withdrawals| - 1]);
      Paid(before, withdrawals[|withdrawals| - 1])
  }

  function NextIndexAfter(s: Ledger, withdrawals: seq<Withdrawal>): Option<U64> {
    if withdrawals == [] then Some(s.nextIndex) else CheckedAdd(withdrawals[|withdrawals| - 1].index, 1)
  }

  function NextBuilderAfter(s: Ledger, visited: nat): Option<U64> {
    if s.builders == [] then Some(s.nextBuilder)
    else
      var sum :- CheckedAdd(s.nextBuilder, visited);
      Some(Wrapped(sum, |s.builders|))
  }

  /** After a full payload the sweep resumes past its last withdrawal, else past its window. */
  function NextValidatorAfter(preset: Preset, s: Ledger, withdrawals: seq<Withdrawal>): Option<U64> {
    if s.validators == [] then Some(s.nextValidator)
    else if |withdrawals| == preset.MaxWithdrawalsPerPayload() then
      var sum :- CheckedAdd(withdrawals[|withdrawals| - 1].validatorIndex, 1);
      Some(Wrapped(sum, |s.validators|))
    else
      var sum :- CheckedAdd(s.nextValidator, preset.MaxValidatorsPerWithdrawalsSweep());
      Some(Wrapped(sum, |s.validators|))
  }

  /** `process_withdrawals`; an unsettled payload branch leaves everything alone. */
  function Processed(preset: Preset, s: Ledger): Option<Ledger> {
    if s.latestBlockHash != s.bidBlockHash then Some(s)
    else
      var e :- ExpectedWithdrawals(preset, s);
      var paid :- Applied(s, e.withdrawals);
      var nextIndex :- NextIndexAfter(s, e.withdrawals);
      if |e.withdrawals| > preset.MaxWithdrawalsPerPayload() then None
      else
        var nextBuilder :- NextBuilderAfter(s, e.builders);
        var nextValidator :- NextValidatorAfter(preset, s, e.withdrawals);
        Some(paid.(
          nextIndex := nextIndex, expected := e.withdrawals,
          builderQueue := s.builderQueue[e.payments..], partialQueue := s.partialQueue[e.partials..],
          nextBuilder := nextBuilder, nextValidator := nextValidator))
  }
}
