/** What the sweep may take: never more than is there, and never below the floor. */
module WithdrawalSafety {
  import opened Primitives
  import opened Withdrawals

  /** Registries as the state bounds them, in an epoch that can be reached. */
  ghost predicate Sound(s: Ledger) {
    |s.validators| == |s.balances| <= BUILDER_INDEX_FLAG && s.epoch < FAR_FUTURE_EPOCH
  }

  /** All of a withdrawable validator's balance; of any other, what exceeds the floor. */
  function Spendable(s: Ledger, v: nat): nat
    requires v < |s.validators| == |s.balances|
  {
    if s.validators[v].withdrawableEpoch <= s.epoch then s.balances[v]
    else SaturatingSub(s.balances[v], MIN_ACTIVATION_BALANCE)
  }

  /** A builder index behind its flag, or a validator index. */
  predicate Addressed(s: Ledger, index: U64) {
    BUILDER_INDEX_FLAG <= index < 2 * BUILDER_INDEX_FLAG || index < |s.validators|
  }

  /** Consecutive sequence numbers, known addressees, and no account overdrawn. */
  ghost predicate Safe(s: Ledger, all: seq<Withdrawal>)
    requires Sound(s)
  {
    && (forall i :: 0 <= i < |all| ==> all[i].index == s.nextIndex + i)
    && (forall i :: 0 <= i < |all| ==> Addressed(s, all[i].validatorIndex))
    && (forall v :: 0 <= v < |s.balances| ==> TakenFrom(all, v) <= Spendable(s, v))
  }

  lemma BuilderFlag(index: U64)
    ensures index < BUILDER_INDEX_FLAG ==> !IsBuilderIndex(index)
    ensures BUILDER_INDEX_FLAG <= index < 2 * BUILDER_INDEX_FLAG ==> IsBuilderIndex(index)
  {
  }

  /** A safe selection, numbered on from the ledger's next index. */
  ghost predicate SafePick(s: Ledger, p: Picked)
    requires Sound(s)
  {
    Safe(s, p.all) && p.next == s.nextIndex + |p.all|
  }

  lemma PushTakes(p: Picked, v: U64, address: nat, amount: U64, x: U64)
    requires Push(p, v, address, amount).Some?
    ensures TakenFrom(Push(p, v, address, amount).value.all, x) == TakenFrom(p.all, x) + if x == v then amount else 0
  {
    var more := Push(p, v, address, amount).value.all;
    assert more[..|more| - 1] == p.all;
  }

  lemma PushSafe(s: Ledger, p: Picked, v: U64, address: nat, amount: U64)
    requires Sound(s) && SafePick(s, p) && Push(p, v, address, amount).Some? && Addressed(s, v)
    requires v < |s.validators| ==> TakenFrom(p.all, v) + amount <= Spendable(s, v)
    ensures SafePick(s, Push(p, v, address, amount).value)
  {
    hide TakenFrom, Spendable;
    var more := Push(p, v, address, amount).value.all;
    forall x | 0 <= x < |s.balances|
      ensures TakenFrom(more, x) <= Spendable(s, x)
    {
      PushTakes(p, v, address, amount, x);
    }
  }

  /** For a safe selection the saturating balance is the exact one. */
  lemma BalanceIsExact(s: Ledger, p: Picked, v: nat)
    requires Sound(s) && SafePick(s, p) && v < |s.balances|
    ensures BalanceAfter(s, v, p.all) == Some(s.balances[v] - TakenFrom(p.all, v))
  {
    hide TakenFrom;
  }

  lemma {:induction false} TakenGrows(all: seq<Withdrawal>, k: nat, v: U64)
    requires k <= |all|
    ensures TakenFrom(all[..k], v) <= TakenFrom(all, v)
  {
    if k < |all| {
      assert all[..|all| - 1][..k] == all[..k];
      TakenGrows(all[..|all| - 1], k, v);
    } else {
      assert all[..k] == all;
    }
  }

  // ---------------------------------------------------------------------------
  // Each phase keeps the selection safe
  // ---------------------------------------------------------------------------

  lemma {:induction false} PaymentsSafe(preset: Preset, s: Ledger, p: Picked, i: nat)
    requires Sound(s) && SafePick(s, p) && i <= |s.builderQueue|
    requires |p.all| <= preset.MaxWithdrawalsPerPayload() - 1 && BuilderPayments(preset, s, p, i).Some?
    ensures var r := BuilderPayments(preset, s, p, i).value;
      SafePick(s, r.picked) && |r.picked.all| <= preset.MaxWithdrawalsPerPayload() - 1
    decreases |s.builderQueue| - i
  {
    hide SafePick, Push;
    if i < |s.builderQueue| && |p.all| < preset.MaxWithdrawalsPerPayload() - 1 {
      var entry := s.builderQueue[i];
      var index := FlaggedIndex(entry.builderIndex).value;
      var more := Push(p, index, entry.feeRecipient, entry.amount).value;
      PushSafe(s, p, index, entry.feeRecipient, entry.amount);
      PushAdds(p, index, entry.feeRecipient, entry.amount);
      PaymentsSafe(preset, s, more, i + 1);
    }
  }

  lemma PushAdds(p: Picked, v: U64, address: nat, amount: U64)
    requires Push(p, v, address, amount).Some?
    ensures var more := Push(p, v, address, amount).value;
      |more.all| == |p.all| + 1 && more.all[|p.all|].validatorIndex == v
  {
  }

  lemma PartialSafe(s: Ledger, p: Picked, entry: PartialRequest)
    requires Sound(s) && SafePick(s, p) && WithPartial(s, p, entry).Some?
    ensures var more := WithPartial(s, p, entry).value;
      SafePick(s, more) && |more.all| <= |p.all| + 1
  {
    hide SafePick, Push, TakenFrom;
    var v := entry.validatorIndex;
    var validator := s.validators[v];
    BalanceIsExact(s, p, v);
    var balance := BalanceAfter(s, v, p.all).value;
    if validator.IsEligibleForPartial(balance) {
      var amount := Min(entry.amount, balance - MIN_ACTIVATION_BALANCE);
      PushSafe(s, p, v, validator.address, amount);
      PushAdds(p, v, validator.address, amount);
    }
  }

  lemma {:induction false} PartialsSafe(s: Ledger, limit: nat, p: Picked, i: nat)
    requires Sound(s) && SafePick(s, p) && i <= |s.partialQueue| && |p.all| <= limit
    requires PartialRequests(s, limit, p, i).Some?
    ensures var r := PartialRequests(s, limit, p, i).value;
      SafePick(s, r.picked) && |r.picked.all| <= limit
    decreases |s.partialQueue| - i
  {
    hide SafePick, WithPartial;
    if i < |s.partialQueue| && s.partialQueue[i].withdrawableEpoch <= s.epoch && |p.all| < limit {
      PartialSafe(s, p, s.partialQueue[i]);
      PartialsSafe(s, limit, WithPartial(s, p, s.partialQueue[i]).value, i + 1);
    }
  }

  lemma BuilderSafe(s: Ledger, p: Picked, b: nat)
    requires Sound(s) && SafePick(s, p) && b < |s.builders| && WithBuilder(s, p, b).Some?
    ensures var more := WithBuilder(s, p, b).value;
      SafePick(s, more) && |more.all| <= |p.all| + 1
  {
    hide SafePick, Push;
    var builder := s.builders[b];
    if builder.withdrawableEpoch <= s.epoch && builder.balance > 0 {
      var index := FlaggedIndex(b).value;
      PushSafe(s, p, index, builder.address, builder.balance);
      PushAdds(p, index, builder.address, builder.balance);
    }
  }

  lemma {:induction false} BuildersSafe(preset: Preset, s: Ledger, p: Picked, j: nat)
    requires Sound(s) && SafePick(s, p) && s.nextBuilder < |s.builders| && j <= |s.builders|
    requires |p.all| <= preset.MaxWithdrawalsPerPayload() - 1 && BuilderSweep(preset, s, p, j).Some?
    ensures var r := BuilderSweep(preset, s, p, j).value;
      && SafePick(s, r.picked) && |r.picked.all| <= preset.MaxWithdrawalsPerPayload() - 1
      && j <= r.processed <= |s.builders|
    decreases |s.builders| - j
  {
    hide SafePick, WithBuilder;
    var n := |s.builders|;
    if j < Min(preset.MaxBuildersPerWithdrawalsSweep(), n) && |p.all| < preset.MaxWithdrawalsPerPayload() - 1 {
      BuilderSafe(s, p, At(s.nextBuilder, j, n));
      BuildersSafe(preset, s, WithBuilder(s, p, At(s.nextBuilder, j, n)).value, j + 1);
    }
  }

  lemma ValidatorSafe(s: Ledger, p: Picked, v: nat)
    requires Sound(s) && SafePick(s, p) && v < |s.validators| && WithValidator(s, p, v).Some?
    ensures var more := WithValidator(s, p, v).value;
      && SafePick(s, more) && |p.all| <= |more.all| <= |p.all| + 1
      && (|more.all| == |p.all| + 1 ==> more.all[|p.all|].validatorIndex == v)
  {
    hide SafePick, Push, TakenFrom;
    var validator := s.validators[v];
    BalanceIsExact(s, p, v);
    var balance := BalanceAfter(s, v, p.all).value;
    if validator.IsFullyWithdrawable(balance, s.epoch) {
      PushSafe(s, p, v, validator.address, balance);
      PushAdds(p, v, validator.address, balance);
    } else if validator.IsPartiallyWithdrawable(balance) {
      PushSafe(s, p, v, validator.address, balance - validator.MaxBalance());
      PushAdds(p, v, validator.address, balance - validator.MaxBalance());
    }
  }

  /**
    * The validator sweep keeps the selection safe, visits at least one validator, and
    * stops for one of two reasons: its window is done, or the payload is full, and then
    * the last validator visited made the last withdrawal.
    */
  lemma {:induction false} ValidatorsSafe(preset: Preset, s: Ledger, p: Picked, j: nat)
    requires Sound(s) && SafePick(s, p) && s.nextValidator < |s.validators| && j <= |s.validators|
    requires |p.all| < preset.MaxWithdrawalsPerPayload() && j <= preset.MaxValidatorsPerWithdrawalsSweep()
    requires ValidatorSweep(preset, s, p, j).Some?
    ensures var r := ValidatorSweep(preset, s, p, j).value;
      var window := Min(preset.MaxValidatorsPerWithdrawalsSweep(), |s.validators|);
      var all := r.picked.all;
      && SafePick(s, r.picked) && |all| <= preset.MaxWithdrawalsPerPayload()
      && j <= r.processed <= window && (j < window ==> j < r.processed)
      && (if |all| < preset.MaxWithdrawalsPerPayload() then r.processed == window
          else r.processed > j
               && all[|all| - 1].validatorIndex == At(s.nextValidator, r.processed - 1, |s.validators|))
    decreases |s.validators| - j
  {
    hide SafePick, WithValidator;
    var n := |s.validators|;
    if j < Min(preset.MaxValidatorsPerWithdrawalsSweep(), n) {
      var v := At(s.nextValidator, j, n);
      ValidatorSafe(s, p, v);
      var more := WithValidator(s, p, v).value;
      if |more.all| < preset.MaxWithdrawalsPerPayload() {
        ValidatorsSafe(preset, s, more, j + 1);
      }
    }
  }

  lemma NothingIsSafe(s: Ledger)
    requires Sound(s)
    ensures SafePick(s, Picked([], s.nextIndex))
  {
  }

  /**
    * Every payload: at most a payload's worth of withdrawals, numbered consecutively,
    * none overdrawing an account, and a full one ends in a validator-sweep entry.
    */
  lemma SelectionIsSafe(preset: Preset, s: Ledger)
    requires Sound(s) && ExpectedWithdrawals(preset, s).Some?
    ensures var e := ExpectedWithdrawals(preset, s).value;
      var n := |s.validators|;
      && Safe(s, e.withdrawals) && |e.withdrawals| <= preset.MaxWithdrawalsPerPayload()
      && (n > 0 ==> s.nextValidator < n && 0 < e.validators <= Min(preset.MaxValidatorsPerWithdrawalsSweep(), n))
      && (n > 0 && |e.withdrawals| < preset.MaxWithdrawalsPerPayload() ==>
            e.validators == Min(preset.MaxValidatorsPerWithdrawalsSweep(), n))
      && (|e.withdrawals| == preset.MaxWithdrawalsPerPayload() ==>
            n > 0 && e.withdrawals[|e.withdrawals| - 1].validatorIndex == At(s.nextValidator, e.validators - 1, n))
  {
    hide Safe, BuilderPayments, PartialRequests, BuilderSweep, ValidatorSweep, At;
    NothingIsSafe(s);
    PaymentsSafe(preset, s, Picked([], s.nextIndex), 0);
    var first := BuilderPayments(preset, s, Picked([], s.nextIndex), 0).value.picked;
    var limit :=
      Min(|first.all| + preset.MaxPendingPartialsPerWithdrawalsSweep(), preset.MaxWithdrawalsPerPayload() - 1);
    PartialsSafe(s, limit, first, 0);
    var second := PartialRequestsFrom(preset, s, first).value.picked;
    if s.builders != [] {
      BuildersSafe(preset, s, second, 0);
    }
    var third := BuilderSweepFrom(preset, s, second).value.picked;
    if s.validators != [] {
      ValidatorsSafe(preset, s, third, 0);
    }
  }

  // ---------------------------------------------------------------------------
  // Applying a selection
  // ---------------------------------------------------------------------------

  /** Every payment to a builder names one that exists. */
  ghost predicate BuildersKnown(s: Ledger, all: seq<Withdrawal>) {
    forall i :: 0 <= i < |all| && all[i].validatorIndex >= BUILDER_INDEX_FLAG ==>
      all[i].validatorIndex - BUILDER_INDEX_FLAG < |s.builders|
  }

  /** `t` is `s` with what `all` takes taken, stopping at zero. */
  ghost predicate Taken(s: Ledger, all: seq<Withdrawal>, t: Ledger) {
    && t == s.(balances := t.balances, builders := t.builders)
    && |t.balances| == |s.balances| && |t.builders| == |s.builders|
    && (forall v :: 0 <= v < |s.balances| && v < BUILDER_INDEX_FLAG ==>
          t.balances[v] == SaturatingSub(s.balances[v], TakenFrom(all, v)))
    && (forall b :: 0 <= b < |s.builders| && b < BUILDER_INDEX_FLAG ==>
          t.builders[b] == s.builders[b].(balance :=
            SaturatingSub(s.builders[b].balance, TakenFrom(all, b + BUILDER_INDEX_FLAG))))
  }

  lemma TakesLast(all: seq<Withdrawal>, x: U64)
    requires all != []
    ensures TakenFrom(all, x) == TakenFrom(all[..|all| - 1], x)
      + if all[|all| - 1].validatorIndex == x then all[|all| - 1].amount else 0
  {
  }

  lemma PaidTakes(s: Ledger, all: seq<Withdrawal>, before: Ledger)
    requires Sound(s) && all != [] && Taken(s, all[..|all| - 1], before)
    requires Addressed(s, all[|all| - 1].validatorIndex)
    ensures var w := all[|all| - 1];
      && (Paid(before, w).Some? <==>
            (w.validatorIndex >= BUILDER_INDEX_FLAG ==> w.validatorIndex - BUILDER_INDEX_FLAG < |s.builders|))
      && (Paid(before, w).Some? ==> Taken(s, all, Paid(before, w).value))
  {
    hide TakenFrom, IsBuilderIndex;
    var w := all[|all| - 1];
    BuilderFlag(w.validatorIndex);
    if Paid(before, w).Some? {
      var t := Paid(before, w).value;
      forall v | 0 <= v < |s.balances| && v < BUILDER_INDEX_FLAG
        ensures t.balances[v] == SaturatingSub(s.balances[v], TakenFrom(all, v))
      {
        TakesLast(all, v);
      }
      forall b | 0 <= b < |s.builders| && b < BUILDER_INDEX_FLAG
        ensures t.builders[b] == s.builders[b].(balance :=
          SaturatingSub(s.builders[b].balance, TakenFrom(all, b + BUILDER_INDEX_FLAG)))
      {
        TakesLast(all, b + BUILDER_INDEX_FLAG);
      }
    }
  }

  /**
    * Applying withdrawals one by one leaves each account at its balance less all they
    * take from it, never below zero; it fails exactly when a builder is unknown.
    */
  lemma {:induction false} AppliedTakes(s: Ledger, all: seq<Withdrawal>)
    requires Sound(s) && forall i :: 0 <= i < |all| ==> Addressed(s, all[i].validatorIndex)
    ensures Applied(s, all).Some? <==> BuildersKnown(s, all)
    ensures Applied(s, all).Some? ==> Taken(s, all, Applied(s, all).value)
  {
    hide Taken, Paid, Addressed;
    if all == [] {
      NothingTaken(s);
    } else {
      var front := all[..|all| - 1];
      AppliedTakes(s, front);
      assert forall i :: 0 <= i < |front| ==> front[i] == all[i];
      if Applied(s, front).Some? {
        PaidTakes(s, all, Applied(s, front).value);
      }
    }
  }

  lemma NothingTaken(s: Ledger)
    ensures Taken(s, [], s)
  {
  }

  /**
    * Withdrawal safety. Whenever processing succeeds on a settled branch, every
    * validator's balance drops by exactly what was paid out to it, every builder ends at
    * its balance less its withdrawals or at zero, and a validator that is not yet
    * withdrawable keeps its balance or the activation minimum, whichever is smaller.
    */
  lemma WithdrawalsAreSafe(preset: Preset, s: Ledger)
    requires Sound(s) && s.latestBlockHash == s.bidBlockHash && Processed(preset, s).Some?
    ensures ExpectedWithdrawals(preset, s).Some?
    ensures var t, all := Processed(preset, s).value, ExpectedWithdrawals(preset, s).value.withdrawals;
      && t.validators == s.validators && |t.balances| == |s.balances| && |t.builders| == |s.builders|
      && t.expected == all
      && (forall v :: 0 <= v < |s.balances| ==> t.balances[v] + TakenFrom(all, v) == s.balances[v])
      && (forall b :: 0 <= b < |s.builders| && b < BUILDER_INDEX_FLAG ==>
            t.builders[b].balance == SaturatingSub(s.builders[b].balance, TakenFrom(all, b + BUILDER_INDEX_FLAG)))
      && (forall v :: 0 <= v < |s.balances| && s.validators[v].withdrawableEpoch > s.epoch ==>
            t.balances[v] >= Min(s.balances[v], MIN_ACTIVATION_BALANCE))
  {
    hide ExpectedWithdrawals, Applied, TakenFrom, NextValidatorAfter, Addressed;
    SelectionIsSafe(preset, s);
    var all := ExpectedWithdrawals(preset, s).value.withdrawals;
    AppliedTakes(s, all);
  }
}
