/** The withdrawal phases as written: loops over the state, then updates in place. */
module WithdrawalState {
  import opened Primitives
  import opened Arithmetic
  import opened ForkChoiceTypes
  import opened Withdrawals
  import opened WithdrawalSafety

  /** New withdrawals of a phase, the next sequence number, and the entries consumed. */
  datatype Phase = Phase(withdrawals: seq<Withdrawal>, nextIndex: U64, processed: nat)

  /** `phase` continues `prior` to where `progress` says. */
  ghost predicate Continues(prior: seq<Withdrawal>, phase: Option<Phase>, progress: Option<Progress>) {
    && (phase.Some? <==> progress.Some?)
    && (phase.Some? ==>
          && prior + phase.value.withdrawals == progress.value.picked.all
          && phase.value.nextIndex == progress.value.picked.next
          && phase.value.processed == progress.value.processed)
  }

  class StateCell {
    const preset: Preset
    const epoch: Epoch
    var validators: seq<Account>
    var balances: seq<U64>
    var builders: seq<Builder>
    var builderQueue: seq<BuilderPayment>
    var partialQueue: seq<PartialRequest>
    var nextIndex: U64
    var nextBuilder: U64
    var nextValidator: U64
    var expected: seq<Withdrawal>
    var latestBlockHash: nat
    var bidBlockHash: nat

    constructor (preset: Preset, s: Ledger)
      ensures this.preset == preset && View() == s
    {
      this.preset := preset;
      epoch := s.epoch;
      validators, balances, builders := s.validators, s.balances, s.builders;
      builderQueue, partialQueue := s.builderQueue, s.partialQueue;
      nextIndex, nextBuilder, nextValidator := s.nextIndex, s.nextBuilder, s.nextValidator;
      expected, latestBlockHash, bidBlockHash := s.expected, s.latestBlockHash, s.bidBlockHash;
    }

    function View(): Ledger
      reads this
    {
      Ledger(epoch, validators, balances, builders, builderQueue, partialQueue, nextIndex, nextBuilder,
             nextValidator, expected, latestBlockHash, bidBlockHash)
    }

    /** The balance left once the selected withdrawals are taken, with checked sums. */
    method GetBalanceAfterWithdrawals(v: U64, withdrawals: seq<Withdrawal>) returns (balance: Option<U64>)
      ensures balance == BalanceAfter(View(), v, withdrawals)
    {
      hide TakenFrom;
      if v >= |balances| {
        return None;
      }
      var withdrawn: U64 := 0;
      NothingTakenFrom(withdrawals, v);
      for k := 0 to |withdrawals|
        invariant withdrawn == TakenFrom(withdrawals[..k], v)
      {
        assert withdrawals[..k + 1][..k] == withdrawals[..k];
        TakesLast(withdrawals[..k + 1], v);
        if withdrawals[k].validatorIndex == v {
          var sum := CheckedAdd(withdrawn, withdrawals[k].amount);
          if sum.None? {
            TakenGrows(withdrawals, k + 1, v);
            return None;
          }
          withdrawn := sum.value;
        }
      }
      assert withdrawals[..|withdrawals|] == withdrawals;
      balance := Some(SaturatingSub(balances[v], withdrawn));
    }

    method GetBuilderWithdrawals(withdrawalIndex: U64, prior: seq<Withdrawal>) returns (phase: Option<Phase>)
      ensures |prior| > preset.MaxWithdrawalsPerPayload() - 1 ==> phase.None?
      ensures |prior| <= preset.MaxWithdrawalsPerPayload() - 1 ==>
        Continues(prior, phase, BuilderPayments(preset, View(), Picked(prior, withdrawalIndex), 0))
    {
      var limit := preset.MaxWithdrawalsPerPayload() - 1;
      if |prior| > limit {
        return None;
      }
      var withdrawals: seq<Withdrawal>, index: U64, processed := [], withdrawalIndex, 0;
      ghost var whole := BuilderPayments(preset, View(), Picked(prior, withdrawalIndex), 0);
      assert prior + withdrawals == prior;
      while processed < |builderQueue| && |prior| + |withdrawals| < limit
        invariant processed <= |builderQueue|
        invariant BuilderPayments(preset, View(), Picked(prior + withdrawals, index), processed) == whole
      {
        var entry := builderQueue[processed];
        var flagged := FlaggedIndex(entry.builderIndex);
        if flagged.None? || index + 1 > U64_MAX {
          return None;
        }
        var w := Withdrawal(index, flagged.value, entry.feeRecipient, entry.amount);
        assert prior + (withdrawals + [w]) == prior + withdrawals + [w];
        withdrawals := withdrawals + [w];
        index := index + 1;
        processed := processed + 1;
      }
      phase := Some(Phase(withdrawals, index, processed));
    }

    method GetPendingPartialWithdrawals(withdrawalIndex: U64, prior: seq<Withdrawal>) returns (phase: Option<Phase>)
      ensures Continues(prior, phase, PartialRequestsFrom(preset, View(), Picked(prior, withdrawalIndex)))
    {
      hide TakenFrom, BalanceAfter;
      var limit := Min(|prior| + preset.MaxPendingPartialsPerWithdrawalsSweep(), preset.MaxWithdrawalsPerPayload() - 1);
      if |prior| > limit {
        return None;
      }
      var withdrawals: seq<Withdrawal>, index: U64, processed := [], withdrawalIndex, 0;
      ghost var whole := PartialRequests(View(), limit, Picked(prior, withdrawalIndex), 0);
      assert prior + withdrawals == prior;
      while processed < |partialQueue| && partialQueue[processed].withdrawableEpoch <= epoch
            && |prior| + |withdrawals| < limit
        invariant processed <= |partialQueue|
        invariant PartialRequests(View(), limit, Picked(prior + withdrawals, index), processed) == whole
      {
        var entry := partialQueue[processed];
        if entry.validatorIndex >= |validators| {
          return None;
        }
        var validator := validators[entry.validatorIndex];
        var balance := GetBalanceAfterWithdrawals(entry.validatorIndex, prior + withdrawals);
        if balance.None? {
          return None;
        }
        if validator.IsEligibleForPartial(balance.value) {
          if index + 1 > U64_MAX {
            return None;
          }
          var amount := Min(entry.amount, SaturatingSub(balance.value, MIN_ACTIVATION_BALANCE));
          var w := Withdrawal(index, entry.validatorIndex, validator.address, amount);
          assert prior + (withdrawals + [w]) == prior + withdrawals + [w];
          withdrawals := withdrawals + [w];
          index := index + 1;
        }
        processed := processed + 1;
      }
      phase := Some(Phase(withdrawals, index, processed));
    }

    method GetBuildersSweepWithdrawals(withdrawalIndex: U64, prior: seq<Withdrawal>) returns (phase: Option<Phase>)
      ensures Continues(prior, phase, BuilderSweepFrom(preset, View(), Picked(prior, withdrawalIndex)))
    {
      var n := |builders|;
      if n == 0 {
        assert prior + [] == prior;
        return Some(Phase([], withdrawalIndex, 0));
      }
      var limit := preset.MaxWithdrawalsPerPayload() - 1;
      if nextBuilder >= n || |prior| > limit {
        return None;
      }
      var withdrawals: seq<Withdrawal>, index: U64, processed, cursor := [], withdrawalIndex, 0, nextBuilder;
      ghost var whole := BuilderSweep(preset, View(), Picked(prior, withdrawalIndex), 0);
      assert prior + withdrawals == prior;
      while processed < Min(preset.MaxBuildersPerWithdrawalsSweep(), n) && |prior| + |withdrawals| < limit
        invariant processed <= n && cursor == At(nextBuilder, processed, n) < n
        invariant BuilderSweep(preset, View(), Picked(prior + withdrawals, index), processed) == whole
      {
        var builder := builders[cursor];
        if builder.withdrawableEpoch <= epoch && builder.balance > 0 {
          if cursor > U64_MAX {
            return None;
          }
          var flagged := FlaggedIndex(cursor);
          if flagged.None? || index + 1 > U64_MAX {
            return None;
          }
          var w := Withdrawal(index, flagged.value, builder.address, builder.balance);
          assert prior + (withdrawals + [w]) == prior + withdrawals + [w];
          withdrawals := withdrawals + [w];
          index := index + 1;
        }
        WrappedOnce(cursor + 1, n);
        cursor := Wrapped(cursor + 1, n);
        processed := processed + 1;
      }
      phase := Some(Phase(withdrawals, index, processed));
    }

    /** The withdrawal of one swept validator, if it makes one. */
    method SweepOne(cursor: nat, index: U64, all: seq<Withdrawal>) returns (ok: bool, w: Option<Withdrawal>)
      requires cursor < |validators|
      ensures ok <==> WithValidator(View(), Picked(all, index), cursor).Some?
      ensures ok && w.Some? ==> index + 1 <= U64_MAX
      ensures ok ==>
        WithValidator(View(), Picked(all, index), cursor).value ==
          if w.Some? then Picked(all + [w.value], index + 1) else Picked(all, index)
    {
      hide TakenFrom, BalanceAfter;
      if cursor > U64_MAX {
        return false, None;
      }
      var validator := validators[cursor];
      var balance := GetBalanceAfterWithdrawals(cursor, all);
      if balance.None? {
        return false, None;
      }
      var isFull := validator.IsFullyWithdrawable(balance.value, epoch);
      if !isFull && !validator.IsPartiallyWithdrawable(balance.value) {
        return true, None;
      }
      if index + 1 > U64_MAX {
        return false, None;
      }
      var amount := if isFull then balance.value else SaturatingSub(balance.value, validator.MaxBalance());
      return true, Some(Withdrawal(index, cursor, validator.address, amount));
    }

    method GetValidatorsSweepWithdrawals(withdrawalIndex: U64, prior: seq<Withdrawal>) returns (phase: Option<Phase>)
      ensures Continues(prior, phase, ValidatorSweepFrom(preset, View(), Picked(prior, withdrawalIndex)))
    {
      hide ValidatorSweep, WithValidator;
      var n := |validators|;
      if n == 0 {
        assert prior + [] == prior;
        return Some(Phase([], withdrawalIndex, 0));
      }
      var limit := preset.MaxWithdrawalsPerPayload();
      if |prior| >= limit || nextValidator >= n {
        return None;
      }
      var withdrawals: seq<Withdrawal>, index: U64, processed, cursor := [], withdrawalIndex, 0, nextValidator;
      ghost var whole := ValidatorSweep(preset, View(), Picked(prior, withdrawalIndex), 0);
      assert prior + withdrawals == prior;
      while processed < Min(preset.MaxValidatorsPerWithdrawalsSweep(), n) && |prior| + |withdrawals| < limit
        invariant processed <= n && cursor == At(nextValidator, processed, n) < n
        invariant ValidatorSweep(preset, View(), Picked(prior + withdrawals, index), processed) == whole
      {
        SweepStep(preset, View(), Picked(prior + withdrawals, index), processed);
        var ok, w := SweepOne(cursor, index, prior + withdrawals);
        if !ok {
          return None;
        }
        if w.Some? {
          assert prior + (withdrawals + [w.value]) == prior + withdrawals + [w.value];
          withdrawals := withdrawals + [w.value];
          index := index + 1;
        }
        WrappedOnce(cursor + 1, n);
        cursor := Wrapped(cursor + 1, n);
        processed := processed + 1;
      }
      SweepEnds(preset, View(), Picked(prior + withdrawals, index), processed);
      phase := Some(Phase(withdrawals, index, processed));
    }

    method GetExpectedWithdrawals() returns (e: Option<Expected>)
      ensures e == ExpectedWithdrawals(preset, View())
    {
      hide BuilderPayments, PartialRequestsFrom, BuilderSweepFrom, ValidatorSweepFrom;
      var all: seq<Withdrawal> := [];
      var first := GetBuilderWithdrawals(nextIndex, all);
      if first.None? {
        return None;
      }
      all := all + first.value.withdrawals;
      var second := GetPendingPartialWithdrawals(first.value.nextIndex, all);
      if second.None? {
        return None;
      }
      all := all + second.value.withdrawals;
      var third := GetBuildersSweepWithdrawals(second.value.nextIndex, all);
      if third.None? {
        return None;
      }
      all := all + third.value.withdrawals;
      var fourth := GetValidatorsSweepWithdrawals(third.value.nextIndex, all);
      if fourth.None? {
        return None;
      }
      all := all + fourth.value.withdrawals;
      e := Some(Expected(all, first.value.processed, second.value.processed, third.value.processed,
                         fourth.value.processed));
    }

    /** Take each withdrawal from its account; stops at the first unknown one. */
    method ApplyWithdrawals(withdrawals: seq<Withdrawal>) returns (ok: bool)
      modifies this`balances, this`builders
      ensures ok ==> Applied(old(View()), withdrawals) == Some(View())
      ensures !ok ==> Applied(old(View()), withdrawals).None?
    {
      hide Applied, IsBuilderIndex;
      ghost var before := View();
      NothingApplied(before, withdrawals);
      for k := 0 to |withdrawals|
        invariant Applied(before, withdrawals[..k]) == Some(View())
      {
        var w := withdrawals[k];
        OneMoreApplied(before, withdrawals, k);
        if IsBuilderIndex(w.validatorIndex) {
          FlagIsSet(w.validatorIndex);
          var b := w.validatorIndex - BUILDER_INDEX_FLAG;
          if b >= BUILDER_INDEX_FLAG || b >= |builders| {
            ApplyingStops(before, withdrawals, k + 1);
            return false;
          }
          var builder := builders[b];
          var amount := Min(w.amount, builder.balance);
          builders := builders[b := builder.(balance := SaturatingSub(builder.balance, amount))];
        } else {
          var v := w.validatorIndex;
          if v >= |validators| || v >= |balances| {
            ApplyingStops(before, withdrawals, k + 1);
            return false;
          }
          balances := balances[v := SaturatingSub(balances[v], w.amount)];
        }
      }
      assert withdrawals[..|withdrawals|] == withdrawals;
      ok := true;
    }

    method UpdateNextWithdrawalIndex(withdrawals: seq<Withdrawal>) returns (ok: bool)
      modifies this`nextIndex
      ensures ok <==> NextIndexAfter(old(View()), withdrawals).Some?
      ensures ok ==> nextIndex == NextIndexAfter(old(View()), withdrawals).value
    {
      if withdrawals != [] {
        var next := CheckedAdd(withdrawals[|withdrawals| - 1].index, 1);
        if next.None? {
          return false;
        }
        nextIndex := next.value;
      }
      ok := true;
    }

    /** Turn the builder cursor past the builders visited. */
    method UpdateNextBuilder(visited: nat) returns (ok: bool)
      modifies this`nextBuilder
      ensures ok <==> NextBuilderAfter(old(View()), visited).Some?
      ensures ok ==> nextBuilder == NextBuilderAfter(old(View()), visited).value
      ensures !ok || builders == [] ==> nextBuilder == old(nextBuilder)
      ensures ok && visited <= |builders| && old(nextBuilder) < |builders| ==>
        nextBuilder == At(old(nextBuilder), visited, |builders|) < |builders|
    {
      if |builders| > 0 {
        var sum := CheckedAdd(nextBuilder, visited);
        if sum.None? {
          return false;
        }
        if visited <= |builders| && nextBuilder < |builders| {
          WrappedOnce(sum.value, |builders|);
        }
        nextBuilder := Wrapped(sum.value, |builders|);
      }
      ok := true;
    }

    method UpdateNextValidator(withdrawals: seq<Withdrawal>) returns (ok: bool)
      modifies this`nextValidator
      ensures ok <==> NextValidatorAfter(preset, old(View()), withdrawals).Some?
      ensures ok ==> nextValidator == NextValidatorAfter(preset, old(View()), withdrawals).value
    {
      hide Wrapped;
      if |validators| > 0 {
        var sum;
        if |withdrawals| == preset.MaxWithdrawalsPerPayload() {
          sum := CheckedAdd(withdrawals[|withdrawals| - 1].validatorIndex, 1);
        } else {
          sum := CheckedAdd(nextValidator, preset.MaxValidatorsPerWithdrawalsSweep());
        }
        if sum.None? {
          return false;
        }
        nextValidator := Wrapped(sum.value, |validators|);
      }
      ok := true;
    }

    /** Select, apply, number, mirror, drain both queues and turn both cursors. */
    method ProcessWithdrawals() returns (ok: bool)
      modifies this
      ensures ok <==> Processed(preset, old(View())).Some?
      ensures ok ==> View() == Processed(preset, old(View())).value
    {
      hide ExpectedWithdrawals, Applied, NextIndexAfter, NextBuilderAfter, NextValidatorAfter;
      if latestBlockHash != bidBlockHash {
        return true;
      }
      ghost var before := View();
      var e := GetExpectedWithdrawals();
      if e.None? {
        return false;
      }
      ok := ApplyWithdrawals(e.value.withdrawals);
      if !ok {
        return;
      }
      ghost var paid := View();
      AppliedKeepsCursors(before, e.value.withdrawals);
      CursorsDependOn(preset, before, paid, e.value.withdrawals, e.value.builders);
      ok := UpdateNextWithdrawalIndex(e.value.withdrawals);
      if !ok {
        return;
      }
      if |e.value.withdrawals| > preset.MaxWithdrawalsPerPayload() {
        return false;
      }
      expected := e.value.withdrawals;
      builderQueue := builderQueue[e.value.payments..];
      partialQueue := partialQueue[e.value.partials..];
      CursorsDependOn(preset, before, View(), e.value.withdrawals, e.value.builders);
      ok := UpdateNextBuilder(e.value.builders);
      if !ok {
        return;
      }
      CursorsDependOn(preset, before, View(), e.value.withdrawals, e.value.builders);
      ok := UpdateNextValidator(e.value.withdrawals);
    }
  }

  lemma SweepStep(preset: Preset, s: Ledger, p: Picked, j: nat)
    requires s.nextValidator < |s.validators| && |p.all| < preset.MaxWithdrawalsPerPayload()
    requires j < Min(preset.MaxValidatorsPerWithdrawalsSweep(), |s.validators|)
    ensures var more := WithValidator(s, p, At(s.nextValidator, j, |s.validators|));
      ValidatorSweep(preset, s, p, j) == if more.None? then None else ValidatorSweep(preset, s, more.value, j + 1)
  {
    hide WithValidator;
  }

  lemma SweepEnds(preset: Preset, s: Ledger, p: Picked, j: nat)
    requires s.nextValidator < |s.validators| && j <= |s.validators|
    requires j >= Min(preset.MaxValidatorsPerWithdrawalsSweep(), |s.validators|)
      || |p.all| >= preset.MaxWithdrawalsPerPayload()
    ensures ValidatorSweep(preset, s, p, j) == Some(Progress(p, j))
  {
  }

  lemma NothingTakenFrom(all: seq<Withdrawal>, v: U64)
    ensures TakenFrom(all[..0], v) == 0
  {
  }

  lemma FlagIsSet(index: U64)
    requires IsBuilderIndex(index)
    ensures index >= BUILDER_INDEX_FLAG
  {
  }

  lemma NothingApplied(s: Ledger, all: seq<Withdrawal>)
    ensures Applied(s, all[..0]) == Some(s)
  {
  }

  lemma OneMoreApplied(s: Ledger, all: seq<Withdrawal>, k: nat)
    requires k < |all| && Applied(s, all[..k]).Some?
    ensures Applied(s, all[..k + 1]) == Paid(Applied(s, all[..k]).value, all[k])
  {
    assert all[..k + 1][..k] == all[..k];
  }

  lemma {:induction false} ApplyingStops(s: Ledger, all: seq<Withdrawal>, k: nat)
    requires k <= |all| && Applied(s, all[..k]).None?
    ensures Applied(s, all).None?
  {
    hide Paid;
    if k == |all| {
      assert all[..k] == all;
    } else {
      var front := all[..|all| - 1];
      assert front[..k] == all[..k];
      ApplyingStops(s, front, k);
    }
  }

  /** Paying touches balances only. */
  lemma {:induction false} AppliedKeepsCursors(s: Ledger, all: seq<Withdrawal>)
    requires Applied(s, all).Some?
    ensures var t := Applied(s, all).value;
      t == s.(balances := t.balances, builders := t.builders)
      && |t.balances| == |s.balances| && |t.builders| == |s.builders|
  {
    hide Paid;
    if all != [] {
      AppliedKeepsCursors(s, all[..|all| - 1]);
      PaidKeepsCursors(Applied(s, all[..|all| - 1]).value, all[|all| - 1]);
    }
  }

  lemma PaidKeepsCursors(s: Ledger, w: Withdrawal)
    requires Paid(s, w).Some?
    ensures var t := Paid(s, w).value;
      t == s.(balances := t.balances, builders := t.builders)
      && |t.balances| == |s.balances| && |t.builders| == |s.builders|
  {
    hide IsBuilderIndex;
    if IsBuilderIndex(w.validatorIndex) {
      FlagIsSet(w.validatorIndex);
    }
  }

  /** Each cursor is computed from itself and the registry sizes. */
  lemma CursorsDependOn(preset: Preset, s: Ledger, t: Ledger, all: seq<Withdrawal>, visited: nat)
    requires t.validators == s.validators && |t.builders| == |s.builders|
    ensures t.nextIndex == s.nextIndex ==> NextIndexAfter(t, all) == NextIndexAfter(s, all)
    ensures t.nextBuilder == s.nextBuilder ==> NextBuilderAfter(t, visited) == NextBuilderAfter(s, visited)
    ensures t.nextValidator == s.nextValidator ==>
      NextValidatorAfter(preset, t, all) == NextValidatorAfter(preset, s, all)
  {
    hide Wrapped;
  }
}
