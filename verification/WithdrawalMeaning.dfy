/**
  * Who is paid what. Each phase goes through its entries in order; whether an entry is due,
  * to whom and how much is said in plain fields, given what was selected before it.
  */
module WithdrawalMeaning {
  import opened Primitives
  import opened Withdrawals

  datatype Stage = Payments | Requests | BuilderTurns | ValidatorTurns

  datatype Due = Due(index: nat, address: nat, amount: nat)

  /** What is left of a validator's balance once `prior` is taken. */
  function Remainder(s: Ledger, prior: seq<Withdrawal>, v: nat): nat
    requires v < |s.balances| && v <= U64_MAX
  {
    if s.balances[v] <= TakenFrom(prior, v) then 0 else s.balances[v] - TakenFrom(prior, v)
  }

  /** A queued payment is due as it stands. */
  function PaymentDue(s: Ledger, i: nat): Option<Due>
    requires i < |s.builderQueue|
  {
    Some(Due(BUILDER_INDEX_FLAG + s.builderQueue[i].builderIndex, s.builderQueue[i].feeRecipient,
             s.builderQueue[i].amount))
  }

  /** A requested withdrawal is due to a validator that stays and has more than the minimum. */
  function RequestDue(s: Ledger, prior: seq<Withdrawal>, i: nat): Option<Due>
    requires i < |s.partialQueue|
  {
    var v := s.partialQueue[i].validatorIndex;
    if v < |s.validators| && v < |s.balances|
       && s.validators[v].exitEpoch == FAR_FUTURE_EPOCH
       && s.validators[v].effectiveBalance >= 32_000_000_000 && Remainder(s, prior, v) > 32_000_000_000
    then
      var excess := Remainder(s, prior, v) - 32_000_000_000;
      var asked := s.partialQueue[i].amount;
      Some(Due(v, s.validators[v].address, if asked <= excess then asked else excess))
    else None
  }

  /** A builder that may leave is due its whole balance. */
  function BuilderDue(s: Ledger, b: nat): Option<Due>
    requires b < |s.builders|
  {
    if s.builders[b].withdrawableEpoch <= s.epoch && s.builders[b].balance > 0
    then Some(Due(BUILDER_INDEX_FLAG + b, s.builders[b].address, s.builders[b].balance)) else None
  }

  /** The most a validator's effective balance can be. */
  function Ceiling(a: Account): nat {
    if a.prefix == 2 then 2_048_000_000_000 else 32_000_000_000
  }

  /**
    * A validator with an execution address is due all it has once it may leave, and before
    * that, at its highest effective balance, whatever exceeds it.
    */
  function ValidatorDue(s: Ledger, prior: seq<Withdrawal>, v: nat): Option<Due>
    requires v < |s.validators|
  {
    var a := s.validators[v];
    if v >= |s.balances| || v > U64_MAX || (a.prefix != 1 && a.prefix != 2) then None
    else if a.withdrawableEpoch <= s.epoch && Remainder(s, prior, v) > 0
    then Some(Due(v, a.address, Remainder(s, prior, v)))
    else if a.effectiveBalance == Ceiling(a) && Remainder(s, prior, v) > Ceiling(a)
    then Some(Due(v, a.address, Remainder(s, prior, v) - Ceiling(a)))
    else None
  }

  /** What the `j`-th entry of a stage is due. */
  function DueAt(stage: Stage, s: Ledger, prior: seq<Withdrawal>, j: nat): Option<Due> {
    match stage
    case Payments => if j < |s.builderQueue| then PaymentDue(s, j) else None
    case Requests => if j < |s.partialQueue| then RequestDue(s, prior, j) else None
    case BuilderTurns =>
      if s.nextBuilder < |s.builders| && j < |s.builders|
      then BuilderDue(s, At(s.nextBuilder, j, |s.builders|)) else None
    case ValidatorTurns =>
      if s.nextValidator < |s.validators| && j < |s.validators|
      then ValidatorDue(s, prior, At(s.nextValidator, j, |s.validators|)) else None
  }

  /** From `a` to `b` withdrawals, the entry was paid what it was due, under the next number. */
  ghost predicate PaidAt(stage: Stage, s: Ledger, all: seq<Withdrawal>, a: nat, b: nat, j: nat) {
    a <= |all| &&
    match DueAt(stage, s, all[..a], j)
    case None => b == a
    case Some(due) =>
      && b == a + 1 <= |all|
      && all[a].index == s.nextIndex + a && all[a].validatorIndex == due.index
      && all[a].address == due.address && all[a].amount == due.amount
  }

  /**
    * A stage paid its entries from the `i`-th on, one after the other: `at[k]` withdrawals
    * were selected before the `k`-th of them.
    */
  ghost predicate PaidInTurn(stage: Stage, s: Ledger, all: seq<Withdrawal>, at: seq<nat>, i: nat) {
    forall k :: 0 <= k < |at| - 1 ==> PaidAt(stage, s, all, at[k], at[k + 1], i + k)
  }

  /** `r` continues `p`, numbered on. */
  ghost predicate Continues(s: Ledger, p: Picked, r: Picked) {
    p.all <= r.all && r.next == s.nextIndex + |r.all|
  }

  /** The trace of a stage: where it starts, where it ends, and that it paid in turn. */
  ghost predicate Traced(stage: Stage, s: Ledger, p: Picked, i: nat, r: Progress, at: seq<nat>) {
    && Continues(s, p, r.picked) && i <= r.processed
    && |at| == r.processed - i + 1 && at[0] == |p.all| && at[|at| - 1] == |r.picked.all|
    && PaidInTurn(stage, s, r.picked.all, at, i)
  }

  lemma NothingTraced(stage: Stage, s: Ledger, p: Picked, i: nat)
    requires p.next == s.nextIndex + |p.all|
    ensures Traced(stage, s, p, i, Progress(p, i), [|p.all|])
  {
  }

  /** One entry before a traced rest. */
  lemma TraceExtends(stage: Stage, s: Ledger, p: Picked, i: nat, more: Picked, r: Progress, rest: seq<nat>)
    requires p.next == s.nextIndex + |p.all| && p.all <= more.all && |more.all| <= |p.all| + 1
    requires PaidAt(stage, s, more.all, |p.all|, |more.all|, i)
    requires Traced(stage, s, more, i + 1, r, rest)
    ensures Traced(stage, s, p, i, r, [|p.all|] + rest)
  {
    hide DueAt;
    var at, all := [|p.all|] + rest, r.picked.all;
    forall k | 0 <= k < |at| - 1
      ensures PaidAt(stage, s, all, at[k], at[k + 1], i + k)
    {
      if k == 0 {
        assert all[..|p.all|] == more.all[..|p.all|];
        assert |more.all| > |p.all| ==> all[|p.all|] == more.all[|p.all|];
      } else {
        assert PaidAt(stage, s, all, rest[k - 1], rest[k - 1 + 1], i + 1 + (k - 1));
      }
    }
  }

  lemma PushPays(stage: Stage, s: Ledger, p: Picked, i: nat, due: Due, v: U64, address: nat, amount: U64)
    requires p.next == s.nextIndex + |p.all| && Push(p, v, address, amount).Some?
    requires DueAt(stage, s, p.all, i) == Some(due) && due == Due(v, address, amount)
    ensures var more := Push(p, v, address, amount).value;
      && more.next == s.nextIndex + |more.all| && p.all <= more.all && |more.all| == |p.all| + 1
      && PaidAt(stage, s, more.all, |p.all|, |more.all|, i)
  {
    hide DueAt;
    var more := Push(p, v, address, amount).value;
    assert more.all[..|p.all|] == p.all;
  }

  lemma SkipPays(stage: Stage, s: Ledger, p: Picked, i: nat)
    requires DueAt(stage, s, p.all, i).None?
    ensures PaidAt(stage, s, p.all, |p.all|, |p.all|, i)
  {
    hide DueAt;
    assert p.all[..|p.all|] == p.all;
  }

  // ---------------------------------------------------------------------------
  // The four stages
  // ---------------------------------------------------------------------------

  lemma {:induction false} PaymentsTrace(preset: Preset, s: Ledger, p: Picked, i: nat) returns (at: seq<nat>)
    requires i <= |s.builderQueue| && p.next == s.nextIndex + |p.all| && BuilderPayments(preset, s, p, i).Some?
    ensures Traced(Payments, s, p, i, BuilderPayments(preset, s, p, i).value, at)
    decreases |s.builderQueue| - i
  {
    hide Traced, PaidAt, Push;
    if i >= |s.builderQueue| || |p.all| >= preset.MaxWithdrawalsPerPayload() - 1 {
      NothingTraced(Payments, s, p, i);
      at := [|p.all|];
    } else {
      var entry := s.builderQueue[i];
      var index := FlaggedIndex(entry.builderIndex).value;
      var more := Push(p, index, entry.feeRecipient, entry.amount).value;
      PushPays(Payments, s, p, i, Due(index, entry.feeRecipient, entry.amount), index, entry.feeRecipient,
               entry.amount);
      var rest := PaymentsTrace(preset, s, more, i + 1);
      TraceExtends(Payments, s, p, i, more, BuilderPayments(preset, s, more, i + 1).value, rest);
      at := [|p.all|] + rest;
    }
  }

  /** One step of a stage: the entry is paid what it is due. */
  ghost predicate Steps(stage: Stage, s: Ledger, p: Picked, i: nat, more: Picked) {
    && more.next == s.nextIndex + |more.all| && p.all <= more.all && |more.all| <= |p.all| + 1
    && PaidAt(stage, s, more.all, |p.all|, |more.all|, i)
  }

  lemma RequestStep(s: Ledger, p: Picked, i: nat)
    requires p.next == s.nextIndex + |p.all| && i < |s.partialQueue|
    requires WithPartial(s, p, s.partialQueue[i]).Some?
    ensures Steps(Requests, s, p, i, WithPartial(s, p, s.partialQueue[i]).value)
  {
    hide Push, TakenFrom, PaidAt;
    var entry := s.partialQueue[i];
    var v := entry.validatorIndex;
    var validator := s.validators[v];
    var balance := BalanceAfter(s, v, p.all).value;
    assert balance == Remainder(s, p.all, v);
    if validator.IsEligibleForPartial(balance) {
      var amount := Min(entry.amount, balance - MIN_ACTIVATION_BALANCE);
      PushPays(Requests, s, p, i, Due(v, validator.address, amount), v, validator.address, amount);
    } else {
      SkipPays(Requests, s, p, i);
    }
  }

  lemma {:induction false} RequestsTrace(s: Ledger, limit: nat, p: Picked, i: nat) returns (at: seq<nat>)
    requires i <= |s.partialQueue| && p.next == s.nextIndex + |p.all| && PartialRequests(s, limit, p, i).Some?
    ensures Traced(Requests, s, p, i, PartialRequests(s, limit, p, i).value, at)
    decreases |s.partialQueue| - i
  {
    hide Traced, PaidAt, WithPartial;
    if i >= |s.partialQueue| || s.partialQueue[i].withdrawableEpoch > s.epoch || |p.all| >= limit {
      NothingTraced(Requests, s, p, i);
      at := [|p.all|];
    } else {
      var more := WithPartial(s, p, s.partialQueue[i]).value;
      RequestStep(s, p, i);
      var rest := RequestsTrace(s, limit, more, i + 1);
      TraceExtends(Requests, s, p, i, more, PartialRequests(s, limit, more, i + 1).value, rest);
      at := [|p.all|] + rest;
    }
  }

  lemma BuilderStep(s: Ledger, p: Picked, j: nat)
    requires p.next == s.nextIndex + |p.all| && s.nextBuilder < |s.builders| && j < |s.builders|
    requires WithBuilder(s, p, At(s.nextBuilder, j, |s.builders|)).Some?
    ensures Steps(BuilderTurns, s, p, j, WithBuilder(s, p, At(s.nextBuilder, j, |s.builders|)).value)
  {
    hide Push, PaidAt;
    var b := At(s.nextBuilder, j, |s.builders|);
    var builder := s.builders[b];
    if builder.withdrawableEpoch <= s.epoch && builder.balance > 0 {
      var index := FlaggedIndex(b).value;
      PushPays(BuilderTurns, s, p, j, Due(index, builder.address, builder.balance), index, builder.address,
               builder.balance);
    } else {
      SkipPays(BuilderTurns, s, p, j);
    }
  }

  lemma {:induction false} BuildersTrace(preset: Preset, s: Ledger, p: Picked, j: nat) returns (at: seq<nat>)
    requires p.next == s.nextIndex + |p.all| && s.nextBuilder < |s.builders| && j <= |s.builders|
    requires BuilderSweep(preset, s, p, j).Some?
    ensures Traced(BuilderTurns, s, p, j, BuilderSweep(preset, s, p, j).value, at)
    decreases |s.builders| - j
  {
    hide Traced, PaidAt, WithBuilder;
    var n := |s.builders|;
    if j >= Min(preset.MaxBuildersPerWithdrawalsSweep(), n) || |p.all| >= preset.MaxWithdrawalsPerPayload() - 1 {
      NothingTraced(BuilderTurns, s, p, j);
      at := [|p.all|];
    } else {
      var more := WithBuilder(s, p, At(s.nextBuilder, j, n)).value;
      BuilderStep(s, p, j);
      var rest := BuildersTrace(preset, s, more, j + 1);
      TraceExtends(BuilderTurns, s, p, j, more, BuilderSweep(preset, s, more, j + 1).value, rest);
      at := [|p.all|] + rest;
    }
  }

  lemma ValidatorStep(s: Ledger, p: Picked, j: nat)
    requires p.next == s.nextIndex + |p.all| && s.nextValidator < |s.validators| && j < |s.validators|
    requires WithValidator(s, p, At(s.nextValidator, j, |s.validators|)).Some?
    ensures Steps(ValidatorTurns, s, p, j, WithValidator(s, p, At(s.nextValidator, j, |s.validators|)).value)
  {
    hide Push, TakenFrom, PaidAt;
    var v := At(s.nextValidator, j, |s.validators|);
    var validator := s.validators[v];
    var balance := BalanceAfter(s, v, p.all).value;
    assert balance == Remainder(s, p.all, v);
    if validator.IsFullyWithdrawable(balance, s.epoch) {
      PushPays(ValidatorTurns, s, p, j, Due(v, validator.address, balance), v, validator.address, balance);
    } else if validator.IsPartiallyWithdrawable(balance) {
      var amount := balance - validator.MaxBalance();
      PushPays(ValidatorTurns, s, p, j, Due(v, validator.address, amount), v, validator.address, amount);
    } else {
      SkipPays(ValidatorTurns, s, p, j);
    }
  }

  lemma {:induction false} ValidatorsTrace(preset: Preset, s: Ledger, p: Picked, j: nat) returns (at: seq<nat>)
    requires p.next == s.nextIndex + |p.all| && s.nextValidator < |s.validators| && j <= |s.validators|
    requires ValidatorSweep(preset, s, p, j).Some?
    ensures Traced(ValidatorTurns, s, p, j, ValidatorSweep(preset, s, p, j).value, at)
    decreases |s.validators| - j
  {
    hide Traced, PaidAt, WithValidator;
    var n := |s.validators|;
    if j >= Min(preset.MaxValidatorsPerWithdrawalsSweep(), n) || |p.all| >= preset.MaxWithdrawalsPerPayload() {
      NothingTraced(ValidatorTurns, s, p, j);
      at := [|p.all|];
    } else {
      var more := WithValidator(s, p, At(s.nextValidator, j, n)).value;
      ValidatorStep(s, p, j);
      var rest := ValidatorsTrace(preset, s, more, j + 1);
      TraceExtends(ValidatorTurns, s, p, j, more, ValidatorSweep(preset, s, more, j + 1).value, rest);
      at := [|p.all|] + rest;
    }
  }

  // ---------------------------------------------------------------------------
  // Why each stage stops
  // ---------------------------------------------------------------------------

  lemma {:induction false} RequestsEnd(s: Ledger, limit: nat, p: Picked, i: nat)
    requires i <= |s.partialQueue| && |p.all| <= limit && PartialRequests(s, limit, p, i).Some?
    ensures var r := PartialRequests(s, limit, p, i).value;
      && (forall k :: i <= k < r.processed ==> s.partialQueue[k].withdrawableEpoch <= s.epoch)
      && (r.processed < |s.partialQueue| ==>
            s.partialQueue[r.processed].withdrawableEpoch > s.epoch || |r.picked.all| == limit)
      && |r.picked.all| <= limit
    decreases |s.partialQueue| - i
  {
    hide BalanceAfter;
    if i < |s.partialQueue| && s.partialQueue[i].withdrawableEpoch <= s.epoch && |p.all| < limit {
      RequestsEnd(s, limit, WithPartial(s, p, s.partialQueue[i]).value, i + 1);
    }
  }

  lemma {:induction false} BuildersEnd(preset: Preset, s: Ledger, p: Picked, j: nat)
    requires s.nextBuilder < |s.builders| && j <= Min(preset.MaxBuildersPerWithdrawalsSweep(), |s.builders|)
    requires |p.all| <= preset.MaxWithdrawalsPerPayload() - 1 && BuilderSweep(preset, s, p, j).Some?
    ensures var r, window := BuilderSweep(preset, s, p, j).value,
                             Min(preset.MaxBuildersPerWithdrawalsSweep(), |s.builders|);
      && r.processed <= window && |r.picked.all| <= preset.MaxWithdrawalsPerPayload() - 1
      && (r.processed < window ==> |r.picked.all| == preset.MaxWithdrawalsPerPayload() - 1)
    decreases |s.builders| - j
  {
    var n := |s.builders|;
    if j < Min(preset.MaxBuildersPerWithdrawalsSweep(), n) && |p.all| < preset.MaxWithdrawalsPerPayload() - 1 {
      BuildersEnd(preset, s, WithBuilder(s, p, At(s.nextBuilder, j, n)).value, j + 1);
    }
  }

  lemma {:induction false} ValidatorsEnd(preset: Preset, s: Ledger, p: Picked, j: nat)
    requires s.nextValidator < |s.validators| && j <= Min(preset.MaxValidatorsPerWithdrawalsSweep(), |s.validators|)
    requires |p.all| <= preset.MaxWithdrawalsPerPayload() && ValidatorSweep(preset, s, p, j).Some?
    ensures var r, window := ValidatorSweep(preset, s, p, j).value,
                             Min(preset.MaxValidatorsPerWithdrawalsSweep(), |s.validators|);
      && r.processed <= window && |r.picked.all| <= preset.MaxWithdrawalsPerPayload()
      && (r.processed < window ==> |r.picked.all| == preset.MaxWithdrawalsPerPayload())
    decreases |s.validators| - j
  {
    hide BalanceAfter;
    var n := |s.validators|;
    if j < Min(preset.MaxValidatorsPerWithdrawalsSweep(), n) && |p.all| < preset.MaxWithdrawalsPerPayload() {
      ValidatorsEnd(preset, s, WithValidator(s, p, At(s.nextValidator, j, n)).value, j + 1);
    }
  }

  lemma {:induction false} PaymentsEnd(preset: Preset, s: Ledger, p: Picked, i: nat)
    requires i <= |s.builderQueue| && |p.all| <= preset.MaxWithdrawalsPerPayload() - 1
    requires BuilderPayments(preset, s, p, i).Some?
    ensures var r := BuilderPayments(preset, s, p, i).value;
      && |r.picked.all| == |p.all| + r.processed - i
      && |r.picked.all| == Min(|p.all| + |s.builderQueue| - i, preset.MaxWithdrawalsPerPayload() - 1)
    decreases |s.builderQueue| - i
  {
    if i < |s.builderQueue| && |p.all| < preset.MaxWithdrawalsPerPayload() - 1 {
      var entry := s.builderQueue[i];
      var more := Push(p, FlaggedIndex(entry.builderIndex).value, entry.feeRecipient, entry.amount).value;
      PaymentsEnd(preset, s, more, i + 1);
    }
  }

  // ---------------------------------------------------------------------------
  // The whole payload
  // ---------------------------------------------------------------------------

  /** The first `count` entries of a stage account for the withdrawals `from` up to `end`. */
  ghost predicate Accounts(stage: Stage, s: Ledger, all: seq<Withdrawal>, count: nat, from: nat, end: nat) {
    exists at: seq<nat> ::
      |at| == count + 1 && at[0] == from && at[count] == end && PaidInTurn(stage, s, all, at, 0)
  }

  lemma TraceAccounts(stage: Stage, s: Ledger, p: Picked, r: Progress, at: seq<nat>, all: seq<Withdrawal>)
    requires Traced(stage, s, p, 0, r, at) && r.picked.all <= all
    ensures Accounts(stage, s, all, r.processed, |p.all|, |r.picked.all|)
  {
    hide DueAt;
    forall k | 0 <= k < |at| - 1
      ensures PaidAt(stage, s, all, at[k], at[k + 1], 0 + k)
    {
      assert PaidAt(stage, s, r.picked.all, at[k], at[k + 1], 0 + k);
      assert all[..at[k]] == r.picked.all[..at[k]];
    }
    assert PaidInTurn(stage, s, all, at, 0);
  }

  lemma NothingAccounts(stage: Stage, s: Ledger, all: seq<Withdrawal>, from: nat)
    ensures Accounts(stage, s, all, 0, from, from)
  {
    assert PaidInTurn(stage, s, all, [from], 0);
  }

  /** How far each stage gets: as far as its entries, its window and the payload allow. */
  ghost predicate StopsRightly(preset: Preset, s: Ledger, e: Expected, a: nat, b: nat, c: nat) {
    var limit := preset.MaxWithdrawalsPerPayload() - 1;
    && a == e.payments == Min(|s.builderQueue|, limit)
    && (forall k :: 0 <= k < e.partials ==> k < |s.partialQueue| && s.partialQueue[k].withdrawableEpoch <= s.epoch)
    && b <= Min(a + preset.MaxPendingPartialsPerWithdrawalsSweep(), limit)
    && (e.partials < |s.partialQueue| ==>
          || s.partialQueue[e.partials].withdrawableEpoch > s.epoch
          || b == Min(a + preset.MaxPendingPartialsPerWithdrawalsSweep(), limit))
    && c <= limit
    && (e.builders < Min(preset.MaxBuildersPerWithdrawalsSweep(), |s.builders|) ==> c == limit)
    && |e.withdrawals| <= limit + 1
    && (e.validators < Min(preset.MaxValidatorsPerWithdrawalsSweep(), |s.validators|) ==> |e.withdrawals| == limit + 1)
  }

  /**
    * What a payload holds: the first `a` withdrawals are the queued payments, those up to
    * `b` the due requests, up to `c` the swept builders and after that the swept validators,
    * each entry of each stage paid exactly what it is due, in order.
    */
  lemma SelectionMeaning(preset: Preset, s: Ledger) returns (a: nat, b: nat, c: nat)
    requires ExpectedWithdrawals(preset, s).Some?
    ensures var e := ExpectedWithdrawals(preset, s).value;
      && Accounts(Payments, s, e.withdrawals, e.payments, 0, a)
      && Accounts(Requests, s, e.withdrawals, e.partials, a, b)
      && Accounts(BuilderTurns, s, e.withdrawals, e.builders, b, c)
      && Accounts(ValidatorTurns, s, e.withdrawals, e.validators, c, |e.withdrawals|)
      && StopsRightly(preset, s, e, a, b, c)
  {
    hide BuilderPayments, PartialRequests, BuilderSweep, ValidatorSweep, Accounts, PaidInTurn;
    var start := Picked([], s.nextIndex);
    var first := BuilderPayments(preset, s, start, 0).value;
    var at1 := PaymentsTrace(preset, s, start, 0);
    PaymentsEnd(preset, s, start, 0);
    var limit := Min(|first.picked.all| + preset.MaxPendingPartialsPerWithdrawalsSweep(),
                     preset.MaxWithdrawalsPerPayload() - 1);
    var second := PartialRequestsFrom(preset, s, first.picked).value;
    var at2 := RequestsTrace(s, limit, first.picked, 0);
    RequestsEnd(s, limit, first.picked, 0);
    var third := BuilderSweepFrom(preset, s, second.picked).value;
    var fourth := ValidatorSweepFrom(preset, s, third.picked).value;
    var all := fourth.picked.all;
    a, b, c := |first.picked.all|, |second.picked.all|, |third.picked.all|;
    if s.builders == [] {
      NothingAccounts(BuilderTurns, s, all, b);
    }
    if s.validators == [] {
      NothingAccounts(ValidatorTurns, s, all, c);
    }
    if s.builders != [] {
      var at3 := BuildersTrace(preset, s, second.picked, 0);
      BuildersEnd(preset, s, second.picked, 0);
      if s.validators != [] {
        var at4 := ValidatorsTrace(preset, s, third.picked, 0);
        ValidatorsEnd(preset, s, third.picked, 0);
        TraceAccounts(ValidatorTurns, s, third.picked, fourth, at4, all);
      }
      TraceAccounts(BuilderTurns, s, second.picked, third, at3, all);
    } else if s.validators != [] {
      var at4 := ValidatorsTrace(preset, s, third.picked, 0);
      ValidatorsEnd(preset, s, third.picked, 0);
      TraceAccounts(ValidatorTurns, s, third.picked, fourth, at4, all);
    }
    TraceAccounts(Payments, s, start, first, at1, all);
    TraceAccounts(Requests, s, first.picked, second, at2, all);
  }
}
