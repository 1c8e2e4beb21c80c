/**
  * The two sweeps, account by account: a swept account has exactly one entry when it is due
  * and none otherwise, and a validator that may leave is paid out within a round.
  */
module SweepPayments {
  import opened Primitives
  import opened Withdrawals
  import opened WithdrawalSafety
  import opened WithdrawalFairness
  import opened WithdrawalMeaning

  predicate IsSweep(stage: Stage) {
    stage == BuilderTurns || stage == ValidatorTurns
  }

  /** How many accounts a sweep goes round. */
  function Round(stage: Stage, s: Ledger): nat {
    if stage == BuilderTurns then |s.builders| else |s.validators|
  }

  /** The account whose turn is the `j`-th, as withdrawals name it. */
  function TurnOf(stage: Stage, s: Ledger, j: nat): nat
    requires IsSweep(stage) && j < Round(stage, s)
    requires if stage == BuilderTurns then s.nextBuilder < |s.builders| else s.nextValidator < |s.validators|
  {
    if stage == BuilderTurns then BUILDER_INDEX_FLAG + At(s.nextBuilder, j, |s.builders|)
    else At(s.nextValidator, j, |s.validators|)
  }

  ghost predicate Sweeping(stage: Stage, s: Ledger) {
    && IsSweep(stage)
    && if stage == BuilderTurns then s.nextBuilder < |s.builders| else s.nextValidator < |s.validators|
  }

  /** No account has two turns, and what a turn is due goes to its account. */
  lemma TurnsDiffer(stage: Stage, s: Ledger, i: nat, j: nat)
    requires Sweeping(stage, s) && i < j < Round(stage, s)
    ensures TurnOf(stage, s, i) != TurnOf(stage, s, j)
  {
  }

  lemma DueToItsTurn(stage: Stage, s: Ledger, prior: seq<Withdrawal>, j: nat)
    requires Sweeping(stage, s) && j < Round(stage, s) && DueAt(stage, s, prior, j).Some?
    ensures DueAt(stage, s, prior, j).value.index == TurnOf(stage, s, j)
  {
    hide TakenFrom;
  }

  lemma {:induction false} TurnsMoveOn(stage: Stage, s: Ledger, all: seq<Withdrawal>, at: seq<nat>, i: nat, j: nat)
    requires PaidInTurn(stage, s, all, at, 0) && i <= j < |at|
    ensures at[i] <= at[j]
    decreases j
  {
    hide DueAt;
    if i < j {
      TurnsMoveOn(stage, s, all, at, i, j - 1);
      assert PaidAt(stage, s, all, at[j - 1], at[j - 1 + 1], 0 + (j - 1));
    }
  }

  /** Every withdrawal of a stage comes from one of its entries. */
  lemma {:induction false} Origin(stage: Stage, s: Ledger, all: seq<Withdrawal>, at: seq<nat>, k: nat, n: nat)
    returns (j: nat)
    requires PaidInTurn(stage, s, all, at, 0) && 0 < n < |at| && at[0] <= k < at[n]
    ensures j < n && at[j] == k && at[j + 1] == k + 1
    decreases n
  {
    hide DueAt;
    assert PaidAt(stage, s, all, at[n - 1], at[n - 1 + 1], 0 + (n - 1));
    if at[n - 1] <= k {
      j := n - 1;
    } else {
      j := Origin(stage, s, all, at, k, n - 1);
    }
  }

  /** An entry of a sweep names the account whose turn it was. */
  lemma EntryNamesTurn(stage: Stage, s: Ledger, all: seq<Withdrawal>, at: seq<nat>, j: nat)
    requires Sweeping(stage, s) && PaidInTurn(stage, s, all, at, 0) && |at| <= Round(stage, s) + 1
    requires j + 1 < |at| && at[j + 1] == at[j] + 1
    ensures at[j] < |all| && all[at[j]].validatorIndex == TurnOf(stage, s, j)
  {
    hide DueAt, TurnOf;
    assert PaidAt(stage, s, all, at[j], at[j + 1], 0 + j);
    DueToItsTurn(stage, s, all[..at[j]], j);
  }

  /** Of the withdrawals of a sweep only those of its own turn can name an account. */
  lemma OnlyItsTurn(stage: Stage, s: Ledger, all: seq<Withdrawal>, at: seq<nat>, j: nat, k: nat)
    requires Sweeping(stage, s) && PaidInTurn(stage, s, all, at, 0) && 1 < |at| <= Round(stage, s) + 1
    requires j + 1 < |at| && at[0] <= k < at[|at| - 1]
    ensures k < |all|
    ensures all[k].validatorIndex == TurnOf(stage, s, j) ==> k == at[j] && at[j + 1] == at[j] + 1
  {
    hide DueAt, TurnOf, PaidInTurn;
    var i := Origin(stage, s, all, at, k, |at| - 1);
    EntryNamesTurn(stage, s, all, at, i);
    if i < j {
      TurnsDiffer(stage, s, i, j);
    } else if j < i {
      TurnsDiffer(stage, s, j, i);
    }
  }

  lemma {:induction false} TakenStays(all: seq<Withdrawal>, lo: nat, hi: nat, v: U64)
    requires lo <= hi <= |all| && forall k :: lo <= k < hi ==> all[k].validatorIndex != v
    ensures TakenFrom(all[..hi], v) == TakenFrom(all[..lo], v)
    decreases hi
  {
    if lo < hi {
      TakenStays(all, lo, hi - 1, v);
      assert all[..hi][..hi - 1] == all[..hi - 1] && all[..hi][hi - 1] == all[hi - 1];
    }
  }

  /** What a turn is due depends only on what came before the sweep. */
  lemma DueFromStart(stage: Stage, s: Ledger, all: seq<Withdrawal>, at: seq<nat>, j: nat)
    requires Sweeping(stage, s) && PaidInTurn(stage, s, all, at, 0) && |at| <= Round(stage, s) + 1
    requires j + 1 < |at| && at[|at| - 1] <= |all|
    ensures at[0] <= at[j] <= |all|
    ensures DueAt(stage, s, all[..at[j]], j) == DueAt(stage, s, all[..at[0]], j)
  {
    hide TakenFrom, PaidInTurn, PaidAt;
    TurnsMoveOn(stage, s, all, at, 0, j);
    TurnsMoveOn(stage, s, all, at, j, |at| - 1);
    if stage == ValidatorTurns {
      var v := TurnOf(stage, s, j);
      forall k | at[0] <= k < at[j]
        ensures all[k].validatorIndex != v
      {
        OnlyItsTurn(stage, s, all, at, j, k);
      }
      if v <= U64_MAX {
        TakenStays(all, at[0], at[j], v);
      }
    }
  }

  /** `k` is the one withdrawal from `from` up to `end` that names `index`, and it is `due`. */
  ghost predicate OneEntry(s: Ledger, all: seq<Withdrawal>, from: nat, end: nat, index: nat, due: Due, k: nat) {
    && from <= k < end <= |all|
    && all[k].index == s.nextIndex + k && all[k].validatorIndex == index == due.index
    && all[k].address == due.address && all[k].amount == due.amount
    && (forall i :: from <= i < end && all[i].validatorIndex == index ==> i == k)
  }

  /**
    * An account whose turn came has exactly one entry of the sweep if it is due something
    * on what was selected before the sweep, and then of that amount; otherwise none.
    */
  lemma TurnIsPaid(stage: Stage, s: Ledger, all: seq<Withdrawal>, count: nat, from: nat, end: nat, j: nat)
    requires Sweeping(stage, s) && count <= Round(stage, s) && end <= |all|
    requires Accounts(stage, s, all, count, from, end) && j < count
    ensures from <= |all|
    ensures DueAt(stage, s, all[..from], j).None? ==>
      forall k :: from <= k < end ==> all[k].validatorIndex != TurnOf(stage, s, j)
    ensures DueAt(stage, s, all[..from], j).Some? ==>
      exists k :: OneEntry(s, all, from, end, TurnOf(stage, s, j), DueAt(stage, s, all[..from], j).value, k)
  {
    hide DueAt, TurnOf;
    var at: seq<nat> :|
      |at| == count + 1 && at[0] == from && at[count] == end && PaidInTurn(stage, s, all, at, 0);
    DueFromStart(stage, s, all, at, j);
    assert PaidAt(stage, s, all, at[j], at[j + 1], 0 + j);
    TurnsMoveOn(stage, s, all, at, j + 1, count);
    hide PaidInTurn;
    forall k | from <= k < end && all[k].validatorIndex == TurnOf(stage, s, j)
      ensures k == at[j] && at[j + 1] == at[j] + 1
    {
      OnlyItsTurn(stage, s, all, at, j, k);
    }
    if DueAt(stage, s, all[..from], j).Some? {
      DueToItsTurn(stage, s, all[..from], j);
      assert OneEntry(s, all, from, end, TurnOf(stage, s, j), DueAt(stage, s, all[..from], j).value, at[j]);
    }
  }

  lemma AccountsOrdered(stage: Stage, s: Ledger, all: seq<Withdrawal>, count: nat, from: nat, end: nat)
    requires Accounts(stage, s, all, count, from, end)
    ensures from <= end
  {
    hide PaidInTurn;
    var at: seq<nat> :|
      |at| == count + 1 && at[0] == from && at[count] == end && PaidInTurn(stage, s, all, at, 0);
    TurnsMoveOn(stage, s, all, at, 0, count);
  }

  // ---------------------------------------------------------------------------
  // Leaving validators
  // ---------------------------------------------------------------------------

  /** The validator has an execution address and may leave. */
  predicate MayLeave(s: Ledger, v: nat) {
    && v < |s.validators| && (s.validators[v].prefix == 1 || s.validators[v].prefix == 2)
    && s.validators[v].withdrawableEpoch <= s.epoch
  }

  lemma TakenIncludes(all: seq<Withdrawal>, from: nat, k: nat, v: U64)
    requires from <= k < |all| && all[k].validatorIndex == v
    ensures TakenFrom(all, v) >= TakenFrom(all[..from], v) + all[k].amount
  {
    hide TakenFrom;
    TakenGrows(all, k + 1, v);
    TakesLast(all[..k + 1], v);
    assert all[..k + 1][..k] == all[..k];
    TakenGrows(all[..k], from, v);
    assert all[..k][..from] == all[..from];
  }

  /** A call that visits a validator that may leave pays out all of its balance. */
  lemma VisitPaysOut(preset: Preset, s: Ledger, v: nat)
    requires Effective(preset, s) && MayLeave(s, v) && s.nextValidator < |s.validators|
    requires ExpectedWithdrawals(preset, s).Some? && ExpectedWithdrawals(preset, s).value.validators <= |s.validators|
    requires Visits(preset, s, v)
    ensures v < |Processed(preset, s).value.balances| && Processed(preset, s).value.balances[v] == 0
  {
    hide Processed, ExpectedWithdrawals, Accounts, TakenFrom, Applied;
    WithdrawalsAreSafe(preset, s);
    var e := ExpectedWithdrawals(preset, s).value;
    var a, b, c := SelectionMeaning(preset, s);
    var j :| 0 <= j < e.validators && At(s.nextValidator, j, |s.validators|) == v;
    TurnIsPaid(ValidatorTurns, s, e.withdrawals, e.validators, c, |e.withdrawals|, j);
    var prior := e.withdrawals[..c];
    if Remainder(s, prior, v) > 0 {
      var due := DueAt(ValidatorTurns, s, prior, j).value;
      var k :| OneEntry(s, e.withdrawals, c, |e.withdrawals|, v, due, k);
      TakenIncludes(e.withdrawals, c, k, v);
    } else {
      TakenGrows(e.withdrawals, c, v);
    }
  }

  /** With a registry of `n`, of any `n` effective calls in a row one pays out a validator that may leave. */
  lemma LeavingValidatorPaidOut(preset: Preset, run: seq<Ledger>, n: nat, v: nat) returns (at: nat)
    requires SweepRun(preset, run, n) && v < n <= |run|
    requires forall i :: 0 <= i < n ==> MayLeave(run[i], v)
    ensures at < n && v < |Processed(preset, run[at]).value.balances|
    ensures Processed(preset, run[at]).value.balances[v] == 0
  {
    hide Processed, Visits;
    at := EveryValidatorVisited(preset, run, n, v);
    SweepShape(preset, run[at]);
    VisitPaysOut(preset, run[at], v);
  }

  // ---------------------------------------------------------------------------
  // The queues
  // ---------------------------------------------------------------------------

  /**
    * What a call leaves: on an unsettled branch everything as it was; otherwise the two
    * queues without the entries accounted for, and the payload on record. Registries keep
    * everything but balances.
    */
  lemma CallLeaves(preset: Preset, s: Ledger)
    requires Sound(s) && Processed(preset, s).Some?
    ensures s.latestBlockHash != s.bidBlockHash ==> Processed(preset, s).value == s
    ensures s.latestBlockHash == s.bidBlockHash ==>
      && ExpectedWithdrawals(preset, s).Some?
      && var t, e := Processed(preset, s).value, ExpectedWithdrawals(preset, s).value;
         && t.builderQueue == s.builderQueue[Min(|s.builderQueue|, preset.MaxWithdrawalsPerPayload() - 1)..]
         && t.partialQueue == s.partialQueue[e.partials..] && t.expected == e.withdrawals
         && t.epoch == s.epoch && t.validators == s.validators
         && t.latestBlockHash == s.latestBlockHash && t.bidBlockHash == s.bidBlockHash
         && |t.builders| == |s.builders|
         && forall b :: 0 <= b < |s.builders| && b < BUILDER_INDEX_FLAG ==>
              t.builders[b].withdrawableEpoch == s.builders[b].withdrawableEpoch
              && t.builders[b].address == s.builders[b].address
  {
    hide ExpectedWithdrawals, Applied, TakenFrom, NextValidatorAfter, NextBuilderAfter, NextIndexAfter, Accounts, Safe;
    if s.latestBlockHash == s.bidBlockHash {
      SelectionIsSafe(preset, s);
      var a, b, c := SelectionMeaning(preset, s);
      var e := ExpectedWithdrawals(preset, s).value;
      AddressesKnown(s, e.withdrawals);
      AppliedTakes(s, e.withdrawals);
    }
  }

  /** Payments are always due, so the `i`-th consumed is the `i`-th withdrawal. */
  lemma {:induction false} PaymentsInPlace(s: Ledger, all: seq<Withdrawal>, at: seq<nat>, i: nat)
    requires PaidInTurn(Payments, s, all, at, 0) && i < |at| <= |s.builderQueue| + 1 && at[0] == 0
    ensures at[i] == i
  {
    if i > 0 {
      PaymentsInPlace(s, all, at, i - 1);
      assert PaidAt(Payments, s, all, at[i - 1], at[i - 1 + 1], 0 + (i - 1));
    }
  }

  /** Withdrawal `i` of a payload pays entry `entry` of the queue. */
  ghost predicate PaysEntry(preset: Preset, s: Ledger, i: nat, entry: BuilderPayment) {
    && ExpectedWithdrawals(preset, s).Some?
    && var all := ExpectedWithdrawals(preset, s).value.withdrawals;
       && i < |all| && all[i].validatorIndex == BUILDER_INDEX_FLAG + entry.builderIndex
       && all[i].address == entry.feeRecipient && all[i].amount == entry.amount
  }

  lemma FrontIsPaid(preset: Preset, s: Ledger, i: nat)
    requires ExpectedWithdrawals(preset, s).Some?
    requires i < |s.builderQueue| && i < preset.MaxWithdrawalsPerPayload() - 1
    ensures PaysEntry(preset, s, i, s.builderQueue[i])
  {
    hide ExpectedWithdrawals;
    var a, b, c := SelectionMeaning(preset, s);
    var e := ExpectedWithdrawals(preset, s).value;
    var at: seq<nat> :|
      |at| == e.payments + 1 && at[0] == 0 && at[e.payments] == a && PaidInTurn(Payments, s, e.withdrawals, at, 0);
    PaymentsInPlace(s, e.withdrawals, at, i);
    assert PaidAt(Payments, s, e.withdrawals, at[i], at[i + 1], 0 + i);
  }

  /** Effective calls in a row; between them the payment queue only grows at its end. */
  ghost predicate PaymentRun(preset: Preset, run: seq<Ledger>) {
    && (forall i :: 0 <= i < |run| ==> Effective(preset, run[i]))
    && (forall i :: 0 <= i < |run| - 1 ==> Processed(preset, run[i]).value.builderQueue <= run[i + 1].builderQueue)
  }

  /**
    * First come, first paid: the payment at position `q` of the queue is paid after as many
    * full payloads as go before it, and at its place among the rest.
    */
  lemma {:induction false} QueuedPaymentIsPaid(preset: Preset, run: seq<Ledger>, k: nat, q: nat)
    returns (at: nat, i: nat)
    requires PaymentRun(preset, run) && k < |run| && q < |run[k].builderQueue|
    requires q < (|run| - k) * (preset.MaxWithdrawalsPerPayload() - 1)
    ensures k <= at < |run| && i < preset.MaxWithdrawalsPerPayload() - 1
    ensures q == (at - k) * (preset.MaxWithdrawalsPerPayload() - 1) + i
    ensures PaysEntry(preset, run[at], i, run[k].builderQueue[q])
    decreases |run| - k
  {
    hide Processed, PaysEntry;
    var limit := preset.MaxWithdrawalsPerPayload() - 1;
    CallLeaves(preset, run[k]);
    if q < limit {
      at, i := k, q;
      FrontIsPaid(preset, run[k], q);
    } else {
      Shift(|run|, k, limit, q);
      var left := Processed(preset, run[k]).value.builderQueue;
      assert left <= run[k + 1].builderQueue;
      assert left[q - limit] == run[k].builderQueue[q] == run[k + 1].builderQueue[q - limit];
      at, i := QueuedPaymentIsPaid(preset, run, k + 1, q - limit);
      assert (at - k) * limit == (at - (k + 1)) * limit + limit;
    }
  }

  lemma Shift(n: nat, k: nat, limit: nat, q: nat)
    requires k < n && limit <= q < (n - k) * limit
    ensures k + 1 < n && q - limit < (n - (k + 1)) * limit
  {
    assert (n - k) * limit == (n - k - 1) * limit + limit;
  }
}
