/**
  * The builder sweep over many payloads. It runs on what the two queues leave of the
  * payload: a call with room moves the cursor on, one without leaves it where it was.
  */
module BuilderFairness {
  import opened Primitives
  import opened Arithmetic
  import opened Withdrawals
  import opened WithdrawalSafety
  import opened WithdrawalFairness
  import opened WithdrawalMeaning
  import opened SweepPayments

  /** The withdrawals of the two queues, which come before either sweep. */
  function Queued(preset: Preset, s: Ledger): Option<Picked> {
    var first :- BuilderPayments(preset, s, Picked([], s.nextIndex), 0);
    var second :- PartialRequestsFrom(preset, s, first.picked);
    Some(second.picked)
  }

  /** The queues leave the builder sweep a place in the payload. */
  predicate HasRoom(preset: Preset, s: Ledger) {
    Queued(preset, s).Some? && |Queued(preset, s).value.all| < preset.MaxWithdrawalsPerPayload() - 1
  }

  // ---------------------------------------------------------------------------
  // Room, from the queues alone
  // ---------------------------------------------------------------------------

  lemma {:induction false} PartialCount(s: Ledger, limit: nat, p: Picked, i: nat)
    requires i <= |s.partialQueue| && |p.all| <= limit && PartialRequests(s, limit, p, i).Some?
    ensures var all := PartialRequests(s, limit, p, i).value.picked.all;
      |p.all| <= |all| <= Min(|p.all| + |s.partialQueue| - i, limit)
    decreases |s.partialQueue| - i
  {
    hide BalanceAfter;
    if i < |s.partialQueue| && s.partialQueue[i].withdrawableEpoch <= s.epoch && |p.all| < limit {
      PartialCount(s, limit, WithPartial(s, p, s.partialQueue[i]).value, i + 1);
    }
  }

  lemma QueuedCount(preset: Preset, s: Ledger)
    requires Queued(preset, s).Some?
    ensures var payments, limit := |s.builderQueue|, preset.MaxWithdrawalsPerPayload() - 1;
      Min(payments, limit) <= |Queued(preset, s).value.all| <= Min(payments + |s.partialQueue|, limit)
  {
    hide BuilderPayments, PartialRequests;
    PaymentsEnd(preset, s, Picked([], s.nextIndex), 0);
    var first := BuilderPayments(preset, s, Picked([], s.nextIndex), 0).value.picked;
    var limit :=
      Min(|first.all| + preset.MaxPendingPartialsPerWithdrawalsSweep(), preset.MaxWithdrawalsPerPayload() - 1);
    PartialCount(s, limit, first, 0);
  }

  /** Short queues leave room; a payment queue of a payload's length leaves none. */
  lemma RoomFromQueues(preset: Preset, s: Ledger)
    requires Queued(preset, s).Some?
    ensures |s.builderQueue| + |s.partialQueue| < preset.MaxWithdrawalsPerPayload() - 1 ==> HasRoom(preset, s)
    ensures |s.builderQueue| >= preset.MaxWithdrawalsPerPayload() - 1 ==> !HasRoom(preset, s)
  {
    hide Queued;
    QueuedCount(preset, s);
  }

  // ---------------------------------------------------------------------------
  // The cursor
  // ---------------------------------------------------------------------------

  /** The sweep stops at its window or a full payload, and starts whenever there is room. */
  lemma {:induction false} SweepLength(preset: Preset, s: Ledger, p: Picked, j: nat)
    requires s.nextBuilder < |s.builders| && j <= |s.builders| && BuilderSweep(preset, s, p, j).Some?
    ensures var processed := BuilderSweep(preset, s, p, j).value.processed;
      && j <= processed <= |s.builders|
      && (processed == j <==>
            || j >= Min(preset.MaxBuildersPerWithdrawalsSweep(), |s.builders|)
            || |p.all| >= preset.MaxWithdrawalsPerPayload() - 1)
    decreases |s.builders| - j
  {
    hide WithBuilder;
    var n := |s.builders|;
    if j < Min(preset.MaxBuildersPerWithdrawalsSweep(), n) && |p.all| < preset.MaxWithdrawalsPerPayload() - 1 {
      SweepLength(preset, s, WithBuilder(s, p, At(s.nextBuilder, j, n)).value, j + 1);
    }
  }

  lemma SweepStarts(preset: Preset, s: Ledger)
    requires ExpectedWithdrawals(preset, s).Some? && s.builders != []
    ensures s.nextBuilder < |s.builders|
    ensures var visited := ExpectedWithdrawals(preset, s).value.builders;
      visited <= |s.builders| && (visited > 0 <==> HasRoom(preset, s))
  {
    hide BuilderPayments, PartialRequestsFrom, BuilderSweep, ValidatorSweepFrom;
    SweepLength(preset, s, Queued(preset, s).value, 0);
  }

  /**
    * The builder cursor moves by exactly the builders visited, so none is skipped. It
    * moves at all exactly when the queues leave room in the payload.
    */
  lemma BuilderCursor(preset: Preset, s: Ledger)
    requires Effective(preset, s) && s.builders != []
    ensures ExpectedWithdrawals(preset, s).Some? && s.nextBuilder < |s.builders|
    ensures var e, t, n := ExpectedWithdrawals(preset, s).value, Processed(preset, s).value, |s.builders|;
      && e.builders <= n && t.nextBuilder == At(s.nextBuilder, e.builders, n) < n
      && (e.builders > 0 <==> HasRoom(preset, s))
  {
    hide ExpectedWithdrawals, Applied, HasRoom, Wrapped, NextIndexAfter, NextValidatorAfter;
    SweepStarts(preset, s);
    WrappedOnce(s.nextBuilder + ExpectedWithdrawals(preset, s).value.builders, |s.builders|);
  }

  /** The sweep of this call looks at builder `b`. */
  ghost predicate VisitsBuilder(preset: Preset, s: Ledger, b: nat)
    requires s.nextBuilder < |s.builders|
    requires ExpectedWithdrawals(preset, s).Some? && ExpectedWithdrawals(preset, s).value.builders <= |s.builders|
  {
    exists j :: 0 <= j < ExpectedWithdrawals(preset, s).value.builders && At(s.nextBuilder, j, |s.builders|) == b
  }

  /** With room a call visits `b` or brings the cursor closer; without, it does neither. */
  lemma BuilderVisitedOrCloser(preset: Preset, s: Ledger, b: nat)
    requires Effective(preset, s) && b < |s.builders|
    ensures s.nextBuilder < |s.builders| && ExpectedWithdrawals(preset, s).Some?
    ensures ExpectedWithdrawals(preset, s).value.builders <= |s.builders|
    ensures var t, n := Processed(preset, s).value, |s.builders|;
      && t.nextBuilder < n
      && (if HasRoom(preset, s)
          then VisitsBuilder(preset, s, b) || Distance(t.nextBuilder, b, n) < Distance(s.nextBuilder, b, n)
          else !VisitsBuilder(preset, s, b) && t.nextBuilder == s.nextBuilder)
  {
    hide ExpectedWithdrawals, Processed, Effective, HasRoom;
    BuilderCursor(preset, s);
    var n := |s.builders|;
    assert At(s.nextBuilder, Distance(s.nextBuilder, b, n), n) == b;
  }

  // ---------------------------------------------------------------------------
  // Many calls
  // ---------------------------------------------------------------------------

  /** Effective calls in a row over `n` builders, each resuming at the last cursor. */
  ghost predicate BuilderRun(preset: Preset, run: seq<Ledger>, n: nat) {
    && (forall i :: 0 <= i < |run| ==> Effective(preset, run[i]) && |run[i].builders| == n)
    && (forall i :: 0 <= i < |run| - 1 ==> run[i + 1].nextBuilder == Processed(preset, run[i]).value.nextBuilder)
  }

  /** The calls from the `i`-th on that have room. */
  function Rooms(preset: Preset, run: seq<Ledger>, i: nat): nat
    requires i <= |run|
    decreases |run| - i
  {
    if i == |run| then 0 else Rooms(preset, run, i + 1) + if HasRoom(preset, run[i]) then 1 else 0
  }

  ghost predicate BuilderVisitedIn(preset: Preset, run: seq<Ledger>, i: nat, b: nat)
    requires i < |run| && Effective(preset, run[i]) && run[i].builders != []
  {
    BuilderCursor(preset, run[i]);
    VisitsBuilder(preset, run[i], b)
  }

  lemma {:induction false} BuilderVisitedFrom(preset: Preset, run: seq<Ledger>, n: nat, b: nat, i: nat)
    returns (at: nat)
    requires BuilderRun(preset, run, n) && b < n && i < |run| && run[i].nextBuilder < n
    requires Distance(run[i].nextBuilder, b, n) < Rooms(preset, run, i)
    ensures i <= at < |run| && BuilderVisitedIn(preset, run, at, b)
    decreases |run| - i
  {
    hide Processed, VisitsBuilder, HasRoom;
    BuilderVisitedOrCloser(preset, run[i], b);
    if HasRoom(preset, run[i]) && VisitsBuilder(preset, run[i], b) {
      at := i;
    } else {
      assert i + 1 < |run| ==> run[i + 1].nextBuilder == Processed(preset, run[i]).value.nextBuilder;
      assert Rooms(preset, run, i + 1) > 0;
      at := BuilderVisitedFrom(preset, run, n, b, i + 1);
    }
  }

  /** Any run of effective calls in which `n` have room visits each of `n` builders. */
  lemma EveryBuilderVisited(preset: Preset, run: seq<Ledger>, n: nat, b: nat) returns (at: nat)
    requires BuilderRun(preset, run, n) && b < n <= Rooms(preset, run, 0)
    ensures at < |run| && BuilderVisitedIn(preset, run, at, b)
  {
    hide Processed, Effective, VisitsBuilder, HasRoom;
    BuilderCursor(preset, run[0]);
    at := BuilderVisitedFrom(preset, run, n, b, 0);
  }

  /** A call that visits a builder that may leave pays out all of its balance. */
  lemma VisitPaysBuilder(preset: Preset, s: Ledger, b: nat)
    requires Effective(preset, s) && s.nextBuilder < |s.builders| && b < |s.builders| <= BUILDER_INDEX_FLAG
    requires s.builders[b].withdrawableEpoch <= s.epoch
    requires ExpectedWithdrawals(preset, s).Some? && ExpectedWithdrawals(preset, s).value.builders <= |s.builders|
    requires VisitsBuilder(preset, s, b)
    ensures |Processed(preset, s).value.builders| == |s.builders|
    ensures Processed(preset, s).value.builders[b].balance == 0
  {
    hide Processed, ExpectedWithdrawals, Accounts, TakenFrom, Applied;
    WithdrawalsAreSafe(preset, s);
    var e := ExpectedWithdrawals(preset, s).value;
    var x, y, z := SelectionMeaning(preset, s);
    AccountsOrdered(ValidatorTurns, s, e.withdrawals, e.validators, z, |e.withdrawals|);
    var j :| 0 <= j < e.builders && At(s.nextBuilder, j, |s.builders|) == b;
    TurnIsPaid(BuilderTurns, s, e.withdrawals, e.builders, y, z, j);
    if s.builders[b].balance > 0 {
      var due := DueAt(BuilderTurns, s, e.withdrawals[..y], j).value;
      var k: nat :| OneEntry(s, e.withdrawals, y, z, BUILDER_INDEX_FLAG + b, due, k);
      TakenIncludes(e.withdrawals, y, k, BUILDER_INDEX_FLAG + b);
    }
  }

  /** Any run of effective calls in which `n` have room pays out a builder that may leave. */
  lemma LeavingBuilderPaidOut(preset: Preset, run: seq<Ledger>, n: nat, b: nat) returns (at: nat)
    requires BuilderRun(preset, run, n) && b < n <= Rooms(preset, run, 0) && n <= BUILDER_INDEX_FLAG
    requires forall i :: 0 <= i < |run| ==> run[i].builders[b].withdrawableEpoch <= run[i].epoch
    ensures at < |run| && b < |Processed(preset, run[at]).value.builders|
    ensures Processed(preset, run[at]).value.builders[b].balance == 0
  {
    hide Processed, VisitsBuilder, HasRoom;
    at := EveryBuilderVisited(preset, run, n, b);
    BuilderCursor(preset, run[at]);
    VisitPaysBuilder(preset, run[at], b);
  }

  /** While the payment queue fills every payload, the cursor stands still and no builder is visited. */
  lemma {:induction false} FullQueuesStall(preset: Preset, run: seq<Ledger>, n: nat, b: nat, i: nat)
    requires BuilderRun(preset, run, n) && b < n && i < |run|
    requires forall k :: 0 <= k < |run| ==> |run[k].builderQueue| >= preset.MaxWithdrawalsPerPayload() - 1
    ensures run[i].nextBuilder == run[0].nextBuilder && !BuilderVisitedIn(preset, run, i, b)
  {
    hide Processed, VisitsBuilder, HasRoom, Queued;
    BuilderVisitedOrCloser(preset, run[i], b);
    FullQueueStalls(preset, run[i]);
    if i > 0 {
      FullQueuesStall(preset, run, n, b, i - 1);
      BuilderVisitedOrCloser(preset, run[i - 1], b);
      FullQueueStalls(preset, run[i - 1]);
      assert run[i - 1 + 1].nextBuilder == Processed(preset, run[i - 1]).value.nextBuilder;
    }
  }

  lemma FullQueueStalls(preset: Preset, s: Ledger)
    requires |s.builderQueue| >= preset.MaxWithdrawalsPerPayload() - 1
    ensures !HasRoom(preset, s)
  {
    hide Queued;
    if Queued(preset, s).Some? {
      RoomFromQueues(preset, s);
    }
  }

  // ---------------------------------------------------------------------------
  // A ledger that stalls
  // ---------------------------------------------------------------------------

  function SamplePayments(preset: Preset): seq<BuilderPayment> {
    seq(preset.MaxWithdrawalsPerPayload() - 1, _ => BuilderPayment(1, 0, 1))
  }

  /** Builder 0 is due its whole balance; the payments of builder 1 fill the payload. */
  function Stalling(preset: Preset, nextIndex: U64, expected: seq<Withdrawal>): Ledger {
    Ledger(0, [], [], [Builder(1, 0, 0), Builder(0, 0, 0)], SamplePayments(preset), [], nextIndex, 0, 0, expected, 0, 0)
  }

  lemma {:induction false} PaymentsOfOne(preset: Preset, s: Ledger, p: Picked, i: nat)
    requires s.builderQueue == SamplePayments(preset) && |p.all| == i <= |s.builderQueue|
    requires p.next + |s.builderQueue| - i <= U64_MAX
    requires forall k :: 0 <= k < |p.all| ==> p.all[k].validatorIndex == BUILDER_INDEX_FLAG + 1
    ensures BuilderPayments(preset, s, p, i).Some?
    ensures var r := BuilderPayments(preset, s, p, i).value;
      && r.processed == |r.picked.all| == |s.builderQueue| && r.picked.next == p.next + |s.builderQueue| - i
      && (forall k :: 0 <= k < |r.picked.all| ==> r.picked.all[k].validatorIndex == BUILDER_INDEX_FLAG + 1)
    decreases |s.builderQueue| - i
  {
    if i < |s.builderQueue| {
      var entry := s.builderQueue[i];
      var more := Push(p, FlaggedIndex(entry.builderIndex).value, entry.feeRecipient, entry.amount).value;
      PaymentsOfOne(preset, s, more, i + 1);
    }
  }

  lemma {:induction false} NothingFrom(all: seq<Withdrawal>, v: U64)
    requires forall k :: 0 <= k < |all| ==> all[k].validatorIndex != v
    ensures TakenFrom(all, v) == 0
  {
    if all != [] {
      NothingFrom(all[..|all| - 1], v);
    }
  }

  lemma StallingSelects(preset: Preset, s: Ledger)
    requires s == Stalling(preset, s.nextIndex, s.expected)
    requires s.nextIndex + preset.MaxWithdrawalsPerPayload() - 1 <= U64_MAX
    ensures ExpectedWithdrawals(preset, s).Some?
    ensures var e, limit := ExpectedWithdrawals(preset, s).value, preset.MaxWithdrawalsPerPayload() - 1;
      && |e.withdrawals| == e.payments == limit && e.partials == e.builders == 0
      && (forall k :: 0 <= k < limit ==> e.withdrawals[k].validatorIndex == BUILDER_INDEX_FLAG + 1)
  {
    hide BuilderPayments;
    PaymentsOfOne(preset, s, Picked([], s.nextIndex), 0);
  }

  lemma StallingPays(preset: Preset, s: Ledger, all: seq<Withdrawal>)
    requires s == Stalling(preset, s.nextIndex, s.expected)
    requires forall k :: 0 <= k < |all| ==> all[k].validatorIndex == BUILDER_INDEX_FLAG + 1
    ensures Applied(s, all) == Some(s)
  {
    hide Applied, TakenFrom, SamplePayments;
    AppliedTakes(s, all);
    NothingFrom(all, BUILDER_INDEX_FLAG);
    var t := Applied(s, all).value;
    assert t.balances == s.balances;
    assert t.builders == s.builders;
  }

  /**
    * The builder sweep can wait for ever. This ledger's call succeeds, leaves the builder
    * that is due unvisited and unpaid, and with its payment queue refilled the ledger is
    * such a ledger again.
    */
  lemma DueBuilderWaits(preset: Preset, s: Ledger)
    requires s == Stalling(preset, s.nextIndex, s.expected)
    requires s.nextIndex + preset.MaxWithdrawalsPerPayload() - 1 <= U64_MAX
    ensures Effective(preset, s) && s.builders[0].withdrawableEpoch <= s.epoch && s.builders[0].balance > 0
    ensures s.nextBuilder < |s.builders| && ExpectedWithdrawals(preset, s).Some?
    ensures ExpectedWithdrawals(preset, s).value.builders <= |s.builders| && !VisitsBuilder(preset, s, 0)
    ensures var t := Processed(preset, s).value;
      && t.builderQueue == []
      && t.(builderQueue := SamplePayments(preset))
         == Stalling(preset, s.nextIndex + preset.MaxWithdrawalsPerPayload() - 1, t.expected)
  {
    hide ExpectedWithdrawals, Applied, SamplePayments;
    StallingSelects(preset, s);
    var all := ExpectedWithdrawals(preset, s).value.withdrawals;
    StallingPays(preset, s, all);
    SelectionIsSafe(preset, s);
    PaymentsFill(preset);
  }

  lemma PaymentsFill(preset: Preset)
    ensures |SamplePayments(preset)| == preset.MaxWithdrawalsPerPayload() - 1
  {
  }
}
