/** The sweep over many payloads: numbering continues and nobody is passed over. */
module WithdrawalFairness {
  import opened Primitives
  import opened Arithmetic
  import opened Withdrawals
  import opened WithdrawalSafety

  /** A call that does work: the branch is settled and nothing fails. */
  ghost predicate Effective(preset: Preset, s: Ledger) {
    Sound(s) && s.latestBlockHash == s.bidBlockHash && Processed(preset, s).Some?
  }

  /** Sequence numbers run on from payload to payload without a gap. */
  lemma NumberingContinues(preset: Preset, s: Ledger)
    requires Effective(preset, s)
    ensures ExpectedWithdrawals(preset, s).Some?
    ensures var all := ExpectedWithdrawals(preset, s).value.withdrawals;
      && |all| <= preset.MaxWithdrawalsPerPayload()
      && (forall i :: 0 <= i < |all| ==> all[i].index == s.nextIndex + i)
      && Processed(preset, s).value.nextIndex == s.nextIndex + |all|
  {
    hide ExpectedWithdrawals, Applied, NextValidatorAfter, NextBuilderAfter;
    SelectionIsSafe(preset, s);
  }

  /** The sweep of this call looks at validator `v`. */
  ghost predicate Visits(preset: Preset, s: Ledger, v: nat)
    requires Effective(preset, s) && s.nextValidator < |s.validators|
    requires ExpectedWithdrawals(preset, s).Some? && ExpectedWithdrawals(preset, s).value.validators <= |s.validators|
  {
    exists j :: 0 <= j < ExpectedWithdrawals(preset, s).value.validators && At(s.nextValidator, j, |s.validators|) == v
  }

  /** What the selection guarantees about the sweep, ready for use. */
  lemma SweepShape(preset: Preset, s: Ledger)
    requires Effective(preset, s) && s.validators != []
    ensures ExpectedWithdrawals(preset, s).Some? && s.nextValidator < |s.validators|
    ensures 0 < ExpectedWithdrawals(preset, s).value.validators <= |s.validators|
  {
    hide ExpectedWithdrawals, Applied, Safe;
    SelectionIsSafe(preset, s);
  }

  /** The cursor lands right after the last validator visited, unless all were visited. */
  lemma CursorNeverSkips(preset: Preset, s: Ledger)
    requires Effective(preset, s) && s.validators != []
    ensures ExpectedWithdrawals(preset, s).Some? && s.nextValidator < |s.validators|
    ensures var e, t, n := ExpectedWithdrawals(preset, s).value, Processed(preset, s).value, |s.validators|;
      && 0 < e.validators <= n && t.nextValidator < n
      && (e.validators == n || t.nextValidator == At(s.nextValidator, e.validators, n))
  {
    hide ExpectedWithdrawals, Applied, Safe, Wrapped, NextIndexAfter, NextBuilderAfter;
    SelectionIsSafe(preset, s);
    var e, n := ExpectedWithdrawals(preset, s).value, |s.validators|;
    if |e.withdrawals| == preset.MaxWithdrawalsPerPayload() {
      WrappedOnce(At(s.nextValidator, e.validators - 1, n) + 1, n);
    } else if e.validators < n {
      WrappedOnce(s.nextValidator + preset.MaxValidatorsPerWithdrawalsSweep(), n);
    }
  }

  /** Steps from the cursor round to `v`. */
  function Distance(cursor: nat, v: nat, n: nat): (d: nat)
    requires cursor < n && v < n
    ensures d < n
  {
    if v >= cursor then v - cursor else v + n - cursor
  }

  /** A call visits `v`, or brings the cursor strictly closer to it. */
  lemma VisitedOrCloser(preset: Preset, s: Ledger, v: nat)
    requires Effective(preset, s) && v < |s.validators|
    ensures s.nextValidator < |s.validators| && ExpectedWithdrawals(preset, s).Some?
    ensures ExpectedWithdrawals(preset, s).value.validators <= |s.validators|
    ensures var t, n := Processed(preset, s).value, |s.validators|;
      && t.nextValidator < n
      && (|| Visits(preset, s, v)
          || Distance(t.nextValidator, v, n) < Distance(s.nextValidator, v, n))
  {
    hide ExpectedWithdrawals, Processed, Effective;
    CursorNeverSkips(preset, s);
    var e, n := ExpectedWithdrawals(preset, s).value, |s.validators|;
    var d := Distance(s.nextValidator, v, n);
    assert At(s.nextValidator, d, n) == v;
  }

  /** Effective calls in a row over a registry of `n`, each resuming at the last cursor. */
  ghost predicate SweepRun(preset: Preset, run: seq<Ledger>, n: nat) {
    && (forall i :: 0 <= i < |run| ==> Effective(preset, run[i]) && |run[i].validators| == n)
    && (forall i :: 0 <= i < |run| - 1 ==> run[i + 1].nextValidator == Processed(preset, run[i]).value.nextValidator)
  }

  ghost predicate VisitedIn(preset: Preset, run: seq<Ledger>, i: nat, v: nat)
    requires i < |run| && Effective(preset, run[i]) && run[i].validators != []
  {
    SweepShape(preset, run[i]);
    Visits(preset, run[i], v)
  }

  lemma {:induction false} VisitedFrom(preset: Preset, run: seq<Ledger>, n: nat, v: nat, i: nat)
    returns (at: nat)
    requires SweepRun(preset, run, n) && v < n && i < |run| && run[i].nextValidator < n
    requires i + Distance(run[i].nextValidator, v, n) < |run|
    ensures i <= at <= i + Distance(run[i].nextValidator, v, n) && VisitedIn(preset, run, at, v)
    decreases |run| - i
  {
    hide Processed, Visits;
    VisitedOrCloser(preset, run[i], v);
    if Visits(preset, run[i], v) {
      at := i;
    } else {
      assert run[i + 1].nextValidator == Processed(preset, run[i]).value.nextValidator;
      at := VisitedFrom(preset, run, n, v, i + 1);
    }
  }

  /** With a fixed registry of `n`, any `n` effective calls in a row visit every validator. */
  lemma EveryValidatorVisited(preset: Preset, run: seq<Ledger>, n: nat, v: nat) returns (at: nat)
    requires SweepRun(preset, run, n) && v < n <= |run|
    ensures at < n && VisitedIn(preset, run, at, v)
  {
    hide Processed, Effective, Visits;
    SweepShape(preset, run[0]);
    at := VisitedFrom(preset, run, n, v, 0);
  }

  // ---------------------------------------------------------------------------
  // Conservation
  // ---------------------------------------------------------------------------

  function Total(balances: seq<U64>): nat {
    if balances == [] then 0 else Total(balances[..|balances| - 1]) + balances[|balances| - 1]
  }

  /** What the withdrawals pay to validators. */
  function PaidToValidators(all: seq<Withdrawal>): nat {
    if all == [] then 0
    else
      var last := all[|all| - 1];
      PaidToValidators(all[..|all| - 1]) + if last.validatorIndex < BUILDER_INDEX_FLAG then last.amount else 0
  }

  lemma {:induction false} TotalUpdated(balances: seq<U64>, v: nat, x: U64)
    requires v < |balances|
    ensures Total(balances[v := x]) + balances[v] == Total(balances) + x
  {
    var n := |balances| - 1;
    assert balances[v := x][..n] == if v < n then balances[..n][v := x] else balances[..n];
    if v < n {
      TotalUpdated(balances[..n], v, x);
    }
  }

  lemma SafePrefix(s: Ledger, all: seq<Withdrawal>)
    requires Sound(s) && all != [] && Safe(s, all)
    ensures Safe(s, all[..|all| - 1])
    ensures var w := all[|all| - 1];
      w.validatorIndex < |s.balances| ==>
        TakenFrom(all[..|all| - 1], w.validatorIndex) + w.amount <= Spendable(s, w.validatorIndex)
  {
    hide TakenFrom, Spendable;
    var front := all[..|all| - 1];
    forall v | 0 <= v < |s.balances|
      ensures TakenFrom(front, v) <= Spendable(s, v)
    {
      TakesLast(all, v);
    }
    if all[|all| - 1].validatorIndex < |s.balances| {
      TakesLast(all, all[|all| - 1].validatorIndex);
    }
  }

  /** Applying a safe selection lowers total balance by exactly what it pays out. */
  lemma {:induction false} TotalDropsByPayments(s: Ledger, all: seq<Withdrawal>)
    requires Sound(s) && Safe(s, all) && Applied(s, all).Some?
    ensures Total(Applied(s, all).value.balances) + PaidToValidators(all) == Total(s.balances)
  {
    hide Safe, TakenFrom, Total, IsBuilderIndex;
    if all != [] {
      var front, w := all[..|all| - 1], all[|all| - 1];
      SafePrefix(s, all);
      TotalDropsByPayments(s, front);
      var before := Applied(s, front).value;
      AddressesKnown(s, all);
      AddressesKnown(s, front);
      AppliedTakes(s, front);
      BuilderFlag(w.validatorIndex);
      if w.validatorIndex < BUILDER_INDEX_FLAG {
        var v := w.validatorIndex;
        TotalUpdated(before.balances, v, SaturatingSub(before.balances[v], w.amount));
      }
    }
  }

  lemma AddressesKnown(s: Ledger, all: seq<Withdrawal>)
    requires Sound(s) && Safe(s, all)
    ensures forall i :: 0 <= i < |all| ==> Addressed(s, all[i].validatorIndex)
  {
    hide TakenFrom;
  }

  /** Validators lose, in total, exactly what the payload pays to validators. */
  lemma BalancesAreConserved(preset: Preset, s: Ledger)
    requires Effective(preset, s)
    ensures ExpectedWithdrawals(preset, s).Some?
    ensures var all := ExpectedWithdrawals(preset, s).value.withdrawals;
      Total(Processed(preset, s).value.balances) + PaidToValidators(all) == Total(s.balances)
  {
    hide ExpectedWithdrawals, Applied, Safe, Total, NextValidatorAfter, NextBuilderAfter;
    SelectionIsSafe(preset, s);
    TotalDropsByPayments(s, ExpectedWithdrawals(preset, s).value.withdrawals);
  }
}
