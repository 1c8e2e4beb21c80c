/**
  * The exit queue. Departing stake is spread over epochs by a cursor that carries the
  * budget left in its epoch.
  */
module Churn {
  import opened Primitives
  import opened Arithmetic
  import opened ForkChoiceTypes

  const MAX_SEED_LOOKAHEAD: nat := 4

  /** The last epoch handed out and what is left of its budget. */
  datatype Cursor = Cursor(epoch: Epoch, balance: U64)

  function ActivationExitEpoch(epoch: Epoch): Option<Epoch> {
    CheckedAdd(epoch, 1 + MAX_SEED_LOOKAHEAD)
  }

  /** Epochs needed beyond the first to cover a shortfall: the quotient rounded up. */
  function ExtraEpochs(shortfall: nat, perEpoch: nat): nat
    requires shortfall > 0 && perEpoch > 0
  {
    (shortfall - 1) / perEpoch + 1
  }

  /** The first epoch a request made in `current` may be given. */
  function Earliest(current: Epoch, cursor: Cursor): Option<Epoch> {
    var effective :- ActivationExitEpoch(current);
    Some(Max(cursor.epoch, effective))
  }

  /** The budget open in that epoch: a fresh one, or the rest of the cursor's. */
  function Opening(earliest: Epoch, cursor: Cursor, perEpoch: U64): U64 {
    if cursor.epoch < earliest then perEpoch else cursor.balance
  }

  /** `consume_churn_budget` */
  function Consumed(current: Epoch, cursor: Cursor, requested: U64, perEpoch: U64): Option<Cursor> {
    var earliest :- Earliest(current, cursor);
    var open := Opening(earliest, cursor, perEpoch);
    if requested <= open then Some(Cursor(earliest, open - requested))
    else if perEpoch == 0 then None
    else
      var extra := ExtraEpochs(requested - open, perEpoch);
      ShortfallCovered(requested - open, perEpoch);
      var epoch :- CheckedAdd(earliest, extra);
      var added :- CheckedMul(extra, perEpoch);
      var available :- CheckedAdd(open, added);
      Some(Cursor(epoch, available - requested))
  }

  lemma ShortfallCovered(shortfall: nat, perEpoch: nat)
    requires shortfall > 0 && perEpoch > 0
    ensures var extra := ExtraEpochs(shortfall, perEpoch);
      extra > 0 && (extra - 1) * perEpoch < shortfall <= extra * perEpoch
  {
    var q := (shortfall - 1) / perEpoch;
    assert shortfall - 1 == q * perEpoch + (shortfall - 1) % perEpoch;
    assert (q + 1) * perEpoch == q * perEpoch + perEpoch;
  }

  /** Budget open from `earliest` through `epoch`. */
  function BudgetThrough(open: nat, perEpoch: nat, earliest: nat, epoch: nat): nat
    requires earliest <= epoch
  {
    open + (epoch - earliest) * perEpoch
  }

  /**
    * An accepted request gets the least epoch whose accumulated budget covers it, and
    * the cursor keeps exactly the rest of that budget.
    */
  lemma AssignedEpochIsLeast(current: Epoch, cursor: Cursor, requested: U64, perEpoch: U64)
    requires Consumed(current, cursor, requested, perEpoch).Some?
    ensures Earliest(current, cursor).Some?
    ensures var earliest := Earliest(current, cursor).value;
      var open := Opening(earliest, cursor, perEpoch);
      var next := Consumed(current, cursor, requested, perEpoch).value;
      && earliest <= next.epoch
      && BudgetThrough(open, perEpoch, earliest, next.epoch) == requested + next.balance
      && (forall e :: earliest <= e < next.epoch ==> BudgetThrough(open, perEpoch, earliest, e) < requested)
  {
    var earliest := Earliest(current, cursor).value;
    var open := Opening(earliest, cursor, perEpoch);
    if requested > open {
      ShortfallCovered(requested - open, perEpoch);
      var extra := ExtraEpochs(requested - open, perEpoch);
      forall e | earliest <= e < earliest + extra
        ensures BudgetThrough(open, perEpoch, earliest, e) < requested
      {
        ProductsSpread(e - earliest, extra - 1, perEpoch);
      }
    }
  }

  /** The request fits by epoch `e`: the budget up to then covers it and is a 64-bit number. */
  ghost predicate FitsBy(open: nat, perEpoch: nat, earliest: nat, requested: nat, e: nat) {
    earliest <= e <= U64_MAX && requested <= open + (e - earliest) * perEpoch <= U64_MAX
  }

  /**
    * An exit is given the first epoch it fits by, counting from five epochs after the request
    * or from where the queue stands, with a fresh budget or with what the queue has left; and
    * it is refused exactly when there is no such epoch.
    */
  lemma ExitEpochMeaning(current: Epoch, cursor: Cursor, requested: U64, perEpoch: U64)
    ensures var behind := cursor.epoch < current + 5;
      var earliest := if behind then current + 5 else cursor.epoch;
      var open := if behind then perEpoch else cursor.balance;
      && (Consumed(current, cursor, requested, perEpoch).Some? <==>
            current + 5 <= U64_MAX && exists e: nat :: FitsBy(open, perEpoch, earliest, requested, e))
      && (Consumed(current, cursor, requested, perEpoch).Some? ==>
            var next := Consumed(current, cursor, requested, perEpoch).value;
            && FitsBy(open, perEpoch, earliest, requested, next.epoch)
            && (forall e: nat :: earliest <= e < next.epoch ==> !FitsBy(open, perEpoch, earliest, requested, e))
            && next.balance == open + (next.epoch - earliest) * perEpoch - requested)
  {
    hide Consumed, FitsBy;
    if Consumed(current, cursor, requested, perEpoch).Some? {
      GivenEpochFits(current, cursor, requested, perEpoch);
    } else if current + 5 <= U64_MAX {
      RefusedFitsNever(current, cursor, requested, perEpoch);
    }
  }

  lemma GivenEpochFits(current: Epoch, cursor: Cursor, requested: U64, perEpoch: U64)
    requires Consumed(current, cursor, requested, perEpoch).Some?
    ensures var behind := cursor.epoch < current + 5;
      var earliest := if behind then current + 5 else cursor.epoch;
      var open := if behind then perEpoch else cursor.balance;
      var next := Consumed(current, cursor, requested, perEpoch).value;
      && current + 5 <= U64_MAX && FitsBy(open, perEpoch, earliest, requested, next.epoch)
      && (forall e: nat :: earliest <= e < next.epoch ==> !FitsBy(open, perEpoch, earliest, requested, e))
      && next.balance == open + (next.epoch - earliest) * perEpoch - requested
  {
    hide ExtraEpochs;
    AssignedEpochIsLeast(current, cursor, requested, perEpoch);
    AcceptedInWord(current, cursor, requested, perEpoch);
    var earliest := Earliest(current, cursor).value;
    var open := Opening(earliest, cursor, perEpoch);
    var next := Consumed(current, cursor, requested, perEpoch).value;
    hide Consumed;
    forall e: nat | earliest <= e < next.epoch
      ensures !FitsBy(open, perEpoch, earliest, requested, e)
    {
      assert BudgetThrough(open, perEpoch, earliest, e) < requested;
    }
  }

  lemma AcceptedInWord(current: Epoch, cursor: Cursor, requested: U64, perEpoch: U64)
    requires Consumed(current, cursor, requested, perEpoch).Some?
    ensures Earliest(current, cursor).Some?
    ensures var earliest := Earliest(current, cursor).value;
      var next := Consumed(current, cursor, requested, perEpoch).value;
      earliest <= next.epoch
      && Opening(earliest, cursor, perEpoch) + (next.epoch - earliest) * perEpoch <= U64_MAX
  {
    hide ExtraEpochs;
  }

  lemma RefusedFitsNever(current: Epoch, cursor: Cursor, requested: U64, perEpoch: U64)
    requires Consumed(current, cursor, requested, perEpoch).None? && current + 5 <= U64_MAX
    ensures var behind := cursor.epoch < current + 5;
      var earliest := if behind then current + 5 else cursor.epoch;
      var open := if behind then perEpoch else cursor.balance;
      forall e: nat :: !FitsBy(open, perEpoch, earliest, requested, e)
  {
    hide ExtraEpochs, FitsBy;
    var earliest := Earliest(current, cursor).value;
    var open := Opening(earliest, cursor, perEpoch);
    forall e: nat
      ensures !FitsBy(open, perEpoch, earliest, requested, e)
    {
      NothingFits(open, perEpoch, earliest, requested, e);
    }
  }

  lemma NothingFits(open: nat, perEpoch: nat, earliest: nat, requested: nat, e: nat)
    requires requested > open
    requires perEpoch > 0 ==>
      var extra := ExtraEpochs(requested - open, perEpoch);
      earliest + extra > U64_MAX || extra * perEpoch > U64_MAX || open + extra * perEpoch > U64_MAX
    ensures !FitsBy(open, perEpoch, earliest, requested, e)
  {
    hide ExtraEpochs;
    if FitsBy(open, perEpoch, earliest, requested, e) {
      if perEpoch > 0 {
        ShortfallCovered(requested - open, perEpoch);
        var extra := ExtraEpochs(requested - open, perEpoch);
        ProductsSpread(e - earliest, extra - 1, perEpoch);
        ProductsSpread(extra, e - earliest, perEpoch);
      }
    }
  }

  /** The exit queue's two fields. */
  class ExitQueue {
    var earliestExitEpoch: Epoch
    var exitBalanceToConsume: U64

    constructor (cursor: Cursor)
      ensures View() == cursor
    {
      earliestExitEpoch, exitBalanceToConsume := cursor.epoch, cursor.balance;
    }

    function View(): Cursor
      reads this
    {
      Cursor(earliestExitEpoch, exitBalanceToConsume)
    }

    /** Hand out an exit epoch; a refused request leaves the queue as it was. */
    method ComputeExitEpochAndUpdateChurn(current: Epoch, perEpoch: U64, exitBalance: U64)
      returns (epoch: Option<Epoch>)
      modifies this
      ensures var next := Consumed(current, old(View()), exitBalance, perEpoch);
        && (epoch.Some? <==> next.Some?)
        && View() == (if next.Some? then next.value else old(View()))
        && (epoch.Some? ==> epoch.value == next.value.epoch)
    {
      hide ExtraEpochs;
      var effective := ActivationExitEpoch(current);
      if effective.None? {
        return None;
      }
      var earliest := Max(earliestExitEpoch, effective.value);
      var available: U64 := if earliestExitEpoch < earliest then perEpoch else exitBalanceToConsume;
      var given: U64 := earliest;
      if exitBalance > available {
        if perEpoch == 0 {
          return None;
        }
        var shortfall := exitBalance - available;
        var additional := ExtraEpochs(shortfall, perEpoch);
        ShortfallCovered(shortfall, perEpoch);
        var later := CheckedAdd(given, additional);
        var added := CheckedMul(additional, perEpoch);
        if later.None? || added.None? || CheckedAdd(available, added.value).None? {
          return None;
        }
        given, available := later.value, available + added.value;
      }
      exitBalanceToConsume := available - exitBalance;
      earliestExitEpoch := given;
      epoch := Some(given);
    }
  }

  // ---------------------------------------------------------------------------
  // Runs
  // ---------------------------------------------------------------------------

  /** One accepted request: when it was made, under which limit, and for how much. */
  datatype Call = Call(current: Epoch, perEpoch: U64, requested: U64)

  /** `cursors[k]` is the cursor after the first `k` calls, all of them accepted. */
  ghost predicate IsRun(calls: seq<Call>, cursors: seq<Cursor>) {
    && |cursors| == |calls| + 1
    && forall k :: 0 <= k < |calls| ==> Accepts(calls[k], cursors[k], cursors[k + 1])
  }

  /** Stake handed out by the first `k` calls that is to exit by epoch `e`. */
  function AssignedBy(calls: seq<Call>, cursors: seq<Cursor>, k: nat, e: nat): nat
    requires |cursors| == |calls| + 1 && k <= |calls|
  {
    if k == 0 then 0
    else AssignedBy(calls, cursors, k - 1, e) + if cursors[k].epoch <= e then calls[k - 1].requested else 0
  }

  function AssignedInAll(calls: seq<Call>, k: nat): nat
    requires k <= |calls|
  {
    if k == 0 then 0 else AssignedInAll(calls, k - 1) + calls[k - 1].requested
  }

  ghost predicate WithinLimit(calls: seq<Call>, cursors: seq<Cursor>, limit: nat) {
    && cursors != [] && cursors[0].balance <= limit
    && forall k :: 0 <= k < |calls| ==> calls[k].perEpoch <= limit
  }

  /** What call `k` of a run did. */
  predicate Accepts(call: Call, before: Cursor, after: Cursor) {
    Consumed(call.current, before, call.requested, call.perEpoch) == Some(after)
  }

  /** Exit epochs never go back. */
  lemma EpochsNeverDecrease(calls: seq<Call>, cursors: seq<Cursor>, k: nat)
    requires IsRun(calls, cursors) && k < |calls|
    ensures cursors[k].epoch <= cursors[k + 1].epoch
  {
    hide Consumed;
    assert Accepts(calls[k], cursors[k], cursors[k + 1]);
    AssignedEpochIsLeast(calls[k].current, cursors[k], calls[k].requested, calls[k].perEpoch);
  }

  /** One call adds no more than a limit's worth of budget per epoch it moves. */
  lemma BudgetGrows(call: Call, cursor: Cursor, limit: nat)
    requires Consumed(call.current, cursor, call.requested, call.perEpoch).Some? && call.perEpoch <= limit
    ensures var next := Consumed(call.current, cursor, call.requested, call.perEpoch).value;
      && cursor.epoch <= next.epoch
      && call.requested + next.balance <= cursor.balance + (next.epoch - cursor.epoch) * limit
  {
    hide Consumed;
    AssignedEpochIsLeast(call.current, cursor, call.requested, call.perEpoch);
    var next := Consumed(call.current, cursor, call.requested, call.perEpoch).value;
    var earliest := Earliest(call.current, cursor).value;
    GrowthInProducts(call.perEpoch, limit, next.epoch - earliest, earliest - cursor.epoch);
  }

  /** Moving `skipped` epochs ahead and `moved` more, at `perEpoch` each, stays within the limit. */
  lemma GrowthInProducts(perEpoch: nat, limit: nat, moved: nat, skipped: nat)
    requires perEpoch <= limit
    ensures moved * perEpoch <= (moved + skipped) * limit
    ensures skipped > 0 ==> perEpoch + moved * perEpoch <= (moved + skipped) * limit
  {
    Commutes(moved, perEpoch);
    Commutes(moved, limit);
    ProductsSpread(perEpoch, limit, moved);
    ProductsSpread(moved, moved + skipped, limit);
  }

  lemma Commutes(a: nat, b: nat)
    ensures a * b == b * a
  {
  }

  /** The first call opens at most one limit's worth in the first assignable epoch. */
  lemma FirstBudget(call: Call, cursor: Cursor, limit: nat)
    requires Consumed(call.current, cursor, call.requested, call.perEpoch).Some?
    requires call.perEpoch <= limit && cursor.balance <= limit
    ensures Earliest(call.current, cursor).Some?
    ensures var first := Earliest(call.current, cursor).value;
      var next := Consumed(call.current, cursor, call.requested, call.perEpoch).value;
      first <= next.epoch && call.requested + next.balance <= limit * (next.epoch - first + 1)
  {
    hide Consumed;
    AssignedEpochIsLeast(call.current, cursor, call.requested, call.perEpoch);
    var next := Consumed(call.current, cursor, call.requested, call.perEpoch).value;
    var moved := next.epoch - Earliest(call.current, cursor).value;
    ProductsSpread(call.perEpoch, limit, moved);
    assert moved * call.perEpoch <= moved * limit;
    assert limit * (moved + 1) == moved * limit + limit;
  }

  /** After `k` calls, all stake handed out plus the rest fits the epochs so far. */
  lemma {:induction false} BudgetHolds(calls: seq<Call>, cursors: seq<Cursor>, limit: nat, k: nat)
    requires IsRun(calls, cursors) && WithinLimit(calls, cursors, limit) && 0 < k <= |calls|
    ensures Earliest(calls[0].current, cursors[0]).Some?
    ensures var first := Earliest(calls[0].current, cursors[0]).value;
      && first <= cursors[k].epoch
      && AssignedInAll(calls, k) + cursors[k].balance <= limit * (cursors[k].epoch - first + 1)
  {
    hide Consumed, Earliest;
    assert Accepts(calls[0], cursors[0], cursors[1]);
    FirstBudget(calls[0], cursors[0], limit);
    if k == 1 {
      assert AssignedInAll(calls, 1) == calls[0].requested;
    } else {
      BudgetHolds(calls, cursors, limit, k - 1);
      assert Accepts(calls[k - 1], cursors[k - 1], cursors[k]);
      BudgetGrows(calls[k - 1], cursors[k - 1], limit);
      var first := Earliest(calls[0].current, cursors[0]).value;
      Distribute(limit, cursors[k - 1].epoch - first + 1, cursors[k].epoch - cursors[k - 1].epoch);
    }
  }

  lemma Distribute(a: nat, b: nat, c: nat)
    ensures a * (b + c) == a * b + c * a
  {
  }

  lemma {:induction false} AssignedByIsPart(calls: seq<Call>, cursors: seq<Cursor>, k: nat, e: nat)
    requires |cursors| == |calls| + 1 && k <= |calls|
    ensures AssignedBy(calls, cursors, k, e) <= AssignedInAll(calls, k)
  {
    if k > 0 {
      AssignedByIsPart(calls, cursors, k - 1, e);
    }
  }

  /** One limit's worth for each epoch from `first` through `e`. */
  function Allowance(limit: nat, first: nat, e: nat): nat {
    if e < first then 0 else limit * (e - first + 1)
  }

  lemma AllowanceGrows(limit: nat, first: nat, a: nat, e: nat)
    requires first <= a <= e
    ensures limit * (a - first + 1) <= Allowance(limit, first, e)
  {
    ProductsSpread(a - first + 1, e - first + 1, limit);
    assert limit * (e - first + 1) == (e - first + 1) * limit;
    assert limit * (a - first + 1) == (a - first + 1) * limit;
  }

  /**
    * Over any run of accepted requests whose limits, and whose initial cursor balance,
    * are at most `limit`: the stake to exit by epoch `e` is at most `limit` for each
    * epoch from the first assignable one through `e`.
    */
  lemma {:induction false} ChurnIsBounded(
    calls: seq<Call>, cursors: seq<Cursor>, limit: nat, k: nat, e: nat)
    requires IsRun(calls, cursors) && WithinLimit(calls, cursors, limit) && k <= |calls| && calls != []
    ensures Earliest(calls[0].current, cursors[0]).Some?
    ensures AssignedBy(calls, cursors, k, e)
         <= Allowance(limit, Earliest(calls[0].current, cursors[0]).value, e)
  {
    hide Consumed, Earliest, Allowance;
    assert Accepts(calls[0], cursors[0], cursors[1]);
    FirstBudget(calls[0], cursors[0], limit);
    if k > 0 {
      var first := Earliest(calls[0].current, cursors[0]).value;
      BudgetHolds(calls, cursors, limit, k);
      if cursors[k].epoch <= e {
        AssignedByIsPart(calls, cursors, k, e);
        AllowanceGrows(limit, first, cursors[k].epoch, e);
      } else {
        ChurnIsBounded(calls, cursors, limit, k - 1, e);
      }
    }
  }
}
