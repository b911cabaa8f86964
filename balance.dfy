/** An envelope's balance (EnvelopeBalance.swift): what was allocated to it and
    transferred in, less what was spent from it and transferred out. */
module Balance {
  import opened Records

  /** The four fetches `balance(in:)` issues; any of them may fail (`try?`). */
  datatype SubQuery = Allocations | TransfersIn | Expenses | TransfersOut

  /** The sum of the allocations' amounts, a missing amount counting as nothing. */
  function AllocationsTotal(allocs: seq<Allocation>): real {
    if |allocs| == 0 then 0.0
    else AllocationsTotal(allocs[..|allocs| - 1]) + AmountOr0(allocs[|allocs| - 1].amount)
  }

  /** The sum of the transactions' amounts, a missing amount counting as nothing. */
  function TransactionsTotal(ts: seq<Transaction>): real {
    if |ts| == 0 then 0.0
    else TransactionsTotal(ts[..|ts| - 1]) + AmountOr0(ts[|ts| - 1].amount)
  }

  lemma AllocationsTotalStep(allocs: seq<Allocation>, i: nat)
    requires i < |allocs|
    ensures AllocationsTotal(allocs[..i + 1]) == AllocationsTotal(allocs[..i]) + AmountOr0(allocs[i].amount)
  {
    assert allocs[..i + 1][..i] == allocs[..i];
  }

  lemma TransactionsTotalStep(ts: seq<Transaction>, i: nat)
    requires i < |ts|
    ensures TransactionsTotal(ts[..i + 1]) == TransactionsTotal(ts[..i]) + AmountOr0(ts[i].amount)
  {
    assert ts[..i + 1][..i] == ts[..i];
  }

  /** The balance of envelope `e` when the fetches in `failed` come back empty-handed. */
  function BalanceWith(s: Store, e: EnvelopeId, failed: set<SubQuery>): real {
    (if Allocations in failed then 0.0 else AllocationsTotal(AllocationsTo(s.allocations, e)))
    + (if TransfersIn in failed then 0.0 else TransactionsTotal(TransactionsIn(s.transactions, TransferTarget, e)))
    - (if Expenses in failed then 0.0 else TransactionsTotal(TransactionsIn(s.transactions, Debited, e)))
    - (if TransfersOut in failed then 0.0 else TransactionsTotal(TransactionsIn(s.transactions, TransferSource, e)))
  }

  /** The balance of envelope `e` when every fetch succeeds. */
  function BalanceOf(s: Store, e: EnvelopeId): real {
    BalanceWith(s, e, {})
  }

  /** `balance(in:)`: four successive loops over the fetched records update one running
      total; a fetch listed in `failed` is skipped. */
  method Balance(ctx: Context, e: EnvelopeId, failed: set<SubQuery>) returns (total: real)
    ensures total == BalanceWith(ctx.Snapshot(), e, failed)
  {
    total := 0.0;
    if Allocations !in failed {
      var allocs := AllocationsTo(ctx.allocations, e);
      for i := 0 to |allocs|
        invariant total == AllocationsTotal(allocs[..i])
      {
        AllocationsTotalStep(allocs, i);
        if allocs[i].amount.Some? {
          total := total + allocs[i].amount.value;
        }
      }
      assert allocs[..|allocs|] == allocs;
    }
    var base := total;
    if TransfersIn !in failed {
      var transfers := TransactionsIn(ctx.transactions, TransferTarget, e);
      for i := 0 to |transfers|
        invariant total == base + TransactionsTotal(transfers[..i])
      {
        TransactionsTotalStep(transfers, i);
        if transfers[i].amount.Some? {
          total := total + transfers[i].amount.value;
        }
      }
      assert transfers[..|transfers|] == transfers;
    }
    base := total;
    if Expenses !in failed {
      var expenses := TransactionsIn(ctx.transactions, Debited, e);
      for i := 0 to |expenses|
        invariant total == base - TransactionsTotal(expenses[..i])
      {
        TransactionsTotalStep(expenses, i);
        if expenses[i].amount.Some? {
          total := total - expenses[i].amount.value;
        }
      }
      assert expenses[..|expenses|] == expenses;
    }
    base := total;
    if TransfersOut !in failed {
      var out := TransactionsIn(ctx.transactions, TransferSource, e);
      for i := 0 to |out|
        invariant total == base - TransactionsTotal(out[..i])
      {
        TransactionsTotalStep(out, i);
        if out[i].amount.Some? {
          total := total - out[i].amount.value;
        }
      }
      assert out[..|out|] == out;
    }
  }

  /** `targetAmountValue`: absent exactly when no target is set, and otherwise the target. */
  function TargetAmountValue(e: Envelope): (r: Option<real>)
    ensures r.None? <==> e.targetAmount.None?
    ensures r.Some? ==> r.value == e.targetAmount.value
  {
    match e.targetAmount
    case None => None
    case Some(t) => Some(t)
  }

  // ---------------------------------------------------------------------------
  // Facts about the fold

  lemma AllocationsToAppend(allocs: seq<Allocation>, a: Allocation, e: EnvelopeId)
    ensures AllocationsTo(allocs + [a], e)
         == AllocationsTo(allocs, e) + (if a.envelope == Some(e) then [a] else [])
  {
    assert (allocs + [a])[..|allocs|] == allocs;
  }

  lemma TransactionsInAppend(ts: seq<Transaction>, t: Transaction, role: Role, e: EnvelopeId)
    ensures TransactionsIn(ts + [t], role, e)
         == TransactionsIn(ts, role, e) + (if Fills(t, role, e) then [t] else [])
  {
    assert (ts + [t])[..|ts|] == ts;
  }

  lemma AllocationsTotalAppend(allocs: seq<Allocation>, extra: seq<Allocation>)
    requires |extra| <= 1
    ensures AllocationsTotal(allocs + extra)
         == AllocationsTotal(allocs) + (if |extra| == 1 then AmountOr0(extra[0].amount) else 0.0)
  {
    if |extra| == 0 {
      assert allocs + extra == allocs;
    } else {
      assert (allocs + extra)[..|allocs|] == allocs;
    }
  }

  lemma TransactionsTotalAppend(ts: seq<Transaction>, extra: seq<Transaction>)
    requires |extra| <= 1
    ensures TransactionsTotal(ts + extra)
         == TransactionsTotal(ts) + (if |extra| == 1 then AmountOr0(extra[0].amount) else 0.0)
  {
    if |extra| == 0 {
      assert ts + extra == ts;
    } else {
      assert (ts + extra)[..|ts|] == ts;
    }
  }

  /** What recording transaction `t` does to envelope `f`'s balance. */
  function Effect(t: Transaction, f: EnvelopeId): real {
    (if Fills(t, TransferTarget, f) then AmountOr0(t.amount) else 0.0)
    - (if Fills(t, Debited, f) then AmountOr0(t.amount) else 0.0)
    - (if Fills(t, TransferSource, f) then AmountOr0(t.amount) else 0.0)
  }

  function WithTransaction(s: Store, t: Transaction): Store {
    Store(s.envelopes, s.transactions + [t], s.allocations)
  }

  function WithAllocation(s: Store, a: Allocation): Store {
    Store(s.envelopes, s.transactions, s.allocations + [a])
  }

  /** Recording a transaction moves every balance by exactly its effect. */
  lemma {:induction false} RecordTransaction(s: Store, t: Transaction, f: EnvelopeId)
    ensures BalanceOf(WithTransaction(s, t), f) == BalanceOf(s, f) + Effect(t, f)
  {
    var ts := s.transactions;
    TransactionsInAppend(ts, t, TransferTarget, f);
    TransactionsInAppend(ts, t, Debited, f);
    TransactionsInAppend(ts, t, TransferSource, f);
    TransactionsTotalAppend(TransactionsIn(ts, TransferTarget, f), if Fills(t, TransferTarget, f) then [t] else []);
    TransactionsTotalAppend(TransactionsIn(ts, Debited, f), if Fills(t, Debited, f) then [t] else []);
    TransactionsTotalAppend(TransactionsIn(ts, TransferSource, f), if Fills(t, TransferSource, f) then [t] else []);
  }

  /** Recording an allocation raises its envelope's balance by its amount and no other. */
  lemma {:induction false} RecordAllocation(s: Store, a: Allocation, f: EnvelopeId)
    ensures BalanceOf(WithAllocation(s, a), f)
         == BalanceOf(s, f) + (if a.envelope == Some(f) then AmountOr0(a.amount) else 0.0)
  {
    AllocationsToAppend(s.allocations, a, f);
    AllocationsTotalAppend(AllocationsTo(s.allocations, f), if a.envelope == Some(f) then [a] else []);
  }

  /** An expense of x from `e` lowers `e`'s balance by x and leaves every other balance alone. */
  lemma ExpenseLowersOnlyItsEnvelope(s: Store, t: Transaction, e: EnvelopeId, f: EnvelopeId)
    requires t.kind == ExpenseKind && t.envelope == Some(e)
    ensures BalanceOf(WithTransaction(s, t), f)
         == BalanceOf(s, f) - (if f == e then AmountOr0(t.amount) else 0.0)
  {
    RecordTransaction(s, t, f);
  }

  /** A transfer of x from `src` to `dst` (distinct) moves x from one to the other and
      leaves every other balance alone. */
  lemma TransferMovesAmount(s: Store, t: Transaction, src: EnvelopeId, dst: EnvelopeId, f: EnvelopeId)
    requires t.kind == TransferKind && t.sourceEnvelope == Some(src) && t.targetEnvelope == Some(dst)
    requires src != dst
    ensures f == src ==> BalanceOf(WithTransaction(s, t), f) == BalanceOf(s, f) - AmountOr0(t.amount)
    ensures f == dst ==> BalanceOf(WithTransaction(s, t), f) == BalanceOf(s, f) + AmountOr0(t.amount)
    ensures f != src && f != dst ==> BalanceOf(WithTransaction(s, t), f) == BalanceOf(s, f)
  {
    RecordTransaction(s, t, f);
  }

  /** A transfer from an envelope to itself changes no balance. */
  lemma SelfTransferNeutral(s: Store, t: Transaction, e: EnvelopeId, f: EnvelopeId)
    requires t.kind == TransferKind && t.sourceEnvelope == Some(e) && t.targetEnvelope == Some(e)
    ensures BalanceOf(WithTransaction(s, t), f) == BalanceOf(s, f)
  {
    RecordTransaction(s, t, f);
  }

  /** An "income" transaction enters no balance by itself; only its allocations do. */
  lemma IncomeTransactionNeutral(s: Store, t: Transaction, f: EnvelopeId)
    requires t.kind == IncomeKind
    ensures BalanceOf(WithTransaction(s, t), f) == BalanceOf(s, f)
  {
    RecordTransaction(s, t, f);
  }

  /** A record without an amount contributes nothing. */
  lemma AmountlessRecordsNeutral(s: Store, t: Transaction, a: Allocation, f: EnvelopeId)
    requires t.amount.None? && a.amount.None?
    ensures BalanceOf(WithTransaction(s, t), f) == BalanceOf(s, f)
    ensures BalanceOf(WithAllocation(s, a), f) == BalanceOf(s, f)
  {
    RecordTransaction(s, t, f);
    RecordAllocation(s, a, f);
  }

  /** No record refers to `e`. */
  predicate Untouched(s: Store, e: EnvelopeId) {
    (forall a :: a in s.allocations ==> a.envelope != Some(e))
    && (forall t :: t in s.transactions ==> !Fills(t, Debited, e) && !Fills(t, TransferSource, e) && !Fills(t, TransferTarget, e))
  }

  /** An envelope no record refers to has balance zero, whichever fetches fail. */
  lemma UntouchedIsZero(s: Store, e: EnvelopeId, failed: set<SubQuery>)
    requires Untouched(s, e)
    ensures BalanceWith(s, e, failed) == 0.0
  {
    NothingAllocatedTo(s.allocations, e);
    NothingFills(s.transactions, TransferTarget, e);
    NothingFills(s.transactions, Debited, e);
    NothingFills(s.transactions, TransferSource, e);
  }

  /** The signed contribution of one fetch to the balance. */
  function Part(s: Store, e: EnvelopeId, q: SubQuery): real {
    match q
    case Allocations => AllocationsTotal(AllocationsTo(s.allocations, e))
    case TransfersIn => TransactionsTotal(TransactionsIn(s.transactions, TransferTarget, e))
    case Expenses => -TransactionsTotal(TransactionsIn(s.transactions, Debited, e))
    case TransfersOut => -TransactionsTotal(TransactionsIn(s.transactions, TransferSource, e))
  }

  /** A failed fetch loses its own part and nothing else: the other three are still summed. */
  lemma FailedFetchLosesOnlyItsPart(s: Store, e: EnvelopeId, failed: set<SubQuery>, q: SubQuery)
    requires q !in failed
    ensures BalanceWith(s, e, failed + {q}) == BalanceWith(s, e, failed) - Part(s, e, q)
  {
  }

  /** Every stored amount is zero or more. */
  predicate NonNegativeAmounts(s: Store) {
    (forall a :: a in s.allocations ==> AmountOr0(a.amount) >= 0.0)
    && (forall t :: t in s.transactions ==> AmountOr0(t.amount) >= 0.0)
  }

  lemma {:induction false} AllocationsTotalNonNegative(allocs: seq<Allocation>)
    requires forall a :: a in allocs ==> AmountOr0(a.amount) >= 0.0
    ensures AllocationsTotal(allocs) >= 0.0
  {
    if |allocs| > 0 {
      AllocationsTotalNonNegative(allocs[..|allocs| - 1]);
      assert allocs[|allocs| - 1] in allocs;
    }
  }

  lemma {:induction false} TransactionsTotalNonNegative(ts: seq<Transaction>)
    requires forall t :: t in ts ==> AmountOr0(t.amount) >= 0.0
    ensures TransactionsTotal(ts) >= 0.0
  {
    if |ts| > 0 {
      TransactionsTotalNonNegative(ts[..|ts| - 1]);
      assert ts[|ts| - 1] in ts;
    }
  }

  /** With non-negative amounts, a failed fetch of money going out can only overstate the
      balance, and a failed fetch of money coming in can only understate it. */
  lemma FailedFetchDirection(s: Store, e: EnvelopeId)
    requires NonNegativeAmounts(s)
    ensures BalanceWith(s, e, {Expenses}) >= BalanceOf(s, e)
    ensures BalanceWith(s, e, {TransfersOut}) >= BalanceOf(s, e)
    ensures BalanceWith(s, e, {Allocations}) <= BalanceOf(s, e)
    ensures BalanceWith(s, e, {TransfersIn}) <= BalanceOf(s, e)
  {
    AllocationsTotalNonNegative(AllocationsTo(s.allocations, e));
    TransactionsTotalNonNegative(TransactionsIn(s.transactions, TransferTarget, e));
    TransactionsTotalNonNegative(TransactionsIn(s.transactions, Debited, e));
    TransactionsTotalNonNegative(TransactionsIn(s.transactions, TransferSource, e));
  }
}
