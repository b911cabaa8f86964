/** The insights screen's figures (InsightsView.swift): income and spending totals, the
    envelopes at risk, and the positive balances charted. */
module Insights {
  import opened Records
  import opened Balance
  import opened Seqs

  /** The expense transactions (fetch predicate `type == "expense"`), in store order. */
  function ExpensesOf(ts: seq<Transaction>): (r: seq<Transaction>)
    ensures |r| <= |ts|
    ensures forall t :: t in r <==> t in ts && t.kind == ExpenseKind
  {
    if |ts| == 0 then []
    else
      var last := ts[|ts| - 1];
      assert ts == ts[..|ts| - 1] + [last];
      ExpensesOf(ts[..|ts| - 1]) + (if last.kind == ExpenseKind then [last] else [])
  }

  /** `totalIncome`: every allocation's amount, a missing amount skipped; a failed fetch
      leaves zero. */
  method TotalIncome(ctx: Context, fetchFailed: bool) returns (sum: real)
    ensures sum == if fetchFailed then 0.0 else AllocationsTotal(ctx.allocations)
  {
    sum := 0.0;
    if fetchFailed {
      return;
    }
    var allocs := ctx.allocations;
    for i := 0 to |allocs|
      invariant sum == AllocationsTotal(allocs[..i])
    {
      AllocationsTotalStep(allocs, i);
      if allocs[i].amount.Some? {
        sum := sum + allocs[i].amount.value;
      }
    }
    assert allocs[..|allocs|] == allocs;
  }

  /** `totalSpent`: the expenses' amounts only, transfers excluded; a failed fetch leaves zero. */
  method TotalSpent(ctx: Context, fetchFailed: bool) returns (sum: real)
    ensures sum == if fetchFailed then 0.0 else TransactionsTotal(ExpensesOf(ctx.transactions))
  {
    sum := 0.0;
    if fetchFailed {
      return;
    }
    var list := ExpensesOf(ctx.transactions);
    for i := 0 to |list|
      invariant sum == TransactionsTotal(list[..i])
    {
      TransactionsTotalStep(list, i);
      if list[i].amount.Some? {
        sum := sum + list[i].amount.value;
      }
    }
    assert list[..|list|] == list;
  }

  /** `envelopesAtRisk` over a list of envelopes: how many have a balance of zero or less. */
  function AtRisk(s: Store, envs: seq<Envelope>): (n: nat)
    ensures n <= |envs|
    ensures n == |Positions(envs, (e: Envelope) => BalanceOf(s, e.id) <= 0.0)|
  {
    if |envs| == 0 then
      assert Positions(envs, (e: Envelope) => BalanceOf(s, e.id) <= 0.0) == {};
      0
    else
      PositionsStep(envs, (e: Envelope) => BalanceOf(s, e.id) <= 0.0);
      AtRisk(s, envs[..|envs| - 1]) + (if BalanceOf(s, envs[|envs| - 1].id) <= 0.0 then 1 else 0)
  }

  /** One bar of the balance chart. */
  datatype BalanceBar = BalanceBar(name: string, balance: real)

  function Bar(s: Store, e: Envelope): BalanceBar {
    BalanceBar(e.name, BalanceOf(s, e.id))
  }

  /** `envelopeBalances` over a list of envelopes: name and balance of those whose balance is
      above zero, in list order. */
  function PositiveBalances(s: Store, envs: seq<Envelope>): (r: seq<BalanceBar>)
    ensures forall b :: b in r ==> b.balance > 0.0 && exists e :: e in envs && b == Bar(s, e)
    ensures forall e :: e in envs && BalanceOf(s, e.id) > 0.0 ==> Bar(s, e) in r
  {
    if |envs| == 0 then []
    else
      var last := envs[|envs| - 1];
      assert envs == envs[..|envs| - 1] + [last];
      PositiveBalances(s, envs[..|envs| - 1]) + (if BalanceOf(s, last.id) > 0.0 then [Bar(s, last)] else [])
  }

  /** Every envelope is either at risk or charted, never both: the two figures split the list. */
  lemma {:induction false} AtRiskAndChartedSplit(s: Store, envs: seq<Envelope>)
    ensures AtRisk(s, envs) + |PositiveBalances(s, envs)| == |envs|
  {
    if |envs| > 0 {
      AtRiskAndChartedSplit(s, envs[..|envs| - 1]);
    }
  }

  /** The two figures as the screen computes them, over the envelope list it fetches. */
  function EnvelopesAtRisk(s: Store): nat {
    AtRisk(s, Displayed(s.envelopes))
  }

  function EnvelopeBalances(s: Store): seq<BalanceBar> {
    PositiveBalances(s, Displayed(s.envelopes))
  }

  // ---------------------------------------------------------------------------
  // Conservation: allocated income less spending is what the envelopes hold

  /** Σ balance over a list of envelopes. */
  function SumBalances(s: Store, envs: seq<Envelope>): real {
    if |envs| == 0 then 0.0
    else SumBalances(s, envs[..|envs| - 1]) + BalanceOf(s, envs[|envs| - 1].id)
  }

  /** Σ over a list of envelopes of what one transaction does to their balances. */
  function SumEffect(t: Transaction, envs: seq<Envelope>): real {
    if |envs| == 0 then 0.0
    else SumEffect(t, envs[..|envs| - 1]) + Effect(t, envs[|envs| - 1].id)
  }

  lemma {:induction false} SumAfterTransaction(s: Store, t: Transaction, envs: seq<Envelope>)
    ensures SumBalances(WithTransaction(s, t), envs) == SumBalances(s, envs) + SumEffect(t, envs)
  {
    if |envs| > 0 {
      SumAfterTransaction(s, t, envs[..|envs| - 1]);
      RecordTransaction(s, t, envs[|envs| - 1].id);
    }
  }

  /** Dropping the last of distinct envelopes drops exactly its identifier. */
  lemma LastIdSplit(envs: seq<Envelope>, x: EnvelopeId)
    requires |envs| > 0 && DistinctIds(envs)
    ensures DistinctIds(envs[..|envs| - 1])
    ensures HasEnvelope(envs, x) <==> HasEnvelope(envs[..|envs| - 1], x) || x == envs[|envs| - 1].id
    ensures HasEnvelope(envs[..|envs| - 1], x) ==> x != envs[|envs| - 1].id
  {
    var init := envs[..|envs| - 1];
    if HasEnvelope(init, x) {
      var k :| 0 <= k < |init| && init[k].id == x;
      assert envs[k] == init[k];
    }
    if HasEnvelope(envs, x) && x != envs[|envs| - 1].id {
      var k :| 0 <= k < |envs| && envs[k].id == x;
      assert init[k] == envs[k];
    }
    if x == envs[|envs| - 1].id {
      assert envs[|envs| - 1].id == x;
    }
  }

  lemma {:induction false} SumAfterAllocation(s: Store, a: Allocation, envs: seq<Envelope>)
    requires DistinctIds(envs)
    requires a.envelope.Some?
    ensures SumBalances(WithAllocation(s, a), envs)
         == SumBalances(s, envs) + (if HasEnvelope(envs, a.envelope.value) then AmountOr0(a.amount) else 0.0)
  {
    if |envs| > 0 {
      LastIdSplit(envs, a.envelope.value);
      SumAfterAllocation(s, a, envs[..|envs| - 1]);
      RecordAllocation(s, a, envs[|envs| - 1].id);
    }
  }

  /** Σ over distinct envelopes of a transaction's effect: the amount enters once for the
      target when listed, and leaves once for the spending envelope or the source when listed. */
  lemma {:induction false} SumOfEffect(t: Transaction, envs: seq<Envelope>)
    requires DistinctIds(envs)
    ensures SumEffect(t, envs)
         == (if t.kind == TransferKind && t.targetEnvelope.Some? && HasEnvelope(envs, t.targetEnvelope.value)
             then AmountOr0(t.amount) else 0.0)
          - (if t.kind == ExpenseKind && t.envelope.Some? && HasEnvelope(envs, t.envelope.value)
             then AmountOr0(t.amount) else 0.0)
          - (if t.kind == TransferKind && t.sourceEnvelope.Some? && HasEnvelope(envs, t.sourceEnvelope.value)
             then AmountOr0(t.amount) else 0.0)
  {
    if |envs| > 0 {
      SumOfEffect(t, envs[..|envs| - 1]);
      if t.targetEnvelope.Some? {
        LastIdSplit(envs, t.targetEnvelope.value);
      }
      if t.envelope.Some? {
        LastIdSplit(envs, t.envelope.value);
      }
      if t.sourceEnvelope.Some? {
        LastIdSplit(envs, t.sourceEnvelope.value);
      }
    }
  }

  /** Every allocation, expense and transfer points at envelopes of `envs`. */
  predicate ReferencesListed(envs: seq<Envelope>, ts: seq<Transaction>, allocs: seq<Allocation>) {
    (forall a :: a in allocs ==> a.envelope.Some? && HasEnvelope(envs, a.envelope.value))
    && (forall t :: t in ts && t.kind == ExpenseKind ==> t.envelope.Some? && HasEnvelope(envs, t.envelope.value))
    && (forall t :: t in ts && t.kind == TransferKind ==>
          t.sourceEnvelope.Some? && HasEnvelope(envs, t.sourceEnvelope.value)
          && t.targetEnvelope.Some? && HasEnvelope(envs, t.targetEnvelope.value))
  }

  lemma {:induction false} EmptyStoreSum(s: Store, envs: seq<Envelope>)
    requires s.transactions == [] && s.allocations == []
    ensures SumBalances(s, envs) == 0.0
  {
    if |envs| > 0 {
      EmptyStoreSum(s, envs[..|envs| - 1]);
    }
  }

  lemma {:induction false} AllocationsSum(envs: seq<Envelope>, allocs: seq<Allocation>)
    requires DistinctIds(envs) && ReferencesListed(envs, [], allocs)
    ensures SumBalances(Store(envs, [], allocs), envs) == AllocationsTotal(allocs)
  {
    if |allocs| == 0 {
      EmptyStoreSum(Store(envs, [], allocs), envs);
    } else {
      var init := allocs[..|allocs| - 1];
      var a := allocs[|allocs| - 1];
      assert allocs == init + [a];
      assert ReferencesListed(envs, [], init);
      AllocationsSum(envs, init);
      assert Store(envs, [], allocs) == WithAllocation(Store(envs, [], init), a);
      SumAfterAllocation(Store(envs, [], init), a, envs);
    }
  }

  /** When every allocation, expense and transfer points at a listed envelope (identifiers
      distinct), the envelopes' balances add up to `totalIncome - totalSpent`: transfers
      cancel out. */
  lemma {:induction false} BalancesAddUp(envs: seq<Envelope>, ts: seq<Transaction>, allocs: seq<Allocation>)
    requires DistinctIds(envs) && ReferencesListed(envs, ts, allocs)
    ensures SumBalances(Store(envs, ts, allocs), envs)
         == AllocationsTotal(allocs) - TransactionsTotal(ExpensesOf(ts))
  {
    if |ts| == 0 {
      AllocationsSum(envs, allocs);
    } else {
      var init := ts[..|ts| - 1];
      var t := ts[|ts| - 1];
      assert ts == init + [t];
      assert ReferencesListed(envs, init, allocs);
      BalancesAddUp(envs, init, allocs);
      assert Store(envs, ts, allocs) == WithTransaction(Store(envs, init, allocs), t);
      SumAfterTransaction(Store(envs, init, allocs), t, envs);
      SumOfEffect(t, envs);
      assert ExpensesOf(ts) == ExpensesOf(init) + (if t.kind == ExpenseKind then [t] else []);
      TransactionsTotalAppend(ExpensesOf(init), if t.kind == ExpenseKind then [t] else []);
    }
  }
}
