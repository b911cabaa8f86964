/** The income entry screen (AddIncomeView.swift): an income amount either goes whole to one
    pre-selected envelope or is split over the envelope list by per-envelope entries, which
    "distribute evenly" can fill in; saving writes one "income" transaction and its allocations. */
module Income {
  import opened Records
  import opened Seqs
  import Balance

  // ---------------------------------------------------------------------------
  // Rounding and the even split

  /** The number of hundredths nearest to `y >= 0`, ties rounded up. */
  function Hundredths(y: real): (n: int)
    requires y >= 0.0
    ensures n >= 0
    ensures n as real - 0.5 <= y * 100.0 < n as real + 0.5
  {
    (y * 100.0 + 0.5).Floor
  }

  /** Division rounded to two decimal places, ties away from zero (`roundingMode: .plain,
      scale: 2`). The result is a whole number of hundredths within half a hundredth of `x`. */
  function Round2(x: real): (r: real)
    ensures (r * 100.0).Floor as real == r * 100.0
    ensures -0.005 <= r - x <= 0.005
    ensures x >= 0.0 ==> r >= 0.0
  ensures x >= 0.0 ==> r * 100.0 - 0.5 <= x * 100.0 < r * 100.0 + 0.5
  ensures x < 0.0 ==> r * 100.0 - 0.5 < x * 100.0 <= r * 100.0 + 0.5
  {
    var n := if x >= 0.0 then Hundredths(x) else -Hundredths(-x);
    var r := n as real / 100.0;
    assert r * 100.0 == n as real;
    assert (n as real).Floor == n;
    assert -0.5 <= n as real - x * 100.0 <= 0.5;
    r
  }

  /** `perEnvelope`: the income over the envelope count, rounded. */
  function PerEnvelope(income: real, count: nat): real
    requires count > 0
  {
    Round2(income / count as real)
  }

  /** The share of the envelope at display position `i`: the rounded quotient, except the last,
      which takes whatever the others left. */
  function Share(income: real, count: nat, i: nat): real
    requires count > 0
  {
    if i == count - 1 then income - (count - 1) as real * PerEnvelope(income, count)
    else PerEnvelope(income, count)
  }

  /** The entries written for the first `n` displayed envelopes. */
  function ShareEntries(ids: seq<EnvelopeId>, income: real, n: nat): (m: map<EnvelopeId, Option<real>>)
    requires n <= |ids|
  {
    if n == 0 then map[]
    else ShareEntries(ids, income, n - 1)[ids[n - 1] := Some(Share(income, |ids|, n - 1))]
  }

  lemma {:induction false} ShareEntriesKeys(ids: seq<EnvelopeId>, income: real, n: nat)
    requires n <= |ids|
    ensures ShareEntries(ids, income, n).Keys == set i | 0 <= i < n :: ids[i]
  {
    if n > 0 {
      ShareEntriesKeys(ids, income, n - 1);
    }
  }

  function SharesTotal(income: real, count: nat, n: nat): real
    requires 0 < count && n <= count
  {
    if n == 0 then 0.0 else SharesTotal(income, count, n - 1) + Share(income, count, n - 1)
  }

  /** The shares add up to exactly the income, whatever the rounding did. */
  lemma {:induction false} SharesSumToIncome(income: real, count: nat)
    requires count > 0
    ensures SharesTotal(income, count, count) == income
  {
    PrefixOfShares(income, count, count - 1);
  }

  lemma {:induction false} PrefixOfShares(income: real, count: nat, n: nat)
    requires 0 < count && n < count
    ensures SharesTotal(income, count, n) == n as real * PerEnvelope(income, count)
  {
    if n > 0 {
      PrefixOfShares(income, count, n - 1);
    }
  }

  /** Every share but the last is at least zero for a positive income, and the last one is
      too once the even quotient covers half a cent for each of the other envelopes, the
      most their rounding can take from it (an income of at least n(n-1)/200). */
  lemma {:induction false} SharesNonNegative(income: real, count: nat, i: nat)
    requires count > 0 && i < count && income > 0.0
    requires income / count as real >= (count - 1) as real * 0.005
    ensures Share(income, count, i) >= 0.0
  {
    if i == count - 1 {
      var c := count as real;
      LastShareBound(income, c, (count - 1) as real, PerEnvelope(income, count));
    }
  }

  /** The arithmetic of the last share: `d` shares, each at most half a cent above the
      quotient, leave the income non-negative when the quotient covers `d` half cents. */
  lemma LastShareBound(income: real, c: real, d: real, per: real)
    requires c == d + 1.0 && d >= 0.0
    requires per <= income / c + 0.005 && income / c >= d * 0.005
    ensures income - d * per >= 0.0
  {
    var q := income / c;
    assert q * c == income;
    ScaleKeepsOrder(d, per, q + 0.005);
    var bound := d * (q + 0.005);
    assert bound == d * q + d * 0.005;
    assert d * q + q == c * q;
  }

  lemma ScaleKeepsOrder(k: real, a: real, b: real)
    requires k >= 0.0 && a <= b
    ensures k * a <= k * b
  {
  }

  /** A single envelope receives the whole income. */
  lemma SingleEnvelopeGetsAll(income: real)
    ensures Share(income, 1, 0) == income
  {
  }

  /** 100 over three envelopes: 33.33, 33.33 and 34.34 less one cent, that is 33.34. */
  lemma ThreeWaySplit()
    ensures PerEnvelope(100.0, 3) == 33.33
    ensures Share(100.0, 3, 2) == 33.34
  {
    assert (100.0 / 3.0 * 100.0 + 0.5).Floor == 3333;
  }

  /** Half a hundredth is rounded away from zero: 0.025 becomes 0.03 and -0.025 becomes -0.03. */
  lemma HalfHundredthRoundsAway()
    ensures Round2(0.025) == 0.03
    ensures Round2(-0.025) == -0.03
  {
    assert (0.025 * 100.0 + 0.5).Floor == 3;
  }

  /** A tiny income over many envelopes: 0.05 over seven gives 0.01 to each of the first six
      and leaves the last with -0.01. */
  lemma TinyIncomeOverdrawsLastShare()
    ensures PerEnvelope(0.05, 7) == 0.01
    ensures Share(0.05, 7, 6) == -0.01
  {
    assert (0.05 / 7.0 * 100.0 + 0.5).Floor == 1;
  }

  // ---------------------------------------------------------------------------
  // Summing the allocation entries

  /** The part of one entry `totalAllocated` counts: a parsed amount of zero or more. */
  function Counted(v: Option<real>): real {
    if v.Some? && v.value >= 0.0 then v.value else 0.0
  }

  /** The counted entries under `keys`, taken in any order. */
  ghost function SumKeys(m: map<EnvelopeId, Option<real>>, keys: set<EnvelopeId>): real
    requires keys <= m.Keys
    decreases keys
  {
    if keys == {} then 0.0
    else
      var k :| k in keys;
      Counted(m[k]) + SumKeys(m, keys - {k})
  }

  /** `totalAllocated` in distribution mode, independent of the dictionary's iteration order. */
  ghost function MapSum(m: map<EnvelopeId, Option<real>>): real {
    SumKeys(m, m.Keys)
  }

  lemma {:induction false} SumKeysAnyKey(m: map<EnvelopeId, Option<real>>, keys: set<EnvelopeId>, k: EnvelopeId)
    requires keys <= m.Keys && k in keys
    ensures SumKeys(m, keys) == Counted(m[k]) + SumKeys(m, keys - {k})
    decreases keys
  {
    var j :| j in keys && SumKeys(m, keys) == Counted(m[j]) + SumKeys(m, keys - {j});
    if j != k {
      SumKeysAnyKey(m, keys - {j}, k);
      SumKeysAnyKey(m, keys - {k}, j);
      assert keys - {j} - {k} == keys - {k} - {j};
    }
  }

  /** The counted entries met along `order`, skipping names that are not keys. */
  function SumOver(m: map<EnvelopeId, Option<real>>, order: seq<EnvelopeId>): real {
    if |order| == 0 then 0.0
    else
      var k := order[|order| - 1];
      SumOver(m, order[..|order| - 1]) + (if k in m then Counted(m[k]) else 0.0)
  }

  /** Walking any repetition-free sequence that covers every key gives the order-free sum. */
  lemma {:induction false} SumOverIsMapSum(m: map<EnvelopeId, Option<real>>, order: seq<EnvelopeId>)
    requires Distinct(order)
    ensures SumOver(m, order) == SumKeys(m, m.Keys * set i | 0 <= i < |order| :: order[i])
  {
    var covered := m.Keys * set i | 0 <= i < |order| :: order[i];
    if |order| > 0 {
      var init := order[..|order| - 1];
      var k := order[|order| - 1];
      var rest := m.Keys * set i | 0 <= i < |init| :: init[i];
      SumOverIsMapSum(m, init);
      if k in m {
        assert covered - {k} == rest;
        SumKeysAnyKey(m, covered, k);
      } else {
        assert covered == rest;
      }
    }
  }

  /** Keys the entries hold, order aside. */
  predicate Enumerates(order: seq<EnvelopeId>, m: map<EnvelopeId, Option<real>>) {
    Distinct(order) && (forall k :: k in m ==> k in order) && (forall i :: 0 <= i < |order| ==> order[i] in m)
  }

  // ---------------------------------------------------------------------------
  // What a save writes

  /** The transaction `saveIncome` creates. */
  function IncomeTransaction(id: TransactionId, income: real, date: Date, note: string): Transaction {
    Transaction(id, Some(income), IncomeKind, date, NoteOrNil(note), None, None, None)
  }

  /** An entry that parses to an amount above zero. */
  predicate Positive(m: map<EnvelopeId, Option<real>>, k: EnvelopeId) {
    k in m && m[k].Some? && m[k].value > 0.0
  }

  /** The allocations written in distribution mode, one per displayed envelope whose entry is
      positive, numbered from `key` in creation order. */
  function Distributed(ids: seq<EnvelopeId>, m: map<EnvelopeId, Option<real>>, tx: TransactionId, key: nat): seq<Allocation>
  {
    if |ids| == 0 then []
    else
      var init := Distributed(ids[..|ids| - 1], m, tx, key);
      var k := ids[|ids| - 1];
      init + (if Positive(m, k) then [Allocation(key + |init|, m[k], tx, Some(k))] else [])
  }

  lemma DistributedStep(ids: seq<EnvelopeId>, i: nat, m: map<EnvelopeId, Option<real>>, tx: TransactionId, key: nat)
    requires i < |ids|
    ensures var created := Distributed(ids[..i], m, tx, key);
      Distributed(ids[..i + 1], m, tx, key)
        == created + (if Positive(m, ids[i]) then [Allocation(key + |created|, m[ids[i]], tx, Some(ids[i]))] else [])
  {
    assert ids[..i + 1][..i] == ids[..i];
  }

  /** Each allocation written in distribution mode belongs to the new transaction and carries
      the positive entry of a displayed envelope. */
  lemma {:induction false} DistributedShape(ids: seq<EnvelopeId>, m: map<EnvelopeId, Option<real>>, tx: TransactionId, key: nat)
    ensures forall a :: a in Distributed(ids, m, tx, key) ==>
      a.transaction == tx && a.envelope.Some? && a.envelope.value in ids
      && Positive(m, a.envelope.value) && a.amount == m[a.envelope.value]
  {
    if |ids| > 0 {
      DistributedShape(ids[..|ids| - 1], m, tx, key);
    }
  }

  /** All the allocations `saveIncome` writes for an income. */
  function NewAllocations(income: real, preSelected: Option<EnvelopeId>, ids: seq<EnvelopeId>,
                          m: map<EnvelopeId, Option<real>>, tx: TransactionId, key: nat): (r: seq<Allocation>)
    ensures preSelected.Some? ==> r == [Allocation(key, Some(income), tx, preSelected)]
  {
    if preSelected.Some? then [Allocation(key, Some(income), tx, preSelected)]
    else Distributed(ids, m, tx, key)
  }

  /** What the distribution-mode allocations add up to is what `totalAllocated` counts over
      the displayed envelopes. */
  lemma {:induction false} DistributedTotal(ids: seq<EnvelopeId>, m: map<EnvelopeId, Option<real>>, tx: TransactionId, key: nat)
    ensures Balance.AllocationsTotal(Distributed(ids, m, tx, key)) == SumOver(m, ids)
  {
    if |ids| > 0 {
      var init := Distributed(ids[..|ids| - 1], m, tx, key);
      var k := ids[|ids| - 1];
      DistributedTotal(ids[..|ids| - 1], m, tx, key);
      Balance.AllocationsTotalAppend(init, if Positive(m, k) then [Allocation(key + |init|, m[k], tx, Some(k))] else []);
    }
  }

  /** When the screen lets a save through, the allocations it writes add up to exactly the
      income, provided every entry belongs to a displayed envelope. */
  lemma CommitConservesIncome(income: real, preSelected: Option<EnvelopeId>, ids: seq<EnvelopeId>,
                              m: map<EnvelopeId, Option<real>>, tx: TransactionId, key: nat)
    requires preSelected.None? ==> Distinct(ids) && (forall k :: k in m ==> k in ids) && MapSum(m) == income
    ensures Balance.AllocationsTotal(NewAllocations(income, preSelected, ids, m, tx, key)) == income
  {
    if preSelected.None? {
      DistributedTotal(ids, m, tx, key);
      SumOverIsMapSum(m, ids);
      assert m.Keys * (set i | 0 <= i < |ids| :: ids[i]) == m.Keys;
    } else {
      Balance.AllocationsTotalAppend([], NewAllocations(income, preSelected, ids, m, tx, key));
    }
  }

  // ---------------------------------------------------------------------------
  // The screen

  /** One step of the split loop: the last envelope takes the income less the running
      total; every other one takes the rounded quotient, which the running total gains. */
  lemma NextShare(income: real, count: nat, i: nat)
    requires 0 < count && i < count
    ensures i == count - 1 ==> income - SharesTotal(income, count, i) == Share(income, count, i)
    ensures i < count - 1 ==> PerEnvelope(income, count) == Share(income, count, i)
    ensures SharesTotal(income, count, i) + Share(income, count, i) == SharesTotal(income, count, i + 1)
  {
    if i == count - 1 {
      SharesSumToIncome(income, count);
    }
  }

  lemma ShareEntriesNext(ids: seq<EnvelopeId>, income: real, i: nat, share: real)
    requires i < |ids| && share == Share(income, |ids|, i)
    ensures ShareEntries(ids, income, i)[ids[i] := Some(share)] == ShareEntries(ids, income, i + 1)
  {
  }

  /** The loop of `distributeEvenly()`: every listed envelope but the last gets the rounded
      quotient, and the last what the running total leaves of the income. */
  method SplitEvenly(shown: seq<EnvelopeId>, income: real) returns (entries: map<EnvelopeId, Option<real>>)
    requires |shown| > 0
    ensures entries == ShareEntries(shown, income, |shown|)
  {
    var count := |shown|;
    var perEnvelope := PerEnvelope(income, count);
    entries := map[];
    var runningTotal := 0.0;
    for i := 0 to count
      invariant entries == ShareEntries(shown, income, i)
      invariant i < count ==> runningTotal == SharesTotal(income, count, i)
    {
      var share: real;
      NextShare(income, count, i);
      if i == count - 1 {
        share := income - runningTotal;
      } else {
        share := perEnvelope;
        runningTotal := runningTotal + share;
      }
      ShareEntriesNext(shown, income, i, share);
      entries := entries[shown[i] := Some(share)];
    }
  }

  /** The distribution-mode loop of `saveIncome()`: an allocation for every listed envelope
      whose entry is positive, appended in list order with keys counting up from `firstKey`. */
  method WriteDistributed(ctx: Context, shown: seq<EnvelopeId>, amounts: map<EnvelopeId, Option<real>>,
                          tx: TransactionId, firstKey: nat)
    modifies ctx
    ensures ctx.envelopes == old(ctx.envelopes) && ctx.transactions == old(ctx.transactions)
    ensures ctx.allocations == old(ctx.allocations) + Distributed(shown, amounts, tx, firstKey)
  {
    for i := 0 to |shown|
      invariant ctx.envelopes == old(ctx.envelopes) && ctx.transactions == old(ctx.transactions)
      invariant ctx.allocations == old(ctx.allocations) + Distributed(shown[..i], amounts, tx, firstKey)
    {
      var k := shown[i];
      var created := Distributed(shown[..i], amounts, tx, firstKey);
      DistributedStep(shown, i, amounts, tx, firstKey);
      var added := if Positive(amounts, k) then [Allocation(firstKey + |created|, amounts[k], tx, Some(k))] else [];
      AppendAssoc(old(ctx.allocations), created, added);
      if Positive(amounts, k) {
        ctx.allocations := ctx.allocations + [Allocation(firstKey + |created|, amounts[k], tx, Some(k))];
      }
    }
    assert shown[..|shown|] == shown;
  }

  /** The screen's state. `amount` is the amount text as `Decimal(string:)` reads it once
      trimmed; each allocation entry likewise. */
  class IncomeForm {
    const preSelected: Option<EnvelopeId>
    var amount: Option<real>
    var date: Date
    var note: string
    var allocationAmounts: map<EnvelopeId, Option<real>>

    constructor (preSelected: Option<EnvelopeId>, now: Date)
      ensures this.preSelected == preSelected
      ensures amount == None && date == now && note == "" && allocationAmounts == map[]
    {
      this.preSelected := preSelected;
      amount, date, note, allocationAmounts := None, now, "", map[];
    }

    /** `totalIncome`: the amount, when it parses and is above zero. */
    function TotalIncome(): Option<real>
      reads this
    {
      PositiveAmount(amount)
    }

    /** `canSave`: an income, and either a pre-selected envelope or entries that add up to it. */
    ghost predicate CanSave()
      reads this
    {
      TotalIncome().Some? && (preSelected.Some? || MapSum(allocationAmounts) == TotalIncome().value)
    }

    /** `totalAllocated`: the whole income in single-envelope mode (zero without one);
        otherwise the sum of the entries that parse to zero or more, walked in the
        dictionary's own `order`. The sum does not depend on that order. */
    method TotalAllocated(order: seq<EnvelopeId>) returns (sum: real)
      requires Enumerates(order, allocationAmounts)
      ensures preSelected.Some? ==> sum == Or(TotalIncome(), 0.0)
      ensures preSelected.None? ==> sum == MapSum(allocationAmounts)
    {
      if preSelected.Some? {
        return Or(TotalIncome(), 0.0);
      }
      sum := 0.0;
      for i := 0 to |order|
        invariant sum == SumOver(allocationAmounts, order[..i])
      {
        assert order[..i + 1][..i] == order[..i];
        var entry := allocationAmounts[order[i]];
        if entry.Some? && entry.value >= 0.0 {
          sum := sum + entry.value;
        }
      }
      assert order[..|order|] == order;
      SumOverIsMapSum(allocationAmounts, order);
      assert allocationAmounts.Keys * (set i | 0 <= i < |order| :: order[i]) == allocationAmounts.Keys;
    }

    /** `distributeEvenly()`: with an income and at least one envelope, the entries become
        the even split over the displayed envelopes; otherwise nothing changes. */
    method DistributeEvenly(ctx: Context)
      modifies this
      ensures amount == old(amount) && date == old(date) && note == old(note)
      ensures var ids := Ids(Displayed(ctx.envelopes));
        if old(TotalIncome()).None? || |ids| == 0 then allocationAmounts == old(allocationAmounts)
        else allocationAmounts == ShareEntries(ids, old(TotalIncome()).value, |ids|)
    {
      var income := TotalIncome();
      var shown := Ids(Displayed(ctx.envelopes));
      if income.None? || |shown| == 0 {
        return;
      }
      allocationAmounts := SplitEvenly(shown, income.value);
    }

    /** `saveIncome()`: without an income nothing is written; otherwise one "income"
        transaction for the whole amount (an empty note stored as none) and its allocations. */
    method SaveIncome(ctx: Context, newId: TransactionId, firstKey: nat)
      modifies ctx
      ensures TotalIncome().None? ==> ctx.Snapshot() == old(ctx.Snapshot())
      ensures TotalIncome().Some? ==>
        ctx.envelopes == old(ctx.envelopes)
        && ctx.transactions == old(ctx.transactions) + [IncomeTransaction(newId, TotalIncome().value, date, note)]
        && ctx.allocations == old(ctx.allocations)
             + NewAllocations(TotalIncome().value, preSelected, Ids(Displayed(old(ctx.envelopes))),
                              allocationAmounts, newId, firstKey)
    {
      var income := TotalIncome();
      if income.None? {
        return;
      }
      ctx.transactions := ctx.transactions + [IncomeTransaction(newId, income.value, date, note)];
      if preSelected.Some? {
        ctx.allocations := ctx.allocations + [Allocation(firstKey, Some(income.value), newId, preSelected)];
      } else {
        var shown := Ids(Displayed(ctx.envelopes));
        WriteDistributed(ctx, shown, allocationAmounts, newId, firstKey);
      }
    }
  }

  // ---------------------------------------------------------------------------
  // The split and the save gate together

  /** The entries of an even split over distinct envelopes add up to the income, so the save
      gate opens, whenever every share is zero or more. */
  lemma {:induction false} EvenSplitCanBeSaved(ids: seq<EnvelopeId>, income: real)
    requires |ids| > 0 && Distinct(ids) && income > 0.0
    requires forall i :: 0 <= i < |ids| ==> Share(income, |ids|, i) >= 0.0
    ensures MapSum(ShareEntries(ids, income, |ids|)) == income
  {
    ShareEntriesSum(ids, income, |ids|);
    SharesSumToIncome(income, |ids|);
  }

  /** An income of at least half a cent per pair of envelopes is always split so that it
      can be saved. */
  lemma LargeEnoughIncomeCanBeSaved(ids: seq<EnvelopeId>, income: real)
    requires |ids| > 0 && Distinct(ids) && income > 0.0
    requires income / |ids| as real >= (|ids| - 1) as real * 0.005
    ensures MapSum(ShareEntries(ids, income, |ids|)) == income
  {
    forall i | 0 <= i < |ids| ensures Share(income, |ids|, i) >= 0.0 {
      SharesNonNegative(income, |ids|, i);
    }
    EvenSplitCanBeSaved(ids, income);
  }

  lemma {:induction false} ShareEntriesSum(ids: seq<EnvelopeId>, income: real, n: nat)
    requires 0 < |ids| && n <= |ids| && Distinct(ids)
    requires forall i :: 0 <= i < |ids| ==> Share(income, |ids|, i) >= 0.0
    ensures MapSum(ShareEntries(ids, income, n)) == SharesTotal(income, |ids|, n)
  {
    if n > 0 {
      var m := ShareEntries(ids, income, n);
      var prev := ShareEntries(ids, income, n - 1);
      ShareEntriesSum(ids, income, n - 1);
      var k := ids[n - 1];
      ShareEntriesKeys(ids, income, n);
      ShareEntriesKeys(ids, income, n - 1);
      SumKeysAnyKey(m, m.Keys, k);
      assert m.Keys - {k} == prev.Keys;
      SumKeysFrame(m, prev, prev.Keys);
    }
  }

  /** Sums over keys where two maps agree are equal. */
  lemma {:induction false} SumKeysFrame(m: map<EnvelopeId, Option<real>>, m': map<EnvelopeId, Option<real>>, keys: set<EnvelopeId>)
    requires keys <= m.Keys && keys <= m'.Keys
    requires forall k :: k in keys ==> m[k] == m'[k]
    ensures SumKeys(m, keys) == SumKeys(m', keys)
    decreases keys
  {
    if keys != {} {
      var k :| k in keys;
      SumKeysAnyKey(m, keys, k);
      SumKeysAnyKey(m', keys, k);
      SumKeysFrame(m, m', keys - {k});
    }
  }

  /** The split of 0.05 over seven envelopes cannot be saved: the last entry is negative, so
      `totalAllocated` drops it and counts 0.06. */
  lemma TinySplitBlocksSave(ids: seq<EnvelopeId>)
    requires |ids| == 7 && Distinct(ids)
    ensures MapSum(ShareEntries(ids, 0.05, 7)) == 0.06
  {
    TinyIncomeOverdrawsLastShare();
    var m := ShareEntries(ids, 0.05, 7);
    var p := ShareEntries(ids, 0.05, 6);
    ShareEntriesKeys(ids, 0.05, 7);
    ShareEntriesKeys(ids, 0.05, 6);
    SumKeysAnyKey(m, m.Keys, ids[6]);
    assert m.Keys - {ids[6]} == p.Keys;
    SumKeysFrame(m, p, p.Keys);
    FirstSharesSum(ids, 6);
  }

  lemma {:induction false} FirstSharesSum(ids: seq<EnvelopeId>, n: nat)
    requires |ids| == 7 && Distinct(ids) && n <= 6
    ensures MapSum(ShareEntries(ids, 0.05, n)) == n as real * 0.01
  {
    TinyIncomeOverdrawsLastShare();
    if n > 0 {
      var m := ShareEntries(ids, 0.05, n);
      var p := ShareEntries(ids, 0.05, n - 1);
      FirstSharesSum(ids, n - 1);
      ShareEntriesKeys(ids, 0.05, n);
      ShareEntriesKeys(ids, 0.05, n - 1);
      SumKeysAnyKey(m, m.Keys, ids[n - 1]);
      assert m.Keys - {ids[n - 1]} == p.Keys;
      SumKeysFrame(m, p, p.Keys);
    }
  }
}
