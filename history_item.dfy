/** One row of the history list (HistoryItem.swift): an expense, a transfer or an income
    allocation, with the values the list shows for it. */
module History {
  import opened Records
  import opened Text

  datatype HistoryItem =
    | Expense(t: Transaction)
    | Transfer(t: Transaction)
    | IncomeAllocation(a: Allocation)

  /** `id`: a kind prefix followed by the record's identifier text. */
  function Id(h: HistoryItem): string {
    match h
    case Expense(t) => "exp-" + Digits(t.id)
    case Transfer(t) => "tr-" + Digits(t.id)
    case IncomeAllocation(a) => "inc-" + Digits(a.objectId)
  }

  /** `date`: an allocation is dated by its parent transaction. */
  function Date(s: Store, h: HistoryItem, now: Records.Date): Records.Date {
    match h
    case Expense(t) => t.date
    case Transfer(t) => t.date
    case IncomeAllocation(a) => ParentDate(s, a, now)
  }

  /** `amount`: money spent or moved away is negative, income positive. */
  function Amount(h: HistoryItem): real {
    match h
    case Expense(t) => -AmountOr0(t.amount)
    case Transfer(t) => -AmountOr0(t.amount)
    case IncomeAllocation(a) => AmountOr0(a.amount)
  }

  function StoredAmount(h: HistoryItem): real {
    match h
    case Expense(t) => AmountOr0(t.amount)
    case Transfer(t) => AmountOr0(t.amount)
    case IncomeAllocation(a) => AmountOr0(a.amount)
  }

  predicate IsIncome(h: HistoryItem) {
    h.IncomeAllocation?
  }

  /** `envelopeName`: the envelope spent from, the transfer's source, or the envelope allocated to. */
  function EnvelopeName(s: Store, h: HistoryItem): Option<string> {
    match h
    case Expense(t) => NameOf(s, t.envelope)
    case Transfer(t) => NameOf(s, t.sourceEnvelope)
    case IncomeAllocation(a) => NameOf(s, a.envelope)
  }

  /** `note`: an allocation shows its parent transaction's note. */
  function Note(s: Store, h: HistoryItem): Option<string> {
    match h
    case Expense(t) => t.note
    case Transfer(t) => t.note
    case IncomeAllocation(a) => ParentNote(s, a)
  }

  function DetailDescription(s: Store, h: HistoryItem): string {
    match h
    case Expense(_) => "Expense"
    case Transfer(t) => "Transfer to " + Or(NameOf(s, t.targetEnvelope), "envelope")
    case IncomeAllocation(_) => "Income"
  }

  /** The shown amount is the stored amount, negated exactly when the item is not income. */
  lemma AmountSign(h: HistoryItem)
    ensures IsIncome(h) ==> Amount(h) == StoredAmount(h)
    ensures !IsIncome(h) ==> Amount(h) == -StoredAmount(h)
    ensures StoredAmount(h) > 0.0 ==> (IsIncome(h) <==> Amount(h) > 0.0)
  {
  }

  /** Date, note and envelope of an allocation come from the records it points at. */
  lemma AllocationDetails(s: Store, a: Allocation, now: Records.Date)
    ensures Date(s, IncomeAllocation(a), now) == (match FindTransaction(s.transactions, a.transaction)
                                                   case Some(t) => t.date case None => now)
    ensures Note(s, IncomeAllocation(a)) == (match FindTransaction(s.transactions, a.transaction)
                                              case Some(t) => t.note case None => None)
    ensures EnvelopeName(s, IncomeAllocation(a)).Some? <==> a.envelope.Some? && HasEnvelope(s.envelopes, a.envelope.value)
  {
  }

  /** A transfer is described by its target's name, or by "envelope" when it has none. */
  lemma TransferDescription(s: Store, t: Transaction)
    ensures var d := DetailDescription(s, Transfer(t));
      IsPrefix("Transfer to ", d)
      && (NameOf(s, t.targetEnvelope).Some? ==> d[12..] == NameOf(s, t.targetEnvelope).value)
      && (NameOf(s, t.targetEnvelope).None? ==> d[12..] == "envelope")
  {
  }

  lemma {:induction false} StripPrefix(p: string, x: string, y: string)
    requires p + x == p + y
    ensures x == y
  {
    assert x == (p + x)[|p|..];
    assert y == (p + y)[|p|..];
  }

  /** Ids never clash across kinds, and within a kind they differ whenever the records'
      identifiers differ. */
  lemma {:induction false} IdsDistinct(g: HistoryItem, h: HistoryItem)
    requires Id(g) == Id(h)
    ensures g.Expense? == h.Expense? && g.Transfer? == h.Transfer? && g.IncomeAllocation? == h.IncomeAllocation?
    ensures g.IncomeAllocation? ==> g.a.objectId == h.a.objectId
    ensures !g.IncomeAllocation? ==> g.t.id == h.t.id
  {
    assert Id(g)[0] == Id(h)[0];
    assert Id(g)[0] == (if g.Expense? then 'e' else if g.Transfer? then 't' else 'i');
    assert Id(h)[0] == (if h.Expense? then 'e' else if h.Transfer? then 't' else 'i');
    match g
    case Expense(t) =>
      StripPrefix("exp-", Digits(t.id), Digits(h.t.id));
      DigitsInjective(t.id, h.t.id);
    case Transfer(t) =>
      StripPrefix("tr-", Digits(t.id), Digits(h.t.id));
      DigitsInjective(t.id, h.t.id);
    case IncomeAllocation(a) =>
      StripPrefix("inc-", Digits(a.objectId), Digits(h.a.objectId));
      DigitsInjective(a.objectId, h.a.objectId);
  }
}
