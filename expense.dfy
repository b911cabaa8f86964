/** The expense entry screen (AddExpenseView.swift): an amount spent from one envelope. The
    balance warning is advice shown beside the form; it never stops a save. */
module Expense {
  import opened Records
  import Balance

  /** `BalanceWarning`. */
  datatype BalanceWarning = NoWarning | Warning | Critical

  function Message(w: BalanceWarning): (text: string)
    ensures text == "" <==> w == NoWarning
  {
    match w
    case NoWarning => ""
    case Warning => "Balance is less than the expense amount."
    case Critical => "Envelope is empty or overspent."
  }

  /** `balanceWarning` for an amount and the selected envelope's balance. */
  function WarningFor(amount: Option<real>, balance: real): BalanceWarning {
    if amount.None? then NoWarning
    else if balance <= 0.0 && amount.value > 0.0 then Critical
    else if balance < amount.value then Warning
    else NoWarning
  }

  /** For a positive amount: critical exactly when the envelope holds nothing, a warning
      exactly when it holds something but less than the amount, and silence exactly when it
      covers the amount. */
  lemma WarningLevels(a: real, balance: real)
    requires a > 0.0
    ensures WarningFor(Some(a), balance) == Critical <==> balance <= 0.0
    ensures WarningFor(Some(a), balance) == Warning <==> 0.0 < balance < a
    ensures WarningFor(Some(a), balance) == NoWarning <==> balance >= a
  {
  }

  /** The transaction `saveExpense` creates. */
  function ExpenseTransaction(id: TransactionId, amount: real, date: Date, note: string, e: EnvelopeId): Transaction {
    Transaction(id, Some(amount), ExpenseKind, date, NoteOrNil(note), Some(e), None, None)
  }

  /** The screen's state; `amount` is the amount text as `Decimal(string:)` reads it once trimmed. */
  class ExpenseForm {
    var selectedEnvelopeID: Option<EnvelopeId>
    var amount: Option<real>
    var date: Date
    var note: string

    constructor (preSelected: Option<EnvelopeId>, now: Date)
      ensures selectedEnvelopeID == preSelected && amount == None && date == now && note == ""
    {
      selectedEnvelopeID, amount, date, note := preSelected, None, now, "";
    }

    /** `amount`: the parsed amount when it is above zero. */
    function Amount(): Option<real>
      reads this
    {
      PositiveAmount(amount)
    }

    /** `selectedEnvelope`: the selection, when it still names an envelope of the store. */
    function SelectedEnvelope(ctx: Context): Option<EnvelopeId>
      reads this, ctx
    {
      Resolve(ctx.envelopes, selectedEnvelopeID)
    }

    /** `balance`: the selected envelope's balance, zero without one. */
    function SelectedBalance(ctx: Context): real
      reads this, ctx
    {
      match SelectedEnvelope(ctx)
      case None => 0.0
      case Some(e) => Balance.BalanceOf(ctx.Snapshot(), e)
    }

    /** `canSave`: an amount and an envelope; the balance plays no part. */
    predicate CanSave(ctx: Context)
      reads this, ctx
    {
      Amount().Some? && SelectedEnvelope(ctx).Some?
    }

    function CurrentWarning(ctx: Context): BalanceWarning
      reads this, ctx
    {
      WarningFor(Amount(), SelectedBalance(ctx))
    }

    /** `saveExpense()`: with an amount and an envelope, exactly one "expense" transaction
        carrying them, the date and the note (an empty note stored as none); otherwise nothing. */
    method SaveExpense(ctx: Context, newId: TransactionId)
      modifies ctx
      ensures !old(CanSave(ctx)) ==> ctx.Snapshot() == old(ctx.Snapshot())
      ensures old(CanSave(ctx)) ==>
        ctx.envelopes == old(ctx.envelopes) && ctx.allocations == old(ctx.allocations)
        && ctx.transactions == old(ctx.transactions)
             + [ExpenseTransaction(newId, Amount().value, date, note, old(SelectedEnvelope(ctx)).value)]
    {
      var amt := Amount();
      var env := SelectedEnvelope(ctx);
      if amt.None? || env.None? {
        return;
      }
      ctx.transactions := ctx.transactions + [ExpenseTransaction(newId, amt.value, date, note, env.value)];
    }
  }

  /** A saved expense lowers its envelope's balance by the amount and leaves every other
      envelope's balance as it was. */
  lemma SavedExpenseEffect(s: Store, id: TransactionId, amount: real, date: Date, note: string, e: EnvelopeId, f: EnvelopeId)
    ensures Balance.BalanceOf(Balance.WithTransaction(s, ExpenseTransaction(id, amount, date, note, e)), f)
         == Balance.BalanceOf(s, f) - (if f == e then amount else 0.0)
  {
    Balance.ExpenseLowersOnlyItsEnvelope(s, ExpenseTransaction(id, amount, date, note, e), e, f);
  }

  /** The warning is advice only: an expense larger than the balance can still be saved, and
      leaves the envelope overspent. */
  lemma OverspendingIsAllowed(s: Store, id: TransactionId, amount: real, date: Date, note: string, e: EnvelopeId)
    requires amount > 0.0 && Balance.BalanceOf(s, e) < amount
    ensures WarningFor(Some(amount), Balance.BalanceOf(s, e)) != NoWarning
    ensures Balance.BalanceOf(Balance.WithTransaction(s, ExpenseTransaction(id, amount, date, note, e)), e) < 0.0
  {
    var before := Balance.BalanceOf(s, e);
    WarningLevels(amount, before);
    SavedExpenseEffect(s, id, amount, date, note, e, e);
  }
}
