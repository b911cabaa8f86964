/** The transfer screen (TransferView.swift): an amount moved from the envelope the screen was
    opened on to another one. */
module Transfer {
  import opened Records
  import Balance

  /** The transaction `performTransfer` creates. */
  function TransferTransaction(id: TransactionId, amount: real, now: Date, note: string,
                               source: EnvelopeId, target: EnvelopeId): Transaction {
    Transaction(id, Some(amount), TransferKind, now, NoteOrNil(note), None, Some(source), Some(target))
  }

  /** The target picker's choices: the listed envelopes except the source. */
  function Targets(envs: seq<Envelope>, source: EnvelopeId): seq<Envelope> {
    Without(Displayed(envs), source)
  }

  /** Ascending `order`, as the envelope list is shown. */
  predicate Ascending(envs: seq<Envelope>) {
    forall i, j :: 0 <= i < j < |envs| ==> envs[i].order <= envs[j].order
  }

  /** Leaving envelopes out keeps the rest in ascending `order`. */
  lemma {:induction false} WithoutKeepsOrder(envs: seq<Envelope>, source: EnvelopeId)
    requires Ascending(envs)
    ensures Ascending(Without(envs, source))
  {
    if |envs| > 0 {
      var init := envs[..|envs| - 1];
      assert Ascending(init) by {
        forall i, j | 0 <= i < j < |init| ensures init[i].order <= init[j].order {
          assert init[i] == envs[i] && init[j] == envs[j];
        }
      }
      WithoutKeepsOrder(init, source);
      var r := Without(init, source);
      var last := envs[|envs| - 1];
      var full := r + (if last.id != source then [last] else []);
      assert Without(envs, source) == full;
      forall i, j | 0 <= i < j < |full| ensures full[i].order <= full[j].order {
        if j < |r| {
          assert full[i] == r[i] && full[j] == r[j];
        } else {
          assert full[i] == r[i] && full[j] == last;
          assert r[i] in init;
          var k :| 0 <= k < |init| && init[k] == r[i];
          assert envs[k] == r[i] && k < |envs| - 1;
          assert envs[k].order <= envs[|envs| - 1].order;
        }
      }
      assert Ascending(full);
    }
  }

  /** The choices are exactly the store's envelopes other than the source, shown in
      ascending `order`. */
  lemma TargetChoices(envs: seq<Envelope>, source: EnvelopeId)
    ensures forall e :: e in Targets(envs, source) <==> e in envs && e.id != source
    ensures Ascending(Targets(envs, source))
  {
    var d := Displayed(envs);
    forall e ensures e in d <==> e in envs {
      assert e in d <==> e in multiset(d);
    }
    WithoutKeepsOrder(d, source);
  }

  /** The screen's state; `sourceEnvelope` is fixed when it opens. */
  class TransferForm {
    const sourceEnvelope: EnvelopeId
    var targetEnvelopeID: Option<EnvelopeId>
    var amount: Option<real>
    var note: string

    constructor (source: EnvelopeId)
      ensures sourceEnvelope == source && targetEnvelopeID == None && amount == None && note == ""
    {
      sourceEnvelope := source;
      targetEnvelopeID, amount, note := None, None, "";
    }

    /** `amount`: the parsed amount when it is above zero. */
    function Amount(): Option<real>
      reads this
    {
      PositiveAmount(amount)
    }

    /** `targetEnvelope`: the chosen target, when it still names an envelope of the store. */
    function TargetEnvelope(ctx: Context): Option<EnvelopeId>
      reads this, ctx
    {
      Resolve(ctx.envelopes, targetEnvelopeID)
    }

    /** `canSave`: an amount, and a target that is not the source. */
    predicate CanSave(ctx: Context)
      reads this, ctx
    {
      Amount().Some? && TargetEnvelope(ctx).Some? && TargetEnvelope(ctx).value != sourceEnvelope
    }

    /** `performTransfer()`: with an amount and a target, exactly one "transfer" dated `now`
        from the source to the target (an empty note stored as none); otherwise nothing. The
        method itself does not compare target and source: only the save gate does. */
    method PerformTransfer(ctx: Context, newId: TransactionId, now: Date)
      modifies ctx
      ensures Amount().None? || old(TargetEnvelope(ctx)).None? ==> ctx.Snapshot() == old(ctx.Snapshot())
      ensures Amount().Some? && old(TargetEnvelope(ctx)).Some? ==>
        ctx.envelopes == old(ctx.envelopes) && ctx.allocations == old(ctx.allocations)
        && ctx.transactions == old(ctx.transactions)
             + [TransferTransaction(newId, Amount().value, now, note, sourceEnvelope, old(TargetEnvelope(ctx)).value)]
    {
      var amt := Amount();
      var target := TargetEnvelope(ctx);
      if amt.None? || target.None? {
        return;
      }
      ctx.transactions := ctx.transactions
        + [TransferTransaction(newId, amt.value, now, note, sourceEnvelope, target.value)];
    }
  }

  /** A transfer between two envelopes moves its amount from the source's balance to the
      target's and leaves every other balance as it was. */
  lemma TransferEffect(s: Store, id: TransactionId, amount: real, now: Date, note: string,
                       source: EnvelopeId, target: EnvelopeId, f: EnvelopeId)
    requires source != target
    ensures var after := Balance.WithTransaction(s, TransferTransaction(id, amount, now, note, source, target));
      Balance.BalanceOf(after, f)
      == Balance.BalanceOf(s, f) + (if f == target then amount else if f == source then -amount else 0.0)
  {
    Balance.TransferMovesAmount(s, TransferTransaction(id, amount, now, note, source, target), source, target, f);
  }

  /** Were the gate bypassed, a transfer onto the source itself would change no balance. */
  lemma SelfTransferChangesNothing(s: Store, id: TransactionId, amount: real, now: Date, note: string,
                                   source: EnvelopeId, f: EnvelopeId)
    ensures Balance.BalanceOf(Balance.WithTransaction(s, TransferTransaction(id, amount, now, note, source, source)), f)
         == Balance.BalanceOf(s, f)
  {
    Balance.SelfTransferNeutral(s, TransferTransaction(id, amount, now, note, source, source), source, f);
  }
}
