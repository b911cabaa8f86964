/** The create / edit envelope sheet (EnvelopeFormView.swift). */
module EnvelopeForm {
  import opened Records
  import opened Text

  /** The icon a new envelope starts with. */
  const DefaultIcon: string := "envelope.fill"

  /** The edit branch of `save()`: the envelope `id` takes the new name and icon. */
  function Edited(envs: seq<Envelope>, id: EnvelopeId, name: string, icon: string): seq<Envelope> {
    seq(|envs|, i requires 0 <= i < |envs| =>
      if envs[i].id == id then envs[i].(name := name, iconName := icon) else envs[i])
  }

  /** The display order a new envelope receives: the envelope count as the context sees it
      once the new object is inserted, so one more than the envelopes already stored. */
  function CreatedOrder(envs: seq<Envelope>): int {
    |envs| + 1
  }

  /** The create branch of `save()`; a new envelope has no target amount. */
  function Created(envs: seq<Envelope>, id: EnvelopeId, name: string, icon: string, now: Date): Envelope {
    Envelope(id, name, icon, CreatedOrder(envs), now, None)
  }

  /** The sheet's state: the envelope being edited, if any, and the two inputs. */
  class Form {
    const editing: Option<EnvelopeId>
    var name: string
    var selectedIconName: string

    constructor (editing: Option<EnvelopeId>)
      ensures this.editing == editing && name == "" && selectedIconName == DefaultIcon
    {
      this.editing := editing;
      name, selectedIconName := "", DefaultIcon;
    }

    /** `onAppear`: an edited envelope's name and icon fill the inputs. */
    method Appear(ctx: Context)
      modifies this
      ensures editing.Some? && FindEnvelope(ctx.envelopes, editing.value).Some? ==>
        name == FindEnvelope(ctx.envelopes, editing.value).value.name
        && selectedIconName == FindEnvelope(ctx.envelopes, editing.value).value.iconName
      ensures editing.None? || FindEnvelope(ctx.envelopes, editing.value).None? ==>
        name == old(name) && selectedIconName == old(selectedIconName)
    {
      if editing.Some? {
        var found := FindEnvelope(ctx.envelopes, editing.value);
        if found.Some? {
          name, selectedIconName := found.value.name, found.value.iconName;
        }
      }
    }

    /** The Save button is enabled once the name, trimmed of spaces and tabs, is not empty. */
    predicate CanSave()
      reads this
    {
      |Trim(name)| > 0
    }

    /** `save()`: nothing for a blank name; otherwise the edited envelope takes the trimmed
        name and the icon, or a new envelope is added with a fresh id, the trimmed name, the
        icon, the order `CreatedOrder` and the creation time `now`. No transaction or
        allocation changes. */
    method Save(ctx: Context, newId: EnvelopeId, now: Date)
      modifies ctx
      ensures ctx.transactions == old(ctx.transactions) && ctx.allocations == old(ctx.allocations)
      ensures !CanSave() ==> ctx.envelopes == old(ctx.envelopes)
      ensures CanSave() && editing.Some? ==>
        ctx.envelopes == Edited(old(ctx.envelopes), editing.value, Trim(name), selectedIconName)
      ensures CanSave() && editing.None? ==>
        ctx.envelopes == old(ctx.envelopes) + [Created(old(ctx.envelopes), newId, Trim(name), selectedIconName, now)]
    {
      var trimmed := Trim(name);
      if |trimmed| == 0 {
        return;
      }
      if editing.Some? {
        ctx.envelopes := Edited(ctx.envelopes, editing.value, trimmed, selectedIconName);
      } else {
        var e := Created(ctx.envelopes, newId, trimmed, selectedIconName, now);
        ctx.envelopes := ctx.envelopes + [e];
      }
    }
  }

  /** The stored name is the trimmed input: not empty, without blanks at either end, and
      unchanged by trimming again. */
  lemma StoredNameIsTrimmed(name: string)
    requires |Trim(name)| > 0
    ensures var n := Trim(name);
      !IsBlank(n[0]) && !IsBlank(n[|n| - 1]) && Trim(n) == n
  {
    TrimIdempotent(name);
  }

  /** Editing touches only the name and icon of the envelope edited: every envelope keeps
      its place, identifier, order, creation time and target, and the others are unchanged. */
  lemma EditChangesOnlyNameAndIcon(envs: seq<Envelope>, id: EnvelopeId, name: string, icon: string)
    ensures var r := Edited(envs, id, name, icon);
      |r| == |envs|
      && (forall i :: 0 <= i < |envs| ==>
            r[i].id == envs[i].id && r[i].order == envs[i].order
            && r[i].createdAt == envs[i].createdAt && r[i].targetAmount == envs[i].targetAmount)
      && (forall i :: 0 <= i < |envs| && envs[i].id == id ==> r[i].name == name && r[i].iconName == icon)
      && (forall i :: 0 <= i < |envs| && envs[i].id != id ==> r[i] == envs[i])
  {
  }

  /** With a fresh identifier, creating keeps the store's identifiers distinct. */
  lemma CreateKeepsIdsDistinct(envs: seq<Envelope>, id: EnvelopeId, name: string, icon: string, now: Date)
    requires DistinctIds(envs) && !HasEnvelope(envs, id)
    ensures DistinctIds(envs + [Created(envs, id, name, icon, now)])
  {
    var r := envs + [Created(envs, id, name, icon, now)];
    forall i, j | 0 <= i < j < |r| ensures r[i].id != r[j].id {
      if j < |envs| {
        assert r[i] == envs[i] && r[j] == envs[j];
      } else {
        assert r[i] == envs[i];
        assert envs[i] in envs;
      }
    }
  }

  /** Editing keeps the store's identifiers distinct. */
  lemma EditKeepsIdsDistinct(envs: seq<Envelope>, id: EnvelopeId, name: string, icon: string)
    requires DistinctIds(envs)
    ensures DistinctIds(Edited(envs, id, name, icon))
  {
    EditChangesOnlyNameAndIcon(envs, id, name, icon);
  }

  /** While no stored order exceeds the envelope count (as long as nothing has been
      deleted), a new envelope's order is above every other and it is listed last. */
  lemma NewEnvelopeListedLast(envs: seq<Envelope>, id: EnvelopeId, name: string, icon: string, now: Date)
    requires forall e :: e in envs ==> e.order <= |envs|
    ensures forall e :: e in envs ==> e.order < Created(envs, id, name, icon, now).order
  {
  }

  /** After a deletion the new envelope's order can equal a stored one: envelopes created
      with orders 1 and 2, the first deleted, then a new one created, gives two envelopes
      with order 2, which the list may show either way round. */
  lemma CreatedOrderCanTie()
    ensures var kept := [Envelope(2, "Fun", DefaultIcon, 2, 0, None)];
      Created(kept, 3, "Travel", DefaultIcon, 5).order == kept[0].order
  {
  }
}
