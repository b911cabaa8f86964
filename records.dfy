/** The ledger's record store: envelopes, transactions and income allocations
    (Envelope+CoreData.swift, Transaction+CoreData.swift, IncomeAllocation+CoreData.swift).
    A relationship is the identifier of the record it points at; a store fetch with a
    predicate is a filter over the store's sequences. */
module Records {
  import opened Seqs

  datatype Option<+T> = None | Some(value: T)

  /** Swift's `o ?? d`. */
  function Or<T>(o: Option<T>, d: T): T {
    if o.Some? then o.value else d
  }

  /** The identity of an envelope (its object identifier and `id`). */
  type EnvelopeId = nat
  /** The `id` of a transaction. */
  type TransactionId = nat
  /** An instant; only its order matters. */
  type Date = int

  const IncomeKind := "income"
  const ExpenseKind := "expense"
  const TransferKind := "transfer"

  datatype Envelope = Envelope(
    id: EnvelopeId,
    name: string,
    iconName: string,
    order: int,
    createdAt: Date,
    targetAmount: Option<real>)

  /** `kind` is the stored `type` tag: "income", "expense" or "transfer". */
  datatype Transaction = Transaction(
    id: TransactionId,
    amount: Option<real>,
    kind: string,
    date: Date,
    note: Option<string>,
    envelope: Option<EnvelopeId>,
    sourceEnvelope: Option<EnvelopeId>,
    targetEnvelope: Option<EnvelopeId>)

  /** `objectId` is the allocation's object identifier; `transaction` its parent's id. */
  datatype Allocation = Allocation(
    objectId: nat,
    amount: Option<real>,
    transaction: TransactionId,
    envelope: Option<EnvelopeId>)

  /** A snapshot of everything committed to the store. */
  datatype Store = Store(
    envelopes: seq<Envelope>,
    transactions: seq<Transaction>,
    allocations: seq<Allocation>)

  /** The managed object context: the one mutable store every command writes to. */
  class Context {
    var envelopes: seq<Envelope>
    var transactions: seq<Transaction>
    var allocations: seq<Allocation>

    constructor ()
      ensures Snapshot() == Store([], [], [])
    {
      envelopes, transactions, allocations := [], [], [];
    }

    function Snapshot(): Store
      reads this
    {
      Store(envelopes, transactions, allocations)
    }
  }

  /** `amount as Decimal? ?? 0`: a missing amount counts as zero. */
  function AmountOr0(a: Option<real>): real {
    Or(a, 0.0)
  }

  /** The amount field of the entry screens: the parsed text when it is above zero. */
  function PositiveAmount(parsed: Option<real>): (r: Option<real>)
    ensures r.Some? <==> parsed.Some? && parsed.value > 0.0
    ensures r.Some? ==> r == parsed
  {
    if parsed.Some? && parsed.value > 0.0 then parsed else None
  }

  /** `note.isEmpty ? nil : note`. */
  function NoteOrNil(note: string): (r: Option<string>)
    ensures r.None? <==> note == ""
    ensures r.Some? ==> r.value == note
  {
    if |note| == 0 then None else Some(note)
  }

  predicate HasEnvelope(envs: seq<Envelope>, id: EnvelopeId) {
    exists i :: 0 <= i < |envs| && envs[i].id == id
  }

  predicate DistinctIds(envs: seq<Envelope>) {
    forall i, j :: 0 <= i < j < |envs| ==> envs[i].id != envs[j].id
  }

  /** The envelope with identifier `id`, if the store holds one. */
  function FindEnvelope(envs: seq<Envelope>, id: EnvelopeId): (r: Option<Envelope>)
    ensures r.Some? <==> HasEnvelope(envs, id)
    ensures r.Some? ==> r.value in envs && r.value.id == id
  {
    if |envs| == 0 then None
    else if envs[0].id == id then Some(envs[0])
    else
      var r := FindEnvelope(envs[1..], id);
      assert HasEnvelope(envs[1..], id) ==> HasEnvelope(envs, id) by {
        if HasEnvelope(envs[1..], id) {
          var i :| 0 <= i < |envs| - 1 && envs[1..][i].id == id;
          assert envs[i + 1].id == id;
        }
      }
      r
  }

  /** `existingObject(with:)`: the identifier itself when it names an envelope of the store. */
  function Resolve(envs: seq<Envelope>, id: Option<EnvelopeId>): (r: Option<EnvelopeId>)
    ensures r.Some? <==> id.Some? && HasEnvelope(envs, id.value)
    ensures r.Some? ==> r == id
  {
    if id.Some? && FindEnvelope(envs, id.value).Some? then id else None
  }

  /** `ref?.name`: the name of the envelope a relationship points at. */
  function NameOf(s: Store, ref: Option<EnvelopeId>): (r: Option<string>)
    ensures r.Some? <==> ref.Some? && HasEnvelope(s.envelopes, ref.value)
  {
    if ref.None? then None
    else
      match FindEnvelope(s.envelopes, ref.value)
      case None => None
      case Some(e) => Some(e.name)
  }

  /** The transaction with identifier `id`, if the store holds one. */
  function FindTransaction(ts: seq<Transaction>, id: TransactionId): (r: Option<Transaction>)
    ensures r.Some? ==> r.value in ts && r.value.id == id
    ensures r.None? ==> forall t :: t in ts ==> t.id != id
  {
    if |ts| == 0 then None
    else if ts[0].id == id then Some(ts[0])
    else FindTransaction(ts[1..], id)
  }

  /** `a.transaction?.date ?? Date()`, the current instant standing in for a missing parent. */
  function ParentDate(s: Store, a: Allocation, now: Date): Date {
    match FindTransaction(s.transactions, a.transaction)
    case None => now
    case Some(t) => t.date
  }

  /** `a.transaction?.note`. */
  function ParentNote(s: Store, a: Allocation): Option<string> {
    match FindTransaction(s.transactions, a.transaction)
    case None => None
    case Some(t) => t.note
  }

  /** The three ways a transaction can point at an envelope. */
  datatype Role = Debited | TransferSource | TransferTarget

  /** The fetch predicates `type == "expense" AND envelope == e`,
      `type == "transfer" AND sourceEnvelope == e` and `type == "transfer" AND targetEnvelope == e`. */
  predicate Fills(t: Transaction, role: Role, e: EnvelopeId) {
    match role
    case Debited => t.kind == ExpenseKind && t.envelope == Some(e)
    case TransferSource => t.kind == TransferKind && t.sourceEnvelope == Some(e)
    case TransferTarget => t.kind == TransferKind && t.targetEnvelope == Some(e)
  }

  /** The transactions that point at `e` in `role`, in store order. */
  function TransactionsIn(ts: seq<Transaction>, role: Role, e: EnvelopeId): (r: seq<Transaction>)
    ensures |r| <= |ts|
    ensures forall t :: t in r <==> t in ts && Fills(t, role, e)
  {
    if |ts| == 0 then []
    else
      var last := ts[|ts| - 1];
      assert ts == ts[..|ts| - 1] + [last];
      TransactionsIn(ts[..|ts| - 1], role, e) + (if Fills(last, role, e) then [last] else [])
  }

  /** The allocations into `e` (fetch predicate `envelope == e`), in store order. */
  function AllocationsTo(allocs: seq<Allocation>, e: EnvelopeId): (r: seq<Allocation>)
    ensures |r| <= |allocs|
    ensures forall a :: a in r <==> a in allocs && a.envelope == Some(e)
  {
    if |allocs| == 0 then []
    else
      var last := allocs[|allocs| - 1];
      assert allocs == allocs[..|allocs| - 1] + [last];
      AllocationsTo(allocs[..|allocs| - 1], e) + (if last.envelope == Some(e) then [last] else [])
  }

  /** The envelopes other than `id`, in their order. */
  function Without(envs: seq<Envelope>, id: EnvelopeId): (r: seq<Envelope>)
    ensures |r| <= |envs|
    ensures forall e :: e in r <==> e in envs && e.id != id
  {
    if |envs| == 0 then []
    else
      var last := envs[|envs| - 1];
      assert envs == envs[..|envs| - 1] + [last];
      Without(envs[..|envs| - 1], id) + (if last.id != id then [last] else [])
  }

  /** The sort descriptor `date` descending, as a key sorted ascending. */
  function TransactionRecency(t: Transaction): int {
    -t.date
  }

  /** The display order of the envelope list: ascending `order`. */
  function OrderKey(e: Envelope): int {
    e.order
  }

  /** The envelope list as the screens fetch it, sorted by `order` ascending. */
  function Displayed(envs: seq<Envelope>): (r: seq<Envelope>)
    ensures multiset(r) == multiset(envs)
    ensures forall i, j :: 0 <= i < j < |r| ==> r[i].order <= r[j].order
  {
    SortBy(envs, OrderKey)
  }

  function Ids(envs: seq<Envelope>): (r: seq<EnvelopeId>)
    ensures |r| == |envs|
    ensures forall i :: 0 <= i < |envs| ==> r[i] == envs[i].id
  {
    seq(|envs|, i requires 0 <= i < |envs| => envs[i].id)
  }

  lemma {:induction false} InsertKeepsDistinct(x: Envelope, r: seq<Envelope>, key: Envelope -> int)
    requires SortedBy(r, key) && DistinctIds(r)
    requires forall y :: y in r ==> y.id != x.id
    ensures DistinctIds(Insert(x, r, key))
  {
    if |r| > 0 && key(x) > key(r[0]) {
      assert r == [r[0]] + r[1..];
      InsertKeepsDistinct(x, r[1..], key);
      var t := Insert(x, r[1..], key);
      forall k | 0 <= k < |t| ensures t[k].id != r[0].id {
        assert t[k] in multiset(t);
        if t[k] != x {
          assert t[k] in multiset(r[1..]);
        }
      }
      assert Insert(x, r, key) == [r[0]] + t;
    }
  }

  /** Sorting keeps the identifiers distinct. */
  lemma {:induction false} SortKeepsDistinct(s: seq<Envelope>, key: Envelope -> int)
    requires DistinctIds(s)
    ensures DistinctIds(SortBy(s, key))
  {
    if |s| > 0 {
      SortKeepsDistinct(s[1..], key);
      var r := SortBy(s[1..], key);
      forall y | y in r ensures y.id != s[0].id {
        assert y in multiset(s[1..]);
      }
      InsertKeepsDistinct(s[0], r, key);
    }
  }

  /** The displayed envelopes carry distinct identifiers when the store's do. */
  lemma DisplayedDistinct(envs: seq<Envelope>)
    requires DistinctIds(envs)
    ensures Distinct(Ids(Displayed(envs)))
  {
    SortKeepsDistinct(envs, OrderKey);
  }

  /** A fetch that matches nothing returns nothing. */
  lemma {:induction false} NothingFills(ts: seq<Transaction>, role: Role, e: EnvelopeId)
    requires forall t :: t in ts ==> !Fills(t, role, e)
    ensures TransactionsIn(ts, role, e) == []
  {
    if |ts| > 0 {
      NothingFills(ts[..|ts| - 1], role, e);
      assert ts[|ts| - 1] in ts;
    }
  }

  /** A fetch that matches nothing returns nothing. */
  lemma {:induction false} NothingAllocatedTo(allocs: seq<Allocation>, e: EnvelopeId)
    requires forall a :: a in allocs ==> a.envelope != Some(e)
    ensures AllocationsTo(allocs, e) == []
  {
    if |allocs| > 0 {
      NothingAllocatedTo(allocs[..|allocs| - 1], e);
      assert allocs[|allocs| - 1] in allocs;
    }
  }
}
