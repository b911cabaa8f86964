/** The envelope management list (ManageEnvelopesView.swift): reordering by drag and
    deleting by swipe. */
module Manage {
  import opened Records
  import opened Seqs
  import Balance

  // ---------------------------------------------------------------------------
  // `Array.move(fromOffsets:toOffset:)`

  /** The elements `s[i]`, `lo <= i < hi`, whose offset is in `offsets` exactly when
      `picked` holds, in their order in `s`. */
  function Gather<T>(s: seq<T>, offsets: set<nat>, picked: bool, lo: nat, hi: nat): (r: seq<T>)
    requires lo <= hi <= |s|
    decreases hi - lo
  {
    if lo == hi then []
    else Gather(s, offsets, picked, lo, hi - 1) + (if (hi - 1 in offsets) == picked then [s[hi - 1]] else [])
  }

  /** Offsets that Swift accepts for a move: every source offset and the destination lie
      within the array (the destination may be its end). */
  predicate ValidMove(n: nat, offsets: set<nat>, destination: nat) {
    (forall i :: i in offsets ==> i < n) && destination <= n
  }

  /** The moved elements, in their relative order, placed where `destination` stood: after
      the unmoved elements before it and before the unmoved elements from it on. */
  function Moved<T>(s: seq<T>, offsets: set<nat>, destination: nat): seq<T>
    requires ValidMove(|s|, offsets, destination)
  {
    Gather(s, offsets, false, 0, destination) + Gather(s, offsets, true, 0, |s|)
      + Gather(s, offsets, false, destination, |s|)
  }

  lemma {:induction false} GatherSplit<T>(s: seq<T>, offsets: set<nat>, picked: bool, lo: nat, mid: nat, hi: nat)
    requires lo <= mid <= hi <= |s|
    ensures Gather(s, offsets, picked, lo, hi) == Gather(s, offsets, picked, lo, mid) + Gather(s, offsets, picked, mid, hi)
    decreases hi - mid
  {
    if mid < hi {
      GatherSplit(s, offsets, picked, lo, mid, hi - 1);
    }
  }

  /** Both halves of a prefix together hold exactly the prefix's elements. */
  lemma {:induction false} GatherPartition<T>(s: seq<T>, offsets: set<nat>, hi: nat)
    requires hi <= |s|
    ensures multiset(Gather(s, offsets, true, 0, hi)) + multiset(Gather(s, offsets, false, 0, hi))
         == multiset(s[..hi])
  {
    if hi > 0 {
      GatherPartition(s, offsets, hi - 1);
      GatherStep(s, offsets, 0, hi);
      PrefixSnocMultiset(s, hi);
    }
  }

  /** The next element of a range joins exactly one of the two halves. */
  lemma GatherStep<T>(s: seq<T>, offsets: set<nat>, lo: nat, hi: nat)
    requires lo < hi <= |s|
    ensures multiset(Gather(s, offsets, true, lo, hi)) + multiset(Gather(s, offsets, false, lo, hi))
         == multiset(Gather(s, offsets, true, lo, hi - 1)) + multiset(Gather(s, offsets, false, lo, hi - 1))
            + multiset{s[hi - 1]}
  {
    var picked := Gather(s, offsets, true, lo, hi - 1);
    var kept := Gather(s, offsets, false, lo, hi - 1);
    if hi - 1 in offsets {
      assert Gather(s, offsets, true, lo, hi) == picked + [s[hi - 1]];
      assert Gather(s, offsets, false, lo, hi) == kept;
    } else {
      assert Gather(s, offsets, true, lo, hi) == picked;
      assert Gather(s, offsets, false, lo, hi) == kept + [s[hi - 1]];
    }
  }

  /** A range clear of offset `i` picks nothing ... */
  lemma {:induction false} NothingPickedAway<T>(s: seq<T>, i: nat, lo: nat, hi: nat)
    requires lo <= hi <= |s| && (i < lo || hi <= i)
    ensures Gather(s, {i}, true, lo, hi) == []
    decreases hi - lo
  {
    if lo < hi {
      NothingPickedAway(s, i, lo, hi - 1);
    }
  }

  /** ... and keeps all of itself. */
  lemma {:induction false} AllKeptAway<T>(s: seq<T>, i: nat, lo: nat, hi: nat)
    requires lo <= hi <= |s| && (i < lo || hi <= i)
    ensures Gather(s, {i}, false, lo, hi) == s[lo..hi]
    decreases hi - lo
  {
    if lo < hi {
      AllKeptAway(s, i, lo, hi - 1);
      assert s[lo..hi] == s[lo..hi - 1] + [s[hi - 1]];
    }
  }

  /** `move` is a permutation: the same envelopes, each as often as before. */
  lemma MoveIsPermutation<T>(s: seq<T>, offsets: set<nat>, destination: nat)
    requires ValidMove(|s|, offsets, destination)
    ensures multiset(Moved(s, offsets, destination)) == multiset(s)
    ensures |Moved(s, offsets, destination)| == |s|
  {
    GatherSplit(s, offsets, false, 0, destination, |s|);
    GatherPartition(s, offsets, |s|);
    assert s[0..|s|] == s;
  }

  /** Moving one envelope from `i`: it lands just before the element that stood at the
      destination, so at `destination - 1` when it came from before it and at `destination`
      otherwise; what lies between shifts by one and the rest stays. */
  lemma MoveOne<T>(s: seq<T>, i: nat, destination: nat)
    requires i < |s| && destination <= |s|
    ensures var r := Moved(s, {i}, destination);
      if i < destination then r == s[..i] + s[i + 1..destination] + [s[i]] + s[destination..]
      else r == s[..destination] + [s[i]] + s[destination..i] + s[i + 1..]
  {
    if i < destination {
      MoveOneForward(s, i, destination);
    } else {
      MoveOneBackward(s, i, destination);
    }
  }

  /** A single offset picks exactly its own element. */
  lemma PickedOne<T>(s: seq<T>, i: nat)
    requires i < |s|
    ensures Gather(s, {i}, true, 0, |s|) == [s[i]]
  {
    var o: set<nat> := {i};
    GatherSplit(s, o, true, 0, i, |s|);
    GatherSplit(s, o, true, i, i + 1, |s|);
    NothingPickedAway(s, i, 0, i);
    NothingPickedAway(s, i, i + 1, |s|);
    assert Gather(s, o, true, i, i + 1) == [s[i]];
  }

  /** A range around a single offset keeps everything but that element. */
  lemma UnpickedAround<T>(s: seq<T>, i: nat, lo: nat, hi: nat)
    requires lo <= i < hi <= |s|
    ensures Gather(s, {i}, false, lo, hi) == s[lo..i] + s[i + 1..hi]
  {
    var o: set<nat> := {i};
    GatherSplit(s, o, false, lo, i, hi);
    GatherSplit(s, o, false, i, i + 1, hi);
    AllKeptAway(s, i, lo, i);
    AllKeptAway(s, i, i + 1, hi);
    assert Gather(s, o, false, i, i + 1) == [];
  }

  lemma MoveOneForward<T>(s: seq<T>, i: nat, destination: nat)
    requires i < destination <= |s|
    ensures Moved(s, {i}, destination) == s[..i] + s[i + 1..destination] + [s[i]] + s[destination..]
  {
    var o: set<nat> := {i};
    PickedOne(s, i);
    UnpickedAround(s, i, 0, destination);
    AllKeptAway(s, i, destination, |s|);
    assert s[..i] == s[0..i];
    assert s[destination..] == s[destination..|s|];
  }

  lemma MoveOneBackward<T>(s: seq<T>, i: nat, destination: nat)
    requires destination <= i < |s|
    ensures Moved(s, {i}, destination) == s[..destination] + [s[i]] + s[destination..i] + s[i + 1..]
  {
    var o: set<nat> := {i};
    PickedOne(s, i);
    AllKeptAway(s, i, 0, destination);
    UnpickedAround(s, i, destination, |s|);
    assert s[..destination] == s[0..destination];
    assert s[i + 1..] == s[i + 1..|s|];
    AppendAssoc(s[..destination] + [s[i]], s[destination..i], s[i + 1..]);
  }

  /** Dropping an envelope on its own place, or just after it, changes nothing. */
  lemma MoveInPlace<T>(s: seq<T>, i: nat)
    requires i < |s|
    ensures Moved(s, {i}, i) == s && Moved(s, {i}, i + 1) == s
  {
    MoveOneBackward(s, i, i);
    MoveOneForward(s, i, i + 1);
    Reassembled(s, i);
  }

  /** Cutting `s[i]` out and putting it back on either side of an empty gap gives `s`. */
  lemma Reassembled<T>(s: seq<T>, i: nat)
    requires i < |s|
    ensures s[..i] + [s[i]] + s[i..i] + s[i + 1..] == s
    ensures s[..i] + s[i + 1..i + 1] + [s[i]] + s[i + 1..] == s
  {
    assert s == s[..i] + [s[i]] + s[i + 1..];
    assert s[i..i] == [] && s[i + 1..i + 1] == [];
  }


  // ---------------------------------------------------------------------------
  // Renumbering

  /** Each envelope's order set to its position. */
  function Renumbered(s: seq<Envelope>): seq<Envelope> {
    seq(|s|, i requires 0 <= i < |s| => s[i].(order := i))
  }

  /** After renumbering the orders are exactly 0..n-1 along the list, nothing else changed,
      and the list as displayed is the renumbered list itself. */
  lemma RenumberedIsDisplayed(s: seq<Envelope>)
    ensures var r := Renumbered(s);
      |r| == |s|
      && (forall i :: 0 <= i < |s| ==> r[i].order == i && r[i].(order := s[i].order) == s[i])
      && Displayed(r) == r
  {
    var r := Renumbered(s);
    assert SortedBy(r, OrderKey);
    SortBySortedIsIdentity(r, OrderKey);
  }

  /** `move(from:to:)`: the listed envelopes are moved as `Array.move` moves them, then each
      one's order is set to its new position. */
  method Move(ctx: Context, offsets: set<nat>, destination: nat)
    requires ValidMove(|ctx.envelopes|, offsets, destination)
    modifies ctx
    ensures ctx.envelopes == Renumbered(Moved(Displayed(old(ctx.envelopes)), offsets, destination))
    ensures ctx.transactions == old(ctx.transactions) && ctx.allocations == old(ctx.allocations)
  {
    var shown := Displayed(ctx.envelopes);
    var ordered := Moved(shown, offsets, destination);
    var renumbered: seq<Envelope> := [];
    for i := 0 to |ordered|
      invariant |renumbered| == i
      invariant forall k :: 0 <= k < i ==> renumbered[k] == ordered[k].(order := k)
    {
      renumbered := renumbered + [ordered[i].(order := i)];
    }
    ctx.envelopes := renumbered;
  }

  /** After a move the store holds the same envelopes up to their orders, and the list shows
      them in the moved order, numbered 0..n-1. */
  lemma MoveResult(envs: seq<Envelope>, offsets: set<nat>, destination: nat)
    requires ValidMove(|envs|, offsets, destination)
    ensures var moved := Moved(Displayed(envs), offsets, destination);
      var after := Renumbered(moved);
      multiset(moved) == multiset(envs)
      && Displayed(after) == after
      && (forall i :: 0 <= i < |after| ==> after[i].order == i && after[i].(order := moved[i].order) == moved[i])
  {
    MoveIsPermutation(Displayed(envs), offsets, destination);
    RenumberedIsDisplayed(Moved(Displayed(envs), offsets, destination));
  }

  // ---------------------------------------------------------------------------
  // Deletion

  /** A transaction after envelope `id` is deleted: each reference to it becomes none (the
      relationships' default nullify rule); nothing else changes. */
  function Detached(t: Transaction, id: EnvelopeId): Transaction {
    t.(envelope := if t.envelope == Some(id) then None else t.envelope,
       sourceEnvelope := if t.sourceEnvelope == Some(id) then None else t.sourceEnvelope,
       targetEnvelope := if t.targetEnvelope == Some(id) then None else t.targetEnvelope)
  }

  function DetachedAllocation(a: Allocation, id: EnvelopeId): Allocation {
    a.(envelope := if a.envelope == Some(id) then None else a.envelope)
  }

  function DetachAll(ts: seq<Transaction>, id: EnvelopeId): seq<Transaction> {
    seq(|ts|, i requires 0 <= i < |ts| => Detached(ts[i], id))
  }

  function DetachAllocations(allocs: seq<Allocation>, id: EnvelopeId): seq<Allocation> {
    seq(|allocs|, i requires 0 <= i < |allocs| => DetachedAllocation(allocs[i], id))
  }

  /** The store once envelope `id` is deleted. */
  function Deleted(s: Store, id: EnvelopeId): Store {
    Store(Without(s.envelopes, id), DetachAll(s.transactions, id), DetachAllocations(s.allocations, id))
  }

  /** `delete(_:)`. */
  method Delete(ctx: Context, id: EnvelopeId)
    modifies ctx
    ensures ctx.Snapshot() == Deleted(old(ctx.Snapshot()), id)
  {
    ctx.envelopes := Without(ctx.envelopes, id);
    ctx.transactions := DetachAll(ctx.transactions, id);
    ctx.allocations := DetachAllocations(ctx.allocations, id);
  }

  /** Deletion removes exactly that envelope and keeps every transaction and allocation, with
      its amount, kind, date and note. */
  lemma DeleteKeepsRecords(s: Store, id: EnvelopeId)
    ensures var d := Deleted(s, id);
      (forall e :: e in d.envelopes <==> e in s.envelopes && e.id != id)
      && |d.transactions| == |s.transactions| && |d.allocations| == |s.allocations|
      && (forall i :: 0 <= i < |s.transactions| ==>
            d.transactions[i].id == s.transactions[i].id && d.transactions[i].amount == s.transactions[i].amount
            && d.transactions[i].kind == s.transactions[i].kind && d.transactions[i].date == s.transactions[i].date
            && d.transactions[i].note == s.transactions[i].note)
      && (forall i :: 0 <= i < |s.allocations| ==>
            d.allocations[i].amount == s.allocations[i].amount
            && d.allocations[i].transaction == s.allocations[i].transaction)
  {
  }

  lemma {:induction false} DetachKeepsFetch(ts: seq<Transaction>, id: EnvelopeId, role: Role, f: EnvelopeId)
    requires f != id
    ensures Balance.TransactionsTotal(TransactionsIn(DetachAll(ts, id), role, f))
         == Balance.TransactionsTotal(TransactionsIn(ts, role, f))
  {
    if |ts| > 0 {
      var init := ts[..|ts| - 1];
      var t := ts[|ts| - 1];
      var d := DetachAll(ts, id);
      assert d[..|d| - 1] == DetachAll(init, id);
      assert d[|d| - 1] == Detached(t, id);
      assert Fills(Detached(t, id), role, f) == Fills(t, role, f);
      DetachKeepsFetch(init, id, role, f);
      Balance.TransactionsTotalAppend(TransactionsIn(init, role, f), if Fills(t, role, f) then [t] else []);
      Balance.TransactionsTotalAppend(TransactionsIn(DetachAll(init, id), role, f),
                                      if Fills(t, role, f) then [Detached(t, id)] else []);
    }
  }

  lemma {:induction false} DetachKeepsAllocations(allocs: seq<Allocation>, id: EnvelopeId, f: EnvelopeId)
    requires f != id
    ensures Balance.AllocationsTotal(AllocationsTo(DetachAllocations(allocs, id), f))
         == Balance.AllocationsTotal(AllocationsTo(allocs, f))
  {
    if |allocs| > 0 {
      var init := allocs[..|allocs| - 1];
      var a := allocs[|allocs| - 1];
      assert allocs == init + [a];
      assert DetachAllocations(allocs, id) == DetachAllocations(init, id) + [DetachedAllocation(a, id)];
      DetachKeepsAllocations(init, id, f);
      Balance.AllocationsToAppend(init, a, f);
      Balance.AllocationsToAppend(DetachAllocations(init, id), DetachedAllocation(a, id), f);
      Balance.AllocationsTotalAppend(AllocationsTo(init, f), if a.envelope == Some(f) then [a] else []);
      Balance.AllocationsTotalAppend(AllocationsTo(DetachAllocations(init, id), f),
                                     if DetachedAllocation(a, id).envelope == Some(f) then [DetachedAllocation(a, id)] else []);
    }
  }

  /** Deleting one envelope leaves every other envelope's balance as it was. */
  lemma DeleteKeepsOtherBalances(s: Store, id: EnvelopeId, f: EnvelopeId)
    requires f != id
    ensures Balance.BalanceOf(Deleted(s, id), f) == Balance.BalanceOf(s, f)
  {
    DetachKeepsAllocations(s.allocations, id, f);
    DetachKeepsFetch(s.transactions, id, TransferTarget, f);
    DetachKeepsFetch(s.transactions, id, Debited, f);
    DetachKeepsFetch(s.transactions, id, TransferSource, f);
  }

  /** After deletion no record refers to the deleted envelope, so its identifier has balance
      zero. */
  lemma DeletedEnvelopeIsUntouched(s: Store, id: EnvelopeId)
    ensures Balance.Untouched(Deleted(s, id), id)
    ensures Balance.BalanceOf(Deleted(s, id), id) == 0.0
  {
    var d := Deleted(s, id);
    forall t | t in d.transactions
      ensures !Fills(t, Debited, id) && !Fills(t, TransferSource, id) && !Fills(t, TransferTarget, id)
    {
      var k :| 0 <= k < |d.transactions| && d.transactions[k] == t;
    }
    forall a | a in d.allocations ensures a.envelope != Some(id) {
      var k :| 0 <= k < |d.allocations| && d.allocations[k] == a;
    }
    Balance.UntouchedIsZero(d, id, {});
  }
}
