/** The life of shared read transactions under iterators: reference counts decide whether a read
    transaction is reset, detached or aborted, and cursors are reused across transactions. */
module ReadTransactions {
  import opened Options

  /** `epoch` counts the renewals of the native transaction: a cursor bound in an earlier epoch must be
      bound again before use. */
  datatype Txn = Txn(
    cursorCount: int, renewingCursorCount: int, onlyCursor: bool, isAborted: bool, active: bool, epoch: nat)

  datatype Binding = Binding(txn: nat, epoch: nat)

  /** An open iterator. `rebind` is the flag that makes positioning renew the cursor first; `since` is
      history, the epoch its transaction was in when the iterator joined it. */
  datatype Iterator = Iterator(
    db: nat, txn: nat, cursor: nat, snapshot: bool, cursorRenewId: nat, rebind: bool, count: nat, since: nat)

  datatype Spare = Spare(cursor: nat, txn: nat)

  /** A call on the cursor of an iterator. */
  datatype Call = Positioned(id: nat) | Iterated(id: nat)

  type Txns = map<nat, Txn>
  type Iterators = map<nat, Iterator>

  // ------------------------------------------------------------- invariant

  function On(its: Iterators, t: nat): set<nat> { set i | i in its && its[i].txn == t }

  function RenewingOn(its: Iterators, t: nat): set<nat> { set i | i in its && its[i].txn == t && !its[i].snapshot }

  /** The counts on every live transaction are the numbers of its open iterators of each kind. */
  predicate Counted(txns: Txns, its: Iterators) {
    forall t :: t in txns && !txns[t].isAborted ==>
      txns[t].cursorCount == |On(its, t)| && txns[t].renewingCursorCount == |RenewingOn(its, t)|
  }

  /** No open iterator has lost its transaction, and one that keeps a snapshot is on a transaction that
      has been neither reset nor renewed since the iterator was opened. */
  predicate Alive(txns: Txns, its: Iterators) {
    forall i :: i in its ==>
      && its[i].txn in txns && !txns[its[i].txn].isAborted
      && (its[i].snapshot ==> txns[its[i].txn].active && txns[its[i].txn].epoch == its[i].since)
  }

  /** A detached transaction stays active exactly as long as it has an iterator. */
  predicate Detached(txns: Txns, its: Iterators) {
    forall t :: t in txns && txns[t].onlyCursor ==>
      (txns[t].isAborted <==> On(its, t) == {}) && (txns[t].active <==> !txns[t].isAborted)
  }

  predicate Shared(txns: Txns, readTxn: Option<nat>, renewed: bool) {
    && (forall t :: t in txns && !txns[t].onlyCursor ==> readTxn == Some(t) && !txns[t].isAborted)
    && (readTxn.Some? ==> readTxn.value in txns && !txns[readTxn.value].onlyCursor
                          && (txns[readTxn.value].active <==> renewed))
    && (renewed ==> readTxn.Some?)
  }

  /** Nothing has to be renewed before the iterator goes on. */
  predicate Current(it: Iterator, renewId: nat) { it.snapshot || it.cursorRenewId == renewId }

  predicate RenewIds(txns: Txns, its: Iterators, readTxn: Option<nat>, renewId: nat) {
    forall i :: i in its && !its[i].snapshot ==>
      && its[i].cursorRenewId <= renewId
      && (its[i].cursorRenewId == renewId ==>
            readTxn == Some(its[i].txn) && its[i].txn in txns && txns[its[i].txn].active)
  }

  /** The cursor of an iterator that may go on is bound to its transaction as last renewed, or will be
      before it is positioned for the first time. */
  predicate BoundFor(txns: Txns, cursors: map<nat, Binding>, it: Iterator) {
    && it.txn in txns && it.cursor in cursors && cursors[it.cursor].txn == it.txn
    && ((it.rebind && it.count == 0) || cursors[it.cursor].epoch == txns[it.txn].epoch)
  }

  predicate Bound(txns: Txns, its: Iterators, cursors: map<nat, Binding>, renewId: nat) {
    forall i :: i in its && Current(its[i], renewId) ==> BoundFor(txns, cursors, its[i])
  }

  /** Every cursor has one owner: an iterator, or a store keeping it to be reused. */
  predicate Owned(its: Iterators, cursors: map<nat, Binding>, spares: map<nat, Spare>) {
    && (forall i, j :: i in its && j in its && i != j ==> its[i].cursor != its[j].cursor)
    && (forall d, e :: d in spares && e in spares && d != e ==> spares[d].cursor != spares[e].cursor)
    && (forall i, d :: i in its && d in spares ==> its[i].cursor != spares[d].cursor)
    && (forall i :: i in its ==> its[i].cursor in cursors && cursors[its[i].cursor].txn == its[i].txn)
    && (forall d :: d in spares ==> spares[d].cursor in cursors && cursors[spares[d].cursor].txn == spares[d].txn)
  }

  predicate Named(txns: Txns, cursors: map<nat, Binding>, created: nat) {
    (forall t :: t in txns ==> t < created) && (forall c :: c in cursors ==> c < created)
  }

  // --------------------------------------------------------------- counting

  lemma NoneOn(txns: Txns, its: Iterators, t: nat)
    requires Alive(txns, its) && t !in txns
    ensures On(its, t) == {} && RenewingOn(its, t) == {}
  {
  }

  lemma CountOpened(its: Iterators, i: nat, it: Iterator, t: nat)
    requires i !in its
    ensures |On(its[i := it], t)| == |On(its, t)| + if it.txn == t then 1 else 0
    ensures |RenewingOn(its[i := it], t)| == |RenewingOn(its, t)| + if it.txn == t && !it.snapshot then 1 else 0
  {
    OnOpened(its, i, it, t);
    RenewingOpened(its, i, it, t);
  }

  lemma OnOpened(its: Iterators, i: nat, it: Iterator, t: nat)
    requires i !in its
    ensures |On(its[i := it], t)| == |On(its, t)| + if it.txn == t then 1 else 0
  {
    if it.txn == t {
      assert On(its[i := it], t) == On(its, t) + {i};
    } else {
      assert On(its[i := it], t) == On(its, t);
    }
  }

  lemma RenewingOpened(its: Iterators, i: nat, it: Iterator, t: nat)
    requires i !in its
    ensures |RenewingOn(its[i := it], t)| == |RenewingOn(its, t)| + if it.txn == t && !it.snapshot then 1 else 0
  {
    if it.txn == t && !it.snapshot {
      assert RenewingOn(its[i := it], t) == RenewingOn(its, t) + {i};
    } else {
      assert RenewingOn(its[i := it], t) == RenewingOn(its, t);
    }
  }

  lemma CountClosed(its: Iterators, i: nat, t: nat)
    requires i in its
    ensures |On(its - {i}, t)| == |On(its, t)| - if its[i].txn == t then 1 else 0
    ensures |RenewingOn(its - {i}, t)| == |RenewingOn(its, t)| - if its[i].txn == t && !its[i].snapshot then 1 else 0
  {
    var less := its - {i};
    assert less[i := its[i]] == its;
    CountOpened(less, i, its[i], t);
  }

  /** The counts differ exactly when some open iterator keeps a snapshot. */
  lemma SnapshotsCounted(its: Iterators, t: nat)
    ensures |RenewingOn(its, t)| <= |On(its, t)|
    ensures |On(its, t)| - |RenewingOn(its, t)| > 0 <==> exists i :: i in its && its[i].txn == t && its[i].snapshot
  {
    var all, some := On(its, t), RenewingOn(its, t);
    assert all == some + (all - some);
    assert forall i :: i in all - some <==> i in its && its[i].txn == t && its[i].snapshot;
    if all - some != {} {
      var i :| i in all - some;
    }
  }

  // ------------------------------------------------ what each change preserves

  predicate Inv(txns: Txns, its: Iterators, readTxn: Option<nat>, renewed: bool, renewId: nat,
                cursors: map<nat, Binding>, spares: map<nat, Spare>, created: nat)
  {
    && Counted(txns, its) && Alive(txns, its) && Detached(txns, its)
    && Shared(txns, readTxn, renewed) && RenewIds(txns, its, readTxn, renewId)
    && Bound(txns, its, cursors, renewId) && Owned(its, cursors, spares) && Named(txns, cursors, created)
  }

  lemma RenewKeeps(txns: Txns, its: Iterators, renewId: nat, cursors: map<nat, Binding>,
                   spares: map<nat, Spare>, created: nat, t: nat)
    requires Inv(txns, its, Some(t), false, renewId, cursors, spares, created)
    ensures Inv(txns[t := txns[t].(active := true, epoch := txns[t].epoch + 1)], its, Some(t), true, renewId,
                cursors, spares, created)
  {
    hide On, RenewingOn, Owned;
  }

  lemma BeginKeeps(txns: Txns, its: Iterators, renewId: nat, cursors: map<nat, Binding>,
                   spares: map<nat, Spare>, created: nat)
    requires Inv(txns, its, None, false, renewId, cursors, spares, created)
    ensures Inv(txns[created := Txn(0, 0, false, false, true, 0)], its, Some(created), true, renewId,
                cursors, spares, created + 1)
  {
    hide On, RenewingOn, Owned;
    NoneOn(txns, its, created);
  }

  lemma DetachKeeps(txns: Txns, its: Iterators, renewId: nat, cursors: map<nat, Binding>,
                    spares: map<nat, Spare>, created: nat, t: nat)
    requires Inv(txns, its, Some(t), true, renewId, cursors, spares, created) && On(its, t) != {}
    ensures Inv(txns[t := txns[t].(onlyCursor := true)], its, None, false, renewId + 1, cursors, spares, created)
  {
    hide On, RenewingOn, Owned;
  }

  lemma ResetKeeps(txns: Txns, its: Iterators, renewId: nat, cursors: map<nat, Binding>,
                   spares: map<nat, Spare>, created: nat, t: nat)
    requires Inv(txns, its, Some(t), true, renewId, cursors, spares, created)
    requires forall i :: i in its && its[i].txn == t ==> !its[i].snapshot
    ensures Inv(txns[t := txns[t].(active := false)], its, Some(t), false, renewId + 1, cursors, spares, created)
  {
    hide On, RenewingOn, Owned;
  }

  /** Cursors no iterator uses may be made, rebound, closed or handed around. */
  lemma CursorsKeep(txns: Txns, its: Iterators, readTxn: Option<nat>, renewed: bool, renewId: nat,
                    cursors: map<nat, Binding>, spares: map<nat, Spare>, created: nat,
                    cursors': map<nat, Binding>, spares': map<nat, Spare>, created': nat)
    requires Inv(txns, its, readTxn, renewed, renewId, cursors, spares, created)
    requires Owned(its, cursors', spares') && Named(txns, cursors', created')
    requires forall i :: i in its ==> cursors'[its[i].cursor] == cursors[its[i].cursor]
    ensures Inv(txns, its, readTxn, renewed, renewId, cursors', spares', created')
  {
    hide On, RenewingOn, Counted, Alive, Detached, Shared, RenewIds, Named;
  }

  function Opened(txn: Txn, it: Iterator): Txn {
    txn.(cursorCount := txn.cursorCount + 1,
         renewingCursorCount := if it.snapshot then txn.renewingCursorCount else txn.renewingCursorCount + 1)
  }

  lemma OpenKeeps(txns: Txns, its: Iterators, renewId: nat, cursors: map<nat, Binding>,
                  spares: map<nat, Spare>, created: nat, i: nat, it: Iterator)
    requires Inv(txns, its, Some(it.txn), true, renewId, cursors, spares, created) && i !in its
    requires BoundFor(txns, cursors, it) && (!it.snapshot ==> it.cursorRenewId == renewId)
    requires it.since == txns[it.txn].epoch
    requires (forall j :: j in its ==> its[j].cursor != it.cursor)
             && (forall d :: d in spares ==> spares[d].cursor != it.cursor)
    ensures Inv(txns[it.txn := Opened(txns[it.txn], it)], its[i := it], Some(it.txn), true, renewId,
                cursors, spares, created)
  {
    hide On, RenewingOn;
    forall t ensures |On(its[i := it], t)| == |On(its, t)| + (if it.txn == t then 1 else 0)
      && |RenewingOn(its[i := it], t)| == |RenewingOn(its, t)| + (if it.txn == t && !it.snapshot then 1 else 0)
    {
      CountOpened(its, i, it, t);
    }
  }

  function Closed(txn: Txn, it: Iterator): Txn {
    txn.(cursorCount := txn.cursorCount - 1,
         renewingCursorCount := if it.snapshot then txn.renewingCursorCount else txn.renewingCursorCount - 1)
  }

  /** What the transaction is left as when an iterator on it is closed: aborted, if it is detached and
      that was its last one. */
  function Left(txn: Txn, it: Iterator): Txn {
    var less := Closed(txn, it);
    if less.cursorCount <= 0 && less.onlyCursor then less.(isAborted := true, active := false) else less
  }

  lemma CloseCounts(txns: Txns, its: Iterators, i: nat)
    requires Counted(txns, its) && Alive(txns, its) && Detached(txns, its) && i in its
    ensures var t := its[i].txn;
            && (Closed(txns[t], its[i]).cursorCount <= 0 <==> On(its - {i}, t) == {})
            && Counted(txns[t := Left(txns[t], its[i])], its - {i})
                && Detached(txns[t := Left(txns[t], its[i])], its - {i})
  {
    hide On, RenewingOn;
    forall t ensures |On(its - {i}, t)| == |On(its, t)| - (if its[i].txn == t then 1 else 0)
      && |RenewingOn(its - {i}, t)| == |RenewingOn(its, t)| - (if its[i].txn == t && !its[i].snapshot then 1 else 0)
    {
      CountClosed(its, i, t);
    }
    forall t
      ensures (On(its, t) == {} <==> |On(its, t)| == 0) && (On(its - {i}, t) == {} <==> |On(its - {i}, t)| == 0)
    {
    }
  }

  lemma CloseRest(txns: Txns, its: Iterators, readTxn: Option<nat>, renewed: bool, renewId: nat,
                  cursors: map<nat, Binding>, created: nat, i: nat)
    requires Alive(txns, its) && Shared(txns, readTxn, renewed) && RenewIds(txns, its, readTxn, renewId)
    requires Bound(txns, its, cursors, renewId) && Named(txns, cursors, created) && i in its
    requires Closed(txns[its[i].txn], its[i]).cursorCount <= 0 ==>
               forall j :: j in its && j != i ==> its[j].txn != its[i].txn
    ensures var txns' := txns[its[i].txn := Left(txns[its[i].txn], its[i])];
            && Alive(txns', its - {i}) && Shared(txns', readTxn, renewed)
            && RenewIds(txns', its - {i}, readTxn, renewId)
            && Bound(txns', its - {i}, cursors, renewId) && Named(txns', cursors, created)
  {
  }

  lemma CloseKeeps(txns: Txns, its: Iterators, readTxn: Option<nat>, renewed: bool, renewId: nat,
                   cursors: map<nat, Binding>, spares: map<nat, Spare>, created: nat, i: nat)
    requires Inv(txns, its, readTxn, renewed, renewId, cursors, spares, created) && i in its
    ensures var t := its[i].txn;
            && (Closed(txns[t], its[i]).cursorCount <= 0 <==> On(its - {i}, t) == {})
            && Inv(txns[t := Left(txns[t], its[i])], its - {i}, readTxn, renewed, renewId, cursors, spares, created)
  {
    hide On, Counted, Detached, Shared, RenewIds, Bound, Named, Owned, Left;
    CloseCounts(txns, its, i);
    if On(its - {i}, its[i].txn) == {} {
      NoneLeft(its - {i}, its[i].txn);
      assert forall j :: j in its && j != i ==> j in its - {i};
    }
    CloseRest(txns, its, readTxn, renewed, renewId, cursors, created, i);
    OwnedLess(its, cursors, spares, i);
  }

  lemma OwnedAlone(its: Iterators, cursors: map<nat, Binding>, spares: map<nat, Spare>, i: nat)
    requires Owned(its, cursors, spares) && i in its
    ensures its[i].cursor in cursors && cursors[its[i].cursor].txn == its[i].txn
    ensures forall j :: j in its - {i} ==> its[j].cursor != its[i].cursor
    ensures forall d :: d in spares ==> spares[d].cursor != its[i].cursor
  {
  }

  lemma NoneLeft(its: Iterators, t: nat)
    requires On(its, t) == {}
    ensures forall i :: i in its ==> its[i].txn != t
  {
    forall i | i in its ensures its[i].txn != t {
      assert i in On(its, t) <==> its[i].txn == t;
    }
  }

  lemma OwnedLess(its: Iterators, cursors: map<nat, Binding>, spares: map<nat, Spare>, i: nat)
    requires Owned(its, cursors, spares)
    ensures Owned(its - {i}, cursors, spares)
  {
  }

  /** An iterator that need not renew is on a live transaction, with a cursor of it. */
  lemma CurrentIsLive(txns: Txns, its: Iterators, readTxn: Option<nat>, renewed: bool, renewId: nat,
                      cursors: map<nat, Binding>, spares: map<nat, Spare>, created: nat, i: nat)
    requires Inv(txns, its, readTxn, renewed, renewId, cursors, spares, created) && i in its && Current(its[i], renewId)
    ensures BoundFor(txns, cursors, its[i]) && txns[its[i].txn].active
  {
    hide On, RenewingOn, Counted, Detached, Owned, Shared;
  }

  lemma CountKeeps(txns: Txns, its: Iterators, readTxn: Option<nat>, renewed: bool, renewId: nat,
                   cursors: map<nat, Binding>, spares: map<nat, Spare>, created: nat, i: nat, n: nat)
    requires Inv(txns, its, readTxn, renewed, renewId, cursors, spares, created) && i in its
    requires its[i].txn in txns && its[i].cursor in cursors && cursors[its[i].cursor].epoch == txns[its[i].txn].epoch
    ensures Inv(txns, its[i := its[i].(count := n)], readTxn, renewed, renewId, cursors, spares, created)
  {
    hide On, RenewingOn;
    forall t ensures On(its[i := its[i].(count := n)], t) == On(its, t)
      && RenewingOn(its[i := its[i].(count := n)], t) == RenewingOn(its, t)
    {
      SameOn(its, i, n, t);
    }
  }

  lemma SameOn(its: Iterators, i: nat, n: nat, t: nat)
    requires i in its
    ensures On(its[i := its[i].(count := n)], t) == On(its, t)
    ensures RenewingOn(its[i := its[i].(count := n)], t) == RenewingOn(its, t)
  {
  }

  // --------------------------------------------------------------- the class

  class ReadSide {
    var txns: Txns
    var readTxn: Option<nat>
    var readTxnRenewed: bool
    var renewId: nat
    var iterators: Iterators
    var cursors: map<nat, Binding>
    var available: map<nat, Spare>      // by store
    var created: nat                    // names transactions and cursors
    ghost var calls: seq<Call>          // history

    ghost predicate Valid()
      reads this
    {
      Inv(txns, iterators, readTxn, readTxnRenewed, renewId, cursors, available, created)
    }

    constructor ()
      ensures Valid() && iterators == map[] && txns == map[]
    {
      txns, readTxn, readTxnRenewed, renewId := map[], None, false, 1;
      iterators, cursors, available, created := map[], map[], map[], 0;
      calls := [];
    }

    method RenewReadTxn() returns (t: nat)
      requires Valid() && !readTxnRenewed
      modifies `txns, `readTxn, `readTxnRenewed, `created
      ensures Valid() && readTxnRenewed && readTxn == Some(t)
      ensures if old(readTxn).Some? then
                t == old(readTxn).value && txns == old(txns)[t := txns[t]] && txns[t].epoch == old(txns)[t].epoch + 1
              else t !in old(txns) && txns == old(txns)[t := txns[t]]
    {
      hide Counted, Alive, Detached, RenewIds, Bound, Owned;
      if readTxn.Some? {
        t := readTxn.value;
        RenewKeeps(txns, iterators, renewId, cursors, available, created, t);
        txns := txns[t := txns[t].(active := true, epoch := txns[t].epoch + 1)];
      } else {
        t := created;
        BeginKeeps(txns, iterators, renewId, cursors, available, created);
        created := created + 1;
        txns := txns[t := Txn(0, 0, false, false, true, 0)];
        readTxn := Some(t);
      }
      readTxnRenewed := true;
    }

    /** At the end of a turn: detach the transaction if an iterator keeps its snapshot, else reset it. */
    method ResetReadTxn()
      requires Valid()
      modifies `txns, `readTxn, `readTxnRenewed, `renewId
      ensures Valid() && !readTxnRenewed
      ensures forall i :: i in iterators && iterators[i].snapshot ==>
                txns[iterators[i].txn].active && txns[iterators[i].txn].epoch == old(txns)[iterators[i].txn].epoch
      ensures !old(readTxnRenewed) ==> txns == old(txns) && readTxn == old(readTxn) && renewId == old(renewId)
      ensures old(readTxnRenewed) ==>
                && renewId == old(renewId) + 1 && old(readTxn).Some? && old(readTxn).value in old(txns)
                && var t, was := old(readTxn).value, old(txns)[old(readTxn).value];
                if exists i :: i in iterators && iterators[i].txn == t && iterators[i].snapshot then
                  readTxn == None && txns == old(txns)[t := was.(onlyCursor := true)]
                else readTxn == Some(t) && txns == old(txns)[t := was.(active := false)]
    {
      hide Detached, RenewIds, Bound, Owned, Named, On, RenewingOn;
      if readTxnRenewed {
        renewId := renewId + 1;
        readTxnRenewed := false;
        var t := readTxn.value;
        SnapshotsCounted(iterators, t);
        if txns[t].cursorCount - txns[t].renewingCursorCount > 0 {
          DetachKeeps(txns, iterators, renewId - 1, cursors, available, created, t);
          txns := txns[t := txns[t].(onlyCursor := true)];
          readTxn := None;
        } else {
          ResetKeeps(txns, iterators, renewId - 1, cursors, available, created, t);
          txns := txns[t := txns[t].(active := false)];
        }
      }
    }

    // The native calls, with what they demand of the cursor they are made on.

    /** `position`: on a live transaction, with a cursor of that transaction, renewed first if flagged. */
    method NativePosition(i: nat)
      requires Valid() && i in iterators
      requires var it := iterators[i];
               Current(it, renewId) && txns[it.txn].active
                   && (it.count == 0 || cursors[it.cursor].epoch == txns[it.txn].epoch)
      modifies `cursors, `calls
      ensures calls == old(calls) + [Positioned(i)]
      ensures Valid() && iterators[i].txn in txns && iterators[i].cursor in cursors
      ensures cursors[iterators[i].cursor] == Binding(iterators[i].txn, txns[iterators[i].txn].epoch)
    {
      hide On, RenewingOn, Counted, Detached, Shared, RenewIds;
      var it := iterators[i];
      if it.rebind {
        cursors := cursors[it.cursor := Binding(cursors[it.cursor].txn, txns[it.txn].epoch)];
      }
      calls := calls + [Positioned(i)];
    }

    /** `iterate`: only ever called on a cursor bound to its transaction as last renewed. */
    method NativeIterate(i: nat)
      requires Valid() && i in iterators && iterators[i].txn in txns && txns[iterators[i].txn].active
      requires iterators[i].cursor in cursors
      requires cursors[iterators[i].cursor] == Binding(iterators[i].txn, txns[iterators[i].txn].epoch)
      modifies `calls
      ensures Valid() && calls == old(calls) + [Iterated(i)]
    {
      calls := calls + [Iterated(i)];
    }

    /** A cursor for the transaction: the one kept for the store, renewed at once if it was used on
        another transaction and flagged for renewal otherwise, or else a new one. */
    method TakeCursor(db: nat, t: nat, rebind: bool) returns (cursor: nat, flag: bool)
      requires Valid() && t in txns
      modifies `cursors, `available, `created
      ensures Valid()
      ensures cursor in cursors && cursors[cursor].txn == t && (flag || cursors[cursor].epoch == txns[t].epoch)
      ensures forall j :: j in iterators ==> iterators[j].cursor != cursor
      ensures forall d :: d in available ==> available[d].cursor != cursor
      ensures if db in old(available) then
                && cursor == old(available)[db].cursor && available == old(available) - {db}
                && cursors.Keys == old(cursors).Keys
              else
                && cursor !in old(cursors) && available == old(available)
                && cursors.Keys == old(cursors).Keys + {cursor}
      ensures flag == (rebind || (db in old(available) && old(available)[db].txn == t))
      ensures db in old(available) && old(available)[db].txn == t ==> cursors == old(cursors)
    {
      hide On, RenewingOn, Counted, Detached, RenewIds, Alive, Bound, Shared;
      flag, cursor := rebind, created;
      if db in available {
        var spare := available[db];
        cursor := spare.cursor;
        var less := available - {db};
        var bound := cursors;
        if spare.txn != t {
          bound := cursors[cursor := Binding(t, txns[t].epoch)];
        } else {
          flag := true;
        }
        CursorsKeep(txns, iterators, readTxn, readTxnRenewed, renewId, cursors, available, created,
                    bound, less, created);
        available, cursors := less, bound;
      } else {
        var bound := cursors[cursor := Binding(t, txns[t].epoch)];
        CursorsKeep(txns, iterators, readTxn, readTxnRenewed, renewId, cursors, available, created,
                    bound, available, created + 1);
        created, cursors := created + 1, bound;
      }
    }

    /** The second half of `resetCursor`: takes the shared transaction and a cursor. */
    method Acquire(i: nat, db: nat, snapshot: bool, rebind: bool)
      requires Valid() && i !in iterators
      modifies this
      ensures Valid() && i in iterators && iterators == old(iterators)[i := iterators[i]]
      ensures var it := iterators[i];
              && it.db == db && it.snapshot == snapshot && it.count == 0 && Current(it, renewId)
                  && renewId == old(renewId)
              && it.txn in txns && txns[it.txn].active && readTxn == Some(it.txn)
              && (if db in old(available) then it.cursor == old(available)[db].cursor else it.cursor !in old(cursors))
              && cursors.Keys == old(cursors).Keys + {it.cursor} && available == old(available) - {db}
      ensures old(readTxnRenewed) ==> readTxn == old(readTxn)
      ensures calls == old(calls)
    {
      hide On, RenewingOn, Counted, Detached, RenewIds, Alive, Bound, Owned, Named;
      if !readTxnRenewed {
        var _ := RenewReadTxn();
      }
      var t := readTxn.value;
      var cursor, flag := TakeCursor(db, t, rebind);
      var it := Iterator(db, t, cursor, snapshot, if snapshot then 0 else renewId, flag, 0, txns[t].epoch);
      OpenKeeps(txns, iterators, renewId, cursors, available, created, i, it);
      txns := txns[t := Opened(txns[t], it)];
      iterators := iterators[i := it];
    }

    /** `finishCursor`: gives the count back, aborts a detached transaction with its last iterator, and
        keeps the cursor for the store if it belongs to the shared transaction. */
    method FinishCursor(i: nat)
      requires Valid() && i in iterators
      modifies `txns, `iterators, `cursors, `available
      ensures Valid() && iterators == old(iterators) - {i}
      ensures var t := old(iterators)[i].txn;
              && t in txns && !old(txns)[t].isAborted
              && (txns[t].isAborted <==> old(txns)[t].onlyCursor && On(iterators, t) == {})
              && forall u :: u in txns && u != t ==> u in old(txns) && txns[u] == old(txns)[u]
      ensures var it := old(iterators)[i];
              if !txns[it.txn].isAborted && it.db !in old(available) && readTxn == Some(it.txn) then
                available == old(available)[it.db := Spare(it.cursor, it.txn)] && cursors == old(cursors)
              else available == old(available) && cursors == old(cursors) - {it.cursor}
    {
      hide On, RenewingOn, Counted, Detached, Shared, RenewIds, Bound, Owned, Named;
      var it := iterators[i];
      var txn := txns[it.txn];
      CloseKeeps(txns, iterators, readTxn, readTxnRenewed, renewId, cursors, available, created, i);
      OwnedAlone(iterators, cursors, available, i);
      txns, iterators := txns[it.txn := Left(txn, it)], iterators - {i};
      PutAway(it, txn.cursorCount - 1 <= 0 && txn.onlyCursor);
    }

    /** Keeps the cursor for its store, or closes it. */
    method PutAway(it: Iterator, aborted: bool)
      requires Valid() && it.cursor in cursors && cursors[it.cursor].txn == it.txn
      requires forall j :: j in iterators ==> iterators[j].cursor != it.cursor
      requires forall d :: d in available ==> available[d].cursor != it.cursor
      modifies `cursors, `available
      ensures Valid()
      ensures if !aborted && it.db !in old(available) && readTxn == Some(it.txn) then
                available == old(available)[it.db := Spare(it.cursor, it.txn)] && cursors == old(cursors)
              else available == old(available) && cursors == old(cursors) - {it.cursor}
    {
      hide On, RenewingOn, Counted, Detached, Shared, RenewIds, Bound, Alive;
      var left, spares := cursors, available;
      if aborted || it.db in available || readTxn != Some(it.txn) {
        left := cursors - {it.cursor};
      } else {
        spares := available[it.db := Spare(it.cursor, it.txn)];
      }
      CursorsKeep(txns, iterators, readTxn, readTxnRenewed, renewId, cursors, available, created,
                  left, spares, created);
      cursors, available := left, spares;
    }

    /** A renewing iterator whose transaction was reset since moves to the present one and is positioned
        there. */
    method Refresh(i: nat)
      requires Valid() && i in iterators
      modifies this
      ensures Valid() && iterators.Keys == old(iterators).Keys && Current(iterators[i], renewId)
      ensures forall j :: j in iterators && j != i ==> iterators[j] == old(iterators)[j]
      ensures iterators[i].db == old(iterators)[i].db && iterators[i].snapshot == old(iterators)[i].snapshot
              && iterators[i].count == old(iterators)[i].count
      ensures Current(old(iterators)[i], old(renewId)) ==> iterators == old(iterators) && txns == old(txns)
      ensures calls == old(calls) + if Current(old(iterators)[i], old(renewId)) then [] else [Positioned(i)]
    {
      hide On, RenewingOn, Counted, Alive, Detached, Shared, RenewIds, Bound, Owned, Named, Inv;
      var it := iterators[i];
      if !it.snapshot && it.cursorRenewId != renewId {
        FinishCursor(i);
        Acquire(i, it.db, it.snapshot, it.rebind);
        NativePosition(i);
        SetCount(i, it.count);
      }
    }

    /** The iterator's `next`; `more` says whether an entry is found within the limit. */
    method Next(i: nat, more: bool)
      requires Valid() && i in iterators
      modifies this
      ensures Valid() && iterators.Keys == if more then old(iterators).Keys else old(iterators).Keys - {i}
      ensures forall j :: j in iterators && j != i ==> iterators[j] == old(iterators)[j]
      ensures more ==> iterators[i].db == old(iterators)[i].db && iterators[i].snapshot == old(iterators)[i].snapshot
                       && iterators[i].count == old(iterators)[i].count + 1
      ensures Current(old(iterators)[i], old(renewId)) && more ==>
                iterators[i] == old(iterators)[i].(count := old(iterators)[i].count + 1) && txns == old(txns)
      ensures calls == old(calls) + (if Current(old(iterators)[i], old(renewId)) then [] else [Positioned(i)])
                       + [if old(iterators)[i].count == 0 then Positioned(i) else Iterated(i)]
    {
      hide On, RenewingOn, Counted, Alive, Detached, Shared, RenewIds, Bound, Owned, Named, Inv;
      Refresh(i);
      var count := iterators[i].count;
      CurrentIsLive(txns, iterators, readTxn, readTxnRenewed, renewId, cursors, available, created, i);
      if count == 0 {
        NativePosition(i);
      } else {
        NativeIterate(i);
      }
      if more {
        SetCount(i, count + 1);
      } else {
        FinishCursor(i);
      }
    }

    method SetCount(i: nat, n: nat)
      requires Valid() && i in iterators && iterators[i].txn in txns && iterators[i].cursor in cursors
      requires cursors[iterators[i].cursor].epoch == txns[iterators[i].txn].epoch
      modifies `iterators
      ensures Valid() && iterators == old(iterators)[i := old(iterators)[i].(count := n)]
    {
      hide Inv;
      CountKeeps(txns, iterators, readTxn, readTxnRenewed, renewId, cursors, available, created, i, n);
      iterators := iterators[i := iterators[i].(count := n)];
    }
  }

  // -------------------------------------------------------------------- runs

  /** What a program can do: open an iterator, advance one, end one early, or let the turn end. */
  datatype Event = Open(id: nat, db: nat, snapshot: bool) | Advance(id: nat, more: bool) | Return(id: nat) | TurnEnds

  /** Iterators are opened once and used only while open; anything else is not an event. */
  predicate Enabled(its: Iterators, e: Event) {
    match e
    case Open(id, _, _) => id !in its
    case Advance(id, _) => id in its
    case Return(id) => id in its
    case TurnEnds => true
  }

  /** The open iterators of each kind after some events, by their own account. */
  function OpenAfter(events: seq<Event>): map<nat, bool> {
    if events == [] then map[]
    else
      var before := OpenAfter(events[..|events| - 1]);
      match events[|events| - 1]
      case Open(id, _, snapshot) => if id in before then before else before[id := snapshot]
      case Advance(id, more) => if more then before else before - {id}
      case Return(id) => before - {id}
      case TurnEnds => before
  }

  /** The iterators are those that have been opened and not finished. */
  ghost predicate Accounted(its: Iterators, open: map<nat, bool>) {
    its.Keys == open.Keys && forall i :: i in its ==> its[i].snapshot == open[i]
  }

  /** Over every run the open iterators are those opened and not finished; the counts on every live
      transaction are their numbers, snapshots are never reset or renewed away, detached transactions
      end with their last iterator, and every native call meets its demands. */
  method Run(events: seq<Event>) returns (r: ReadSide)
    ensures r.Valid() && fresh(r)
    ensures Accounted(r.iterators, OpenAfter(events))
  {
    hide Inv;
    r := new ReadSide();
    for k := 0 to |events|
      invariant r.Valid() && fresh(r)
      invariant Accounted(r.iterators, OpenAfter(events[..k]))
    {
      var e := events[k];
      assert events[..k + 1][..k] == events[..k] && events[..k + 1][k] == e;
      if Enabled(r.iterators, e) {
        match e {
          case Open(id, db, snapshot) => r.Acquire(id, db, snapshot, false);
          case Advance(id, more) => r.Next(id, more);
          case Return(id) => r.FinishCursor(id);
          case TurnEnds => r.ResetReadTxn();
        }
      }
    }
    assert events[..|events|] == events;
  }
}
