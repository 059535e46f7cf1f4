/**
  The artwork queue: one row per image, whose retry_at doubles as an optimistic version
  stamp.  Every statement is one atomic step on the table; workers act on snapshots.
 */
module ArtworkQueue {
  import opened Prelude

  type Stamp = int

  datatype Key = Key(kind: string, id: string, image: string)

  datatype Row = Row(priority: int, attempts: nat, retryAt: Stamp, enqueuedAt: Stamp)

  type Table = map<Key, Row>

  /** A statement on one row, or a read.  `from` is the step of the dequeue a worker acts on. */
  datatype Event =
    | Enqueue(key: Key, priority: int, now: Stamp)
    | EnqueuePreservingBackoff(key: Key, priority: int, now: Stamp)
    | InsertIfNotQueued(key: Key, priority: int, now: Stamp)
    | Dequeue(taken: set<Key>)
    | MarkFailed(key: Key, from: nat, seen: Stamp, retryAt: Stamp)
    | Delete(key: Key, from: nat, seen: Stamp)
    | Purge(key: Key)

  /** The guarded statements touch the row only if its stamp is the one the worker saw. */
  predicate Matches(t: Table, key: Key, seen: Stamp) {
    key in t && t[key].retryAt == seen
  }

  function Apply(t: Table, e: Event): Table {
    match e
    case Enqueue(key, priority, now) =>
      t[key := Row(if key in t then Max(t[key].priority, priority) else priority, 0, now, now)]
    case EnqueuePreservingBackoff(key, priority, now) =>
      if key in t then t[key := t[key].(priority := Max(t[key].priority, priority))]
      else t[key := Row(priority, 0, now, now)]
    case InsertIfNotQueued(key, priority, now) =>
      if key in t then t else t[key := Row(priority, 0, now, now)]
    case Dequeue(_) => t
    case MarkFailed(key, _, seen, retryAt) =>
      if Matches(t, key, seen) then t[key := t[key].(attempts := t[key].attempts + 1, retryAt := retryAt)] else t
    case Delete(key, _, seen) => if Matches(t, key, seen) then t - {key} else t
    case Purge(key) => t - {key}
  }

  /** The stamp a step writes into the key's row, if it writes one. */
  function Written(t: Table, e: Event, key: Key): Option<Stamp> {
    match e
    case Enqueue(k, _, now) => if k == key then Some(now) else None
    case EnqueuePreservingBackoff(k, _, now) => if k == key && key !in t then Some(now) else None
    case InsertIfNotQueued(k, _, now) => if k == key && key !in t then Some(now) else None
    case MarkFailed(k, _, seen, retryAt) => if k == key && Matches(t, key, seen) then Some(retryAt) else None
    case _ => None
  }

  type Trace = seq<Event>

  /** The table before step i of the trace. */
  function At(trace: Trace, i: nat): Table
    requires i <= |trace|
  {
    if i == 0 then map[] else Apply(At(trace, i - 1), trace[i - 1])
  }

  function WrittenAt(trace: Trace, i: nat, key: Key): Option<Stamp>
    requires i < |trace|
  {
    Written(At(trace, i), trace[i], key)
  }

  /** No stamp is written twice into the same row's key. */
  ghost predicate FreshStamps(trace: Trace) {
    forall i, j, key :: 0 <= i < j < |trace| && WrittenAt(trace, i, key).Some? && WrittenAt(trace, j, key).Some? ==>
      WrittenAt(trace, i, key) != WrittenAt(trace, j, key)
  }

  /** A worker's guarded statement carries what an earlier dequeue showed it. */
  predicate FromSnapshot(trace: Trace, i: nat, key: Key, from: nat, seen: Stamp)
    requires i < |trace|
  {
    from < i && trace[from].Dequeue? && key in trace[from].taken && Matches(At(trace, from), key, seen)
  }

  predicate HonestStep(trace: Trace, i: nat)
    requires i < |trace|
  {
    match trace[i]
    case MarkFailed(key, from, seen, _) => FromSnapshot(trace, i, key, from, seen)
    case Delete(key, from, seen) => FromSnapshot(trace, i, key, from, seen)
    case _ => true
  }

  predicate Honest(trace: Trace) {
    forall i :: 0 <= i < |trace| ==> HonestStep(trace, i)
  }

  // ---------------------------------------------------------------- where a stamp comes from

  lemma ApplyStamp(t: Table, e: Event, key: Key)
    requires key in Apply(t, e)
    ensures Written(t, e, key).Some? ==> Apply(t, e)[key].retryAt == Written(t, e, key).value
    ensures Written(t, e, key).None? ==> key in t && Apply(t, e)[key].retryAt == t[key].retryAt
  {
  }

  /** A row's stamp was written by some earlier step, and that step is after every step up to k if k wrote. */
  lemma {:induction false} StampOrigin(trace: Trace, i: nat, key: Key) returns (w: nat)
    requires i <= |trace| && key in At(trace, i)
    ensures w < i && WrittenAt(trace, w, key) == Some(At(trace, i)[key].retryAt)
    ensures forall k :: w < k < i ==> WrittenAt(trace, k, key).None?
  {
    ApplyStamp(At(trace, i - 1), trace[i - 1], key);
    if WrittenAt(trace, i - 1, key).Some? {
      w := i - 1;
    } else {
      w := StampOrigin(trace, i - 1, key);
    }
  }

  /** A stamp seen before a write to the row is never seen in that row again. */
  lemma StampNeverReturns(trace: Trace, from: nat, k: nat, i: nat, key: Key)
    requires FreshStamps(trace) && from <= k < i <= |trace|
    requires key in At(trace, from) && key in At(trace, i) && WrittenAt(trace, k, key).Some?
    ensures At(trace, from)[key].retryAt != At(trace, i)[key].retryAt
  {
    var w0 := StampOrigin(trace, from, key);
    var w1 := StampOrigin(trace, i, key);
    assert WrittenAt(trace, w0, key) != WrittenAt(trace, w1, key);
  }

  // ---------------------------------------------------------------- the guarantees

  /**
    A worker deletes a row only if nobody re-enqueued or rescheduled it since the worker's
    snapshot: the snapshot was read at or after the latest write to the row.
   */
  lemma DeleteSeesLatest(trace: Trace, i: nat, key: Key, from: nat, seen: Stamp, k: nat)
    requires FreshStamps(trace) && Honest(trace) && i < |trace| && trace[i] == Delete(key, from, seen)
    requires Matches(At(trace, i), key, seen)
    requires from < k < i
    ensures WrittenAt(trace, k, key).None?
    ensures !(trace[k].Enqueue? && trace[k].key == key)
  {
    assert HonestStep(trace, i);
    if WrittenAt(trace, k, key).Some? {
      StampNeverReturns(trace, from, k, i, key);
    }
  }

  /** The same for a failure report. */
  lemma MarkFailedSeesLatest(trace: Trace, i: nat, key: Key, from: nat, seen: Stamp, retryAt: Stamp, k: nat)
    requires FreshStamps(trace) && Honest(trace) && i < |trace| && trace[i] == MarkFailed(key, from, seen, retryAt)
    requires Matches(At(trace, i), key, seen)
    requires from < k < i
    ensures WrittenAt(trace, k, key).None?
    ensures !(trace[k].Enqueue? && trace[k].key == key)
  {
    assert HonestStep(trace, i);
    if WrittenAt(trace, k, key).Some? {
      StampNeverReturns(trace, from, k, i, key);
    }
  }

  /** Each seen stamp adds at most one attempt, whoever reports it. */
  lemma OneAttemptPerStamp(trace: Trace, i: nat, j: nat, key: Key, fromI: nat, fromJ: nat, seen: Stamp,
                           retryI: Stamp, retryJ: Stamp)
    requires FreshStamps(trace) && i < j < |trace|
    requires trace[i] == MarkFailed(key, fromI, seen, retryI) && trace[j] == MarkFailed(key, fromJ, seen, retryJ)
    requires Matches(At(trace, i), key, seen)
    ensures !Matches(At(trace, j), key, seen) && Apply(At(trace, j), trace[j]) == At(trace, j)
  {
    if Matches(At(trace, j), key, seen) {
      assert WrittenAt(trace, i, key).Some?;
      StampNeverReturns(trace, i, i, j, key);
    }
  }

  /**
    No enqueued work is lost: if the row of a key enqueued at step k is gone before step i,
    it was purged, or a worker deleted it from a snapshot read after step k.
   */
  lemma {:induction false} EnqueuedWorkIsServed(trace: Trace, k: nat, i: nat, key: Key) returns (j: nat)
    requires FreshStamps(trace) && Honest(trace) && k < i <= |trace|
    requires trace[k].Enqueue? && trace[k].key == key && key !in At(trace, i)
    ensures k < j < i
    ensures trace[j] == Purge(key) ||
            (trace[j].Delete? && trace[j].key == key && k < trace[j].from && Matches(At(trace, j), key, trace[j].seen))
  {
    assert key in At(trace, k + 1);
    if key !in At(trace, i - 1) {
      j := EnqueuedWorkIsServed(trace, k, i - 1, key);
    } else {
      j := i - 1;
      if trace[j].Delete? && trace[j].from <= k {
        assert HonestStep(trace, j);
        DeleteSeesLatest(trace, j, key, trace[j].from, trace[j].seen, k);
      }
    }
  }

  /** How often the row was marked failed since it was last enqueued or inserted. */
  function FailuresSince(trace: Trace, i: nat, key: Key): nat
    requires i <= |trace|
  {
    if i == 0 then 0
    else if WrittenAt(trace, i - 1, key).None? then FailuresSince(trace, i - 1, key)
    else if trace[i - 1].MarkFailed? then FailuresSince(trace, i - 1, key) + 1
    else 0
  }

  /** attempts is the number of effective failures since the latest enqueue: a fresh request inherits none. */
  lemma {:induction false} AttemptsAreFailures(trace: Trace, i: nat, key: Key)
    requires i <= |trace| && key in At(trace, i)
    ensures At(trace, i)[key].attempts == FailuresSince(trace, i, key)
  {
    var t, e := At(trace, i - 1), trace[i - 1];
    if key in t {
      AttemptsAreFailures(trace, i - 1, key);
    }
  }

  // ---------------------------------------------------------------- the repository

  function ApplyAll(t: Table, es: seq<Event>): Table {
    if es == [] then t else Apply(ApplyAll(t, es[..|es| - 1]), es[|es| - 1])
  }

  datatype Item = Item(key: Key, priority: int) {
    /** An empty image type means the primary image. */
    function Target(): Key { if key.image == "" then key.(image := "primary") else key }
  }

  function Enqueues(items: seq<Item>, now: Stamp): seq<Event> {
    seq(|items|, i requires 0 <= i < |items| => Enqueue(items[i].Target(), items[i].priority, now))
  }

  function Preserving(items: seq<Item>, now: Stamp): seq<Event> {
    seq(|items|, i requires 0 <= i < |items| => EnqueuePreservingBackoff(items[i].Target(), items[i].priority, now))
  }

  predicate Due(t: Table, key: Key, now: Stamp, kinds: set<string>) {
    key in t && t[key].retryAt <= now && (kinds == {} || key.kind in kinds)
  }

  function DueKeys(t: Table, now: Stamp, kinds: set<string>): set<Key> {
    set key | key in t && Due(t, key, now, kinds)
  }

  /** priority DESC, enqueued_at ASC. */
  predicate NotAfter(a: Row, b: Row) {
    a.priority > b.priority || (a.priority == b.priority && a.enqueuedAt <= b.enqueuedAt)
  }

  predicate Before(t: Table, a: Key, b: Key) {
    a in t && b in t && NotAfter(t[a], t[b])
  }

  /** Some item asks for the key with this priority. */
  predicate Asks(items: seq<Item>, key: Key, priority: int) {
    exists i :: 0 <= i < |items| && items[i].Target() == key && items[i].priority == priority
  }

  predicate Named(items: seq<Item>, key: Key) {
    exists i :: 0 <= i < |items| && items[i].Target() == key
  }

  /** An item without an image type is about the primary image. */
  lemma TargetIs(item: Item)
    ensures item.Target().kind == item.key.kind && item.Target().id == item.key.id
    ensures item.Target().image == if item.key.image == "" then "primary" else item.key.image
  {
  }

  lemma AsksNext(items: seq<Item>, key: Key, priority: int)
    requires items != []
    ensures var n := |items| - 1;
            && (Asks(items, key, priority) <==>
                Asks(items[..n], key, priority) || (items[n].Target() == key && items[n].priority == priority))
            && (Named(items, key) <==> Named(items[..n], key) || items[n].Target() == key)
  {
    assert forall i :: 0 <= i < |items| - 1 ==> items[..|items| - 1][i] == items[i];
  }

  /** The priority of a requested key: the greatest asked for, or the one it had if that is no less. */
  predicate PriorityIs(t: Table, items: seq<Item>, key: Key, priority: int) {
    && (Asks(items, key, priority) || (key in t && t[key].priority == priority))
    && (forall i :: 0 <= i < |items| && items[i].Target() == key ==> items[i].priority <= priority)
    && (key in t ==> t[key].priority <= priority)
  }

  lemma PriorityNext(t: Table, items: seq<Item>, key: Key, was: Option<int>, now: int)
    requires items != []
    requires was.Some? <==> Named(items[..|items| - 1], key) || key in t
    requires was.Some? ==> PriorityIs(t, items[..|items| - 1], key, was.value)
    requires now == if items[|items| - 1].Target() != key then (if was.Some? then was.value else now)
                    else if was.Some? then Max(was.value, items[|items| - 1].priority) else items[|items| - 1].priority
    ensures Named(items, key) || key in t ==> PriorityIs(t, items, key, now)
  {
    AsksNext(items, key, now);
    if was.Some? {
      AsksNext(items, key, was.value);
    }
    assert forall i :: 0 <= i < |items| - 1 ==> items[..|items| - 1][i] == items[i];
    assert was.None? ==> forall i :: 0 <= i < |items| - 1 ==> items[i].Target() != key;
  }

  /** Enqueueing queues every item with the new stamp and no spent attempts; other rows stay. */
  lemma {:induction false} EnqueueResets(t: Table, items: seq<Item>, now: Stamp, key: Key)
    ensures var t' := ApplyAll(t, Enqueues(items, now));
            && (Named(items, key) ==> key in t' && PriorityIs(t, items, key, t'[key].priority) &&
                                      t'[key] == Row(t'[key].priority, 0, now, now))
            && (!Named(items, key) ==> (key in t' <==> key in t) && (key in t ==> t'[key] == t[key]))
  {
    if items != [] {
      var n := |items| - 1;
      EnqueueResets(t, items[..n], now, key);
      assert Enqueues(items, now)[..n] == Enqueues(items[..n], now);
      AsksNext(items, key, 0);
      var was, after := ApplyAll(t, Enqueues(items[..n], now)), ApplyAll(t, Enqueues(items, now));
      PriorityNext(t, items, key, if key in was then Some(was[key].priority) else None,
                   if key in after then after[key].priority else 0);
    }
  }

  /** Enqueueing without a reset queues what was not queued, and raises the priority of what was; other rows stay. */
  lemma {:induction false} PreservingQueues(t: Table, items: seq<Item>, now: Stamp, key: Key)
    ensures var t' := ApplyAll(t, Preserving(items, now));
            && (Named(items, key) ==> key in t' && PriorityIs(t, items, key, t'[key].priority))
            && (Named(items, key) && key !in t ==> t'[key] == Row(t'[key].priority, 0, now, now))
            && (Named(items, key) && key in t ==> t'[key] == Row(t'[key].priority, t[key].attempts, t[key].retryAt, t[key].enqueuedAt))
            && (!Named(items, key) ==> (key in t' <==> key in t) && (key in t ==> t'[key] == t[key]))
  {
    if items != [] {
      var n := |items| - 1;
      PreservingQueues(t, items[..n], now, key);
      assert Preserving(items, now)[..n] == Preserving(items[..n], now);
      AsksNext(items, key, 0);
      var was, after := ApplyAll(t, Preserving(items[..n], now)), ApplyAll(t, Preserving(items, now));
      PriorityNext(t, items, key, if key in was then Some(was[key].priority) else None,
                   if key in after then after[key].priority else 0);
    }
  }

  /** A conditional insert queues what was not queued and leaves what was as it is. */
  lemma InsertLeavesQueued(t: Table, key: Key, priority: int, now: Stamp)
    ensures var t' := Apply(t, InsertIfNotQueued(key, priority, now));
            if key in t then t' == t else t' == t[key := Row(priority, 0, now, now)]
  {
  }

  /** Re-requesting without a reset leaves the stamps and attempts of queued rows alone. */
  lemma {:induction false} PreservingKeepsBackoff(t: Table, items: seq<Item>, now: Stamp, key: Key)
    requires key in t
    ensures var t' := ApplyAll(t, Preserving(items, now));
            key in t' && t[key].priority <= t'[key].priority && t'[key] == t[key].(priority := t'[key].priority)
  {
    if items != [] {
      var n := |items| - 1;
      PreservingKeepsBackoff(t, items[..n], now, key);
      assert Preserving(items, now)[..n] == Preserving(items[..n], now);
    }
  }

  class Queue {
    var table: Table

    constructor ()
      ensures table == map[]
    {
      table := map[];
    }

    /** Enqueue, in chunks of 100 rows. */
    method EnqueueItems(items: seq<Item>, now: Stamp)
      modifies this
      ensures table == ApplyAll(old(table), Enqueues(items, now))
    {
      var i := 0;
      while i < |items|
        invariant i <= |items| && table == ApplyAll(old(table), Enqueues(items[..i], now))
      {
        var end := Min(i + 100, |items|);
        while i < end
          invariant i <= end <= |items| && table == ApplyAll(old(table), Enqueues(items[..i], now))
        {
          var key, priority := items[i].Target(), items[i].priority;
          assert Enqueues(items[..i + 1], now)[..i] == Enqueues(items[..i], now);
          table := table[key := Row(if key in table then Max(table[key].priority, priority) else priority, 0, now, now)];
          i := i + 1;
        }
      }
      assert items[..|items|] == items;
    }

    /** EnqueuePreservingBackoff: a queued row keeps its stamp and attempts, and may only gain priority. */
    method EnqueuePreserving(items: seq<Item>, now: Stamp)
      modifies this
      ensures table == ApplyAll(old(table), Preserving(items, now))
    {
      var i := 0;
      while i < |items|
        invariant i <= |items| && table == ApplyAll(old(table), Preserving(items[..i], now))
      {
        var end := Min(i + 100, |items|);
        while i < end
          invariant i <= end <= |items| && table == ApplyAll(old(table), Preserving(items[..i], now))
        {
          var key, priority := items[i].Target(), items[i].priority;
          assert Preserving(items[..i + 1], now)[..i] == Preserving(items[..i], now);
          if key in table {
            table := table[key := table[key].(priority := Max(table[key].priority, priority))];
          } else {
            table := table[key := Row(priority, 0, now, now)];
          }
          i := i + 1;
        }
      }
      assert items[..|items|] == items;
    }

    /** A worker's success or failure report, guarded by the stamp it saw. */
    method DeleteIfUnchanged(key: Key, seen: Stamp)
      modifies this
      ensures if key in old(table) && old(table)[key].retryAt == seen then table == old(table) - {key}
              else table == old(table)
      ensures forall from :: table == Apply(old(table), Delete(key, from, seen))
    {
      if key in table && table[key].retryAt == seen {
        table := table - {key};
      }
    }

    method MarkFailedIfUnchanged(key: Key, seen: Stamp, retryAt: Stamp)
      modifies this
      ensures if key in old(table) && old(table)[key].retryAt == seen
              then var row := old(table)[key];
                   table == old(table)[key := Row(row.priority, row.attempts + 1, retryAt, row.enqueuedAt)]
              else table == old(table)
      ensures forall from :: table == Apply(old(table), MarkFailed(key, from, seen, retryAt))
    {
      if key in table && table[key].retryAt == seen {
        table := table[key := table[key].(attempts := table[key].attempts + 1, retryAt := retryAt)];
      }
    }

    method PickFirst(keys: set<Key>) returns (best: Key)
      requires keys != {} && keys <= table.Keys
      ensures best in keys && forall key :: key in keys ==> NotAfter(table[best], table[key])
    {
      best :| best in keys;
      var todo := keys - {best};
      while todo != {}
        invariant todo <= keys && best in keys - todo
        invariant forall key :: key in keys - todo ==> NotAfter(table[best], table[key])
        decreases todo
      {
        var key :| key in todo;
        if !NotAfter(table[best], table[key]) {
          best := key;
        }
        todo := todo - {key};
      }
    }

    /** DequeueBatch: the n most urgent due rows, in order, left in the table. */
    method DequeueBatch(n: nat, now: Stamp, kinds: set<string>) returns (batch: seq<Key>)
      ensures |batch| == Min(n, |DueKeys(table, now, kinds)|)
      ensures forall i :: 0 <= i < |batch| ==>
                Due(table, batch[i], now, kinds) && batch[i] in table && table[batch[i]].retryAt <= now &&
                (kinds == {} || batch[i].kind in kinds)
      ensures forall i, j :: 0 <= i < j < |batch| ==> batch[i] != batch[j] && Before(table, batch[i], batch[j])
      ensures forall key :: key in table && table[key].retryAt <= now && (kinds == {} || key.kind in kinds) && |batch| < n ==>
                key in batch
      ensures forall i, key :: 0 <= i < |batch| && key in table && key !in batch && table[key].retryAt <= now &&
                               (kinds == {} || key.kind in kinds) ==>
                table[batch[i]].priority > table[key].priority ||
                (table[batch[i]].priority == table[key].priority && table[batch[i]].enqueuedAt <= table[key].enqueuedAt)
      ensures forall i, key :: 0 <= i < |batch| && Due(table, key, now, kinds) && key !in batch ==>
                Before(table, batch[i], key)
    {
      batch := [];
      var left := DueKeys(table, now, kinds);
      ghost var due := left;
      while |batch| < n && left != {}
        invariant left <= due && |batch| + |left| == |due| && |batch| <= n
        invariant forall key :: key in due <==> key in left || key in batch
        invariant forall i :: 0 <= i < |batch| ==> batch[i] in due - left
        invariant forall i, j :: 0 <= i < j < |batch| ==>
                    batch[i] != batch[j] && Before(table, batch[i], batch[j])
        invariant forall i, key :: 0 <= i < |batch| && key in left ==> Before(table, batch[i], key)
        decreases left
      {
        var first := PickFirst(left);
        batch, left := batch + [first], left - {first};
      }
    }
  }
}
