/**
  Synchronising reviewed genres into the Beets library: a manifest row is made durable
  before the Beets row changes, so an interrupted run can be resumed at any point.
 */
module BeetsSync {
  import opened Prelude
  import opened Genres
  import opened Faults

  datatype Item = Item(path: string, genres: seq<Genre>)

  datatype RowStatus = Candidate | Skipped | AppliedRow | RestoredRow

  /** A plan row; `planned` is the list the dry run saw, `old`/`new` are recorded by apply. */
  datatype Row = Row(
    item: nat, path: string, planned: seq<Genre>, replacement: seq<Genre>,
    status: RowStatus, old_: Option<seq<Genre>>, new_: Option<seq<Genre>>)

  datatype SyncStatus = Planned | InProgress | Failing | Complete | RolledBack

  /** The durable state: the Beets database and the manifest. */
  datatype World = World(items: map<nat, Item>, audioApplied: bool, status: SyncStatus, rows: seq<Row>)

  type Norm = Genre -> Genre

  /** Rows that name a Beets item to change. */
  predicate Active(r: Row) { r.status != Skipped }

  predicate DistinctItems(rows: seq<Row>) {
    forall i, j :: 0 <= i < j < |rows| && Active(rows[i]) && Active(rows[j]) ==> rows[i].item != rows[j].item
  }

  /** The write-ahead record, once present, holds the original list and the replacement. */
  predicate RecordSound(norm: Norm, r: Row, orig: map<nat, seq<Genre>>) {
    r.old_.Some? ==>
      && r.item in orig && r.old_.value == orig[r.item] && r.new_ == Some(r.replacement)
      && SameGenres(norm, orig[r.item], r.planned)
  }

  predicate RowSound(norm: Norm, r: Row, items: map<nat, Item>, orig: map<nat, seq<Genre>>) {
    && RecordSound(norm, r, orig)
    && (Active(r) && r.item in items && r.item in orig ==>
          match r.status
          case Candidate => items[r.item].genres == orig[r.item] ||
                            (r.old_.Some? && items[r.item].genres == r.replacement)
          case AppliedRow => r.old_.Some? &&
                             (items[r.item].genres == orig[r.item] || items[r.item].genres == r.replacement)
          case RestoredRow => items[r.item].genres == orig[r.item]
          case Skipped => true)
  }

  predicate OthersUntouched(rows: seq<Row>, items: map<nat, Item>, orig: map<nat, seq<Genre>>) {
    && items.Keys == orig.Keys
    && (forall k :: k in items && items[k].genres != orig[k] ==>
          exists i :: 0 <= i < |rows| && Active(rows[i]) && rows[i].item == k)
  }

  /** get_item_checked succeeds. */
  predicate ItemFound(r: Row, items: map<nat, Item>) {
    r.item in items && items[r.item].path == r.path
  }

  predicate RowForward(norm: Norm, r: Row, items: map<nat, Item>) {
    && r.status != RestoredRow
    && (r.status == AppliedRow ==> ItemFound(r, items) && SameGenres(norm, items[r.item].genres, r.replacement))
  }

  /** Nothing is rolled back, and every row marked applied shows its replacement (up to normalisation). */
  predicate Forward(norm: Norm, rows: seq<Row>, items: map<nat, Item>) {
    forall i :: 0 <= i < |rows| ==> RowForward(norm, rows[i], items)
  }

  predicate Applying(status: SyncStatus) {
    status == Planned || status == InProgress || status == Failing
  }

  predicate Sound(norm: Norm, w: World, orig: map<nat, seq<Genre>>) {
    && DistinctItems(w.rows)
    && (Applying(w.status) ==> Forward(norm, w.rows, w.items))
    && OthersUntouched(w.rows, w.items, orig)
    && (forall i :: 0 <= i < |w.rows| ==> RowSound(norm, w.rows[i], w.items, orig))
  }

  /** A candidate apply accepts: still as planned, or already written by an interrupted run. */
  predicate Accepts(norm: Norm, r: Row, items: map<nat, Item>) {
    ItemFound(r, items) &&
    (SameGenres(norm, items[r.item].genres, r.planned) ||
     (r.old_.Some? && SameGenres(norm, items[r.item].genres, r.replacement)))
  }

  /** Exactly such: the item is where the plan says, and shows the planned list, or the replacement once that is on record. */
  lemma AcceptsWhen(norm: Norm, r: Row, items: map<nat, Item>)
    ensures Accepts(norm, r, items) <==>
              && r.item in items && items[r.item].path == r.path
              && (NormAll(norm, items[r.item].genres) == NormAll(norm, r.planned) ||
                  (r.old_ != None && NormAll(norm, items[r.item].genres) == NormAll(norm, r.replacement)))
  {
  }

  predicate AllAccepted(norm: Norm, w: World) {
    forall i :: 0 <= i < |w.rows| && w.rows[i].status == Candidate ==> Accepts(norm, w.rows[i], w.items)
  }

  /** A row's item, path, planned list and replacement never change. */
  predicate SameRow(a: Row, b: Row) {
    && b.item == a.item && b.path == a.path && b.planned == a.planned && b.replacement == a.replacement
    && (b.status == Skipped <==> a.status == Skipped)
  }

  predicate SamePlan(a: seq<Row>, b: seq<Row>) {
    |a| == |b| && forall i :: 0 <= i < |a| ==> SameRow(a[i], b[i])
  }

  predicate SameElsewhere(a: seq<Row>, b: seq<Row>, i: nat) {
    |a| == |b| && forall j :: 0 <= j < |a| && j != i ==> a[j] == b[j]
  }

  // ---------------------------------------------------------------- effect of each durable step

  lemma SoundAfterRow(norm: Norm, w: World, i: nat, r: Row, orig: map<nat, seq<Genre>>)
    requires Sound(norm, w, orig) && i < |w.rows| && SameRow(w.rows[i], r)
    requires RowSound(norm, r, w.items, orig)
    requires Applying(w.status) ==> RowForward(norm, r, w.items)
    ensures Sound(norm, w.(rows := w.rows[i := r]), orig)
  {
    var rows := w.rows[i := r];
    forall k | k in w.items && w.items[k].genres != orig[k]
      ensures exists j :: 0 <= j < |rows| && Active(rows[j]) && rows[j].item == k
    {
      var j :| 0 <= j < |w.rows| && Active(w.rows[j]) && w.rows[j].item == k;
      assert rows[j].item == k;
    }
  }

  lemma SoundAfterStore(norm: Norm, w: World, i: nat, gs: seq<Genre>, orig: map<nat, seq<Genre>>)
    requires Sound(norm, w, orig) && i < |w.rows| && Active(w.rows[i]) && w.rows[i].item in w.items
    requires RowSound(norm, w.rows[i], w.items[w.rows[i].item := w.items[w.rows[i].item].(genres := gs)], orig)
    requires Applying(w.status) && w.rows[i].status == AppliedRow ==> SameGenres(norm, gs, w.rows[i].replacement)
    ensures Sound(norm, w.(items := w.items[w.rows[i].item := w.items[w.rows[i].item].(genres := gs)]), orig)
  {
    var k := w.rows[i].item;
    var items := w.items[k := w.items[k].(genres := gs)];
    assert items.Keys == w.items.Keys;
    forall j | 0 <= j < |w.rows| ensures RowSound(norm, w.rows[j], items, orig) {
      if j != i {
        assert RowSound(norm, w.rows[j], w.items, orig);
      }
    }
    forall q | q in items && items[q].genres != orig[q]
      ensures exists j :: 0 <= j < |w.rows| && Active(w.rows[j]) && w.rows[j].item == q
    {
      if q != k {
        assert q in w.items && w.items[q].genres != orig[q];
      }
    }
  }

  /** Only item k of the Beets database may have changed. */
  predicate OnlyItem(k: nat, before: map<nat, Item>, after: map<nat, Item>) {
    && before.Keys == after.Keys
    && (forall q :: q in before ==> after[q].path == before[q].path && (q != k ==> after[q] == before[q]))
  }

  lemma SoundAfterStatus(norm: Norm, w: World, status: SyncStatus, orig: map<nat, seq<Genre>>)
    requires Sound(norm, w, orig) && (Applying(status) ==> Applying(w.status))
    ensures Sound(norm, w.(status := status), orig)
  {
  }

  /** Acceptance of a row depends on its own item only. */
  lemma AcceptedElsewhere(norm: Norm, w: World, w': World, i: nat)
    requires DistinctItems(w.rows) && i < |w.rows| && Active(w.rows[i]) && AllAccepted(norm, w)
    requires OnlyItem(w.rows[i].item, w.items, w'.items) && SameElsewhere(w.rows, w'.rows, i)
    requires w'.rows[i].status == Candidate ==> Accepts(norm, w'.rows[i], w'.items)
    ensures AllAccepted(norm, w')
  {
    forall j | 0 <= j < |w'.rows| && w'.rows[j].status == Candidate ensures Accepts(norm, w'.rows[j], w'.items) {
      if j != i {
        assert w.rows[j] == w'.rows[j];
      }
    }
  }

  lemma PlanKept(a: seq<Row>, b: seq<Row>, c: seq<Row>, i: nat)
    requires SamePlan(a, b) && SameElsewhere(b, c, i) && i < |b| && SameRow(b[i], c[i])
    ensures SamePlan(a, c)
  {
    forall j | 0 <= j < |a| ensures SameRow(a[j], c[j]) {
      assert SameRow(a[j], b[j]);
    }
  }

  lemma PlanTransitive(a: seq<Row>, b: seq<Row>, c: seq<Row>)
    requires SamePlan(a, b) && SamePlan(b, c)
    ensures SamePlan(a, c)
  {
    forall i | 0 <= i < |a| ensures SameRow(a[i], c[i]) {
      assert SameRow(a[i], b[i]) && SameRow(b[i], c[i]);
    }
  }

  // ---------------------------------------------------------------- rollback

  /** list(x or y or []): an empty list falls through to the next one. */
  function OrElse(x: Option<seq<Genre>>, y: seq<Genre>): seq<Genre> {
    if x.Some? && x.value != [] then x.value else y
  }

  /** Rollback accepts an applied row: its item is in place and, unless forced, unchanged since apply. */
  predicate MayRestore(norm: Norm, r: Row, items: map<nat, Item>, force: bool) {
    ItemFound(r, items) &&
    (force || SameGenres(norm, items[r.item].genres, OrElse(r.new_, r.replacement)))
  }

  /** Exactly then: unchanged means that it still shows the recorded list, or the planned one if none or an empty one is recorded. */
  lemma MayRestoreWhen(norm: Norm, r: Row, items: map<nat, Item>, force: bool)
    ensures MayRestore(norm, r, items, force) <==>
              && r.item in items && items[r.item].path == r.path
              && (force || (r.new_.Some? && r.new_.value != [] && NormAll(norm, items[r.item].genres) == NormAll(norm, r.new_.value)) ||
                  ((r.new_ == None || r.new_ == Some([])) && NormAll(norm, items[r.item].genres) == NormAll(norm, r.replacement)))
  {
  }

  predicate AllRestorable(norm: Norm, w: World, force: bool) {
    forall i :: 0 <= i < |w.rows| && w.rows[i].status == AppliedRow ==> MayRestore(norm, w.rows[i], w.items, force)
  }

  /** Applied rows from i on, and their items, are as rollback found them. */
  predicate Untouched(w0: World, w: World, i: nat) {
    && |w.rows| == |w0.rows| && w.items.Keys == w0.items.Keys
    && (forall j :: i <= j < |w.rows| ==>
          w.rows[j] == w0.rows[j] &&
          (w.rows[j].status == AppliedRow && w.rows[j].item in w.items ==> w.items[w.rows[j].item] == w0.items[w.rows[j].item]))
  }

  predicate RestorableBefore(norm: Norm, w: World, force: bool, i: nat) {
    forall j :: 0 <= j < i && j < |w.rows| && w.rows[j].status == AppliedRow ==> MayRestore(norm, w.rows[j], w.items, force)
  }

  /** An applied row still shows its replacement, or shows its original list again. */
  predicate HalfBackRow(norm: Norm, r: Row, items: map<nat, Item>, orig: map<nat, seq<Genre>>) {
    r.status == AppliedRow ==>
      && ItemFound(r, items) && r.item in orig
      && (items[r.item].genres == orig[r.item] || SameGenres(norm, items[r.item].genres, r.replacement))
  }

  predicate HalfBack(norm: Norm, w: World, orig: map<nat, seq<Genre>>) {
    forall i :: 0 <= i < |w.rows| ==> HalfBackRow(norm, w.rows[i], w.items, orig)
  }

  /** Row i is applied, but its item already shows the original list. */
  predicate InWindow(w: World, orig: map<nat, seq<Genre>>, i: nat) {
    && i < |w.rows| && w.rows[i].status == AppliedRow
    && w.rows[i].item in w.items && w.rows[i].item in orig && w.items[w.rows[i].item].genres == orig[w.rows[i].item]
  }

  /** Half way back, a plain rollback is accepted exactly when no row in the window differs from its original. */
  lemma HalfBackRestorable(norm: Norm, w: World, orig: map<nat, seq<Genre>>)
    requires Sound(norm, w, orig) && HalfBack(norm, w, orig)
    ensures AllRestorable(norm, w, false) <==>
            forall i :: 0 <= i < |w.rows| && InWindow(w, orig, i) ==>
              SameGenres(norm, orig[w.rows[i].item], w.rows[i].replacement)
  {
    forall i | 0 <= i < |w.rows| && w.rows[i].status == AppliedRow
      ensures MayRestore(norm, w.rows[i], w.items, false) <==>
              InWindow(w, orig, i) ==> SameGenres(norm, orig[w.rows[i].item], w.rows[i].replacement)
    {
      assert RowSound(norm, w.rows[i], w.items, orig) && HalfBackRow(norm, w.rows[i], w.items, orig);
    }
  }

  /** Restoring row i, or failing to, leaves every row half way back. */
  lemma HalfBackStep(norm: Norm, w: World, w': World, i: nat, orig: map<nat, seq<Genre>>)
    requires DistinctItems(w.rows) && i < |w.rows| && w.rows[i].status == AppliedRow && HalfBack(norm, w, orig)
    requires OnlyItem(w.rows[i].item, w.items, w'.items) && SameElsewhere(w.rows, w'.rows, i)
    requires w'.rows[i] == w.rows[i] || w'.rows[i].status == RestoredRow
    requires w'.items == w.items || (w.rows[i].item in w'.items && w.rows[i].item in orig &&
                                     w'.items[w.rows[i].item].genres == orig[w.rows[i].item])
    ensures HalfBack(norm, w', orig)
  {
    forall j | 0 <= j < |w'.rows| ensures HalfBackRow(norm, w'.rows[j], w'.items, orig) {
      assert HalfBackRow(norm, w.rows[j], w.items, orig);
    }
  }

  lemma UntouchedStep(w0: World, w: World, w': World, i: nat)
    requires DistinctItems(w.rows) && i < |w.rows| && w.rows[i].status == AppliedRow && Untouched(w0, w, i)
    requires OnlyItem(w.rows[i].item, w.items, w'.items) && SameElsewhere(w.rows, w'.rows, i)
    ensures Untouched(w0, w', i + 1)
  {
    forall j | i + 1 <= j < |w'.rows|
      ensures w'.rows[j] == w0.rows[j]
      ensures w'.rows[j].status == AppliedRow && w'.rows[j].item in w'.items ==>
                w'.items[w'.rows[j].item] == w0.items[w'.rows[j].item]
    {
      assert w.rows[j] == w0.rows[j];
    }
  }

  predicate NoneWaiting(rows: seq<Row>) {
    forall i :: 0 <= i < |rows| ==> rows[i].status != Candidate
  }

  predicate NoneApplied(rows: seq<Row>, n: nat) {
    forall i :: 0 <= i < n && i < |rows| ==> rows[i].status != AppliedRow
  }

  lemma RestorableElsewhere(norm: Norm, w: World, w': World, i: nat, force: bool)
    requires DistinctItems(w.rows) && i < |w.rows| && Active(w.rows[i]) && AllRestorable(norm, w, force)
    requires OnlyItem(w.rows[i].item, w.items, w'.items) && SameElsewhere(w.rows, w'.rows, i)
    requires w'.rows[i].status == AppliedRow ==> MayRestore(norm, w'.rows[i], w'.items, force)
    ensures AllRestorable(norm, w', force)
  {
    forall j | 0 <= j < |w'.rows| && w'.rows[j].status == AppliedRow
      ensures MayRestore(norm, w'.rows[j], w'.items, force)
    {
      if j != i {
        assert w.rows[j] == w'.rows[j];
      }
    }
  }

  /** With no row left to apply or restore, the Beets library is as it was. */
  lemma AllRestored(norm: Norm, w: World, orig: map<nat, seq<Genre>>)
    requires Sound(norm, w, orig)
    requires forall i :: 0 <= i < |w.rows| && Active(w.rows[i]) ==> w.rows[i].status == RestoredRow
    ensures w.items.Keys == orig.Keys && forall k :: k in orig ==> w.items[k].genres == orig[k]
  {
    assert forall i :: 0 <= i < |w.rows| ==> RowSound(norm, w.rows[i], w.items, orig);
  }

  class Sync {
    var w: World
    var fates: seq<Fate>
    const norm: Norm
    ghost const orig: map<nat, seq<Genre>>

    constructor (items: map<nat, Item>, plan: seq<Row>, norm: Norm)
      requires DistinctItems(plan)
      requires forall i :: 0 <= i < |plan| ==>
                 plan[i].old_.None? && (plan[i].status == Candidate || plan[i].status == Skipped)
      ensures Sound(norm, w, orig) && this.norm == norm
      ensures w == World(items, true, Planned, plan)
      ensures orig == map k | k in items :: items[k].genres
    {
      w := World(items, true, Planned, plan);
      fates := [];
      this.norm := norm;
      orig := map k | k in items :: items[k].genres;
    }

    method Next() returns (f: Fate)
      modifies this`fates
      ensures Quiet(old(fates)) ==> f == Go && Quiet(fates)
    {
      if fates == [] {
        return Go;
      }
      f := fates[0];
      fates := fates[1..];
    }

    method WriteManifest(status: SyncStatus, rows: seq<Row>) returns (r: Step)
      modifies this
      ensures w == if r.Fine? then old(w).(status := status, rows := rows) else old(w)
      ensures Quiet(old(fates)) ==> r.Fine? && Quiet(fates)
    {
      var f := Next();
      if f == Go {
        w := w.(status := status, rows := rows);
        return Fine;
      }
      return if f == Fail then Raised else Dead;
    }

    /** item.store(): one committed row change; the read-back may still fail afterwards. */
    method Store(k: nat, gs: seq<Genre>) returns (r: Step)
      requires k in w.items
      modifies this
      ensures w == old(w) || w == old(w).(items := old(w).items[k := old(w).items[k].(genres := gs)])
      ensures r.Fine? ==> w == old(w).(items := old(w).items[k := old(w).items[k].(genres := gs)])
      ensures Quiet(old(fates)) ==> r.Fine? && Quiet(fates)
    {
      var f := Next();
      if f != Go {
        return if f == Fail then Raised else Dead;
      }
      w := w.(items := w.items[k := w.items[k].(genres := gs)]);
      f := Next();
      r := if f == Go then Fine else if f == Fail then Raised else Dead;
    }

    /** Change row i in memory and write the manifest; `rows` is the in-memory list either way. */
    method MarkRow(i: nat, row: Row) returns (r: Step, rows: seq<Row>)
      requires Sound(norm, w, orig) && i < |w.rows| && SameRow(w.rows[i], row)
      requires RowSound(norm, row, w.items, orig)
      requires Applying(w.status) ==> RowForward(norm, row, w.items)
      modifies this
      ensures rows == old(w).rows[i := row]
      ensures Sound(norm, w, orig) && Sound(norm, w.(rows := rows), orig)
      ensures w == if r.Fine? then old(w).(rows := rows) else old(w)
      ensures Quiet(old(fates)) ==> r.Fine? && Quiet(fates)
    {
      SoundAfterRow(norm, w, i, row, orig);
      rows := w.rows[i := row];
      r := WriteManifest(w.status, rows);
    }

    /** Store a list for row i's item, where either outcome is a state the row allows. */
    method StoreFor(i: nat, gs: seq<Genre>) returns (r: Step)
      requires Sound(norm, w, orig) && i < |w.rows| && Active(w.rows[i]) && w.rows[i].item in w.items
      requires RowSound(norm, w.rows[i], w.items[w.rows[i].item := w.items[w.rows[i].item].(genres := gs)], orig)
      requires Applying(w.status) && w.rows[i].status == AppliedRow ==> SameGenres(norm, gs, w.rows[i].replacement)
      modifies this
      ensures Sound(norm, w, orig) && w == old(w).(items := w.items)
      ensures OnlyItem(w.rows[i].item, old(w).items, w.items)
      ensures w.items == old(w).items || w.items[w.rows[i].item].genres == gs
      ensures r.Fine? ==> w.items[w.rows[i].item].genres == gs
      ensures Quiet(old(fates)) ==> r.Fine? && Quiet(fates)
    {
      SoundAfterStore(norm, w, i, gs, orig);
      r := Store(w.rows[i].item, gs);
    }

    lemma CandidateMayStore(i: nat)
      requires Sound(norm, w, orig) && i < |w.rows| && w.rows[i].status == Candidate && w.rows[i].old_.Some?
      requires w.rows[i].item in w.items
      ensures var row := w.rows[i];
              RowSound(norm, row, w.items[row.item := w.items[row.item].(genres := row.replacement)], orig)
    {
      assert RowSound(norm, w.rows[i], w.items, orig);
    }

    lemma StoredMayMark(i: nat)
      requires Sound(norm, w, orig) && i < |w.rows| && w.rows[i].status == Candidate && w.rows[i].old_.Some?
      ensures RowSound(norm, w.rows[i].(status := AppliedRow), w.items, orig)
    {
      assert RowSound(norm, w.rows[i], w.items, orig);
    }

    /** A row whose write-ahead record is durable: change the Beets row, verify, mark it applied. */
    method StoreRow(i: nat) returns (r: Step, rows: seq<Row>)
      requires Sound(norm, w, orig) && w.status == InProgress
      requires i < |w.rows| && w.rows[i].status == Candidate && w.rows[i].old_.Some? && ItemFound(w.rows[i], w.items)
      modifies this
      ensures Sound(norm, w, orig) && Sound(norm, w.(rows := rows), orig)
      ensures rows == old(w).rows || rows == old(w).rows[i := old(w).rows[i].(status := AppliedRow)]
      ensures w == old(w).(items := w.items, rows := w.rows) && OnlyItem(old(w).rows[i].item, old(w).items, w.items)
      ensures w.items == old(w).items || w.items[old(w).rows[i].item].genres == old(w).rows[i].replacement
      ensures w.rows == if r.Fine? then rows else old(w).rows
      ensures r.Fine? ==> rows[i].status == AppliedRow
      ensures Quiet(old(fates)) ==> r.Fine? && Quiet(fates)
    {
      rows := w.rows;
      CandidateMayStore(i);
      r := StoreFor(i, w.rows[i].replacement);
      if r.Fine? {
        StoredMayMark(i);
        r, rows := MarkRow(i, w.rows[i].(status := AppliedRow));
      }
    }

    lemma FreshRecordIsSound(i: nat)
      requires Sound(norm, w, orig) && i < |w.rows| && w.rows[i].status == Candidate && w.rows[i].item in w.items
      requires var cur := w.items[w.rows[i].item].genres;
               && !(w.rows[i].old_.Some? && SameGenres(norm, cur, w.rows[i].replacement))
               && SameGenres(norm, cur, w.rows[i].planned)
      ensures var row := w.rows[i];
              RowSound(norm, row.(old_ := Some(w.items[row.item].genres), new_ := Some(row.replacement)), w.items, orig)
    {
      assert RowSound(norm, w.rows[i], w.items, orig);
    }

    /** A row Beets still shows as planned: record the original durably, then change it. */
    method RecordAndStore(i: nat) returns (r: Step, rows: seq<Row>)
      requires Sound(norm, w, orig) && w.status == InProgress && i < |w.rows| && w.rows[i].status == Candidate
      requires ItemFound(w.rows[i], w.items) && SameGenres(norm, w.items[w.rows[i].item].genres, w.rows[i].planned)
      requires !(w.rows[i].old_.Some? && SameGenres(norm, w.items[w.rows[i].item].genres, w.rows[i].replacement))
      modifies this
      ensures Sound(norm, w, orig) && Sound(norm, w.(rows := rows), orig)
      ensures SameElsewhere(old(w).rows, rows, i) && SameElsewhere(old(w).rows, w.rows, i)
      ensures w == old(w).(items := w.items, rows := w.rows) && OnlyItem(old(w).rows[i].item, old(w).items, w.items)
      ensures SameRow(old(w).rows[i], rows[i]) && SameRow(old(w).rows[i], w.rows[i])
      ensures w.items == old(w).items || (w.items[old(w).rows[i].item].genres == old(w).rows[i].replacement &&
                                          w.rows[i].old_.Some? && rows[i].old_.Some?)
      ensures r.Fine? ==> w.rows == rows && rows[i].status == AppliedRow
      ensures Quiet(old(fates)) ==> Quiet(fates) && r.Fine?
    {
      var row := w.rows[i];
      FreshRecordIsSound(i);
      r, rows := MarkRow(i, row.(old_ := Some(w.items[row.item].genres), new_ := Some(row.replacement)));
      if r.Fine? {
        r, rows := StoreRow(i);
      }
    }

    /** One candidate row of apply_sync's loop. */
    method SyncRow(i: nat) returns (r: Step, rows: seq<Row>)
      requires Sound(norm, w, orig) && w.status == InProgress && i < |w.rows| && w.rows[i].status == Candidate
      modifies this
      ensures Sound(norm, w, orig) && Sound(norm, w.(rows := rows), orig)
      ensures SameElsewhere(old(w).rows, rows, i) && SameElsewhere(old(w).rows, w.rows, i)
      ensures w == old(w).(items := w.items, rows := w.rows) && OnlyItem(old(w).rows[i].item, old(w).items, w.items)
      ensures r.Fine? ==> w.rows == rows && rows[i].status == AppliedRow && Accepts(norm, old(w).rows[i], old(w).items)
      ensures SameRow(old(w).rows[i], rows[i]) && SameRow(old(w).rows[i], w.rows[i])
      ensures Accepts(norm, old(w).rows[i], old(w).items) ==>
                Accepts(norm, w.rows[i], w.items) && Accepts(norm, rows[i], w.items)
      ensures Quiet(old(fates)) ==> Quiet(fates) && !r.Dead?
      ensures Quiet(old(fates)) && Accepts(norm, old(w).rows[i], old(w).items) ==> !r.Raised?
    {
      rows := w.rows;
      var row := w.rows[i];
      if !ItemFound(row, w.items) {
        return Raised, rows;
      }
      var cur := w.items[row.item].genres;
      if SameGenres(norm, cur, row.replacement) && row.old_.Some? {
        StoredMayMark(i);
        r, rows := MarkRow(i, row.(status := AppliedRow));
        return;
      }
      if !SameGenres(norm, cur, row.planned) {
        return Raised, rows;
      }
      r, rows := RecordAndStore(i);
    }

    /** A loop iteration, with what it keeps for the other rows. */
    method SyncStep(i: nat) returns (r: Step, rows: seq<Row>)
      requires Sound(norm, w, orig) && w.status == InProgress && i < |w.rows| && w.rows[i].status == Candidate
      modifies this
      ensures Sound(norm, w, orig) && Sound(norm, w.(rows := rows), orig)
      ensures w == old(w).(items := w.items, rows := w.rows)
      ensures SamePlan(old(w).rows, rows) && SamePlan(old(w).rows, w.rows) && SameElsewhere(old(w).rows, rows, i)
      ensures r.Fine? ==> w.rows == rows && rows[i].status == AppliedRow
      ensures AllAccepted(norm, old(w)) ==> AllAccepted(norm, w) && AllAccepted(norm, w.(rows := rows))
      ensures Quiet(old(fates)) ==> Quiet(fates) && !r.Dead?
      ensures Quiet(old(fates)) && AllAccepted(norm, old(w)) ==> !r.Raised?
    {
      r, rows := SyncRow(i);
      PlanKept(old(w).rows, old(w).rows, rows, i);
      PlanKept(old(w).rows, old(w).rows, w.rows, i);
      if AllAccepted(norm, old(w)) {
        AcceptedElsewhere(norm, old(w), w, i);
        AcceptedElsewhere(norm, old(w), w.(rows := rows), i);
      }
    }

    /** apply_sync's loop. */
    method SyncRows() returns (r: Step, rows: seq<Row>)
      requires Sound(norm, w, orig) && w.status == InProgress
      modifies this
      ensures Sound(norm, w, orig) && Sound(norm, w.(rows := rows), orig)
      ensures w == old(w).(items := w.items, rows := w.rows)
      ensures SamePlan(old(w).rows, rows) && SamePlan(old(w).rows, w.rows)
      ensures r.Fine? ==> w.rows == rows && NoneWaiting(rows)
      ensures AllAccepted(norm, old(w)) ==> AllAccepted(norm, w) && AllAccepted(norm, w.(rows := rows))
      ensures Quiet(old(fates)) ==> Quiet(fates) && !r.Dead?
      ensures Quiet(old(fates)) && AllAccepted(norm, old(w)) ==> !r.Raised?
    {
      rows := w.rows;
      r := Fine;
      ghost var willing := AllAccepted(norm, w);
      var i := 0;
      while i < |rows|
        invariant i <= |rows| && r.Fine? && rows == w.rows
        invariant Sound(norm, w, orig) && w == old(w).(items := w.items, rows := w.rows)
        invariant SamePlan(old(w).rows, rows)
        invariant forall j :: 0 <= j < i ==> rows[j].status != Candidate
        invariant willing ==> AllAccepted(norm, w)
        invariant Quiet(old(fates)) ==> Quiet(fates)
      {
        if rows[i].status == Candidate {
          ghost var was := w.rows;
          r, rows := SyncStep(i);
          PlanTransitive(old(w).rows, was, rows);
          PlanTransitive(old(w).rows, was, w.rows);
          if !r.Fine? {
            return;
          }
        }
        i := i + 1;
      }
    }

    /**
      apply_sync.  Finishing means every planned row shows its replacement and records its
      original list; interrupted anywhere, a re-run is still accepted.
     */
    method Apply(confirm: bool) returns (o: Outcome)
      requires Sound(norm, w, orig)
      modifies this
      ensures Sound(norm, w, orig) && w.audioApplied == old(w).audioApplied
      ensures o.Refused? <==> !confirm || !old(w).audioApplied || old(w).status == Complete || old(w).status == RolledBack
      ensures o.Refused? ==> w == old(w)
      ensures o.Done? ==> w.status == Complete && Forward(norm, w.rows, w.items) &&
                          forall i :: 0 <= i < |w.rows| && Active(w.rows[i]) ==> w.rows[i].status == AppliedRow
      ensures SamePlan(old(w).rows, w.rows)
      ensures AllAccepted(norm, old(w)) ==> AllAccepted(norm, w)
      ensures AllAccepted(norm, old(w)) && Quiet(old(fates)) && !o.Refused? ==> o.Done?
      ensures o.Failed? || o.Crashed? ==> Applying(w.status)
      ensures Quiet(old(fates)) && !o.Refused? && !o.Done? ==> o.Failed? && w.status == Failing
    {
      if !confirm || !w.audioApplied || !Applying(w.status) {
        return Refused;
      }
      SoundAfterStatus(norm, w, InProgress, orig);
      var r := WriteManifest(InProgress, w.rows);
      if !r.Fine? {
        return if r.Raised? then Failed else Crashed;
      }
      var rows;
      r, rows := SyncRows();
      if r.Dead? {
        return Crashed;
      }
      if r.Raised? {
        SoundAfterStatus(norm, w.(rows := rows), Failing, orig);
        r := WriteManifest(Failing, rows);
        return if r.Dead? then Crashed else Failed;
      }
      SoundAfterStatus(norm, w, Complete, orig);
      r := WriteManifest(Complete, rows);
      o := if r.Fine? then Done else if r.Raised? then Failed else Crashed;
    }

    /** apply_sync failing or killed anywhere, any number of times, then left alone: every planned row is at its replacement. */
    method ApplyUntilDone(stops: seq<seq<Fate>>)
      requires Sound(norm, w, orig) && w.audioApplied && Applying(w.status) && AllAccepted(norm, w)
      modifies this
      ensures Sound(norm, w, orig) && w.status == Complete && SamePlan(old(w).rows, w.rows)
      ensures Forward(norm, w.rows, w.items)
      ensures forall i :: 0 <= i < |w.rows| && Active(w.rows[i]) ==>
                && w.rows[i].status == AppliedRow && w.rows[i].item in w.items && w.rows[i].item in orig
                && SameGenres(norm, w.items[w.rows[i].item].genres, w.rows[i].replacement)
                && w.rows[i].old_ == Some(orig[w.rows[i].item])
    {
      var done := false;
      var k := 0;
      while !done
        invariant Sound(norm, w, orig) && w.audioApplied && AllAccepted(norm, w) && SamePlan(old(w).rows, w.rows)
        invariant if done then w.status == Complete && Forward(norm, w.rows, w.items) &&
                              forall i :: 0 <= i < |w.rows| && Active(w.rows[i]) ==> w.rows[i].status == AppliedRow
                  else Applying(w.status)
        invariant k <= |stops| + 1 && (k == |stops| + 1 ==> done)
        decreases |stops| + 1 - k
      {
        fates := if k < |stops| then stops[k] else [];
        ghost var was := w.rows;
        var o := Apply(true);
        PlanTransitive(old(w).rows, was, w.rows);
        done := o.Done?;
        k := k + 1;
      }
      forall i | 0 <= i < |w.rows| && Active(w.rows[i])
        ensures && w.rows[i].status == AppliedRow && w.rows[i].item in w.items && w.rows[i].item in orig
                && SameGenres(norm, w.items[w.rows[i].item].genres, w.rows[i].replacement)
                && w.rows[i].old_ == Some(orig[w.rows[i].item])
      {
        assert RowForward(norm, w.rows[i], w.items) && RowSound(norm, w.rows[i], w.items, orig);
      }
    }

    lemma AppliedMayStore(i: nat)
      requires Sound(norm, w, orig) && i < |w.rows| && w.rows[i].status == AppliedRow && w.rows[i].item in w.items
      ensures w.rows[i].item in orig && OrElse(w.rows[i].old_, w.rows[i].planned) == orig[w.rows[i].item]
      ensures RowSound(norm, w.rows[i],
                       w.items[w.rows[i].item := w.items[w.rows[i].item].(genres := orig[w.rows[i].item])], orig)
    {
      var row := w.rows[i];
      assert RowSound(norm, row, w.items, orig);
      if orig[row.item] == [] {
        assert |NormAll(norm, row.planned)| == |NormAll(norm, orig[row.item])| == 0;
      }
    }

    method RestoreAndMark(i: nat) returns (r: Step)
      requires Sound(norm, w, orig) && w.status == Complete && i < |w.rows| && w.rows[i].status == AppliedRow
      requires w.rows[i].item in w.items
      modifies this
      ensures Sound(norm, w, orig) && w == old(w).(items := w.items, rows := w.rows)
      ensures OnlyItem(old(w).rows[i].item, old(w).items, w.items)
      ensures w.items == old(w).items || (old(w).rows[i].item in w.items && old(w).rows[i].item in orig &&
                                          w.items[old(w).rows[i].item].genres == orig[old(w).rows[i].item])
      ensures w.rows == if r.Fine? then old(w).rows[i := old(w).rows[i].(status := RestoredRow)] else old(w).rows
      ensures Quiet(old(fates)) ==> Quiet(fates) && r.Fine?
    {
      var row := w.rows[i];
      AppliedMayStore(i);
      r := StoreFor(i, OrElse(row.old_, row.planned));
      if r.Fine? {
        assert RowSound(norm, row, w.items, orig);
        var rows;
        r, rows := MarkRow(i, row.(status := RestoredRow));
      }
    }

    /** One applied row of rollback_sync's loop. */
    method RestoreRow(i: nat, force: bool) returns (r: Step)
      requires Sound(norm, w, orig) && w.status == Complete && i < |w.rows| && w.rows[i].status == AppliedRow
      modifies this
      ensures Sound(norm, w, orig) && w == old(w).(items := w.items, rows := w.rows)
      ensures OnlyItem(old(w).rows[i].item, old(w).items, w.items)
      ensures w.items == old(w).items || (old(w).rows[i].item in w.items && old(w).rows[i].item in orig &&
                                          w.items[old(w).rows[i].item].genres == orig[old(w).rows[i].item])
      ensures w.rows == if r.Fine? then old(w).rows[i := old(w).rows[i].(status := RestoredRow)] else old(w).rows
      ensures AllRestorable(norm, old(w), true) ==> AllRestorable(norm, w, true)
      ensures r.Fine? ==> MayRestore(norm, old(w).rows[i], old(w).items, force)
      ensures Quiet(old(fates)) ==> Quiet(fates) && !r.Dead?
      ensures Quiet(old(fates)) && MayRestore(norm, old(w).rows[i], old(w).items, force) ==> !r.Raised?
      ensures Quiet(old(fates)) && MayRestore(norm, old(w).rows[i], old(w).items, force) ==> r.Fine?
    {
      if !MayRestore(norm, w.rows[i], w.items, force) {
        return Raised;
      }
      r := RestoreAndMark(i);
      if AllRestorable(norm, old(w), true) {
        RestorableElsewhere(norm, old(w), w, i, true);
      }
    }

    /** What rollback_sync's loop keeps, i rows in. */
    ghost predicate RestoreLoop(w0: World, v: World, i: nat, force: bool) {
      && Sound(norm, v, orig) && v == w0.(items := v.items, rows := v.rows)
      && i <= |v.rows| == |w0.rows| && NoneWaiting(v.rows) && NoneApplied(v.rows, i)
      && Untouched(w0, v, i) && RestorableBefore(norm, w0, force, i)
      && Kept(w0, v)
    }

    /** What a rollback, however far it came, keeps of the state it found. */
    ghost predicate Kept(w0: World, v: World) {
      && (AllRestorable(norm, w0, true) ==> AllRestorable(norm, v, true))
      && (HalfBack(norm, w0, orig) ==> HalfBack(norm, v, orig))
    }

    lemma KeptStep(w0: World, was: World, i: nat, v: World)
      requires Sound(norm, was, orig) && Kept(w0, was) && i < |was.rows| && was.rows[i].status == AppliedRow
      requires OnlyItem(was.rows[i].item, was.items, v.items)
      requires v.rows == was.rows || v.rows == was.rows[i := was.rows[i].(status := RestoredRow)]
      requires AllRestorable(norm, was, true) ==> AllRestorable(norm, v, true)
      requires v.items == was.items || (was.rows[i].item in v.items && was.rows[i].item in orig &&
                                        v.items[was.rows[i].item].genres == orig[was.rows[i].item])
      ensures Kept(w0, v)
    {
      if HalfBack(norm, was, orig) {
        HalfBackStep(norm, was, v, i, orig);
      }
    }

    /** With row i restored and marked, the loop is one row further. */
    lemma RestoreLoopStep(w0: World, was: World, i: nat, force: bool, v: World)
      requires RestoreLoop(w0, was, i, force) && i < |was.rows| && Sound(norm, v, orig) && Kept(w0, v)
      requires v == was.(items := v.items, rows := v.rows)
      requires if was.rows[i].status == AppliedRow
               then OnlyItem(was.rows[i].item, was.items, v.items) && MayRestore(norm, was.rows[i], was.items, force) &&
                    v.rows == was.rows[i := was.rows[i].(status := RestoredRow)]
               else v == was
      ensures RestoreLoop(w0, v, i + 1, force)
    {
      assert was.rows[i] == w0.rows[i];
      if was.rows[i].status == AppliedRow {
        UntouchedStep(w0, was, v, i);
      }
    }

    method RestoreStep(ghost w0: World, i: nat, force: bool) returns (r: Step)
      requires RestoreLoop(w0, w, i, force) && w.status == Complete && i < |w.rows|
      modifies this
      ensures r.Fine? ==> RestoreLoop(w0, w, i + 1, force)
      ensures Sound(norm, w, orig) && w == w0.(items := w.items, rows := w.rows) && NoneWaiting(w.rows)
      ensures Kept(w0, w)
      ensures Quiet(old(fates)) && AllRestorable(norm, w0, force) ==> !r.Raised?
      ensures Quiet(old(fates)) ==> Quiet(fates) && !r.Dead?
    {
      r := Fine;
      ghost var was := w;
      assert was.rows[i] == w0.rows[i];
      if w.rows[i].status == AppliedRow {
        r := RestoreRow(i, force);
        KeptStep(w0, was, i, w);
      }
      if r.Fine? {
        RestoreLoopStep(w0, was, i, force, w);
      }
    }

    /** rollback_sync's loop. */
    method RestoreRows(force: bool) returns (r: Step)
      requires Sound(norm, w, orig) && w.status == Complete && NoneWaiting(w.rows)
      modifies this
      ensures Sound(norm, w, orig) && w == old(w).(items := w.items, rows := w.rows) && NoneWaiting(w.rows)
      ensures r.Fine? ==> NoneApplied(w.rows, |w.rows|) && AllRestorable(norm, old(w), force)
      ensures AllRestorable(norm, old(w), true) ==> AllRestorable(norm, w, true)
      ensures HalfBack(norm, old(w), orig) ==> HalfBack(norm, w, orig)
      ensures Quiet(old(fates)) && AllRestorable(norm, old(w), force) ==> !r.Raised?
      ensures Quiet(old(fates)) ==> Quiet(fates) && !r.Dead?
    {
      r := Fine;
      var i := 0;
      while i < |w.rows|
        invariant r.Fine? && RestoreLoop(old(w), w, i, force)
        invariant Quiet(old(fates)) ==> Quiet(fates)
        decreases |old(w).rows| - i
      {
        r := RestoreStep(old(w), i, force);
        if !r.Fine? {
          return;
        }
        i := i + 1;
      }
    }

    /**
      rollback_sync.  Finishing means every Beets row is exactly its original list, and is
      reached undisturbed exactly when every applied row is restorable; a forced rollback can
      always be run again after an interruption.
     */
    method Rollback(confirm: bool, force: bool) returns (o: Outcome)
      requires Sound(norm, w, orig)
      requires w.status == Complete ==> NoneWaiting(w.rows)
      modifies this
      ensures Sound(norm, w, orig)
      ensures w.status == Complete ==> NoneWaiting(w.rows)
      ensures o.Refused? <==> !confirm || old(w).status != Complete
      ensures o.Refused? ==> w == old(w)
      ensures o.Done? ==> w.status == RolledBack && w.items.Keys == orig.Keys &&
                          forall k :: k in orig ==> w.items[k].genres == orig[k]
      ensures o.Done? ==> AllRestorable(norm, old(w), force)
      ensures o.Failed? || o.Crashed? ==> w.status == Complete
      ensures AllRestorable(norm, old(w), true) ==> AllRestorable(norm, w, true)
      ensures HalfBack(norm, old(w), orig) ==> HalfBack(norm, w, orig)
      ensures Quiet(old(fates)) ==> !o.Crashed?
      ensures AllRestorable(norm, old(w), force) && Quiet(old(fates)) && !o.Refused? ==> o.Done?
    {
      if !confirm || w.status != Complete {
        return Refused;
      }
      var r := RestoreRows(force);
      if !r.Fine? {
        return if r.Raised? then Failed else Crashed;
      }
      AllRestored(norm, w, orig);
      SoundAfterStatus(norm, w, RolledBack, orig);
      r := WriteManifest(RolledBack, w.rows);
      o := if r.Fine? then Done else if r.Raised? then Failed else Crashed;
    }

    /** A finished sync is accepted for rollback, forced or not. */
    lemma CompletedSyncRestorable(force: bool)
      requires Sound(norm, w, orig) && Forward(norm, w.rows, w.items)
      ensures AllRestorable(norm, w, force)
    {
      forall i | 0 <= i < |w.rows| && w.rows[i].status == AppliedRow
        ensures MayRestore(norm, w.rows[i], w.items, force)
      {
        assert RowForward(norm, w.rows[i], w.items) && RowSound(norm, w.rows[i], w.items, orig);
      }
    }

    /** A completed sync is half way back, trivially: every applied row shows its replacement. */
    lemma CompletedIsHalfBack()
      requires Sound(norm, w, orig) && Forward(norm, w.rows, w.items)
      ensures HalfBack(norm, w, orig)
    {
      forall i | 0 <= i < |w.rows| ensures HalfBackRow(norm, w.rows[i], w.items, orig) {
        assert RowForward(norm, w.rows[i], w.items) && RowSound(norm, w.rows[i], w.items, orig);
      }
    }

    /**
      Unlike apply, an interrupted plain rollback is not always resumable.  After a plain
      rollback of a completed sync stopped anywhere, an undisturbed plain re-run finishes
      exactly when every row restored but not yet marked has the same original and
      replacement up to normalisation; otherwise it fails, and a forced one finishes.
     */
    method RollbackAgain(faults: seq<Fate>)
      returns (first: Outcome, second: Outcome, third: Outcome, ghost stopped: World)
      requires Sound(norm, w, orig) && w.status == Complete && NoneWaiting(w.rows) && Forward(norm, w.rows, w.items)
      modifies this
      ensures !first.Refused?
      ensures !first.Done? ==>
                (second.Done? <==>
                   forall i :: 0 <= i < |stopped.rows| && InWindow(stopped, orig, i) ==>
                     SameGenres(norm, orig[stopped.rows[i].item], stopped.rows[i].replacement))
      ensures !first.Done? && !second.Done? ==> second.Failed? && third.Done?
      ensures w.status == RolledBack && w.items.Keys == orig.Keys
      ensures forall k :: k in orig ==> w.items[k].genres == orig[k]
    {
      second, third := Refused, Refused;
      CompletedSyncRestorable(true);
      CompletedIsHalfBack();
      fates := faults;
      first := Rollback(true, false);
      stopped := w;
      if !first.Done? {
        HalfBackRestorable(norm, w, orig);
        fates := [];
        second := Rollback(true, false);
        if !second.Done? {
          fates := [];
          third := Rollback(true, true);
        }
      }
    }

    /** The window is reached: killed between storing row i's original list and marking the row. */
    method KilledBeforeMark(i: nat) returns (r: Step)
      requires Sound(norm, w, orig) && w.status == Complete && i < |w.rows| && w.rows[i].status == AppliedRow
      requires w.rows[i].item in w.items
      modifies this
      ensures Sound(norm, w, orig) && w.rows == old(w).rows && InWindow(w, orig, i)
    {
      fates := [];
      AppliedMayStore(i);
      r := StoreFor(i, OrElse(w.rows[i].old_, w.rows[i].planned));
    }

    /** Sync, then one undisturbed rollback, forced or not: the Beets library is exactly as it was. */
    method SyncThenRollback(stops: seq<seq<Fate>>, force: bool)
      requires Sound(norm, w, orig) && w.audioApplied && Applying(w.status) && AllAccepted(norm, w)
      modifies this
      ensures w.status == RolledBack && w.items.Keys == orig.Keys
      ensures forall k :: k in orig ==> w.items[k].genres == orig[k]
    {
      ApplyUntilDone(stops);
      CompletedSyncRestorable(force);
      fates := [];
      var _ := Rollback(true, force);
    }

    /** Sync, then roll back with arbitrary interruptions: the Beets library is exactly as it was. */
    method SyncThenUndo(stops: seq<seq<Fate>>, undoStops: seq<seq<Fate>>)
      requires Sound(norm, w, orig) && w.audioApplied && Applying(w.status) && AllAccepted(norm, w)
      modifies this
      ensures w.status == RolledBack && w.items.Keys == orig.Keys
      ensures forall k :: k in orig ==> w.items[k].genres == orig[k]
    {
      ApplyUntilDone(stops);
      CompletedSyncRestorable(true);
      for k := 0 to |undoStops|
        invariant Sound(norm, w, orig) && w.status == Complete && AllRestorable(norm, w, true)
        invariant NoneWaiting(w.rows)
      {
        fates := undoStops[k];
        var o := Rollback(true, true);
        if o.Done? {
          return;
        }
      }
      fates := [];
      var _ := Rollback(true, true);
    }
  }
}
