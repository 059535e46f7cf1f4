/**
  playlist_tracks: a table with UNIQUE(playlist_id, id) that stands in for one list per
  playlist.  An UPDATE visits its rows in an arbitrary order and every single-row change is
  checked against the constraint; a violation undoes the statement and reports an error.
 */
module PlaylistPositions {
  import opened Prelude

  type RowId = nat

  datatype Source = Music | Hometube

  datatype Entry = Entry(source: Source, mediaId: string, videoId: string)

  datatype Row = Row(playlist: string, pos: int, entry: Entry)

  type Table = map<RowId, Row>

  const SENTINEL: int := -999999

  // ---------------------------------------------------------------- tables as lists

  /** The playlist's rows are exactly `order`, and row k of it stands at position at(k). */
  ghost predicate Placed(t: Table, pid: string, order: seq<RowId>, at: int -> int) {
    && (forall k :: 0 <= k < |order| ==>
          order[k] in t && t[order[k]].playlist == pid && t[order[k]].pos == at(k))
    && (forall r {:trigger r in order} :: r in t && t[r].playlist == pid ==> r in order)
  }

  /** The playlist is the list `order`: positions are exactly 1..n. */
  ghost predicate Lists(t: Table, pid: string, order: seq<RowId>) {
    Placed(t, pid, order, k => k + 1)
  }

  // ---------------------------------------------------------------- one UPDATE statement

  /** The table after giving each row in `targets` its new position. */
  function Assigned(t: Table, targets: map<RowId, int>): Table {
    map r | r in t :: if r in targets then t[r].(pos := targets[r]) else t[r]
  }

  predicate Conflict(t: Table, r: RowId, pos: int)
    requires r in t
  {
    exists s :: s in t && s != r && t[s].playlist == t[r].playlist && t[s].pos == pos
  }

  /** No target meets another row's old or new position, so no visiting order can collide. */
  ghost predicate Collisionless(t: Table, targets: map<RowId, int>) {
    forall r, s :: r in targets && r in t && s in t && s != r && t[s].playlist == t[r].playlist ==>
      t[s].pos != targets[r] && (s in targets ==> targets[s] != targets[r])
  }

  predicate UniquePositions(t: Table) {
    forall r, s :: r in t && s in t && r != s && t[r].playlist == t[s].playlist ==> t[r].pos != t[s].pos
  }

  lemma NoConflict(t: Table, targets: map<RowId, int>, todo: set<RowId>, r: RowId)
    requires targets.Keys <= t.Keys && r in todo && todo <= targets.Keys
    ensures Collisionless(t, targets) ==> !Conflict(Assigned(t, targets - todo), r, targets[r])
  {
  }

  lemma AssignOne(t: Table, targets: map<RowId, int>, todo: set<RowId>, r: RowId)
    requires targets.Keys <= t.Keys && r in todo && todo <= targets.Keys
    ensures var now := Assigned(t, targets - todo);
            now[r := now[r].(pos := targets[r])] == Assigned(t, targets - (todo - {r}))
  {
  }

  /** UPDATE ... SET id = f(id) WHERE playlist_id = pid AND cond(id). */
  function Targets(t: Table, pid: string, cond: int -> bool, f: int -> int): map<RowId, int> {
    map r | r in t && t[r].playlist == pid && cond(t[r].pos) :: f(t[r].pos)
  }

  function After(at: int -> int, cond: int -> bool, f: int -> int): int -> int {
    k => if cond(at(k)) then f(at(k)) else at(k)
  }

  /** What a positional UPDATE does to a placed playlist, and when no visiting order can collide. */
  lemma UpdatePlaces(t: Table, pid: string, order: seq<RowId>, at: int -> int, cond: int -> bool, f: int -> int)
    requires Placed(t, pid, order, at)
    ensures Placed(Assigned(t, Targets(t, pid, cond, f)), pid, order, After(at, cond, f))
  {
  }

  lemma UpdateIsCollisionless(t: Table, pid: string, order: seq<RowId>, at: int -> int,
                              cond: int -> bool, f: int -> int)
    requires Placed(t, pid, order, at)
    requires forall k, l :: 0 <= k < |order| && 0 <= l < |order| && k != l && cond(at(k)) ==>
               f(at(k)) != at(l) && (cond(at(l)) ==> f(at(l)) != f(at(k)))
    ensures Collisionless(t, Targets(t, pid, cond, f))
  {
    var targets := Targets(t, pid, cond, f);
    forall r, s | r in targets && s in t && s != r && t[s].playlist == t[r].playlist
      ensures t[s].pos != targets[r] && (s in targets ==> targets[s] != targets[r])
    {
      assert r in order && s in order;
      var k :| 0 <= k < |order| && order[k] == r;
      var l :| 0 <= l < |order| && order[l] == s;
    }
  }

  lemma UpdateElsewhere(t: Table, pid: string, cond: int -> bool, f: int -> int)
    ensures SameRows(t, Assigned(t, Targets(t, pid, cond, f)), pid)
  {
  }

  /** Same rows and tracks; positions may differ inside the playlist only. */
  predicate SameRows(t: Table, t': Table, pid: string) {
    && t.Keys == t'.Keys
    && (forall r :: r in t ==> t'[r].playlist == t[r].playlist && t'[r].entry == t[r].entry)
    && (forall r :: r in t && t[r].playlist != pid ==> t'[r] == t[r])
  }

  // ---------------------------------------------------------------- moving one element

  function Moved<T>(s: seq<T>, p: nat, q: nat): (r: seq<T>)
    requires p < |s| && q < |s|
    ensures |r| == |s|
  {
    var rest := s[..p] + s[p + 1..];
    rest[..q] + [s[p]] + rest[q..]
  }

  /** Where element k of the old list ends up. */
  function NewIndex(k: int, p: int, q: int): int {
    if k == p then q else if p < k <= q then k - 1 else if q <= k < p then k + 1 else k
  }

  lemma MovedAt<T>(s: seq<T>, p: nat, q: nat, k: nat)
    requires p < |s| && q < |s| && k < |s|
    ensures 0 <= NewIndex(k, p, q) < |s| && Moved(s, p, q)[NewIndex(k, p, q)] == s[k]
  {
    var rest := s[..p] + s[p + 1..];
    if k != p {
      assert rest[if k < p then k else k - 1] == s[k];
    }
  }

  /** The element is where it was moved to, and the others are as they were without it. */
  lemma MovedIs<T>(s: seq<T>, p: nat, q: nat)
    requires p < |s| && q < |s|
    ensures Moved(s, p, q)[q] == s[p]
    ensures Moved(s, p, q)[..q] + Moved(s, p, q)[q + 1..] == s[..p] + s[p + 1..]
  {
    var rest := s[..p] + s[p + 1..];
    assert rest == rest[..q] + rest[q..];
    assert Moved(s, p, q)[..q] == rest[..q] && Moved(s, p, q)[q + 1..] == rest[q..];
  }

  /** If row k stands where the moved list wants it, the playlist is the moved list. */
  lemma PlacedIsMoved(t: Table, pid: string, order: seq<RowId>, p: nat, q: nat, at: int -> int)
    requires p < |order| && q < |order| && Placed(t, pid, order, at)
    requires forall k :: 0 <= k < |order| ==> at(k) == NewIndex(k, p, q) + 1
    ensures Lists(t, pid, Moved(order, p, q))
  {
    var moved := Moved(order, p, q);
    forall j | 0 <= j < |moved| ensures moved[j] in t && t[moved[j]].playlist == pid && t[moved[j]].pos == j + 1 {
      var k := NewIndex(j, q, p);
      MovedAt(order, p, q, k);
    }
    forall r | r in t && t[r].playlist == pid ensures r in moved {
      assert r in order;
      var k :| 0 <= k < |order| && order[k] == r;
      MovedAt(order, p, q, k);
    }
  }

  // ---------------------------------------------------------------- the four statements of Reorder

  /** Positions after parking the source row on the sentinel. */
  function Parked(p: int): int -> int { k => if k == p then SENTINEL else k + 1 }

  /** A target at or below the sentinel makes the shift catch the parked row too. */
  function ParkedAt(newPos: int): int { if newPos <= SENTINEL then -(SENTINEL + 1) else SENTINEL }

  /** Positions after shifting the affected range into the negatives. */
  function Shifted(p: int, q: int): int -> int {
    k => if k == p then ParkedAt(q + 1) else if k != NewIndex(k, p, q) then -(NewIndex(k, p, q) + 1) else k + 1
  }

  /** Positions after flipping the shifted range back. */
  function Flipped(p: int, q: int): int -> int { k => if k == p then ParkedAt(q + 1) else NewIndex(k, p, q) + 1 }

  /** Where the rows stand after a move, whatever its arguments. */
  function MovedTo(pos: int, newPos: int): int -> int {
    k => if k == pos - 1 && newPos <= SENTINEL then -(SENTINEL + 1) else NewIndex(k, pos - 1, newPos - 1) + 1
  }

  lemma PlacedEverywhereEqual(t: Table, pid: string, order: seq<RowId>, at: int -> int, at': int -> int)
    requires Placed(t, pid, order, at) && forall k :: 0 <= k < |order| ==> at(k) == at'(k)
    ensures Placed(t, pid, order, at')
  {
    forall k | 0 <= k < |order| ensures t[order[k]].pos == at'(k) {
      assert at(k) == at'(k);
    }
  }

  /** What a statement must do to `at` over a list of n rows to make `at'` of it without any possible collision. */
  ghost predicate MovesTo(n: nat, at: int -> int, at': int -> int, cond: int -> bool, f: int -> int) {
    && (forall k :: 0 <= k < n ==> at'(k) == if cond(at(k)) then f(at(k)) else at(k))
    && (forall k, l :: 0 <= k < n && 0 <= l < n && k != l && cond(at(k)) ==> at'(k) != at(l) && at'(k) != at'(l))
  }

  lemma StatementCollisionless(t: Table, pid: string, order: seq<RowId>, at: int -> int, at': int -> int,
                               cond: int -> bool, f: int -> int)
    requires Placed(t, pid, order, at) && MovesTo(|order|, at, at', cond, f)
    ensures Collisionless(t, Targets(t, pid, cond, f))
  {
    forall k, l | 0 <= k < |order| && 0 <= l < |order| && k != l && cond(at(k))
      ensures f(at(k)) != at(l) && (cond(at(l)) ==> f(at(l)) != f(at(k)))
    {
      assert at'(k) != at(l) && at'(k) != at'(l);
    }
    UpdateIsCollisionless(t, pid, order, at, cond, f);
  }

  lemma StatementPlaces(t: Table, pid: string, order: seq<RowId>, at: int -> int, at': int -> int,
                        cond: int -> bool, f: int -> int)
    requires Placed(t, pid, order, at) && MovesTo(|order|, at, at', cond, f)
    ensures Placed(Assigned(t, Targets(t, pid, cond, f)), pid, order, at')
  {
    UpdatePlaces(t, pid, order, at, cond, f);
    PlacedEverywhereEqual(Assigned(t, Targets(t, pid, cond, f)), pid, order, After(at, cond, f), at');
  }

  /** Such a statement succeeds in every visiting order, places the rows as wanted, and touches nothing else. */
  lemma StatementStep(t: Table, pid: string, order: seq<RowId>, at: int -> int, at': int -> int,
                      cond: int -> bool, f: int -> int)
    requires Placed(t, pid, order, at) && MovesTo(|order|, at, at', cond, f)
    ensures Collisionless(t, Targets(t, pid, cond, f))
    ensures Placed(Assigned(t, Targets(t, pid, cond, f)), pid, order, at')
    ensures SameRows(t, Assigned(t, Targets(t, pid, cond, f)), pid)
  {
    StatementCollisionless(t, pid, order, at, at', cond, f);
    StatementPlaces(t, pid, order, at, at', cond, f);
    UpdateElsewhere(t, pid, cond, f);
  }

  // ---------------------------------------------------------------- renumbering

  /** The playlist's rows are exactly `order`, at positive and strictly increasing positions. */
  ghost predicate Ranked(t: Table, pid: string, order: seq<RowId>) {
    Rising(t, pid, order) && forall r :: r in t && t[r].playlist == pid ==> r in order
  }

  predicate Rising(t: Table, pid: string, order: seq<RowId>) {
    && (forall k :: 0 <= k < |order| ==> order[k] in t && t[order[k]].playlist == pid && 0 < t[order[k]].pos)
    && (forall k, l :: 0 <= k < l < |order| ==> t[order[k]].pos < t[order[l]].pos)
  }

  function PositionIn(t: Table, order: seq<RowId>): int -> int {
    k => if 0 <= k < |order| && order[k] in t then t[order[k]].pos else 0
  }

  function Negated(at: int -> int): int -> int { k => -at(k) }

  /** ROW_NUMBER() OVER (ORDER BY id DESC) of a row standing at `pos`. */
  function RowNumber(t: Table, pid: string, pos: int): int {
    1 + |set s | s in t && t[s].playlist == pid && pos < t[s].pos|
  }

  ghost predicate Falling(at: int -> int, n: nat) {
    forall k, l :: 0 <= k < l < n ==> at(l) < at(k)
  }

  ghost predicate Below(at: int -> int, n: nat) {
    forall k :: 0 <= k < n ==> at(k) < 0
  }

  function RowSet(order: seq<RowId>): set<RowId> { set r | r in order }

  lemma {:induction false} DistinctSize(order: seq<RowId>)
    requires forall k, l :: 0 <= k < l < |order| ==> order[k] != order[l]
    ensures |RowSet(order)| == |order|
  {
    if order != [] {
      var n := |order| - 1;
      DistinctSize(order[..n]);
      assert RowSet(order) == RowSet(order[..n]) + {order[n]};
    }
  }

  lemma CountAbove(t: Table, pid: string, order: seq<RowId>, at: int -> int, k: nat)
    requires Placed(t, pid, order, at) && Falling(at, |order|) && k < |order|
    ensures RowNumber(t, pid, at(k)) == k + 1
  {
    var above := set s | s in t && t[s].playlist == pid && at(k) < t[s].pos;
    var front := order[..k];
    forall s | s in above ensures s in front {
      assert s in order;
      var l :| 0 <= l < |order| && order[l] == s;
      assert at(k) < at(l);
      assert front[l] == s;
    }
    forall l | 0 <= l < k ensures front[l] in above {
      assert at(k) < at(l);
    }
    assert above == RowSet(front);
    forall i, j | 0 <= i < j < |front| ensures front[i] != front[j] {
      assert at(j) < at(i);
    }
    DistinctSize(front);
  }

  // ---------------------------------------------------------------- keeping some rows

  /** The rows of `order` that are not deleted, in order. */
  function Keep(order: seq<RowId>, victims: set<RowId>): seq<RowId> {
    if order == [] then []
    else
      var n := |order| - 1;
      Keep(order[..n], victims) + (if order[n] in victims then [] else [order[n]])
  }

  lemma {:induction false} InKeep(order: seq<RowId>, victims: set<RowId>, r: RowId)
    ensures r in Keep(order, victims) <==> r in order && r !in victims
  {
    if order != [] {
      var n := |order| - 1;
      InKeep(order[..n], victims, r);
      assert order == order[..n] + [order[n]];
    }
  }

  lemma {:induction false} KeepRises(t: Table, pid: string, order: seq<RowId>, victims: set<RowId>)
    requires Rising(t, pid, order)
    ensures Rising(t - victims, pid, Keep(order, victims))
  {
    if order != [] {
      var n := |order| - 1;
      KeepRises(t, pid, order[..n], victims);
      var front, t' := Keep(order[..n], victims), t - victims;
      forall k | 0 <= k < |front| ensures front[k] in t' && t'[front[k]].pos < t[order[n]].pos {
        InKeep(order[..n], victims, front[k]);
        assert front[k] in front;
        var l :| 0 <= l < n && order[l] == front[k];
      }
    }
  }

  lemma KeepRanked(t: Table, pid: string, order: seq<RowId>, victims: set<RowId>)
    requires Lists(t, pid, order)
    ensures Ranked(t - victims, pid, Keep(order, victims))
  {
    KeepRises(t, pid, order, victims);
    forall r | r in t - victims && (t - victims)[r].playlist == pid ensures r in Keep(order, victims) {
      InKeep(order, victims, r);
    }
  }

  // ---------------------------------------------------------------- tables as lists of tracks

  /** The playlist reads as the list of tracks s, at positions 1..|s|. */
  ghost predicate Represents(t: Table, pid: string, s: seq<Entry>) {
    exists order :: RepresentedBy(t, pid, s, order)
  }

  ghost predicate RepresentedBy(t: Table, pid: string, s: seq<Entry>, order: seq<RowId>) {
    && Lists(t, pid, order) && |s| == |order|
    && (forall k :: 0 <= k < |order| ==> t[order[k]].entry == s[k])
  }

  /** A table never represents two different lists for one playlist. */
  lemma RepresentsOneList(t: Table, pid: string, s: seq<Entry>, s': seq<Entry>)
    requires Represents(t, pid, s) && Represents(t, pid, s')
    ensures s == s'
  {
    var order :| RepresentedBy(t, pid, s, order);
    var order' :| RepresentedBy(t, pid, s', order');
    SameOrder(t, pid, order, order');
  }

  lemma SameOrder(t: Table, pid: string, order: seq<RowId>, order': seq<RowId>)
    requires Lists(t, pid, order) && Lists(t, pid, order')
    ensures order == order'
  {
    NoLonger(t, pid, order, order');
    NoLonger(t, pid, order', order);
    forall k | 0 <= k < |order| ensures order[k] == order'[k] {
      SamePlace(t, pid, order, order', k);
    }
  }

  lemma SamePlace(t: Table, pid: string, order: seq<RowId>, order': seq<RowId>, k: nat)
    requires Lists(t, pid, order) && Lists(t, pid, order') && k < |order|
    ensures k < |order'| && order[k] == order'[k]
  {
    assert t[order[k]].pos == k + 1;
    assert order[k] in order';
    var l :| 0 <= l < |order'| && order'[l] == order[k];
    assert t[order'[l]].pos == l + 1;
  }

  lemma NoLonger(t: Table, pid: string, order: seq<RowId>, order': seq<RowId>)
    requires Lists(t, pid, order) && Lists(t, pid, order')
    ensures |order| <= |order'|
  {
    if order != [] {
      SamePlace(t, pid, order, order', |order| - 1);
    }
  }

  /** Nothing outside the playlist changed. */
  predicate OnlyPlaylist(t: Table, t': Table, pid: string) {
    && (forall r :: r in t && t[r].playlist != pid ==> r in t' && t'[r] == t[r])
    && (forall r :: r in t' && t'[r].playlist != pid ==> r in t && t'[r] == t[r])
  }

  lemma OthersRepresented(t: Table, t': Table, pid: string, other: string, s: seq<Entry>)
    requires OnlyPlaylist(t, t', pid) && other != pid && Represents(t, other, s)
    ensures Represents(t', other, s)
  {
    var order :| RepresentedBy(t, other, s, order);
    assert RepresentedBy(t', other, s, order);
  }

  /** Dropping the tracks at the given positions. */
  function DropAt(s: seq<Entry>, drop: set<int>): seq<Entry> {
    if s == [] then []
    else DropAt(s[..|s| - 1], drop) + (if |s| in drop then [] else [s[|s| - 1]])
  }

  /** How many of the first n positions are not dropped. */
  function Survivors(drop: set<int>, n: nat): nat {
    if n == 0 then 0 else Survivors(drop, n - 1) + if n in drop then 0 else 1
  }

  /** Exactly the entries at positions that are not dropped are left, in their order. */
  lemma {:induction false} DropAtIs(s: seq<Entry>, drop: set<int>, pos: nat)
    ensures |DropAt(s, drop)| == Survivors(drop, |s|)
    ensures 1 <= pos <= |s| && pos !in drop ==>
              Survivors(drop, pos - 1) < |DropAt(s, drop)| && DropAt(s, drop)[Survivors(drop, pos - 1)] == s[pos - 1]
  {
    if s != [] {
      DropAtIs(s[..|s| - 1], drop, pos);
    }
  }

  /** Orphans are dropped by position: music whose file is gone, and nothing else. */
  lemma {:induction false} DropOrphansIs(s: seq<Entry>, media: set<string>)
    ensures DropOrphans(s, media) ==
            DropAt(s, set i | 0 <= i < |s| && s[i].source == Music && s[i].mediaId !in media :: i + 1)
  {
    if s != [] {
      var n := |s| - 1;
      var drop := set i | 0 <= i < |s| && s[i].source == Music && s[i].mediaId !in media :: i + 1;
      var front := set i | 0 <= i < n && s[..n][i].source == Music && s[..n][i].mediaId !in media :: i + 1;
      DropOrphansIs(s[..n], media);
      assert forall pos :: 1 <= pos <= n ==> (pos in front <==> pos in drop) by {
        forall pos | 1 <= pos <= n ensures pos in front <==> pos in drop {
          assert s[..n][pos - 1] == s[pos - 1];
          if s[pos - 1].source == Music && s[pos - 1].mediaId !in media {
            assert pos == (pos - 1) + 1;
          }
        }
      }
      DropAtSame(s[..n], front, drop);
      assert |s| in drop <==> Orphan(s[n], media) by {
        assert |s| == n + 1;
      }
    }
  }

  lemma {:induction false} DropAtSame(s: seq<Entry>, a: set<int>, b: set<int>)
    requires forall pos :: 1 <= pos <= |s| ==> (pos in a <==> pos in b)
    ensures DropAt(s, a) == DropAt(s, b)
  {
    if s != [] {
      DropAtSame(s[..|s| - 1], a, b);
    }
  }

  predicate Orphan(e: Entry, media: set<string>) {
    e.source == Music && e.mediaId !in media
  }

  function DropOrphans(s: seq<Entry>, media: set<string>): seq<Entry> {
    if s == [] then []
    else DropOrphans(s[..|s| - 1], media) + (if Orphan(s[|s| - 1], media) then [] else [s[|s| - 1]])
  }

  ghost predicate TracksOf(t: Table, order: seq<RowId>, s: seq<Entry>) {
    |s| == |order| && forall k :: 0 <= k < |order| ==> order[k] in t && t[order[k]].entry == s[k]
  }

  lemma {:induction false} KeepDropsPositions(t: Table, order: seq<RowId>, s: seq<Entry>, victims: set<RowId>, drop: set<int>)
    requires TracksOf(t, order, s)
    requires forall k :: 0 <= k < |order| ==> (order[k] in victims <==> k + 1 in drop)
    ensures TracksOf(t - victims, Keep(order, victims), DropAt(s, drop))
  {
    if order != [] {
      var n := |order| - 1;
      KeepDropsPositions(t, order[..n], s[..n], victims, drop);
    }
  }

  lemma {:induction false} KeepDropsOrphans(t: Table, order: seq<RowId>, s: seq<Entry>, victims: set<RowId>, media: set<string>)
    requires TracksOf(t, order, s)
    requires forall k :: 0 <= k < |order| ==> (order[k] in victims <==> Orphan(s[k], media))
    ensures TracksOf(t - victims, Keep(order, victims), DropOrphans(s, media))
  {
    if order != [] {
      var n := |order| - 1;
      KeepDropsOrphans(t, order[..n], s[..n], victims, media);
    }
  }

  lemma TracksAfterRenumber(t: Table, t': Table, pid: string, order: seq<RowId>, s: seq<Entry>)
    requires TracksOf(t, order, s) && SameRows(t, t', pid) && Lists(t', pid, order)
    ensures Represents(t', pid, s)
  {
    assert RepresentedBy(t', pid, s, order);
  }

  /** Row order of a represented playlist. */
  ghost function OrderOf(t: Table, pid: string, s: seq<Entry>): (order: seq<RowId>)
    requires Represents(t, pid, s)
    ensures RepresentedBy(t, pid, s, order)
  {
    var order :| RepresentedBy(t, pid, s, order);
    order
  }

  lemma RemovalRanked(t: Table, pid: string, s: seq<Entry>, victims: set<RowId>)
    requires Represents(t, pid, s)
    ensures Ranked(t - victims, pid, Keep(OrderOf(t, pid, s), victims))
    ensures TracksOf(t, OrderOf(t, pid, s), s)
  {
    KeepRanked(t, pid, OrderOf(t, pid, s), victims);
  }

  lemma DeletionOrder(t: Table, pid: string, s: seq<Entry>, victims: set<RowId>, ids: set<int>)
    returns (order: seq<RowId>)
    requires Represents(t, pid, s)
    requires forall r :: r in victims <==> r in t && t[r].playlist == pid && t[r].pos in ids
    ensures Ranked(t - victims, pid, order) && TracksOf(t - victims, order, DropAt(s, ids))
  {
    RemovalRanked(t, pid, s, victims);
    KeepDropsPositions(t, OrderOf(t, pid, s), s, victims, ids);
    order := Keep(OrderOf(t, pid, s), victims);
  }

  lemma OrphanOrder(t: Table, pid: string, s: seq<Entry>, victims: set<RowId>, media: set<string>)
    returns (order: seq<RowId>)
    requires Represents(t, pid, s)
    requires forall r :: r in victims <==> r in t && t[r].playlist == pid && Orphan(t[r].entry, media)
    ensures Ranked(t - victims, pid, order) && TracksOf(t - victims, order, DropOrphans(s, media))
  {
    RemovalRanked(t, pid, s, victims);
    KeepDropsOrphans(t, OrderOf(t, pid, s), s, victims, media);
    order := Keep(OrderOf(t, pid, s), victims);
  }

  lemma ListedOrder(t: Table, pid: string, s: seq<Entry>) returns (order: seq<RowId>)
    requires Represents(t, pid, s)
    ensures Lists(t, pid, order) && TracksOf(t, order, s)
  {
    order := OrderOf(t, pid, s);
  }

  /** Two lists of equal length move in step. */
  lemma MovedPair<A, B>(a: seq<A>, b: seq<B>, p: nat, q: nat, j: nat) returns (k: nat)
    requires |a| == |b| && p < |a| && q < |a| && j < |a|
    ensures k < |a| && Moved(a, p, q)[j] == a[k] && Moved(b, p, q)[j] == b[k]
  {
    k := NewIndex(j, q, p);
    MovedAt(a, p, q, k);
    MovedAt(b, p, q, k);
  }

  lemma MovedTracks(t: Table, t': Table, pid: string, s: seq<Entry>, order: seq<RowId>, p: nat, q: nat)
    requires TracksOf(t, order, s) && SameRows(t, t', pid) && p < |s| && q < |s|
    requires Lists(t', pid, Moved(order, p, q))
    ensures Represents(t', pid, Moved(s, p, q))
  {
    var moved, s' := Moved(order, p, q), Moved(s, p, q);
    forall j | 0 <= j < |moved| ensures t'[moved[j]].entry == s'[j] {
      var k := MovedPair(order, s, p, q, j);
    }
    assert RepresentedBy(t', pid, s', moved);
  }

  lemma AppendedOrder(t: Table, pid: string, s: seq<Entry>, order: seq<RowId>, r: RowId, e: Entry)
    requires RepresentedBy(t, pid, s, order) && r !in t
    ensures RepresentedBy(t[r := Row(pid, |s| + 1, e)], pid, s + [e], order + [r])
  {
    var t', order', s' := t[r := Row(pid, |s| + 1, e)], order + [r], s + [e];
    forall k | 0 <= k < |order'|
      ensures order'[k] in t' && t'[order'[k]].playlist == pid && t'[order'[k]].pos == k + 1 && t'[order'[k]].entry == s'[k]
    {
      if k < |order| {
        assert order'[k] == order[k] && order[k] in t;
      }
    }
  }

  /** Appending a fresh row at position n + 1 appends its track. */
  lemma Appended(t: Table, pid: string, s: seq<Entry>, r: RowId, e: Entry)
    requires Represents(t, pid, s) && r !in t
    ensures Represents(t[r := Row(pid, |s| + 1, e)], pid, s + [e])
  {
    AppendedOrder(t, pid, s, OrderOf(t, pid, s), r, e);
  }

  /** The greatest position of a playlist is the length of its list. */
  lemma MaxIsLength(t: Table, pid: string, order: seq<RowId>, m: int, mine: set<RowId>)
    requires Lists(t, pid, order)
    requires forall r :: r in mine <==> r in t && t[r].playlist == pid
    requires mine == {} ==> m == 0
    requires mine != {} ==> (exists r :: r in mine && t[r].pos == m) && forall r :: r in mine ==> t[r].pos <= m
    ensures m == |order|
  {
    forall r | r in mine ensures 1 <= t[r].pos <= |order| {
      assert r in order;
      var k :| 0 <= k < |order| && order[k] == r;
    }
    if order != [] {
      var last := order[|order| - 1];
      assert last in mine && t[last].pos == |order|;
    }
  }

  lemma EmptyPlaylist(t: Table, pid: string)
    requires forall r :: r in t ==> t[r].playlist != pid
    ensures Represents(t, pid, [])
  {
    assert RepresentedBy(t, pid, [], []);
  }

  predicate PositionTaken(t: Table, pid: string, pos: int) {
    exists r :: r in t && t[r].playlist == pid && t[r].pos == pos
  }

  lemma EndIsFree(t: Table, pid: string, s: seq<Entry>)
    requires Represents(t, pid, s)
    ensures !PositionTaken(t, pid, |s| + 1)
  {
    var order := OrderOf(t, pid, s);
    forall r | r in t && t[r].playlist == pid ensures t[r].pos <= |s| {
      assert r in order;
      var k :| 0 <= k < |order| && order[k] == r;
    }
  }

  function MusicEntries(ids: seq<string>): seq<Entry> {
    seq(|ids|, i requires 0 <= i < |ids| => Entry(Music, ids[i], ""))
  }

  /** A requested entry: an empty source means music; a video keeps its id in the other column. */
  datatype Request = Request(id: string, source: Option<Source>) {
    function ToEntry(): Entry {
      if source == Some(Hometube) then Entry(Hometube, "", id) else Entry(Music, id, "")
    }
  }

  function RequestEntries(requests: seq<Request>): seq<Entry> {
    seq(|requests|, i requires 0 <= i < |requests| => requests[i].ToEntry())
  }

  lemma MusicEntry(ids: seq<string>, i: nat)
    requires i < |ids|
    ensures |MusicEntries(ids)| == |ids|
    ensures var e := MusicEntries(ids)[i]; e.source == Music && e.mediaId == ids[i] && e.videoId == ""
  {
  }

  /** A video is kept under its own source and in its own id column; everything else is music. */
  lemma RequestedEntry(requests: seq<Request>, i: nat)
    requires i < |requests|
    ensures |RequestEntries(requests)| == |requests|
    ensures var r, e := requests[i], RequestEntries(requests)[i];
            if r.source == Some(Hometube) then e.source == Hometube && e.videoId == r.id && e.mediaId == ""
            else e.source == Music && e.mediaId == r.id && e.videoId == ""
  {
  }

  // ---------------------------------------------------------------- all playlists at once

  type Catalog = map<string, seq<Entry>>

  function Get(lists: Catalog, pid: string): seq<Entry> {
    if pid in lists then lists[pid] else []
  }

  /** Every playlist of the table reads as its list; a playlist without rows as the empty one. */
  ghost predicate Refines(t: Table, lists: Catalog) {
    forall pid :: Represents(t, pid, Get(lists, pid))
  }

  lemma RefinesAfter(t: Table, t': Table, pid: string, lists: Catalog, s: seq<Entry>)
    requires Refines(t, lists) && OnlyPlaylist(t, t', pid) && Represents(t', pid, s)
    ensures Refines(t', lists[pid := s])
  {
    var lists' := lists[pid := s];
    forall other ensures Represents(t', other, Get(lists', other)) {
      assert Represents(t, other, Get(lists, other));
      if other != pid {
        OthersRepresented(t, t', pid, other, Get(lists, other));
      }
    }
  }

  /** The playlists in `done` have lost their orphans, the others are untouched. */
  function PartlyClean(lists: Catalog, done: set<string>, media: set<string>): Catalog {
    map pid | pid in lists.Keys + done ::
      if pid in done then DropOrphans(Get(lists, pid), media) else Get(lists, pid)
  }

  function Affected(t: Table, media: set<string>): (pids: set<string>)
    ensures forall r :: r in t && Orphan(t[r].entry, media) ==> t[r].playlist in pids
  {
    set r | r in t && Orphan(t[r].entry, media) :: t[r].playlist
  }

  function Cleaned(lists: Catalog, media: set<string>): Catalog {
    map pid | pid in lists :: DropOrphans(lists[pid], media)
  }

  lemma {:induction false} NothingToDrop(s: seq<Entry>, media: set<string>)
    requires forall k :: 0 <= k < |s| ==> !Orphan(s[k], media)
    ensures DropOrphans(s, media) == s
  {
    if s != [] {
      var front := s[..|s| - 1];
      assert forall k :: 0 <= k < |front| ==> front[k] == s[k];
      NothingToDrop(front, media);
      assert s == front + [s[|s| - 1]];
    }
  }

  lemma NoOrphanRows(t: Table, pid: string, s: seq<Entry>, media: set<string>)
    requires Represents(t, pid, s) && forall r :: r in t && t[r].playlist == pid ==> !Orphan(t[r].entry, media)
    ensures DropOrphans(s, media) == s
  {
    var order := OrderOf(t, pid, s);
    forall k | 0 <= k < |s| ensures !Orphan(s[k], media) {
      assert t[order[k]].entry == s[k];
    }
    NothingToDrop(s, media);
  }

  lemma CleanedOne(t: Table, t': Table, pid: string, lists: Catalog, done: set<string>, media: set<string>)
    requires Refines(t, PartlyClean(lists, done, media)) && pid !in done
    requires OnlyPlaylist(t, t', pid) && Represents(t', pid, DropOrphans(Get(lists, pid), media))
    ensures Refines(t', PartlyClean(lists, done + {pid}, media))
  {
    RefinesAfter(t, t', pid, PartlyClean(lists, done, media), DropOrphans(Get(lists, pid), media));
    assert PartlyClean(lists, done, media)[pid := DropOrphans(Get(lists, pid), media)]
        == PartlyClean(lists, done + {pid}, media);
  }

  /** Cleaning the playlists that have an orphan cleans them all. */
  lemma AllCleaned(t0: Table, t: Table, lists: Catalog, media: set<string>)
    requires Refines(t0, lists) && Refines(t, PartlyClean(lists, Affected(t0, media), media))
    ensures Refines(t, Cleaned(lists, media))
  {
    var result, partly := Cleaned(lists, media), PartlyClean(lists, Affected(t0, media), media);
    forall pid ensures Represents(t, pid, Get(result, pid)) {
      assert Represents(t0, pid, Get(lists, pid)) && Represents(t, pid, Get(partly, pid));
      if pid !in Affected(t0, media) {
        NoOrphanRows(t0, pid, Get(lists, pid), media);
      }
    }
  }

  datatype Op =
    | AddSongs(pid: string, ids: seq<string>)
    | AddMixed(pid: string, requests: seq<Request>)
    | DeleteAt(pid: string, positions: set<int>)
    | Clear(pid: string)
    | MoveTrack(pid: string, pos: int, newPos: int)
    | ReplaceAll(pid: string, ids: seq<string>)
    | RemoveOrphans(media: set<string>)

  /** A move names two positions of the list, which stays clear of the sentinel. */
  predicate InRange(lists: Catalog, op: Op) {
    op.MoveTrack? ==>
      1 <= op.pos <= |Get(lists, op.pid)| < 999999 && 1 <= op.newPos <= |Get(lists, op.pid)|
  }

  /** What each operation does to the lists: append, filter, move, replace. */
  function Step(lists: Catalog, op: Op): Catalog
    requires InRange(lists, op)
  {
    match op
    case AddSongs(pid, ids) => lists[pid := Get(lists, pid) + MusicEntries(ids)]
    case AddMixed(pid, requests) => lists[pid := Get(lists, pid) + RequestEntries(requests)]
    case DeleteAt(pid, positions) => lists[pid := DropAt(Get(lists, pid), positions)]
    case Clear(pid) => lists[pid := []]
    case MoveTrack(pid, pos, newPos) => lists[pid := Moved(Get(lists, pid), pos - 1, newPos - 1)]
    case ReplaceAll(pid, ids) => lists[pid := MusicEntries(ids)]
    case RemoveOrphans(media) => Cleaned(lists, media)
  }

  /** The run's moves are all in range when their turn comes. */
  predicate RunInRange(lists: Catalog, ops: seq<Op>)
    decreases |ops|
  {
    ops == [] || (InRange(lists, ops[0]) && RunInRange(Step(lists, ops[0]), ops[1..]))
  }

  function RunOn(lists: Catalog, ops: seq<Op>): Catalog
    requires RunInRange(lists, ops)
    decreases |ops|
  {
    if ops == [] then lists else RunOn(Step(lists, ops[0]), ops[1..])
  }

  /** The numbers a move of a list of n rows may pass through stay clear of the sentinel. */
  predicate HasRoom(n: nat, pos: int, newPos: int) {
    n < 999998 || (n < 999999 && 1 <= pos <= n && 1 <= newPos <= n)
  }

  /** Shifting one parked position. */
  lemma ShiftAt(n: nat, pos: int, newPos: int, k: int)
    requires 0 <= k < n && pos != newPos && HasRoom(n, pos, newPos)
    ensures Shifted(pos - 1, newPos - 1)(k) ==
            var id := Parked(pos - 1)(k);
            if pos < newPos then (if pos < id <= newPos then -(id - 1) else id)
            else if newPos <= id < pos then -(id + 1) else id
  {
    var p, q := pos - 1, newPos - 1;
    var x := NewIndex(k, p, q);
    if k == p {
      assert Parked(p)(k) == SENTINEL && Shifted(p, q)(k) == ParkedAt(newPos);
    } else {
      assert Parked(p)(k) == k + 1 && Shifted(p, q)(k) == if k != x then -(x + 1) else k + 1;
    }
  }

  /** The second statement of a move, on the parked playlist. */
  lemma ShiftStep(t: Table, pid: string, order: seq<RowId>, pos: int, newPos: int, cond: int -> bool, f: int -> int)
    requires Placed(t, pid, order, Parked(pos - 1)) && pos != newPos && HasRoom(|order|, pos, newPos)
    requires forall id :: cond(id) <==> if pos < newPos then pos < id <= newPos else newPos <= id < pos
    requires forall id :: f(id) == if pos < newPos then -(id - 1) else -(id + 1)
    ensures Collisionless(t, Targets(t, pid, cond, f))
    ensures Placed(Assigned(t, Targets(t, pid, cond, f)), pid, order, Shifted(pos - 1, newPos - 1))
  {
    var at, at' := Parked(pos - 1), Shifted(pos - 1, newPos - 1);
    forall k | 0 <= k < |order| ensures at'(k) == if cond(at(k)) then f(at(k)) else at(k) {
      ShiftAt(|order|, pos, newPos, k);
      var id := at(k);
      assert cond(id) <==> if pos < newPos then pos < id <= newPos else newPos <= id < pos;
      assert f(id) == if pos < newPos then -(id - 1) else -(id + 1);
    }
    StatementStep(t, pid, order, at, at', cond, f);
  }

  /** Flipping back one shifted position. */
  lemma FlipAt(n: nat, pos: int, newPos: int, k: int)
    requires 0 <= k < n && HasRoom(n, pos, newPos)
    ensures var id := Shifted(pos - 1, newPos - 1)(k);
            && Flipped(pos - 1, newPos - 1)(k) == (if id < 0 && id != SENTINEL then -id else id)
            && (id < 0 && id != SENTINEL ==> k != pos - 1 && NewIndex(k, pos - 1, newPos - 1) >= 0)
  {
    var p, q := pos - 1, newPos - 1;
    var id, x := Shifted(p, q)(k), NewIndex(k, p, q) + 1;
    if k == p {
      assert id == ParkedAt(newPos);
    } else {
      assert 0 <= x <= n + 1 && (x <= n || n < 999998);
      assert id == x || id == -x;
    }
  }

  /** The third statement of a move, on the shifted playlist. */
  lemma FlipStep(t: Table, pid: string, order: seq<RowId>, pos: int, newPos: int, cond: int -> bool, f: int -> int)
    requires Placed(t, pid, order, Shifted(pos - 1, newPos - 1)) && HasRoom(|order|, pos, newPos)
    requires forall id :: cond(id) <==> id < 0 && id != SENTINEL
    requires forall id :: f(id) == -id
    ensures Collisionless(t, Targets(t, pid, cond, f))
    ensures Placed(Assigned(t, Targets(t, pid, cond, f)), pid, order, Flipped(pos - 1, newPos - 1))
  {
    var at, at' := Shifted(pos - 1, newPos - 1), Flipped(pos - 1, newPos - 1);
    forall k | 0 <= k < |order| ensures at'(k) == if cond(at(k)) then f(at(k)) else at(k) {
      FlipAt(|order|, pos, newPos, k);
      var id := at(k);
      assert cond(id) <==> id < 0 && id != SENTINEL;
      assert f(id) == -id;
    }
    forall k, l | 0 <= k < |order| && 0 <= l < |order| && k != l && cond(at(k))
      ensures at'(k) != at(l) && at'(k) != at'(l)
    {
      FlipAt(|order|, pos, newPos, k);
      assert at'(k) == NewIndex(k, pos - 1, newPos - 1) + 1 > 0;
    }
    StatementStep(t, pid, order, at, at', cond, f);
  }

  /** The last statement of a move: the parked row, if there is one, takes its place. */
  lemma PlaceStep(t: Table, pid: string, order: seq<RowId>, pos: int, newPos: int, cond: int -> bool, f: int -> int)
    requires Placed(t, pid, order, Flipped(pos - 1, newPos - 1)) && HasRoom(|order|, pos, newPos)
    requires forall id :: cond(id) <==> id == SENTINEL
    requires forall id :: f(id) == newPos
    ensures Collisionless(t, Targets(t, pid, cond, f))
    ensures Placed(Assigned(t, Targets(t, pid, cond, f)), pid, order, MovedTo(pos, newPos))
  {
    var at, at' := Flipped(pos - 1, newPos - 1), MovedTo(pos, newPos);
    forall k, l | 0 <= k < |order| && 0 <= l < |order| && k != l && cond(at(k))
      ensures at'(k) != at(l) && at'(k) != at'(l)
    {
      assert k == pos - 1 && newPos > SENTINEL;
    }
    assert forall k :: 0 <= k < |order| ==> at'(k) == if cond(at(k)) then f(at(k)) else at(k);
    StatementStep(t, pid, order, at, at', cond, f);
  }

  ghost predicate IsList(t: Table, pid: string) {
    exists order :: Lists(t, pid, order)
  }

  /** Below the list, in it, or beyond it. */
  function Side(pos: int, n: nat): int {
    if pos < 1 then -1 else if pos <= n then 0 else 1
  }

  /** In a list of m rows every position of 1..m is taken, and no other. */
  lemma TakenPositions(t: Table, pid: string, order: seq<RowId>, pos: int)
    requires Lists(t, pid, order)
    ensures PositionTaken(t, pid, pos) <==> 1 <= pos <= |order|
  {
    if r :| r in t && t[r].playlist == pid && t[r].pos == pos {
      assert r in order;
      var l :| 0 <= l < |order| && order[l] == r;
    }
    if 1 <= pos <= |order| {
      assert t[order[pos - 1]].pos == pos;
    }
  }

  lemma PlacedPositions(t: Table, pid: string, order: seq<RowId>, at: int -> int, pos: int)
    requires Placed(t, pid, order, at)
    ensures PositionTaken(t, pid, pos) <==> exists k :: 0 <= k < |order| && t[order[k]].pos == pos
  {
    if r :| r in t && t[r].playlist == pid && t[r].pos == pos {
      assert r in order;
      var k :| 0 <= k < |order| && order[k] == r;
    }
  }

  /** A row stands outside 1..m for every m, or leaves a position below another row free. */
  lemma NotAList(t: Table, pid: string, order: seq<RowId>, at: int -> int, k: nat, free: int)
    requires Placed(t, pid, order, at) && k < |order|
    requires at(k) < 1 || (1 <= free <= at(k) && forall l :: 0 <= l < |order| ==> t[order[l]].pos != free)
    ensures !IsList(t, pid)
  {
    if IsList(t, pid) {
      var order' :| Lists(t, pid, order');
      assert t[order[k]].pos == at(k);
      assert PositionTaken(t, pid, at(k));
      TakenPositions(t, pid, order', at(k));
      TakenPositions(t, pid, order', free);
      PlacedPositions(t, pid, order, at, free);
    }
  }

  /** After a move the playlist is a list again exactly when both arguments are on one side of it, or it is empty. */
  lemma ListAfterMove(t: Table, pid: string, order: seq<RowId>, pos: int, newPos: int)
    requires Placed(t, pid, order, MovedTo(pos, newPos)) && pos != newPos && HasRoom(|order|, pos, newPos)
    ensures IsList(t, pid) <==> order == [] || Side(pos, |order|) == Side(newPos, |order|)
  {
    var n, at := |order|, MovedTo(pos, newPos);
    assert forall k :: 0 <= k < n ==> t[order[k]].pos == at(k);
    if order == [] || Side(pos, n) == Side(newPos, n) {
      if order != [] && Side(pos, n) == 0 {
        PlacedIsMoved(t, pid, order, pos - 1, newPos - 1, at);
      } else {
        PlacedEverywhereEqual(t, pid, order, at, k => k + 1);
        assert Lists(t, pid, order);
      }
    } else if Side(pos, n) == 0 {
      NotAList(t, pid, order, at, pos - 1, if newPos <= SENTINEL then 1 else n);
    } else if pos < 1 {
      NotAList(t, pid, order, at, 0, 0);
    } else {
      NotAList(t, pid, order, at, n - 1, Max(newPos, 1));
    }
  }

  /** Moving the position after the last to the front shifts every row up and leaves position 1 empty. */
  lemma MoveFromBeyond(n: nat, k: nat)
    requires k < n
    ensures MovedTo(n + 1, 1)(k) == k + 2
  {
  }

  /** Reorder on a list: never refused, and the rows stand where MovedTo says. */
  ghost predicate MovesRows(t: Table, t': Table, pid: string, order: seq<RowId>, pos: int, newPos: int, ok: bool) {
    Lists(t, pid, order) && HasRoom(|order|, pos, newPos) ==> ok && Placed(t', pid, order, MovedTo(pos, newPos))
  }

  ghost predicate MovesList(t: Table, t': Table, pid: string, order: seq<RowId>, pos: int, newPos: int, ok: bool) {
    Lists(t, pid, order) && 1 <= pos <= |order| < 999999 && 1 <= newPos <= |order| ==>
      ok && Lists(t', pid, Moved(order, pos - 1, newPos - 1))
  }

  /** For every pair of arguments: whether the positions are 1..n afterwards. */
  ghost predicate StaysList(t: Table, t': Table, pid: string, order: seq<RowId>, pos: int, newPos: int, ok: bool) {
    Lists(t, pid, order) && |order| < 999998 ==>
      ok && (IsList(t', pid) <==> order == [] || Side(pos, |order|) == Side(newPos, |order|))
  }

  lemma RowsMoveList(t: Table, t': Table, pid: string, order: seq<RowId>, pos: int, newPos: int, ok: bool)
    requires MovesRows(t, t', pid, order, pos, newPos, ok)
    ensures MovesList(t, t', pid, order, pos, newPos, ok)
  {
    if Lists(t, pid, order) && 1 <= pos <= |order| < 999999 && 1 <= newPos <= |order| {
      PlacedIsMoved(t', pid, order, pos - 1, newPos - 1, MovedTo(pos, newPos));
    }
  }

  lemma RowsStayList(t: Table, t': Table, pid: string, order: seq<RowId>, pos: int, newPos: int, ok: bool)
    requires MovesRows(t, t', pid, order, pos, newPos, ok) && pos != newPos
    ensures StaysList(t, t', pid, order, pos, newPos, ok)
  {
    if Lists(t, pid, order) && |order| < 999998 {
      ListAfterMove(t', pid, order, pos, newPos);
    }
  }

  ghost predicate MovesTracks(t: Table, t': Table, pid: string, order: seq<RowId>, s: seq<Entry>, pos: int, newPos: int,
                              ok: bool) {
    Lists(t, pid, order) && TracksOf(t, order, s) && 1 <= pos <= |s| < 999999 && 1 <= newPos <= |s| ==>
      ok && Represents(t', pid, Moved(s, pos - 1, newPos - 1))
  }

  lemma MoveInRange(t: Table, t': Table, pid: string, order: seq<RowId>, pos: int, newPos: int, ok: bool)
    requires MovesList(t, t', pid, order, pos, newPos, ok) && Lists(t, pid, order)
    requires 1 <= pos <= |order| < 999999 && 1 <= newPos <= |order|
    ensures ok && Lists(t', pid, Moved(order, pos - 1, newPos - 1))
  {
  }

  /** Moving a row of the table moves the track of the list it stands for. */
  lemma ListMoveMovesTracks(t: Table, t': Table, pid: string, order: seq<RowId>, s: seq<Entry>, pos: int, newPos: int,
                            ok: bool)
    requires MovesList(t, t', pid, order, pos, newPos, ok) && SameRows(t, t', pid)
    ensures MovesTracks(t, t', pid, order, s, pos, newPos, ok)
  {
    if Lists(t, pid, order) && TracksOf(t, order, s) && 1 <= pos <= |s| < 999999 && 1 <= newPos <= |s| {
      MoveInRange(t, t', pid, order, pos, newPos, ok);
      MovedTracks(t, t', pid, s, order, pos - 1, newPos - 1);
    }
  }

  class PlaylistTracks {
    var rows: Table
    var nextRow: RowId

    ghost predicate Valid()
      reads this
    {
      forall r :: r in rows ==> r < nextRow
    }

    constructor ()
      ensures Valid() && Refines(rows, map[])
    {
      rows, nextRow := map[], 0;
      new;
      forall pid ensures Represents(rows, pid, Get(map[], pid)) {
        EmptyPlaylist(rows, pid);
      }
    }

    /** One row of an UPDATE: refused when another row of the playlist has that position. */
    method SetPosition(r: RowId, pos: int) returns (ok: bool)
      requires r in rows
      modifies this`rows
      ensures ok <==> !Conflict(old(rows), r, pos)
      ensures rows == if ok then old(rows)[r := old(rows)[r].(pos := pos)] else old(rows)
      ensures UniquePositions(old(rows)) ==> UniquePositions(rows)
    {
      ok := !Conflict(rows, r, pos);
      if ok {
        rows := rows[r := rows[r].(pos := pos)];
      }
    }

    /** One UPDATE: rows in any order, each change checked, all or nothing. */
    method UpdatePositions(targets: map<RowId, int>) returns (ok: bool)
      requires targets.Keys <= rows.Keys
      modifies this`rows
      ensures rows == if ok then Assigned(old(rows), targets) else old(rows)
      ensures Collisionless(old(rows), targets) ==> ok
      ensures UniquePositions(old(rows)) ==> UniquePositions(rows)
    {
      var saved := rows;
      var todo := targets.Keys;
      assert rows == Assigned(saved, targets - todo);
      while todo != {}
        invariant todo <= targets.Keys
        invariant rows == Assigned(saved, targets - todo)
        invariant UniquePositions(saved) ==> UniquePositions(rows)
        decreases todo
      {
        var r :| r in todo;
        NoConflict(saved, targets, todo, r);
        AssignOne(saved, targets, todo, r);
        ok := SetPosition(r, targets[r]);
        if !ok {
          rows := saved;
          return;
        }
        todo := todo - {r};
      }
      assert targets - todo == targets;
      return true;
    }

    method ParkSource(pid: string, pos: int, ghost order: seq<RowId>) returns (ok: bool)
      modifies this`rows
      ensures ok ==> SameRows(old(rows), rows, pid)
      ensures !ok ==> rows == old(rows)
      ensures UniquePositions(old(rows)) ==> UniquePositions(rows)
      ensures Lists(old(rows), pid, order) && |order| < 999999 ==> ok && Placed(rows, pid, order, Parked(pos - 1))
    {
      var cond, f := (id: int) => id == pos, (id: int) => SENTINEL;
      UpdateElsewhere(rows, pid, cond, f);
      if Lists(rows, pid, order) && |order| < 999999 {
        StatementStep(rows, pid, order, k => k + 1, Parked(pos - 1), cond, f);
      }
      ok := UpdatePositions(Targets(rows, pid, cond, f));
    }

    method ShiftRange(pid: string, pos: int, newPos: int, ghost order: seq<RowId>) returns (ok: bool)
      requires pos != newPos
      modifies this`rows
      ensures ok ==> SameRows(old(rows), rows, pid)
      ensures !ok ==> rows == old(rows)
      ensures UniquePositions(old(rows)) ==> UniquePositions(rows)
      ensures Placed(old(rows), pid, order, Parked(pos - 1)) && HasRoom(|order|, pos, newPos) ==>
                ok && Placed(rows, pid, order, Shifted(pos - 1, newPos - 1))
    {
      var cond := if pos < newPos then (id: int) => pos < id <= newPos else (id: int) => newPos <= id < pos;
      var f := if pos < newPos then (id: int) => -(id - 1) else (id: int) => -(id + 1);
      UpdateElsewhere(rows, pid, cond, f);
      if Placed(rows, pid, order, Parked(pos - 1)) && HasRoom(|order|, pos, newPos) {
        ShiftStep(rows, pid, order, pos, newPos, cond, f);
      }
      ok := UpdatePositions(Targets(rows, pid, cond, f));
    }

    method FlipRange(pid: string, pos: int, newPos: int, ghost order: seq<RowId>) returns (ok: bool)
      requires pos != newPos
      modifies this`rows
      ensures ok ==> SameRows(old(rows), rows, pid)
      ensures !ok ==> rows == old(rows)
      ensures UniquePositions(old(rows)) ==> UniquePositions(rows)
      ensures Placed(old(rows), pid, order, Shifted(pos - 1, newPos - 1)) && HasRoom(|order|, pos, newPos) ==>
                ok && Placed(rows, pid, order, Flipped(pos - 1, newPos - 1))
    {
      var cond, f := (id: int) => id < 0 && id != SENTINEL, (id: int) => -id;
      UpdateElsewhere(rows, pid, cond, f);
      if Placed(rows, pid, order, Shifted(pos - 1, newPos - 1)) && HasRoom(|order|, pos, newPos) {
        FlipStep(rows, pid, order, pos, newPos, cond, f);
      }
      ok := UpdatePositions(Targets(rows, pid, cond, f));
    }

    method PlaceSource(pid: string, pos: int, newPos: int, ghost order: seq<RowId>) returns (ok: bool)
      modifies this`rows
      ensures ok ==> SameRows(old(rows), rows, pid)
      ensures !ok ==> rows == old(rows)
      ensures UniquePositions(old(rows)) ==> UniquePositions(rows)
      ensures Placed(old(rows), pid, order, Flipped(pos - 1, newPos - 1)) && HasRoom(|order|, pos, newPos) ==>
                ok && Placed(rows, pid, order, MovedTo(pos, newPos))
    {
      var cond, f := (id: int) => id == SENTINEL, (id: int) => newPos;
      UpdateElsewhere(rows, pid, cond, f);
      if Placed(rows, pid, order, Flipped(pos - 1, newPos - 1)) && HasRoom(|order|, pos, newPos) {
        PlaceStep(rows, pid, order, pos, newPos, cond, f);
      }
      ok := UpdatePositions(Targets(rows, pid, cond, f));
    }

    method FourStatements(pid: string, pos: int, newPos: int, ghost order: seq<RowId>) returns (ok: bool)
      requires pos != newPos
      modifies this`rows
      ensures SameRows(old(rows), rows, pid)
      ensures UniquePositions(old(rows)) ==> UniquePositions(rows)
      ensures MovesRows(old(rows), rows, pid, order, pos, newPos, ok)
    {
      ok := ParkSource(pid, pos, order);
      if ok {
        ok := ShiftRange(pid, pos, newPos, order);
      }
      if ok {
        ok := FlipRange(pid, pos, newPos, order);
      }
      if ok {
        ok := PlaceSource(pid, pos, newPos, order);
      }
    }

    /**
      Reorder: with both positions in range, the playlist becomes the list with that element
      moved; with any other arguments it stays a list exactly when both lie below it or both
      beyond it.
     */
    method Reorder(pid: string, pos: int, newPos: int, ghost order: seq<RowId>) returns (ok: bool)
      requires Valid()
      modifies this`rows
      ensures Valid() && SameRows(old(rows), rows, pid)
      ensures UniquePositions(old(rows)) ==> UniquePositions(rows)
      ensures MovesList(old(rows), rows, pid, order, pos, newPos, ok)
      ensures StaysList(old(rows), rows, pid, order, pos, newPos, ok)
    {
      if pos == newPos {
        assert 1 <= pos <= |order| ==> Moved(order, pos - 1, pos - 1) == order;
        return true;
      }
      ok := FourStatements(pid, pos, newPos, order);
      RowsMoveList(old(rows), rows, pid, order, pos, newPos, ok);
      RowsStayList(old(rows), rows, pid, order, pos, newPos, ok);
    }

    method NegateIds(pid: string, ghost order: seq<RowId>) returns (ok: bool)
      modifies this`rows
      ensures ok ==> SameRows(old(rows), rows, pid)
      ensures !ok ==> rows == old(rows)
      ensures UniquePositions(old(rows)) ==> UniquePositions(rows)
      ensures Ranked(old(rows), pid, order) ==>
                ok && Placed(rows, pid, order, Negated(PositionIn(old(rows), order)))
    {
      var cond, f := (id: int) => id > 0, (id: int) => -id;
      UpdateElsewhere(rows, pid, cond, f);
      if Ranked(rows, pid, order) {
        StatementStep(rows, pid, order, PositionIn(rows, order), Negated(PositionIn(rows, order)), cond, f);
      }
      ok := UpdatePositions(Targets(rows, pid, cond, f));
    }

    method NumberRows(pid: string, ghost order: seq<RowId>, ghost at: int -> int) returns (ok: bool)
      modifies this`rows
      ensures ok ==> SameRows(old(rows), rows, pid)
      ensures !ok ==> rows == old(rows)
      ensures UniquePositions(old(rows)) ==> UniquePositions(rows)
      ensures Placed(old(rows), pid, order, at) && Falling(at, |order|) && Below(at, |order|) ==>
                ok && Lists(rows, pid, order)
    {
      var snapshot := rows;
      var cond, f := (id: int) => true, (id: int) => RowNumber(snapshot, pid, id);
      UpdateElsewhere(rows, pid, cond, f);
      if Placed(rows, pid, order, at) && Falling(at, |order|) && Below(at, |order|) {
        forall k | 0 <= k < |order| ensures f(at(k)) == k + 1 {
          CountAbove(rows, pid, order, at, k);
        }
        StatementStep(rows, pid, order, at, k => k + 1, cond, f);
      }
      ok := UpdatePositions(Targets(rows, pid, cond, f));
    }

    /** renumber: positions become 1..n and the relative order of the tracks is kept. */
    method Renumber(pid: string, ghost order: seq<RowId>) returns (ok: bool)
      modifies this`rows
      ensures SameRows(old(rows), rows, pid)
      ensures UniquePositions(old(rows)) ==> UniquePositions(rows)
      ensures Ranked(old(rows), pid, order) ==> ok && Lists(rows, pid, order)
    {
      ok := NegateIds(pid, order);
      if ok {
        ok := NumberRows(pid, order, Negated(PositionIn(old(rows), order)));
      }
    }

    /** Rows of one playlist go, the others are renumbered. */
    method RemoveRows(pid: string, victims: set<RowId>, ghost order: seq<RowId>, ghost rest: seq<Entry>)
      returns (ok: bool)
      requires Valid() && forall r :: r in victims ==> r in rows && rows[r].playlist == pid
      modifies this`rows
      ensures Valid() && OnlyPlaylist(old(rows), rows, pid)
      ensures Ranked(old(rows) - victims, pid, order) && TracksOf(old(rows) - victims, order, rest) ==>
                ok && Represents(rows, pid, rest)
    {
      rows := rows - victims;
      ghost var t := rows;
      ok := Renumber(pid, order);
      if Ranked(t, pid, order) && TracksOf(t, order, rest) {
        TracksAfterRenumber(t, rows, pid, order, rest);
      }
    }

    /** Delete: the tracks at the given positions go, the others keep their order and are renumbered. */
    method Delete(pid: string, ids: set<int>, ghost s: seq<Entry>) returns (ok: bool)
      requires Valid()
      modifies this`rows
      ensures Valid() && OnlyPlaylist(old(rows), rows, pid)
      ensures Represents(old(rows), pid, s) ==> ok && Represents(rows, pid, DropAt(s, ids))
    {
      var victims := set r | r in rows && rows[r].playlist == pid && rows[r].pos in ids;
      ghost var order := [];
      if Represents(rows, pid, s) {
        order := DeletionOrder(rows, pid, s, victims, ids);
      }
      ok := RemoveRows(pid, victims, order, DropAt(s, ids));
    }

    /** DeleteAll. */
    method DeleteAll(pid: string) returns (ok: bool)
      requires Valid()
      modifies this`rows
      ensures Valid() && OnlyPlaylist(old(rows), rows, pid)
      ensures ok && Represents(rows, pid, [])
    {
      rows := rows - set r | r in rows && rows[r].playlist == pid;
      ok := Renumber(pid, []);
      EmptyPlaylist(rows, pid);
    }

    method MoveListed(pid: string, pos: int, newPos: int, ghost order: seq<RowId>, ghost s: seq<Entry>)
      returns (ok: bool)
      requires Valid()
      modifies this`rows
      ensures Valid() && SameRows(old(rows), rows, pid)
      ensures MovesTracks(old(rows), rows, pid, order, s, pos, newPos, ok)
    {
      ok := Reorder(pid, pos, newPos, order);
      ListMoveMovesTracks(old(rows), rows, pid, order, s, pos, newPos, ok);
    }

    /** The track move, read as lists of tracks. */
    method Move(pid: string, pos: int, newPos: int, ghost s: seq<Entry>) returns (ok: bool)
      requires Valid()
      modifies this`rows
      ensures Valid() && OnlyPlaylist(old(rows), rows, pid)
      ensures Represents(old(rows), pid, s) && 1 <= pos <= |s| < 999999 && 1 <= newPos <= |s| ==>
                ok && Represents(rows, pid, Moved(s, pos - 1, newPos - 1))
    {
      ghost var order := [];
      if Represents(rows, pid, s) {
        order := ListedOrder(rows, pid, s);
      }
      ok := MoveListed(pid, pos, newPos, order, s);
    }

    /** One row of an INSERT, checked against UNIQUE. */
    method Insert(pid: string, pos: int, e: Entry, ghost s: seq<Entry>) returns (ok: bool)
      requires Valid()
      modifies this
      ensures Valid() && OnlyPlaylist(old(rows), rows, pid)
      ensures ok <==> !PositionTaken(old(rows), pid, pos)
      ensures Represents(old(rows), pid, s) && pos == |s| + 1 ==> ok && Represents(rows, pid, s + [e])
    {
      ok := !PositionTaken(rows, pid, pos);
      if Represents(rows, pid, s) && pos == |s| + 1 {
        EndIsFree(rows, pid, s);
        Appended(rows, pid, s, nextRow, e);
      }
      if ok {
        rows := rows[nextRow := Row(pid, pos, e)];
        nextRow := nextRow + 1;
      }
    }

    /** max(id) of the playlist, 0 when it has no rows. */
    method MaxPosition(pid: string, ghost s: seq<Entry>) returns (m: int)
      ensures Represents(rows, pid, s) ==> m == |s|
    {
      m := 0;
      var todo := set r | r in rows && rows[r].playlist == pid;
      ghost var mine := todo;
      var found := false;
      while todo != {}
        invariant todo <= mine
        invariant found <==> todo != mine
        invariant found ==> exists r :: r in mine - todo && rows[r].pos == m
        invariant found ==> forall r :: r in mine - todo ==> rows[r].pos <= m
        invariant !found ==> m == 0
        decreases todo
      {
        var r :| r in todo;
        if !found || m < rows[r].pos {
          m := rows[r].pos;
        }
        found, todo := true, todo - {r};
        assert r in mine - todo;
      }
      if Represents(rows, pid, s) {
        MaxIsLength(rows, pid, OrderOf(rows, pid, s), m, mine);
      }
    }

    /** addTracks: chunk by chunk, one position after another. */
    method AddTracks(pid: string, start: int, ids: seq<string>, ghost s: seq<Entry>) returns (ok: bool)
      requires Valid()
      modifies this
      ensures Valid() && OnlyPlaylist(old(rows), rows, pid)
      ensures Represents(old(rows), pid, s) && start == |s| + 1 ==>
                ok && Represents(rows, pid, s + MusicEntries(ids))
    {
      ok := true;
      var pos, i := start, 0;
      assert s + MusicEntries(ids[..0]) == s;
      while i < |ids|
        invariant i <= |ids| && pos == start + i && Valid() && OnlyPlaylist(old(rows), rows, pid)
        invariant Represents(old(rows), pid, s) && start == |s| + 1 ==> Represents(rows, pid, s + MusicEntries(ids[..i]))
        invariant ok
      {
        var end := Min(i + 200, |ids|);
        while i < end
          invariant i <= end <= |ids| && pos == start + i && Valid() && OnlyPlaylist(old(rows), rows, pid)
          invariant Represents(old(rows), pid, s) && start == |s| + 1 ==>
                      Represents(rows, pid, s + MusicEntries(ids[..i]))
        {
          assert s + MusicEntries(ids[..i + 1]) == s + MusicEntries(ids[..i]) + [Entry(Music, ids[i], "")];
          ok := Insert(pid, pos, Entry(Music, ids[i], ""), s + MusicEntries(ids[..i]));
          if !ok { return; }
          pos, i := pos + 1, i + 1;
        }
      }
      assert ids[..|ids|] == ids;
    }

    /** Add: append songs after the last position. */
    method Add(pid: string, ids: seq<string>, ghost s: seq<Entry>) returns (ok: bool)
      requires Valid()
      modifies this
      ensures Valid() && OnlyPlaylist(old(rows), rows, pid)
      ensures Represents(old(rows), pid, s) ==> ok && Represents(rows, pid, s + MusicEntries(ids))
    {
      if ids == [] {
        assert s + MusicEntries(ids) == s;
        return true;
      }
      var m := MaxPosition(pid, s);
      ok := AddTracks(pid, m + 1, ids, s);
    }

    /** AddEntries: append songs and videos after the last position. */
    method AddEntries(pid: string, requests: seq<Request>, ghost s: seq<Entry>) returns (ok: bool)
      requires Valid()
      modifies this
      ensures Valid() && OnlyPlaylist(old(rows), rows, pid)
      ensures Represents(old(rows), pid, s) ==> ok && Represents(rows, pid, s + RequestEntries(requests))
    {
      var m := MaxPosition(pid, s);
      ok := true;
      var pos := m + 1;
      assert s + RequestEntries(requests[..0]) == s;
      for i := 0 to |requests|
        invariant pos == m + 1 + i && Valid() && OnlyPlaylist(old(rows), rows, pid) && ok
        invariant Represents(old(rows), pid, s) ==> Represents(rows, pid, s + RequestEntries(requests[..i]))
      {
        assert s + RequestEntries(requests[..i + 1]) == s + RequestEntries(requests[..i]) + [requests[i].ToEntry()];
        ok := Insert(pid, pos, requests[i].ToEntry(), s + RequestEntries(requests[..i]));
        if !ok { return; }
        pos := pos + 1;
      }
      assert requests[..|requests|] == requests;
    }

    /** updatePlaylist: replace the whole list. */
    method Replace(pid: string, ids: seq<string>) returns (ok: bool)
      requires Valid()
      modifies this
      ensures Valid() && OnlyPlaylist(old(rows), rows, pid)
      ensures ok && Represents(rows, pid, MusicEntries(ids))
    {
      rows := rows - set r | r in rows && rows[r].playlist == pid;
      EmptyPlaylist(rows, pid);
      assert [] + MusicEntries(ids) == MusicEntries(ids);
      ok := AddTracks(pid, 1, ids, []);
    }

    /** The clean-up of one playlist inside removeOrphans. */
    method CleanPlaylist(pid: string, media: set<string>, ghost s: seq<Entry>) returns (ok: bool)
      requires Valid() && Represents(rows, pid, s)
      modifies this`rows
      ensures Valid() && OnlyPlaylist(old(rows), rows, pid)
      ensures ok && Represents(rows, pid, DropOrphans(s, media))
    {
      var victims := set r | r in rows && rows[r].playlist == pid && Orphan(rows[r].entry, media);
      ghost var order := OrphanOrder(rows, pid, s, victims, media);
      ok := RemoveRows(pid, victims, order, DropOrphans(s, media));
    }

    method CleanStep(pid: string, media: set<string>, ghost lists: Catalog, ghost done: set<string>)
      returns (ok: bool)
      requires Valid() && Refines(rows, PartlyClean(lists, done, media)) && pid !in done
      modifies this`rows
      ensures Valid() && ok
      ensures Refines(rows, PartlyClean(lists, done + {pid}, media))
    {
      assert Get(PartlyClean(lists, done, media), pid) == Get(lists, pid);
      assert Represents(rows, pid, Get(PartlyClean(lists, done, media), pid));
      ok := CleanPlaylist(pid, media, Get(lists, pid));
      CleanedOne(old(rows), rows, pid, lists, done, media);
    }

    /** removeOrphans: every playlist that has an orphan, in any order. */
    method CleanAll(media: set<string>, ghost lists: Catalog) returns (ok: bool)
      requires Valid() && Refines(rows, lists)
      modifies this`rows
      ensures Valid() && ok
      ensures Refines(rows, Cleaned(lists, media))
    {
      var todo := Affected(rows, media);
      ghost var affected := todo;
      ok := true;
      assert PartlyClean(lists, affected - todo, media) == lists;
      while todo != {}
        invariant todo <= affected && Valid() && ok
        invariant Refines(rows, PartlyClean(lists, affected - todo, media))
        decreases todo
      {
        var pid :| pid in todo;
        ok := CleanStep(pid, media, lists, affected - todo);
        assert affected - (todo - {pid}) == affected - todo + {pid};
        todo := todo - {pid};
      }
      assert affected - todo == affected;
      AllCleaned(old(rows), rows, lists, media);
    }

    /** One operation refines its effect on the lists, and never fails. */
    method Perform(op: Op, ghost lists: Catalog) returns (ok: bool)
      requires Valid() && Refines(rows, lists) && InRange(lists, op)
      modifies this
      ensures Valid() && ok && Refines(rows, Step(lists, op))
    {
      ghost var was := rows;
      match op
      case RemoveOrphans(media) =>
        ok := CleanAll(media, lists);
      case _ =>
        ok := PerformOne(op, lists);
        RefinesAfter(was, rows, op.pid, lists, Get(Step(lists, op), op.pid));
    }

    method PerformOne(op: Op, ghost lists: Catalog) returns (ok: bool)
      requires Valid() && Refines(rows, lists) && InRange(lists, op) && !op.RemoveOrphans?
      modifies this
      ensures Valid() && ok && OnlyPlaylist(old(rows), rows, op.pid)
      ensures Represents(rows, op.pid, Get(Step(lists, op), op.pid))
    {
      ghost var s := Get(lists, op.pid);
      assert Represents(rows, op.pid, s);
      match op
      case AddSongs(pid, ids) => ok := Add(pid, ids, s);
      case AddMixed(pid, requests) => ok := AddEntries(pid, requests, s);
      case DeleteAt(pid, positions) => ok := Delete(pid, positions, s);
      case Clear(pid) => ok := DeleteAll(pid);
      case MoveTrack(pid, pos, newPos) => ok := Move(pid, pos, newPos, s);
      case ReplaceAll(pid, ids) => ok := Replace(pid, ids);
    }

    /** Over any run, positions stay exactly 1..n and the table refines the lists. */
    method Run(ops: seq<Op>, ghost lists: Catalog)
      requires Valid() && Refines(rows, lists) && RunInRange(lists, ops)
      modifies this
      ensures Valid() && Refines(rows, RunOn(lists, ops))
    {
      ghost var now := lists;
      var i := 0;
      while i < |ops|
        invariant i <= |ops| && Valid() && Refines(rows, now)
        invariant RunInRange(now, ops[i..]) && RunOn(now, ops[i..]) == RunOn(lists, ops)
      {
        assert ops[i..][0] == ops[i] && ops[i..][1..] == ops[i + 1..];
        var ok := Perform(ops[i], now);
        now := Step(now, ops[i]);
        i := i + 1;
      }
    }
  }
}
