/**
  What one committed feedback event does, as tables over the item's outcome before and the
  event: the outcome after, the counters it moves, the binding it makes, and what becomes of
  a discovery.
 */
module RadioLaws {
  import opened Prelude
  import opened RadioFeedback

  /** The delivery takes effect; it is not a repeat of a logged event. */
  ghost predicate Commits(s: Store, d: Delivery) {
    Feedback(s, d).Ok? && !Feedback(s, d).value.1.duplicate
  }

  /** Heard for less than half a minute, and than a fifth of the recording where its length is known. */
  predicate HeardTooLittle(item: Item, req: Request) {
    var heard := if item.listened < req.listened then req.listened else item.listened;
    var length := if item.duration < req.duration then req.duration else item.duration;
    heard < 30000 && (length > 0 ==> heard < length / 5)
  }

  /** The outcome table. */
  function OutcomeFor(was: Playback, event: Event, tooLittle: bool): Playback {
    match event
    case WasStarted => if was == Unplayed then Started else was
    case ThresholdReached => if was == Unplayed || was == Started || was == EarlySkip then Accepted else was
    case WasCompleted => Completed
    case WasKept => if was == Completed then Completed else Keep
    case ManualSkip =>
      (match was
       case Unplayed => if tooLittle then EarlySkip else LateSkip
       case Started => if tooLittle then EarlySkip else LateSkip
       case EarlySkip => if tooLittle then EarlySkip else LateSkip
       case Accepted => LateSkip
       case LateSkip => LateSkip
       case Keep => Keep
       case Completed => Completed)
    case OtherEvent(_) => was
  }

  /** A committed event leaves its item with the outcome of the table, and is applied when that is a new one. */
  lemma OutcomeAfter(s: Store, d: Delivery)
    requires Commits(s, d)
    ensures d.request.item in s.items && d.request.item in Deliver(s, d).items
    ensures var item, item', reply := s.items[d.request.item], Deliver(s, d).items[d.request.item], Feedback(s, d).value.1;
            && item'.outcome == OutcomeFor(item.outcome, d.request.event, HeardTooLittle(item, d.request))
            && reply.item == item' && (reply.applied <==> item'.outcome != item.outcome)
  {
    CommittedParts(s, d);
  }

  /** It also keeps the longest listening data, marks the item as played and dates the feedback; other items stay. */
  lemma ListeningAfter(s: Store, d: Delivery)
    requires Commits(s, d)
    ensures d.request.item in s.items && Deliver(s, d).items.Keys == s.items.Keys
    ensures var req := d.request;
            var item, item' := s.items[req.item], Deliver(s, d).items[req.item];
            && item'.listened >= item.listened && item'.listened >= req.listened
            && (item'.listened == item.listened || item'.listened == req.listened)
            && item'.duration >= item.duration && item'.duration >= req.duration
            && (item'.duration == item.duration || item'.duration == req.duration)
            && item'.played && item'.lastFeedback == Some(d.now)
    ensures forall id :: id in s.items && id != d.request.item ==> Deliver(s, d).items[id] == s.items[id]
  {
    CommittedParts(s, d);
  }

  // ---------------------------------------------------------------- refusals

  /** When an event is refused, and how; nothing else can go wrong but the database. */
  lemma RefusedWhen(s: Store, d: Delivery)
    ensures var req := d.request;
            var known := req.item in s.items && s.items[req.item].session == d.session &&
                         d.session in s.owner && s.owner[d.session] == d.user;
            var logged := req.eventId != EMPTY && (d.user, req.eventId) in s.events;
            && (Feedback(s, d) == Err(NotFound) <==>
                !known || (!logged && s.items[req.item].discovery && s.items[req.item].mbid != EMPTY &&
                           (d.user, s.items[req.item].mbid) !in s.discoveries))
            && (Feedback(s, d) == Err(EventConflict) <==>
                known && logged && s.events[(d.user, req.eventId)] != LogRow(d.session, req))
            && (Feedback(s, d).Err? ==> Feedback(s, d).error == NotFound || Feedback(s, d).error == EventConflict)
  {
  }

  // ---------------------------------------------------------------- the counters of a recording

  function TrackAt(s: Store, k: (Text, Text)): TrackCounts {
    if k in s.tracks then s.tracks[k] else TrackCounts(0, 0, 0, 0)
  }

  /** The counters after one event: a new outcome is one judgement; otherwise a restarted discovery counts as kept. */
  function TrackFor(c: TrackCounts, changed: bool, outcome: Playback, restarted: bool): TrackCounts {
    if changed && (outcome == Accepted || outcome == Keep) then TrackCounts(c.positive + 1, c.completed, c.neutral, c.early)
    else if changed && outcome == Completed then TrackCounts(c.positive + 1, c.completed + 1, c.neutral, c.early)
    else if changed && outcome == LateSkip then TrackCounts(c.positive, c.completed, c.neutral + 1, c.early)
    else if changed && outcome == EarlySkip then TrackCounts(c.positive, c.completed, c.neutral, c.early + 1)
    else if restarted then TrackCounts(c.positive + 1, c.completed, c.neutral, c.early)
    else c
  }

  /** A further start of a discovery. */
  predicate Restarts(s: Store, d: Delivery, item: Item) {
    && item.discovery && d.request.event == WasStarted && (d.user, item.mbid) in s.discoveries
    && s.discoveries[(d.user, item.mbid)].playStarts >= 1
  }

  lemma JudgementTable(c: TrackCounts, item: Item, applied: bool, restarted: bool)
    ensures TrackFor(c, applied, item.outcome, restarted) ==
            if (applied && CountsForTrack(item.outcome)) || restarted then Bumped(c, JudgedAs(item, applied)) else c
  {
  }

  lemma JudgedWhen(s: Store, d: Delivery, item: Item, item': Item, applied: bool)
    requires item'.mbid == item.mbid && item'.discovery == item.discovery
    ensures SidesJudge(s, d, item', applied) <==>
            item.mbid != EMPTY && ((applied && CountsForTrack(item'.outcome)) || Restarts(s, d, item))
  {
  }

  lemma TrackRowAfter(s: Store, d: Delivery, k: (Text, Text))
    requires Commits(s, d)
    ensures d.request.item in s.items
    ensures var item := s.items[d.request.item];
            var item', applied := Updated(s, d.session, d.request, d.now), Applies(item, d.request);
            TrackRow(Deliver(s, d), k) ==
            if k == (d.user, item.mbid) && SidesJudge(s, d, item', applied)
            then Bumped(TrackRow(s, k), JudgedAs(item', applied)) else TrackRow(s, k)
  {
    CommittedTracks(s, d);
    UpdatedIdentity(s, d);
  }

  /** Which counters move: one judgement of the item's recording, or none. */
  lemma TrackAfter(s: Store, d: Delivery, k: (Text, Text))
    requires Commits(s, d)
    ensures d.request.item in s.items && d.request.item in Deliver(s, d).items
    ensures var item, item' := s.items[d.request.item], Deliver(s, d).items[d.request.item];
            TrackAt(Deliver(s, d), k) ==
            if k != (d.user, item.mbid) || item.mbid == EMPTY then TrackAt(s, k)
            else TrackFor(TrackAt(s, k), item'.outcome != item.outcome, item'.outcome, Restarts(s, d, item))
  {
    WrittenItem(s, d);
    OutcomeAfter(s, d);
    UpdatedIdentity(s, d);
    var item, item' := s.items[d.request.item], Updated(s, d.session, d.request, d.now);
    var applied := Applies(item, d.request);
    AppliedWhen(s, d);
    TrackRowAfter(s, d, k);
    JudgedWhen(s, d, item, item', applied);
    JudgementTable(TrackRow(s, k), item', applied, Restarts(s, d, item));
    assert TrackAt(s, k) == TrackRow(s, k) && TrackAt(Deliver(s, d), k) == TrackRow(Deliver(s, d), k);
  }

  lemma AppliedWhen(s: Store, d: Delivery)
    requires d.request.item in s.items
    ensures Applies(s.items[d.request.item], d.request) <==>
            Updated(s, d.session, d.request, d.now).outcome != s.items[d.request.item].outcome
  {
  }

  // ---------------------------------------------------------------- transitions

  /** What identifies a track: its recording where known, else its file. */
  function IdentityOf(item: Item): Key {
    if item.mbid == EMPTY then (if item.mediaFile == EMPTY then NoKey else MediaKey(item.mediaFile)) else MbidKey(item.mbid)
  }

  function CountersAt(s: Store, key: TransitionKey): Counters {
    if key in s.transitions then s.transitions[key] else Counters(0, 0, 0, 0, 0, 0)
  }

  function One(b: bool): nat { if b then 1 else 0 }

  /** What one event adds: an attempt when it binds the item, and one for a new outcome. */
  function Added(item: Item, item': Item): Counters {
    var changed := item'.outcome != item.outcome;
    Counters(attempts := One(item.sourceKey == NoKey && item'.sourceKey != NoKey),
             early := One(changed && item'.outcome == EarlySkip), accepted := One(changed && item'.outcome == Accepted),
             neutral := One(changed && item'.outcome == LateSkip), keep := One(changed && item'.outcome == Keep),
             completed := One(changed && item'.outcome == Completed))
  }

  lemma AddedIs(s: Store, d: Delivery)
    requires d.request.item in s.items
    ensures Delta(s, d.session, d.request, d.now) == Added(s.items[d.request.item], Updated(s, d.session, d.request, d.now))
  {
    BindingCounts(s, d);
  }

  lemma RowMoves(s: Store, s': Store, user: Text, id: ItemId, item': Item, add: Counters, key: TransitionKey)
    requires Changed(s, s', user, id, item', add)
    ensures Row(s', key) == if IsKey(key, user, item') then Row(s, key).Plus(add) else Row(s, key)
  {
    if IsKey(key, user, item') {
      OwnRowGrows(s, s', user, id, item', add, key);
    } else {
      OtherRowStays(s, s', user, id, item', add, key);
    }
  }

  lemma RowIs(s: Store, key: TransitionKey)
    ensures Row(s, key) == CountersAt(s, key)
  {
  }

  lemma SameIdentityKey(a: Item, b: Item)
    requires SameIdentity(a, b)
    ensures TrackKey(b) == IdentityOf(a)
  {
  }

  lemma WrittenItem(s: Store, d: Delivery)
    requires Commits(s, d)
    ensures d.request.item in s.items && d.request.item in Deliver(s, d).items
    ensures var item, item' := s.items[d.request.item], Deliver(s, d).items[d.request.item];
            item' == Updated(s, d.session, d.request, d.now) && TrackKey(item') == IdentityOf(item)
  {
    CommittedParts(s, d);
    UpdatedIdentity(s, d);
    SameIdentityKey(s.items[d.request.item], Updated(s, d.session, d.request, d.now));
  }

  lemma TransitionRow(s: Store, d: Delivery, key: TransitionKey)
    requires Commits(s, d)
    ensures d.request.item in s.items && d.request.item in Deliver(s, d).items
    ensures var item, item' := s.items[d.request.item], Deliver(s, d).items[d.request.item];
            && TrackKey(item') == IdentityOf(item)
            && Row(Deliver(s, d), key) ==
               if IsKey(key, d.user, item') then Row(s, key).Plus(Added(item, item')) else Row(s, key)
  {
    WrittenItem(s, d);
    DeliveryChanges(s, d);
    AddedIs(s, d);
    RowMoves(s, Deliver(s, d), d.user, d.request.item, Updated(s, d.session, d.request, d.now),
             Delta(s, d.session, d.request, d.now), key);
  }

  function Sum(c: Counters, add: Counters): Counters {
    Counters(c.attempts + add.attempts, c.early + add.early, c.accepted + add.accepted,
             c.neutral + add.neutral, c.keep + add.keep, c.completed + add.completed)
  }

  /** The row that an item's counts go to: that of its source and itself. */
  predicate OwnRow(key: TransitionKey, user: Text, item: Item, item': Item) {
    item'.sourceKey != NoKey && key == TransitionKey(user, item'.sourceKey, IdentityOf(item))
  }

  lemma OwnKey(key: TransitionKey, user: Text, item: Item, item': Item)
    requires TrackKey(item') == IdentityOf(item)
    ensures IsKey(key, user, item') <==> OwnRow(key, user, item, item')
  {
  }

  /** Only the row of the item's own source and target moves: by a new binding and by the new outcome. */
  lemma TransitionAfter(s: Store, d: Delivery, key: TransitionKey)
    requires Commits(s, d)
    ensures d.request.item in s.items && d.request.item in Deliver(s, d).items
    ensures var item, item' := s.items[d.request.item], Deliver(s, d).items[d.request.item];
            CountersAt(Deliver(s, d), key) ==
            if OwnRow(key, d.user, item, item') then Sum(CountersAt(s, key), Added(item, item')) else CountersAt(s, key)
  {
    TransitionRow(s, d, key);
    OwnKey(key, d.user, s.items[d.request.item], Deliver(s, d).items[d.request.item]);
    RowIs(s, key);
    RowIs(Deliver(s, d), key);
  }

  // ---------------------------------------------------------------- binding

  /** A candidate source: another item of the session that was accepted, finished, kept or skipped late. */
  predicate MaySource(s: Store, d: Delivery, a: ItemId) {
    && a in s.items && a != d.request.item && s.items[a].session == d.session && s.items[a].lastFeedback.Some?
    && (s.items[a].outcome == Accepted || s.items[a].outcome == LateSkip ||
        s.items[a].outcome == Keep || s.items[a].outcome == Completed)
  }

  /** The candidate with the latest feedback, and of those with the same date the one with the largest id. */
  ghost predicate LatestSource(s: Store, d: Delivery, a: ItemId) {
    && MaySource(s, d, a)
    && forall b :: b in s.items && MaySource(s, d, b) ==>
         s.items[b].lastFeedback.value < s.items[a].lastFeedback.value ||
         (s.items[b].lastFeedback.value == s.items[a].lastFeedback.value && b <= a)
  }

  lemma LatestIsAnchor(s: Store, d: Delivery, a: ItemId)
    ensures LatestSource(s, d, a) <==> IsAnchor(s, d.session, d.request.item, a)
  {
    assert forall b :: MaySource(s, d, b) <==> CanAnchor(s, d.session, d.request.item, b);
  }

  /**
    An item becomes bound exactly on a start, when it is not bound yet and can be identified,
    and the latest source can be too; it is bound to that source.
   */
  lemma BindingAfter(s: Store, d: Delivery, a: ItemId)
    requires Commits(s, d)
    ensures d.request.item in s.items && d.request.item in Deliver(s, d).items
    ensures var item, item' := s.items[d.request.item], Deliver(s, d).items[d.request.item];
            var binds := d.request.event == WasStarted && item.sourceKey == NoKey && IdentityOf(item) != NoKey;
            && (binds && LatestSource(s, d, a) && IdentityOf(s.items[a]) != NoKey ==>
                item'.sourceItem == Some(a) && item'.sourceKey == IdentityOf(s.items[a]))
            && (!binds || (LatestSource(s, d, a) && IdentityOf(s.items[a]) == NoKey) ||
                (forall b :: b in s.items ==> !MaySource(s, d, b)) ==>
                item'.sourceItem == item.sourceItem && item'.sourceKey == item.sourceKey)
  {
    CommittedParts(s, d);
    LatestIsAnchor(s, d, a);
    if LatestSource(s, d, a) {
      AnchorFound(s, d.session, d.request.item, a);
    } else if forall b :: b in s.items ==> !MaySource(s, d, b) {
      forall b ensures !IsAnchor(s, d.session, d.request.item, b) {
        LatestIsAnchor(s, d, b);
      }
    }
  }

  // ---------------------------------------------------------------- discoveries

  /**
    The discovery of the item's recording: the second and every later start keeps it, and so
    does every event that gives the item a new outcome, except an early skip, which leaves it
    to be deleted.  Other rows stay.
   */
  lemma DiscoveryAfter(s: Store, d: Delivery)
    requires Commits(s, d)
    ensures d.request.item in s.items && d.request.item in Deliver(s, d).items
    ensures var s', item, item' := Deliver(s, d), s.items[d.request.item], Deliver(s, d).items[d.request.item];
            var k, changed := (d.user, item.mbid), item'.outcome != item.outcome;
            var early := d.request.event == ManualSkip && changed && item'.outcome == EarlySkip;
            if !item.discovery || item.mbid == EMPTY then s'.discoveries == s.discoveries && !Feedback(s, d).value.1.deletePending
            else
              && k in s.discoveries
              && var row := s.discoveries[k];
                 && (Feedback(s, d).value.1.deletePending <==> early)
                 && s'.discoveries == s.discoveries[k :=
                      if d.request.event == WasStarted then
                        (if row.playStarts >= 1 then Discovery(Kept, row.playStarts + 1, None)
                         else Discovery(row.state, row.playStarts + 1, row.expires))
                      else if !changed then row
                      else if early then Discovery(DeletePending, row.playStarts, row.expires)
                      else Discovery(Kept, row.playStarts, None)]
  {
    CommittedParts(s, d);
    CommittedDiscovery(s, d);
    OutcomeAfter(s, d);
  }
}
