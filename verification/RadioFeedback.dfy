/**
  Personal-radio feedback: an idempotent event log that drives a per-item outcome, the
  source-to-target transition counters, per-recording counters and the discovery lifecycle,
  all inside one transaction.

  Texts (user, session, event, recording and file ids, already normalised) are named by
  numbers, the empty text by EMPTY; item ids are numbers so that "order by id" is total.
 */
module RadioFeedback {
  import opened Prelude

  type Text = nat

  const EMPTY: Text := 0

  type ItemId = nat

  datatype Playback = Unplayed | Started | EarlySkip | Accepted | LateSkip | Keep | Completed {
    /** The strict order in which an item's outcome can only rise. */
    function Level(): nat {
      match this
      case Unplayed => 0
      case Started => 1
      case EarlySkip => 2
      case Accepted => 3
      case LateSkip => 4
      case Keep => 5
      case Completed => 6
    }

    /** playbackOutcomeRank: late skip and keep share a rank. */
    function Rank(): nat {
      match this
      case Unplayed => 0
      case Started => 1
      case EarlySkip => 2
      case Accepted => 3
      case LateSkip => 4
      case Keep => 4
      case Completed => 5
    }

    predicate IsAccepted() {
      Accepted? || Completed? || LateSkip? || Keep?
    }
  }

  datatype Event = WasStarted | ThresholdReached | WasCompleted | ManualSkip | WasKept | OtherEvent(name: Text)

  datatype Key = NoKey | MbidKey(mbid: Text) | MediaKey(mediaFile: Text)

  datatype Item = Item(
    session: Text, discovery: bool, mediaFile: Text, mbid: Text,
    played: bool, outcome: Playback, listened: int, duration: int,
    sourceItem: Option<ItemId>, sourceKey: Key, lastFeedback: Option<int>)

  datatype Request = Request(eventId: Text, item: ItemId, event: Event, listened: int, duration: int)

  datatype LogRow = LogRow(session: Text, request: Request)

  datatype Counters = Counters(attempts: nat, early: nat, accepted: nat, neutral: nat, keep: nat, completed: nat) {
    /** The counter that an item feeds when it is bound (0) or reaches a level. */
    function At(level: nat): nat {
      if level == 0 then attempts
      else if level == 2 then early
      else if level == 3 then accepted
      else if level == 4 then neutral
      else if level == 5 then keep
      else if level == 6 then completed
      else 0
    }

    function Plus(d: Counters): Counters {
      Counters(attempts + d.attempts, early + d.early, accepted + d.accepted, neutral + d.neutral,
               keep + d.keep, completed + d.completed)
    }
  }

  const ZERO := Counters(0, 0, 0, 0, 0, 0)

  datatype TrackCounts = TrackCounts(positive: nat, completed: nat, neutral: nat, early: nat)

  datatype DiscoveryState = Temporary | Kept | DeletePending | Deleted

  datatype Discovery = Discovery(state: DiscoveryState, playStarts: int, expires: Option<int>)

  datatype TransitionKey = TransitionKey(user: Text, source: Key, target: Key)

  datatype Store = Store(
    owner: map<Text, Text>,
    items: map<ItemId, Item>,
    events: map<(Text, Text), LogRow>,
    transitions: map<TransitionKey, Counters>,
    tracks: map<(Text, Text), TrackCounts>,
    discoveries: map<(Text, Text), Discovery>)

  datatype Error = NotFound | EventConflict | Validation | Busy | OtherFailure

  datatype Reply = Reply(item: Item, applied: bool, duplicate: bool, deletePending: bool)

  /** One delivery of a request: who sent it, to which session, and when it arrived. */
  datatype Delivery = Delivery(user: Text, session: Text, request: Request, now: int)

  // ---------------------------------------------------------------- outcome of one event

  /** RadioTrackKey: "mbid:..." or "media:..." text, or nothing to identify the track by. */
  function TrackKey(item: Item): Key {
    if item.mbid != EMPTY then MbidKey(item.mbid)
    else if item.mediaFile != EMPTY then MediaKey(item.mediaFile)
    else NoKey
  }

  function EarlySkipThreshold(duration: int): int {
    if duration <= 0 then 30000 else Min(30000, duration / 5)
  }

  /** The counters one applied outcome adds; starting adds none. */
  function DeltaFor(outcome: Playback): Counters {
    match outcome
    case EarlySkip => ZERO.(early := 1)
    case Accepted => ZERO.(accepted := 1)
    case LateSkip => ZERO.(neutral := 1)
    case Keep => ZERO.(keep := 1)
    case Completed => ZERO.(completed := 1)
    case _ => ZERO
  }

  /** radioPlaybackOutcome: the new outcome, or None when the event does not apply. */
  function NewOutcome(current: Playback, event: Event, listened: int, duration: int): Option<Playback> {
    match event
    case WasStarted => if current == Unplayed then Some(Started) else None
    case ThresholdReached => if current.Rank() < Accepted.Rank() then Some(Accepted) else None
    case WasCompleted => if current != Completed then Some(Completed) else None
    case ManualSkip =>
      if current == Completed || current == Keep || current == LateSkip then None
      else if current.IsAccepted() || listened >= EarlySkipThreshold(duration) then Some(LateSkip)
      else if current != EarlySkip then Some(EarlySkip)
      else None
    case WasKept => if current == Completed || current == Keep then None else Some(Keep)
    case OtherEvent(_) => None
  }

  /** Every applied event moves the item strictly up. */
  lemma OutcomeRises(current: Playback, event: Event, listened: int, duration: int)
    ensures NewOutcome(current, event, listened, duration).Some? ==>
              current.Level() < NewOutcome(current, event, listened, duration).value.Level()
  {
  }

  // ---------------------------------------------------------------- the anchor

  predicate CanAnchor(s: Store, session: Text, exclude: ItemId, id: ItemId) {
    && id in s.items && id != exclude && s.items[id].session == session
    && s.items[id].outcome.IsAccepted() && s.items[id].lastFeedback.Some?
  }

  predicate NotLater(s: Store, a: ItemId, b: ItemId)
    requires a in s.items && b in s.items && s.items[a].lastFeedback.Some? && s.items[b].lastFeedback.Some?
  {
    var x, y := s.items[a].lastFeedback.value, s.items[b].lastFeedback.value;
    x < y || (x == y && a <= b)
  }

  /** recentAcceptedItemTx: the latest accepted item, the larger id on a tie. */
  predicate IsAnchor(s: Store, session: Text, exclude: ItemId, id: ItemId) {
    CanAnchor(s, session, exclude, id) &&
    forall other :: other in s.items && CanAnchor(s, session, exclude, other) ==> NotLater(s, other, id)
  }

  ghost function Anchor(s: Store, session: Text, exclude: ItemId): Option<ItemId> {
    if exists id :: IsAnchor(s, session, exclude, id) then
      var id :| IsAnchor(s, session, exclude, id);
      Some(id)
    else None
  }

  lemma AnchorIsUnique(s: Store, session: Text, exclude: ItemId, a: ItemId, b: ItemId)
    requires IsAnchor(s, session, exclude, a) && IsAnchor(s, session, exclude, b)
    ensures a == b
  {
    assert NotLater(s, a, b) && NotLater(s, b, a);
  }

  // ---------------------------------------------------------------- one transaction

  /** The item after the request's listening data and outcome, before any binding. */
  function Judged(item: Item, req: Request, now: int): Item {
    var touched := item.(played := true, listened := Max(item.listened, req.listened),
                         duration := Max(item.duration, req.duration), lastFeedback := Some(now));
    var outcome := NewOutcome(item.outcome, req.event, touched.listened, touched.duration);
    if outcome.Some? then touched.(outcome := outcome.value) else touched
  }

  predicate Applies(item: Item, req: Request) {
    NewOutcome(item.outcome, req.event, Max(item.listened, req.listened), Max(item.duration, req.duration)).Some?
  }

  /** The anchor to bind to: only on a start, only once, and only between identified tracks. */
  ghost function BindTo(s: Store, session: Text, req: Request, item: Item): Option<ItemId> {
    if req.event != WasStarted || item.sourceKey != NoKey || TrackKey(item) == NoKey then None
    else
      var anchor := Anchor(s, session, req.item);
      if anchor.Some? && anchor.value in s.items && TrackKey(s.items[anchor.value]) != NoKey then anchor else None
  }

  ghost function Updated(s: Store, session: Text, req: Request, now: int): Item
    requires req.item in s.items
  {
    var item := Judged(s.items[req.item], req, now);
    var anchor := BindTo(s, session, req, item);
    if anchor.Some? && anchor.value in s.items
    then item.(sourceItem := anchor, sourceKey := TrackKey(s.items[anchor.value]))
    else item
  }

  ghost function Delta(s: Store, session: Text, req: Request, now: int): Counters
    requires req.item in s.items
  {
    var item := s.items[req.item];
    var base := if Applies(item, req) then DeltaFor(Judged(item, req, now).outcome) else ZERO;
    if BindTo(s, session, req, Judged(item, req, now)).Some? then base.(attempts := 1) else base
  }

  function Row(s: Store, key: TransitionKey): Counters {
    if key in s.transitions then s.transitions[key] else ZERO
  }

  /** upsertRadioTransitionTx, skipped when the item is unbound or nothing was counted. */
  function WithTransition(s: Store, user: Text, item: Item, d: Counters): Store {
    if item.sourceKey == NoKey || d == ZERO then s
    else
      var key := TransitionKey(user, item.sourceKey, TrackKey(item));
      s.(transitions := s.transitions[key := Row(s, key).Plus(d)])
  }

  function Bumped(was: TrackCounts, event: Playback): TrackCounts {
    match event
    case Accepted => was.(positive := was.positive + 1)
    case Keep => was.(positive := was.positive + 1)
    case Completed => was.(positive := was.positive + 1, completed := was.completed + 1)
    case EarlySkip => was.(early := was.early + 1)
    case _ => was.(neutral := was.neutral + 1)
  }

  function TrackRow(s: Store, k: (Text, Text)): TrackCounts {
    if k in s.tracks then s.tracks[k] else TrackCounts(0, 0, 0, 0)
  }

  /** recordRadioTrackFeedback for one recording. */
  function WithTrack(s: Store, user: Text, mbid: Text, event: Playback): Store {
    s.(tracks := s.tracks[(user, mbid) := Bumped(TrackRow(s, (user, mbid)), event)])
  }

  predicate CountsForTrack(outcome: Playback) { outcome != Unplayed && outcome != Started }

  /** The discovery row after the event, and whether it is written at all. */
  function NewDiscovery(d: Discovery, event: Event, outcome: Playback, applied: bool): Discovery {
    match event
    case WasStarted =>
      var starts := d.playStarts + 1;
      if starts > 1 then Discovery(Kept, starts, None) else d.(playStarts := starts)
    case ThresholdReached | WasCompleted | WasKept => if applied then d.(state := Kept, expires := None) else d
    case ManualSkip =>
      if !applied then d
      else if outcome == EarlySkip then d.(state := DeletePending)
      else d.(state := Kept, expires := None)
    case OtherEvent(_) => d
  }

  function WithDiscovery(s: Store, user: Text, mbid: Text, d: Discovery, restarted: bool): Store {
    var s' := if restarted then WithTrack(s, user, mbid, Keep) else s;
    s'.(discoveries := s'.discoveries[(user, mbid) := d])
  }

  predicate Known(s: Store, d: Delivery) {
    && d.request.item in s.items && s.items[d.request.item].session == d.session
    && d.session in s.owner && s.owner[d.session] == d.user
  }

  predicate NeedsDiscovery(item: Item) { item.discovery && item.mbid != EMPTY }

  /** applyPlaybackFeedback on a store: the new store and reply, or an error that leaves no trace. */
  ghost function Feedback(s: Store, d: Delivery): Result<(Store, Reply), Error> {
    var req := d.request;
    if !Known(s, d) then Err(NotFound)
    else if req.eventId != EMPTY && (d.user, req.eventId) in s.events then
      if s.events[(d.user, req.eventId)] == LogRow(d.session, req)
      then Ok((s, Reply(s.items[req.item], false, true, false)))
      else Err(EventConflict)
    else if NeedsDiscovery(s.items[req.item]) && (d.user, s.items[req.item].mbid) !in s.discoveries then Err(NotFound)
    else
      var item := Updated(s, d.session, req, d.now);
      Ok((Committed(s, d), Reply(item, Applies(s.items[req.item], req), false,
                                 NeedsDiscovery(item) && Pending(s, d))))
  }

  /** Whether the event leaves the discovery waiting for deletion. */
  predicate Pending(s: Store, d: Delivery)
    requires d.request.item in s.items
  {
    d.request.event == ManualSkip && Applies(s.items[d.request.item], d.request) &&
    Judged(s.items[d.request.item], d.request, d.now).outcome == EarlySkip
  }

  ghost function Counted(s: Store, d: Delivery): Store
    requires d.request.item in s.items
  {
    var item := Updated(s, d.session, d.request, d.now);
    WithTransition(s.(items := s.items[d.request.item := item]), d.user, item, Delta(s, d.session, d.request, d.now))
  }

  function Tracked(s: Store, user: Text, item: Item, applied: bool): Store {
    if item.mbid != EMPTY && applied && CountsForTrack(item.outcome) then WithTrack(s, user, item.mbid, item.outcome) else s
  }

  function Discovered(s: Store, user: Text, item: Item, event: Event, applied: bool): Store
    requires NeedsDiscovery(item) ==> (user, item.mbid) in s.discoveries
  {
    if !NeedsDiscovery(item) then s
    else
      var row := s.discoveries[(user, item.mbid)];
      WithDiscovery(s, user, item.mbid, NewDiscovery(row, event, item.outcome, applied),
                    event == WasStarted && row.playStarts + 1 > 1)
  }

  function Recorded(s: Store, d: Delivery): Store {
    if d.request.eventId == EMPTY then s
    else s.(events := s.events[(d.user, d.request.eventId) := LogRow(d.session, d.request)])
  }

  ghost function Committed(s: Store, d: Delivery): Store
    requires d.request.item in s.items
    requires NeedsDiscovery(s.items[d.request.item]) ==> (d.user, s.items[d.request.item].mbid) in s.discoveries
  {
    WithSides(Counted(s, d), d, Updated(s, d.session, d.request, d.now), Applies(s.items[d.request.item], d.request))
  }

  /** Everything written after the item and its transition row. */
  function WithSides(s: Store, d: Delivery, item: Item, applied: bool): Store
    requires NeedsDiscovery(item) ==> (d.user, item.mbid) in s.discoveries
  {
    Recorded(Discovered(Tracked(s, d.user, item, applied), d.user, item, d.request.event, applied), d)
  }

  /** The event is on record for this user. */
  predicate Logged(s: Store, d: Delivery) {
    d.request.eventId != EMPTY && (d.user, d.request.eventId) in s.events
  }

  function NewReply(d: Delivery, item: Item, applied: bool): Reply {
    Reply(item, applied, false,
          NeedsDiscovery(item) && d.request.event == ManualSkip && applied && item.outcome == EarlySkip)
  }

  /** What an event not yet logged comes to, in terms of the item written first. */
  lemma NewFeedback(s: Store, d: Delivery, item: Item, applied: bool, s1: Store)
    requires Known(s, d) && !Logged(s, d)
    requires item == Updated(s, d.session, d.request, d.now) && applied == Applies(s.items[d.request.item], d.request)
    requires s1 == Counted(s, d)
    ensures NeedsDiscovery(item) && (d.user, item.mbid) !in s1.discoveries ==> Feedback(s, d) == Err(NotFound)
    ensures (NeedsDiscovery(item) ==> (d.user, item.mbid) in s1.discoveries) ==>
              Feedback(s, d) == Ok((WithSides(s1, d, item, applied), NewReply(d, item, applied)))
  {
    assert item.mbid == s.items[d.request.item].mbid && NeedsDiscovery(item) == NeedsDiscovery(s.items[d.request.item]);
    assert s1.discoveries == s.discoveries;
    assert item.outcome == Judged(s.items[d.request.item], d.request, d.now).outcome;
  }

  /** The store after a delivery; a failed transaction leaves it as it was. */
  ghost function Deliver(s: Store, d: Delivery): Store {
    var r := Feedback(s, d);
    if r.Ok? then r.value.0 else s
  }

  ghost function Replay(s: Store, log: seq<Delivery>): Store {
    if log == [] then s else Deliver(Replay(s, log[..|log| - 1]), log[|log| - 1])
  }

  // ---------------------------------------------------------------- what a delivery cannot change

  /** Items keep their identity; owners never change; logged events stay logged. */
  predicate Extends(s: Store, s': Store) {
    && s'.owner == s.owner && s'.items.Keys == s.items.Keys
    && (forall id :: id in s.items ==> SameIdentity(s.items[id], s'.items[id]))
    && (forall key :: key in s.events ==> key in s'.events && s'.events[key] == s.events[key])
  }

  predicate SameIdentity(a: Item, b: Item) {
    b.session == a.session && b.discovery == a.discovery && b.mediaFile == a.mediaFile && b.mbid == a.mbid
  }

  /** The per-recording counters and the discovery row touch nothing else. */
  lemma SideTables(s: Store, user: Text, item: Item, event: Event, applied: bool)
    requires NeedsDiscovery(item) ==> (user, item.mbid) in s.discoveries
    ensures Tracked(s, user, item, applied) == s.(tracks := Tracked(s, user, item, applied).tracks)
    ensures var s' := Discovered(s, user, item, event, applied);
            s' == s.(tracks := s'.tracks, discoveries := s'.discoveries)
  {
  }

  lemma CountedParts(s: Store, d: Delivery)
    requires d.request.item in s.items
    ensures Counted(s, d) == s.(items := s.items[d.request.item := Updated(s, d.session, d.request, d.now)],
                                transitions := Counted(s, d).transitions)
  {
  }

  /** What a committed delivery does to items, events and transitions, whatever else it writes. */
  lemma CommittedParts(s: Store, d: Delivery)
    requires Feedback(s, d).Ok? && !Feedback(s, d).value.1.duplicate
    ensures var s', req := Deliver(s, d), d.request;
            && s'.owner == s.owner
            && s'.items == s.items[req.item := Updated(s, d.session, req, d.now)]
            && s'.transitions == Counted(s, d).transitions
            && s'.events == if req.eventId == EMPTY then s.events
                            else s.events[(d.user, req.eventId) := LogRow(d.session, req)]
  {
    var item, applied := Updated(s, d.session, d.request, d.now), Applies(s.items[d.request.item], d.request);
    var s1 := Counted(s, d);
    CountedParts(s, d);
    SideTables(s1, d.user, item, d.request.event, applied);
    var s2 := Tracked(s1, d.user, item, applied);
    SideTables(s2, d.user, item, d.request.event, applied);
    assert Deliver(s, d) == WithSides(s1, d, item, applied);
  }

  lemma DeliverExtends(s: Store, d: Delivery)
    ensures Extends(s, Deliver(s, d))
  {
    if Feedback(s, d).Ok? && !Feedback(s, d).value.1.duplicate {
      CommittedParts(s, d);
      UpdatedIdentity(s, d);
      ExtendsFrom(s, Deliver(s, d), d, Updated(s, d.session, d.request, d.now));
    }
  }

  lemma UpdatedIdentity(s: Store, d: Delivery)
    requires d.request.item in s.items
    ensures SameIdentity(s.items[d.request.item], Updated(s, d.session, d.request, d.now))
  {
  }

  lemma ExtendsFrom(s: Store, s': Store, d: Delivery, item: Item)
    requires d.request.item in s.items && SameIdentity(s.items[d.request.item], item)
    requires s'.owner == s.owner && s'.items == s.items[d.request.item := item]
    requires s'.events == s.events ||
             (!Logged(s, d) && s'.events == s.events[(d.user, d.request.eventId) := LogRow(d.session, d.request)])
    requires d.request.eventId == EMPTY ==> s'.events == s.events
    ensures Extends(s, s')
  {
  }

  lemma ExtendsTransitive(a: Store, b: Store, c: Store)
    requires Extends(a, b) && Extends(b, c)
    ensures Extends(a, c)
  {
    forall id | id in a.items ensures SameIdentity(a.items[id], c.items[id]) {
      assert SameIdentity(a.items[id], b.items[id]) && SameIdentity(b.items[id], c.items[id]);
    }
  }

  lemma {:induction false} ReplayExtends(s: Store, log: seq<Delivery>)
    ensures Extends(s, Replay(s, log))
  {
    if log != [] {
      var n := |log| - 1;
      ReplayExtends(s, log[..n]);
      DeliverExtends(Replay(s, log[..n]), log[n]);
      ExtendsTransitive(s, Replay(s, log[..n]), Replay(s, log));
    }
  }

  lemma {:induction false} ReplayConcat(s: Store, a: seq<Delivery>, b: seq<Delivery>)
    ensures Replay(s, a + b) == Replay(Replay(s, a), b)
  {
    if b == [] {
      assert a + b == a;
    } else {
      var n := |b| - 1;
      ReplayConcat(s, a, b[..n]);
      var all := a + b;
      assert all[..|all| - 1] == a + b[..n] && all[|all| - 1] == b[n];
      assert Replay(s, all) == Deliver(Replay(s, a + b[..n]), b[n]);
    }
  }

  lemma ReplayOne(s: Store, d: Delivery)
    ensures Replay(s, [d]) == Deliver(s, d)
  {
    assert [d][..0] == [];
    assert Replay(s, []) == s;
  }

  // ---------------------------------------------------------------- idempotence

  predicate SameEvent(a: Delivery, b: Delivery) {
    a.user == b.user && a.request.eventId == b.request.eventId && a.request.eventId != EMPTY
  }

  /** A logged event id does nothing: the same contents are a duplicate, other contents a conflict. */
  lemma LoggedDoesNothing(s: Store, d: Delivery)
    requires Logged(s, d)
    ensures Deliver(s, d) == s
    ensures Known(s, d) ==>
              if s.events[(d.user, d.request.eventId)] == LogRow(d.session, d.request)
              then Feedback(s, d).Ok? && Feedback(s, d).value.1.duplicate
              else Feedback(s, d) == Err(EventConflict)
  {
  }

  lemma CommitLogs(s: Store, d: Delivery)
    requires d.request.eventId != EMPTY && Feedback(s, d).Ok?
    ensures Logged(Deliver(s, d), d)
    ensures Deliver(s, d).events[(d.user, d.request.eventId)] == LogRow(d.session, d.request)
  {
    if !Feedback(s, d).value.1.duplicate {
      CommittedParts(s, d);
    }
  }

  /**
    Once d is committed, delivering its event id again, with any contents and at any later
    point, leaves the final state as if that delivery had not happened.
   */
  lemma RedeliveryIsHarmless(s: Store, before: seq<Delivery>, d: Delivery, between: seq<Delivery>, again: Delivery,
                             after: seq<Delivery>)
    requires SameEvent(d, again) && Feedback(Replay(s, before), d).Ok?
    ensures Replay(s, before + [d] + between + [again] + after) == Replay(s, before + [d] + between + after)
    ensures var state := Replay(s, before + [d] + between);
            if again.session == d.session && again.request == d.request
            then Feedback(state, again).Ok? && Feedback(state, again).value.1.duplicate
            else Feedback(state, again).Err?
  {
    var head := before + [d] + between;
    var state := Replay(s, head);
    LoggedAfter(s, before, d, between);
    LoggedDoesNothing(state, again);
    ReplayConcat(s, head, [again]);
    ReplayOne(state, again);
    ReplayConcat(s, head + [again], after);
    ReplayConcat(s, head, after);
    KnownAfter(s, before, d, between, again);
  }

  lemma LoggedAfter(s: Store, before: seq<Delivery>, d: Delivery, between: seq<Delivery>)
    requires d.request.eventId != EMPTY && Feedback(Replay(s, before), d).Ok?
    ensures var state := Replay(s, before + [d] + between);
            Logged(state, d) && state.events[(d.user, d.request.eventId)] == LogRow(d.session, d.request)
  {
    ReplayConcat(s, before, [d]);
    ReplayOne(Replay(s, before), d);
    CommitLogs(Replay(s, before), d);
    ReplayConcat(s, before + [d], between);
    ReplayExtends(Replay(s, before + [d]), between);
  }

  lemma KnownAfter(s: Store, before: seq<Delivery>, d: Delivery, between: seq<Delivery>, again: Delivery)
    requires SameEvent(d, again) && Feedback(Replay(s, before), d).Ok?
    ensures again.session == d.session && again.request == d.request ==> Known(Replay(s, before + [d] + between), again)
  {
    var mid := Replay(s, before);
    ReplayExtends(mid, [d] + between);
    ReplayConcat(s, before, [d] + between);
    assert before + ([d] + between) == before + [d] + between;
    if again.session == d.session && again.request == d.request {
      var id := d.request.item;
      assert Known(mid, d) && SameIdentity(mid.items[id], Replay(mid, [d] + between).items[id]);
    }
  }

  /** The log without the deliveries whose event id was already committed when they arrived. */
  ghost function WithoutRepeats(s: Store, log: seq<Delivery>): seq<Delivery> {
    if log == [] then []
    else
      var n := |log| - 1;
      WithoutRepeats(s, log[..n]) + (if Logged(Replay(s, log[..n]), log[n]) then [] else [log[n]])
  }

  /** Dropping every repeat from a log of deliveries does not change where it ends. */
  lemma {:induction false} RepeatsRemoved(s: Store, log: seq<Delivery>)
    ensures Replay(s, log) == Replay(s, WithoutRepeats(s, log))
  {
    if log != [] {
      var n := |log| - 1;
      RepeatsRemoved(s, log[..n]);
      var state := Replay(s, log[..n]);
      if Logged(state, log[n]) {
        LoggedDoesNothing(state, log[n]);
        assert WithoutRepeats(s, log) == WithoutRepeats(s, log[..n]);
      } else {
        ReplayConcat(s, WithoutRepeats(s, log[..n]), [log[n]]);
        ReplayOne(state, log[n]);
      }
    }
  }

  /** An event is on record exactly when it was there at first or some delivery of it committed. */
  lemma {:induction false} LoggedIff(s: Store, log: seq<Delivery>, d: Delivery)
    requires d.request.eventId != EMPTY
    ensures Logged(Replay(s, log), d) <==>
            Logged(s, d) || exists j :: 0 <= j < |log| && SameEvent(log[j], d) && Feedback(Replay(s, log[..j]), log[j]).Ok?
  {
    if log != [] {
      var n := |log| - 1;
      var front := log[..n];
      LoggedIff(s, front, d);
      var state, last := Replay(s, front), log[n];
      DeliverExtends(state, last);
      assert forall j :: 0 <= j < n ==> front[j] == log[j] && front[..j] == log[..j];
      if SameEvent(last, d) && Feedback(state, last).Ok? {
        CommitLogs(state, last);
      } else if Feedback(state, last).Ok? && !Feedback(state, last).value.1.duplicate {
        CommittedParts(state, last);
      }
    }
  }

  // ---------------------------------------------------------------- transition counters

  /** Item id is bound to this source and target for this user, and has reached the level. */
  predicate InBound(s: Store, key: TransitionKey, level: nat, id: ItemId) {
    && id in s.items && s.items[id].sourceKey != NoKey && s.items[id].sourceKey == key.source
    && TrackKey(s.items[id]) == key.target
    && s.items[id].session in s.owner && s.owner[s.items[id].session] == key.user
    && level <= s.items[id].outcome.Level()
  }

  function BoundAt(s: Store, key: TransitionKey, level: nat): set<ItemId> {
    set id | id in s.items && InBound(s, key, level, id)
  }

  /** attempt_count counts the bound items; every other counter counts some of those that got that far. */
  predicate CountsOk(s: Store, key: TransitionKey) {
    && Row(s, key).attempts == |BoundAt(s, key, 0)|
    && (forall level :: 2 <= level <= 6 ==> Row(s, key).At(level) <= |BoundAt(s, key, level)|)
  }

  ghost predicate Consistent(s: Store) {
    forall key :: CountsOk(s, key)
  }

  /** What a committed delivery can do to its own item. */
  lemma ItemRises(s: Store, d: Delivery)
    requires d.request.item in s.items
    ensures var item, item' := s.items[d.request.item], Updated(s, d.session, d.request, d.now);
            && SameIdentity(item, item')
            && item.outcome.Level() <= item'.outcome.Level()
            && (Applies(item, d.request) <==> item.outcome.Level() < item'.outcome.Level())
            && item.listened <= item'.listened && item.duration <= item'.duration
            && (item.sourceKey != NoKey ==> item'.sourceKey == item.sourceKey)
  {
    var item, req := s.items[d.request.item], d.request;
    OutcomeRises(item.outcome, req.event, Max(item.listened, req.listened), Max(item.duration, req.duration));
  }

  /** Binding happens exactly when an attempt is counted. */
  lemma BindingCounts(s: Store, d: Delivery)
    requires d.request.item in s.items
    ensures var item, item' := s.items[d.request.item], Updated(s, d.session, d.request, d.now);
            Delta(s, d.session, d.request, d.now).attempts ==
            if item.sourceKey == NoKey && item'.sourceKey != NoKey then 1 else 0
  {
  }

  /** A counter moves by one, and only when the item reaches exactly that level now. */
  lemma DeltaIsReached(s: Store, d: Delivery, level: nat)
    requires d.request.item in s.items && 2 <= level <= 6
    ensures var item, item' := s.items[d.request.item], Updated(s, d.session, d.request, d.now);
            Delta(s, d.session, d.request, d.now).At(level) ==
            if item.outcome.Level() < level == item'.outcome.Level() then 1 else 0
  {
    var item, req := s.items[d.request.item], d.request;
    OutcomeRises(item.outcome, req.event, Max(item.listened, req.listened), Max(item.duration, req.duration));
  }

  predicate KeepsBinding(item: Item, item': Item) {
    SameIdentity(item, item') && (item.sourceKey != NoKey ==> item'.sourceKey == item.sourceKey)
  }

  /** How one item may move and what it may add to its row, however that was decided. */
  predicate Legal(item: Item, item': Item, delta: Counters) {
    && KeepsBinding(item, item')
    && item.outcome.Level() <= item'.outcome.Level()
    && delta.attempts == (if item.sourceKey == NoKey && item'.sourceKey != NoKey then 1 else 0)
    && (forall level :: 2 <= level <= 6 ==>
          delta.At(level) == if item.outcome.Level() < level == item'.outcome.Level() then 1 else 0)
  }

  lemma DeliveryIsLegal(s: Store, d: Delivery)
    requires d.request.item in s.items
    ensures Legal(s.items[d.request.item], Updated(s, d.session, d.request, d.now),
                  Delta(s, d.session, d.request, d.now))
  {
    ItemRises(s, d);
    BindingCounts(s, d);
    forall level | 2 <= level <= 6
      ensures var item, item' := s.items[d.request.item], Updated(s, d.session, d.request, d.now);
              Delta(s, d.session, d.request, d.now).At(level) ==
              if item.outcome.Level() < level == item'.outcome.Level() then 1 else 0
    {
      DeltaIsReached(s, d, level);
    }
  }

  /** The tables that matter for counting, before and after one item changed. */
  predicate Changed(s: Store, s': Store, user: Text, id: ItemId, item': Item, delta: Counters) {
    && id in s.items && s.items[id].session in s.owner && s.owner[s.items[id].session] == user
    && s'.owner == s.owner && s'.items == s.items[id := item']
    && s'.transitions == WithTransition(s, user, item', delta).transitions
  }

  predicate IsKey(key: TransitionKey, user: Text, item: Item) {
    item.sourceKey != NoKey && key.user == user && key.source == item.sourceKey && key.target == TrackKey(item)
  }

  /** The upsert adds the counts to the item's own row. */
  lemma UpsertAdds(s: Store, user: Text, item: Item, d: Counters)
    requires item.sourceKey != NoKey
    ensures var key := TransitionKey(user, item.sourceKey, TrackKey(item));
            Row(WithTransition(s, user, item, d), key) == Row(s, key).Plus(d)
  {
    var key := TransitionKey(user, item.sourceKey, TrackKey(item));
    var row := Row(s, key);
    if d == ZERO {
      assert WithTransition(s, user, item, d) == s;
      assert row.Plus(ZERO) == row;
    } else {
      var s' := WithTransition(s, user, item, d);
      assert s'.transitions == s.transitions[key := row.Plus(d)];
      assert Row(s', key) == s'.transitions[key];
    }
  }

  lemma OwnRowGrows(s: Store, s': Store, user: Text, id: ItemId, item': Item, delta: Counters, key: TransitionKey)
    requires Changed(s, s', user, id, item', delta) && IsKey(key, user, item')
    ensures Row(s', key) == Row(s, key).Plus(delta)
  {
    assert key == TransitionKey(user, item'.sourceKey, TrackKey(item'));
    UpsertAdds(s, user, item', delta);
    assert Row(s', key) == Row(WithTransition(s, user, item', delta), key);
  }

  lemma OtherRowStays(s: Store, s': Store, user: Text, id: ItemId, item': Item, delta: Counters, key: TransitionKey)
    requires Changed(s, s', user, id, item', delta) && !IsKey(key, user, item')
    ensures Row(s', key) == Row(s, key)
  {
    if item'.sourceKey != NoKey && delta != ZERO {
      var own := TransitionKey(user, item'.sourceKey, TrackKey(item'));
      assert s'.transitions == s.transitions[own := Row(s, own).Plus(delta)];
    } else {
      assert s'.transitions == s.transitions;
    }
  }

  lemma OwnItemBound(s: Store, s': Store, user: Text, id: ItemId, item': Item, key: TransitionKey, level: nat)
    requires id in s.items && s.items[id].session in s.owner && s.owner[s.items[id].session] == user
    requires s'.owner == s.owner && id in s'.items && s'.items[id] == item' && KeepsBinding(s.items[id], item')
    ensures InBound(s', key, level, id) <==> IsKey(key, user, item') && level <= item'.outcome.Level()
    ensures InBound(s, key, level, id) <==>
            IsKey(key, user, item') && s.items[id].sourceKey != NoKey && level <= s.items[id].outcome.Level()
  {
  }

  lemma OthersBound(s: Store, s': Store, user: Text, id: ItemId, item': Item, delta: Counters, key: TransitionKey,
                    level: nat, other: ItemId)
    requires Changed(s, s', user, id, item', delta) && other != id
    ensures InBound(s', key, level, other) <==> InBound(s, key, level, other)
  {
    assert other in s'.items <==> other in s.items;
    assert other in s.items ==> s'.items[other] == s.items[other];
  }

  /** Of the sets the counters are measured against, only the changed item can enter, and none can leave. */
  lemma BoundGrows(s: Store, s': Store, user: Text, id: ItemId, item': Item, delta: Counters, key: TransitionKey,
                   level: nat)
    requires Changed(s, s', user, id, item', delta) && Legal(s.items[id], item', delta)
    ensures InBound(s', key, level, id) && !InBound(s, key, level, id) ==>
              |BoundAt(s', key, level)| == |BoundAt(s, key, level)| + 1
    ensures !(InBound(s', key, level, id) && !InBound(s, key, level, id)) ==>
              |BoundAt(s', key, level)| == |BoundAt(s, key, level)|
  {
    forall other | other != id ensures InBound(s', key, level, other) <==> InBound(s, key, level, other) {
      OthersBound(s, s', user, id, item', delta, key, level, other);
    }
    OwnItemBound(s, s', user, id, item', key, level);
    if InBound(s', key, level, id) && !InBound(s, key, level, id) {
      assert BoundAt(s', key, level) == BoundAt(s, key, level) + {id};
    } else {
      assert BoundAt(s', key, level) == BoundAt(s, key, level);
    }
  }

  lemma AttemptsStayOk(s: Store, s': Store, user: Text, id: ItemId, item': Item, delta: Counters, key: TransitionKey)
    requires Changed(s, s', user, id, item', delta) && Legal(s.items[id], item', delta)
    requires Row(s, key).attempts == |BoundAt(s, key, 0)|
    ensures Row(s', key).attempts == |BoundAt(s', key, 0)|
  {
    BoundGrows(s, s', user, id, item', delta, key, 0);
    OwnItemBound(s, s', user, id, item', key, 0);
    if IsKey(key, user, item') {
      OwnRowGrows(s, s', user, id, item', delta, key);
    } else {
      OtherRowStays(s, s', user, id, item', delta, key);
    }
  }

  lemma LevelStaysOk(s: Store, s': Store, user: Text, id: ItemId, item': Item, delta: Counters, key: TransitionKey,
                     level: nat)
    requires Changed(s, s', user, id, item', delta) && Legal(s.items[id], item', delta)
    requires 2 <= level <= 6 && Row(s, key).At(level) <= |BoundAt(s, key, level)|
    ensures Row(s', key).At(level) <= |BoundAt(s', key, level)|
  {
    BoundGrows(s, s', user, id, item', delta, key, level);
    OwnItemBound(s, s', user, id, item', key, level);
    assert delta.At(level) == if s.items[id].outcome.Level() < level == item'.outcome.Level() then 1 else 0;
    if IsKey(key, user, item') {
      OwnRowGrows(s, s', user, id, item', delta, key);
    } else {
      OtherRowStays(s, s', user, id, item', delta, key);
    }
  }

  lemma CountsStayOk(s: Store, s': Store, user: Text, id: ItemId, item': Item, delta: Counters, key: TransitionKey)
    requires Changed(s, s', user, id, item', delta) && Legal(s.items[id], item', delta) && CountsOk(s, key)
    ensures CountsOk(s', key)
  {
    AttemptsStayOk(s, s', user, id, item', delta, key);
    forall level | 2 <= level <= 6 ensures Row(s', key).At(level) <= |BoundAt(s', key, level)| {
      assert Row(s, key).At(level) <= |BoundAt(s, key, level)|;
      LevelStaysOk(s, s', user, id, item', delta, key, level);
    }
  }

  lemma DeliveryChanges(s: Store, d: Delivery)
    requires Feedback(s, d).Ok? && !Feedback(s, d).value.1.duplicate
    ensures Changed(s, Deliver(s, d), d.user, d.request.item, Updated(s, d.session, d.request, d.now),
                    Delta(s, d.session, d.request, d.now))
  {
    CommittedParts(s, d);
    var item := Updated(s, d.session, d.request, d.now);
    assert Counted(s, d) == WithTransition(s.(items := s.items[d.request.item := item]), d.user, item,
                                           Delta(s, d.session, d.request, d.now));
  }

  lemma DeliverConsistent(s: Store, d: Delivery)
    requires Consistent(s)
    ensures Consistent(Deliver(s, d))
  {
    if Feedback(s, d).Ok? && !Feedback(s, d).value.1.duplicate {
      var s', id, item, delta := Deliver(s, d), d.request.item, Updated(s, d.session, d.request, d.now),
                                 Delta(s, d.session, d.request, d.now);
      DeliveryChanges(s, d);
      DeliveryIsLegal(s, d);
      forall key ensures CountsOk(s', key) {
        assert CountsOk(s, key);
        CountsStayOk(s, s', d.user, id, item, delta, key);
      }
    }
  }

  /** A store whose items have no transition source yet and whose transition table is empty. */
  predicate Initial(s: Store) {
    s.transitions == map[] && forall id :: id in s.items ==> s.items[id].sourceKey == NoKey
  }

  lemma {:induction false} ReplayConsistent(s: Store, log: seq<Delivery>)
    requires Initial(s)
    ensures Consistent(Replay(s, log))
  {
    if log == [] {
      forall key ensures CountsOk(s, key) {
        assert forall level :: BoundAt(s, key, level) == {};
      }
    } else {
      var n := |log| - 1;
      ReplayConsistent(s, log[..n]);
      DeliverConsistent(Replay(s, log[..n]), log[n]);
    }
  }

  lemma BoundShrinks(s: Store, key: TransitionKey, level: nat)
    ensures |BoundAt(s, key, level)| <= |BoundAt(s, key, 0)|
  {
    SubsetSize(BoundAt(s, key, level), BoundAt(s, key, 0));
  }

  /**
    Over every run: attempt_count is the number of items bound to that source and target,
    and no other counter of the row exceeds it.
   */
  lemma CountersOverEveryRun(s: Store, log: seq<Delivery>, key: TransitionKey)
    requires Initial(s)
    ensures var s' := Replay(s, log);
            var row := Row(s', key);
            && row.attempts == |BoundAt(s', key, 0)|
            && row.accepted <= row.attempts && row.completed <= row.attempts && row.early <= row.attempts
            && row.neutral <= row.attempts && row.keep <= row.attempts
  {
    var s' := Replay(s, log);
    ReplayConsistent(s, log);
    assert CountsOk(s', key);
    BoundShrinks(s', key, 2);
    BoundShrinks(s', key, 3);
    BoundShrinks(s', key, 4);
    BoundShrinks(s', key, 5);
    BoundShrinks(s', key, 6);
    assert Row(s', key).At(2) <= |BoundAt(s', key, 2)| && Row(s', key).At(3) <= |BoundAt(s', key, 3)|;
    assert Row(s', key).At(4) <= |BoundAt(s', key, 4)| && Row(s', key).At(5) <= |BoundAt(s', key, 5)|;
    assert Row(s', key).At(6) <= |BoundAt(s', key, 6)|;
  }

  // ---------------------------------------------------------------- the life of one item

  /** The delivery is committed and applies outcome o to the item. */
  ghost predicate Reaches(s: Store, d: Delivery, id: ItemId, o: Playback) {
    && Feedback(s, d).Ok? && !Feedback(s, d).value.1.duplicate && d.request.item == id
    && Applies(s.items[id], d.request) && Updated(s, d.session, d.request, d.now).outcome == o
  }

  /** How many deliveries of the log apply outcome o to the item. */
  ghost function TimesReached(s: Store, log: seq<Delivery>, id: ItemId, o: Playback): nat {
    if log == [] then 0
    else
      var n := |log| - 1;
      TimesReached(s, log[..n], id, o) + (if Reaches(Replay(s, log[..n]), log[n], id, o) then 1 else 0)
  }

  /** Later than: identity kept, outcome and listening data never lower, binding never changed. */
  predicate LaterThan(item: Item, item': Item) {
    && SameIdentity(item, item') && item.outcome.Level() <= item'.outcome.Level()
    && item.listened <= item'.listened && item.duration <= item'.duration
    && (item.sourceKey != NoKey ==> item'.sourceKey == item.sourceKey)
  }

  lemma DeliverMovesOn(s: Store, d: Delivery, id: ItemId)
    requires id in s.items
    ensures id in Deliver(s, d).items && LaterThan(s.items[id], Deliver(s, d).items[id])
    ensures forall o :: Reaches(s, d, id, o) ==>
              s.items[id].outcome.Level() < o.Level() == Deliver(s, d).items[id].outcome.Level()
  {
    if Feedback(s, d).Ok? && !Feedback(s, d).value.1.duplicate {
      CommittedParts(s, d);
      ItemRises(s, d);
    }
  }

  /**
    Over its whole life an item's outcome, listened and duration values never go down, its
    binding never changes, and each outcome is applied to it at most once.
   */
  lemma {:induction false} ItemLife(s: Store, log: seq<Delivery>, id: ItemId, o: Playback)
    requires id in s.items
    ensures id in Replay(s, log).items && LaterThan(s.items[id], Replay(s, log).items[id])
    ensures TimesReached(s, log, id, o) <= 1
    ensures TimesReached(s, log, id, o) == 1 ==> o.Level() <= Replay(s, log).items[id].outcome.Level()
  {
    if log != [] {
      var n := |log| - 1;
      ItemLife(s, log[..n], id, o);
      DeliverMovesOn(Replay(s, log[..n]), log[n], id);
    }
  }

  /** What the item's committed deliveries add to the counter of a level: 0 for attempts, 2 to 6 for the outcomes. */
  ghost function Added(s: Store, log: seq<Delivery>, id: ItemId, level: nat): nat {
    if log == [] then 0
    else
      var n := |log| - 1;
      Added(s, log[..n], id, level) + AddedBy(Replay(s, log[..n]), log[n], id, level)
  }

  ghost function AddedBy(s: Store, d: Delivery, id: ItemId, level: nat): nat {
    if Feedback(s, d).Ok? && !Feedback(s, d).value.1.duplicate && d.request.item == id && id in s.items
    then Delta(s, d.session, d.request, d.now).At(level) else 0
  }

  /** An item has fed a counter once it is bound, or has come to the counter's level. */
  predicate Fed(item: Item, level: nat) {
    if level == 0 then item.sourceKey != NoKey else level <= item.outcome.Level()
  }

  lemma StepAdds(s: Store, d: Delivery, id: ItemId, level: nat)
    requires id in s.items && (level == 0 || 2 <= level <= 6)
    ensures id in Deliver(s, d).items && (Fed(s.items[id], level) ==> Fed(Deliver(s, d).items[id], level))
    ensures var reached := !Fed(s.items[id], level) && Fed(Deliver(s, d).items[id], level);
            AddedBy(s, d, id, level) <= (if reached then 1 else 0) &&
            (level == 0 ==> AddedBy(s, d, id, level) == if reached then 1 else 0)
  {
    DeliverMovesOn(s, d, id);
    if Feedback(s, d).Ok? && !Feedback(s, d).value.1.duplicate {
      CommittedParts(s, d);
      if d.request.item == id {
        DeliveryIsLegal(s, d);
      }
    }
  }

  /** Over its whole life an item adds at most one to each transition counter, and only where it got. */
  lemma {:induction false} AddsAtMostOne(s: Store, log: seq<Delivery>, id: ItemId, level: nat)
    requires id in s.items && (level == 0 || 2 <= level <= 6)
    ensures id in Replay(s, log).items && (Fed(s.items[id], level) ==> Fed(Replay(s, log).items[id], level))
    ensures var reached := !Fed(s.items[id], level) && Fed(Replay(s, log).items[id], level);
            Added(s, log, id, level) <= (if reached then 1 else 0) &&
            (level == 0 ==> Added(s, log, id, level) == if reached then 1 else 0)
  {
    if log != [] {
      var n := |log| - 1;
      AddsAtMostOne(s, log[..n], id, level);
      StepAdds(Replay(s, log[..n]), log[n], id, level);
    }
  }

  // ---------------------------------------------------------------- discovery lifecycle

  /**
    A skip that a caller can see is early before sending it: of the discovery's own recording,
    for an item with no outcome past a start, having heard less than the threshold.
   */
  predicate SkipsEarly(s: Store, d: Delivery, k: (Text, Text))
    requires d.request.item in s.items
  {
    var item, req := s.items[d.request.item], d.request;
    && NeedsDiscovery(item) && k == (d.user, item.mbid) && req.event == ManualSkip
    && (item.outcome == Unplayed || item.outcome == Started)
    && Max(item.listened, req.listened) < EarlySkipThreshold(Max(item.duration, req.duration))
  }

  lemma EarlySkipWhen(s: Store, d: Delivery)
    requires d.request.item in s.items
    ensures var item, req := s.items[d.request.item], d.request;
            req.event == ManualSkip && Applies(item, req) && Updated(s, d.session, req, d.now).outcome == EarlySkip <==>
            req.event == ManualSkip && (item.outcome == Unplayed || item.outcome == Started) &&
            Max(item.listened, req.listened) < EarlySkipThreshold(Max(item.duration, req.duration))
  {
  }

  /** The side writes change the discovery table as NewDiscovery says, at the item's own row. */
  lemma SidesDiscovery(s: Store, d: Delivery, item: Item, applied: bool)
    requires NeedsDiscovery(item) ==> (d.user, item.mbid) in s.discoveries
    ensures WithSides(s, d, item, applied).discoveries ==
            if !NeedsDiscovery(item) then s.discoveries
            else s.discoveries[(d.user, item.mbid) :=
                   NewDiscovery(s.discoveries[(d.user, item.mbid)], d.request.event, item.outcome, applied)]
  {
    SideTables(s, d.user, item, d.request.event, applied);
    DiscoveredIs(Tracked(s, d.user, item, applied), d.user, item, d.request.event, applied);
  }

  lemma DiscoveredIs(s: Store, user: Text, item: Item, event: Event, applied: bool)
    requires NeedsDiscovery(item) ==> (user, item.mbid) in s.discoveries
    ensures Discovered(s, user, item, event, applied).discoveries ==
            if !NeedsDiscovery(item) then s.discoveries
            else s.discoveries[(user, item.mbid) :=
                   NewDiscovery(s.discoveries[(user, item.mbid)], event, item.outcome, applied)]
  {
  }

  /** What a committed delivery does to the discovery rows. */
  lemma CommittedDiscovery(s: Store, d: Delivery)
    requires Feedback(s, d).Ok? && !Feedback(s, d).value.1.duplicate
    ensures var item, applied := Updated(s, d.session, d.request, d.now), Applies(s.items[d.request.item], d.request);
            && (NeedsDiscovery(item) ==> (d.user, item.mbid) in s.discoveries)
            && Deliver(s, d).discoveries ==
               if !NeedsDiscovery(item) then s.discoveries
               else s.discoveries[(d.user, item.mbid) :=
                      NewDiscovery(s.discoveries[(d.user, item.mbid)], d.request.event, item.outcome, applied)]
  {
    var item, applied := Updated(s, d.session, d.request, d.now), Applies(s.items[d.request.item], d.request);
    UpdatedIdentity(s, d);
    CountedParts(s, d);
    SidesDiscovery(Counted(s, d), d, item, applied);
    assert Deliver(s, d) == WithSides(Counted(s, d), d, item, applied);
  }

  lemma KeptRow(row: Discovery, event: Event, outcome: Playback, applied: bool)
    requires row.state == Kept
    ensures NewDiscovery(row, event, outcome, applied).state != Kept <==>
            event == ManualSkip && applied && outcome == EarlySkip
  {
  }

  /** A kept discovery stops being kept exactly on such a skip, whatever is delivered to whatever store. */
  lemma KeptUnlessSkippedEarly(s: Store, d: Delivery, k: (Text, Text))
    requires Feedback(s, d).Ok? && !Feedback(s, d).value.1.duplicate
    requires k in s.discoveries && s.discoveries[k].state == Kept
    ensures k in Deliver(s, d).discoveries
    ensures Deliver(s, d).discoveries[k].state != Kept <==> SkipsEarly(s, d, k)
  {
    var item, applied := Updated(s, d.session, d.request, d.now), Applies(s.items[d.request.item], d.request);
    CommittedDiscovery(s, d);
    UpdatedIdentity(s, d);
    EarlySkipWhen(s, d);
    if NeedsDiscovery(item) && k == (d.user, item.mbid) {
      KeptRow(s.discoveries[k], d.request.event, item.outcome, applied);
    }
  }

  /** An event not yet on record commits when the discovery row it needs is there. */
  lemma NewEventCommits(s: Store, d: Delivery)
    requires Known(s, d) && !Logged(s, d)
    requires NeedsDiscovery(s.items[d.request.item]) ==> (d.user, s.items[d.request.item].mbid) in s.discoveries
    ensures Feedback(s, d).Ok? && !Feedback(s, d).value.1.duplicate
  {
  }

  lemma StartedItem(s: Store, d: Delivery)
    requires d.request.item in s.items && d.request.event == WasStarted
    ensures var item, item' := s.items[d.request.item], Updated(s, d.session, d.request, d.now);
            && item'.outcome == (if item.outcome == Unplayed then Started else item.outcome)
            && item'.listened == Max(item.listened, d.request.listened)
            && item'.duration == Max(item.duration, d.request.duration)
  {
  }

  /** A start of a discovery item commits, counts, and keeps the discovery from the second start on. */
  lemma StartOfDiscovery(s: Store, d: Delivery)
    requires Known(s, d) && !Logged(s, d) && d.request.event == WasStarted
    requires NeedsDiscovery(s.items[d.request.item]) && (d.user, s.items[d.request.item].mbid) in s.discoveries
    ensures var s', id, k := Deliver(s, d), d.request.item, (d.user, s.items[d.request.item].mbid);
            && s'.owner == s.owner && id in s'.items && s'.items[id] == Updated(s, d.session, d.request, d.now)
            && k in s'.discoveries && s'.discoveries[k].playStarts == s.discoveries[k].playStarts + 1
            && (s.discoveries[k].playStarts >= 1 ==> s'.discoveries[k].state == Kept)
  {
    NewEventCommits(s, d);
    UpdatedIdentity(s, d);
    CommittedParts(s, d);
    CommittedDiscovery(s, d);
  }

  /** One user, one session, one unplayed discovery item of recording 7. */
  const ONE_DISCOVERY := Store(
    map[1 := 1], map[5 := Item(1, true, EMPTY, 7, false, Unplayed, 0, 0, None, NoKey, None)],
    map[], map[], map[], map[(1, 7) := Discovery(Temporary, 0, Some(9))])

  const START := Delivery(1, 1, Request(EMPTY, 5, WasStarted, 0, 0), 3)

  const SKIP := Delivery(1, 1, Request(EMPTY, 5, ManualSkip, 1000, 0), 4)

  /** A discovery kept by its second start is marked for deletion by an early skip. */
  lemma KeptIsNotPermanent()
    ensures var s := Replay(ONE_DISCOVERY, [START, START]);
            (1, 7) in s.discoveries && s.discoveries[(1, 7)].state == Kept
    ensures var s := Replay(ONE_DISCOVERY, [START, START, SKIP]);
            (1, 7) in s.discoveries && s.discoveries[(1, 7)].state == DeletePending
  {
    var s0 := ONE_DISCOVERY;
    StartedItem(s0, START);
    StartOfDiscovery(s0, START);
    UpdatedIdentity(s0, START);
    var s1 := Deliver(s0, START);
    StartedItem(s1, START);
    StartOfDiscovery(s1, START);
    UpdatedIdentity(s1, START);
    var s2 := Deliver(s1, START);
    ReplayOne(s0, START);
    assert [START, START] == [START] + [START];
    ReplayConcat(s0, [START], [START]);
    ReplayOne(s1, START);
    assert [START, START, SKIP] == [START, START] + [SKIP];
    ReplayConcat(s0, [START, START], [SKIP]);
    ReplayOne(s2, SKIP);
    SkipOfStarted(s2, SKIP);
  }

  /** An early skip of a started discovery item commits and marks the discovery for deletion. */
  lemma SkipOfStarted(s: Store, d: Delivery)
    requires Known(s, d) && !Logged(s, d)
    requires SkipsEarly(s, d, (d.user, s.items[d.request.item].mbid))
    requires (d.user, s.items[d.request.item].mbid) in s.discoveries
    ensures var k := (d.user, s.items[d.request.item].mbid);
            k in Deliver(s, d).discoveries && Deliver(s, d).discoveries[k].state == DeletePending
  {
    var item, applied := Updated(s, d.session, d.request, d.now), Applies(s.items[d.request.item], d.request);
    assert item.outcome == EarlySkip && applied by {
      EarlySkipWhen(s, d);
    }
    UpdatedIdentity(s, d);
    NewEventCommits(s, d);
    CommittedDiscovery(s, d);
    PendingRow(s.discoveries[(d.user, item.mbid)]);
  }

  lemma PendingRow(row: Discovery)
    ensures NewDiscovery(row, ManualSkip, EarlySkip, true).state == DeletePending
  {
  }

  // ---------------------------------------------------------------- per-recording counters

  /** A recording's judgements: every one is positive, neutral or early; completions are positive. */
  function Judgements(c: TrackCounts): nat { c.positive + c.neutral + c.early }

  /** The writes after the item judge a recording: by an outcome past a start, or as kept by a restart of a discovery. */
  predicate SidesJudge(s: Store, d: Delivery, item: Item, applied: bool) {
    && item.mbid != EMPTY
    && ((applied && CountsForTrack(item.outcome)) ||
        (NeedsDiscovery(item) && d.request.event == WasStarted &&
         (d.user, item.mbid) in s.discoveries && s.discoveries[(d.user, item.mbid)].playStarts >= 1))
  }

  function JudgedAs(item: Item, applied: bool): Playback {
    if applied && CountsForTrack(item.outcome) then item.outcome else Keep
  }

  /** The delivery commits and judges recording k. */
  ghost predicate Judges(s: Store, d: Delivery, k: (Text, Text)) {
    && Feedback(s, d).Ok? && !Feedback(s, d).value.1.duplicate
    && var item := Updated(s, d.session, d.request, d.now);
       k == (d.user, item.mbid) && SidesJudge(s, d, item, Applies(s.items[d.request.item], d.request))
  }

  ghost function TimesJudged(s: Store, log: seq<Delivery>, k: (Text, Text)): nat {
    if log == [] then 0
    else
      var n := |log| - 1;
      TimesJudged(s, log[..n], k) + (if Judges(Replay(s, log[..n]), log[n], k) then 1 else 0)
  }

  /** The recordings a discovery write counts: one keep when the discovery is restarted. */
  lemma DiscoveredTracks(s: Store, user: Text, item: Item, event: Event, applied: bool)
    requires NeedsDiscovery(item) ==> (user, item.mbid) in s.discoveries
    ensures Discovered(s, user, item, event, applied).tracks ==
            if NeedsDiscovery(item) && event == WasStarted && s.discoveries[(user, item.mbid)].playStarts >= 1
            then WithTrack(s, user, item.mbid, Keep).tracks else s.tracks
  {
  }

  lemma SidesTracks(s: Store, d: Delivery, item: Item, applied: bool)
    requires NeedsDiscovery(item) ==> (d.user, item.mbid) in s.discoveries
    requires d.request.event == WasStarted && applied ==> item.outcome == Started
    ensures WithSides(s, d, item, applied).tracks ==
            if !SidesJudge(s, d, item, applied) then s.tracks
            else WithTrack(s, d.user, item.mbid, JudgedAs(item, applied)).tracks
  {
    SideTables(s, d.user, item, d.request.event, applied);
    DiscoveredTracks(Tracked(s, d.user, item, applied), d.user, item, d.request.event, applied);
  }

  /** A committed delivery counts one judgement of one recording, or none. */
  lemma CommittedTracks(s: Store, d: Delivery)
    requires Feedback(s, d).Ok? && !Feedback(s, d).value.1.duplicate
    ensures var item := Updated(s, d.session, d.request, d.now);
            var k, event := (d.user, item.mbid), JudgedAs(item, Applies(s.items[d.request.item], d.request));
            Deliver(s, d).tracks ==
            if Judges(s, d, k) then s.tracks[k := Bumped(TrackRow(s, k), event)] else s.tracks
  {
    var item, applied := Updated(s, d.session, d.request, d.now), Applies(s.items[d.request.item], d.request);
    var s1 := Counted(s, d);
    UpdatedIdentity(s, d);
    CountedParts(s, d);
    if d.request.event == WasStarted {
      StartedItem(s, d);
    }
    SidesTracks(s1, d, item, applied);
    assert Deliver(s, d) == WithSides(s1, d, item, applied);
  }

  lemma DeliverTracks(s: Store, d: Delivery, k: (Text, Text)) returns (event: Playback)
    ensures TrackRow(Deliver(s, d), k) == if Judges(s, d, k) then Bumped(TrackRow(s, k), event) else TrackRow(s, k)
  {
    event := Keep;
    if Feedback(s, d).Ok? && !Feedback(s, d).value.1.duplicate {
      CommittedTracks(s, d);
      event := JudgedAs(Updated(s, d.session, d.request, d.now), Applies(s.items[d.request.item], d.request));
    }
  }

  /** From c0 to c there were n judgements, and completions stay among the positives. */
  predicate CountsUp(c0: TrackCounts, c: TrackCounts, n: nat) {
    Judgements(c) == Judgements(c0) + n && (c0.completed <= c0.positive ==> c.completed <= c.positive)
  }

  lemma OneMoreJudgement(c0: TrackCounts, c: TrackCounts, n: nat, judged: bool, event: Playback)
    requires CountsUp(c0, c, n)
    ensures CountsUp(c0, if judged then Bumped(c, event) else c, n + if judged then 1 else 0)
  {
  }

  lemma DeliverCounts(s: Store, d: Delivery, k: (Text, Text), c0: TrackCounts, n: nat)
    requires CountsUp(c0, TrackRow(s, k), n)
    ensures CountsUp(c0, TrackRow(Deliver(s, d), k), n + if Judges(s, d, k) then 1 else 0)
  {
    var event := DeliverTracks(s, d, k);
    OneMoreJudgement(c0, TrackRow(s, k), n, Judges(s, d, k), event);
  }

  lemma RunCounts(s: Store, log: seq<Delivery>, k: (Text, Text), c0: TrackCounts)
    requires log != [] && CountsUp(c0, TrackRow(Replay(s, log[..|log| - 1]), k), TimesJudged(s, log[..|log| - 1], k))
    ensures CountsUp(c0, TrackRow(Replay(s, log), k), TimesJudged(s, log, k))
  {
    var n := |log| - 1;
    DeliverCounts(Replay(s, log[..n]), log[n], k, c0, TimesJudged(s, log[..n], k));
  }

  /** Over every run a recording's counters add up to the judgements delivered, and completions stay among the positives. */
  lemma {:induction false} RecordingCounters(s: Store, log: seq<Delivery>, k: (Text, Text))
    ensures CountsUp(TrackRow(s, k), TrackRow(Replay(s, log), k), TimesJudged(s, log, k))
  {
    if log != [] {
      RecordingCounters(s, log[..|log| - 1], k);
      RunCounts(s, log, k, TrackRow(s, k));
    }
  }

  // ---------------------------------------------------------------- the repository

  /** What happens to one transaction attempt; a busy or broken commit is rolled back. */
  datatype TxFate = Clear | BusyAtBegin | BusyAtCommit | BrokenAtBegin | BrokenAtCommit

  const MAX_ATTEMPTS: nat := 4

  lemma AnchorFound(s: Store, session: Text, exclude: ItemId, id: ItemId)
    requires IsAnchor(s, session, exclude, id)
    ensures Anchor(s, session, exclude) == Some(id)
  {
    var found := Anchor(s, session, exclude).value;
    AnchorIsUnique(s, session, exclude, id, found);
  }

  class RadioRepository {
    const owner: map<Text, Text>
    var items: map<ItemId, Item>
    var events: map<(Text, Text), LogRow>
    var transitions: map<TransitionKey, Counters>
    var tracks: map<(Text, Text), TrackCounts>
    var discoveries: map<(Text, Text), Discovery>

    function View(): Store
      reads this
    {
      Store(owner, items, events, transitions, tracks, discoveries)
    }

    constructor (s: Store)
      ensures View() == s
    {
      owner, items, events := s.owner, s.items, s.events;
      transitions, tracks, discoveries := s.transitions, s.tracks, s.discoveries;
    }

    /** recentAcceptedItemTx: the newest accepted item of the session other than `exclude`. */
    method RecentAccepted(session: Text, exclude: ItemId) returns (r: Option<ItemId>)
      ensures r == Anchor(View(), session, exclude)
    {
      r := None;
      var todo := items.Keys;
      while todo != {}
        invariant todo <= items.Keys
        invariant r.Some? ==> r.value !in todo && CanAnchor(View(), session, exclude, r.value)
        invariant forall id :: id in items && id !in todo && CanAnchor(View(), session, exclude, id) ==>
                    r.Some? && NotLater(View(), id, r.value)
        decreases todo
      {
        var id :| id in todo;
        if CanAnchor(View(), session, exclude, id) && (r.None? || NotLater(View(), r.value, id)) {
          r := Some(id);
        }
        todo := todo - {id};
      }
      if r.Some? {
        assert IsAnchor(View(), session, exclude, r.value);
        AnchorFound(View(), session, exclude, r.value);
      }
    }

    /** Bind a starting item to the anchor, if there is one to bind to. */
    method Bind(d: Delivery, item: Item) returns (item': Item, bound: bool)
      requires d.request.item in items && item == Judged(items[d.request.item], d.request, d.now)
      ensures item' == Updated(View(), d.session, d.request, d.now)
      ensures bound <==> BindTo(View(), d.session, d.request, item).Some?
    {
      item', bound := item, false;
      if d.request.event == WasStarted && item.sourceKey == NoKey && TrackKey(item) != NoKey {
        var anchor := RecentAccepted(d.session, d.request.item);
        if anchor.Some? && TrackKey(items[anchor.value]) != NoKey {
          item' := item.(sourceItem := anchor, sourceKey := TrackKey(items[anchor.value]));
          bound := true;
        }
      }
    }

    /** The item and transition writes of applyPlaybackFeedback. */
    method WriteItem(d: Delivery) returns (item: Item, applied: bool)
      requires d.request.item in items
      modifies this
      ensures View() == Counted(old(View()), d)
      ensures item == Updated(old(View()), d.session, d.request, d.now)
      ensures applied == Applies(old(items)[d.request.item], d.request)
    {
      var before := items[d.request.item];
      applied := Applies(before, d.request);
      item := Judged(before, d.request, d.now);
      var delta := if applied then DeltaFor(item.outcome) else ZERO;
      var bound;
      item, bound := Bind(d, item);
      if bound {
        delta := delta.(attempts := 1);
      }
      assert delta == Delta(old(View()), d.session, d.request, d.now);
      items := items[d.request.item := item];
      if item.sourceKey != NoKey && delta != ZERO {
        var key := TransitionKey(d.user, item.sourceKey, TrackKey(item));
        var row := if key in transitions then transitions[key] else ZERO;
        transitions := transitions[key := row.Plus(delta)];
      }
    }

    /** recordRadioTrackFeedback: upsert and count. */
    method CountTrack(user: Text, mbid: Text, event: Playback)
      modifies this`tracks
      ensures View() == WithTrack(old(View()), user, mbid, event)
    {
      var was := if (user, mbid) in tracks then tracks[(user, mbid)] else TrackCounts(0, 0, 0, 0);
      tracks := tracks[(user, mbid) := Bumped(was, event)];
    }

    /** The discovery part: a restarted discovery also counts as kept for its recording. */
    method WriteDiscovery(user: Text, item: Item, event: Event, applied: bool)
      requires NeedsDiscovery(item) ==> (user, item.mbid) in discoveries
      modifies this`tracks, this`discoveries
      ensures View() == Discovered(old(View()), user, item, event, applied)
    {
      if NeedsDiscovery(item) {
        var row := discoveries[(user, item.mbid)];
        var row' := NewDiscovery(row, event, item.outcome, applied);
        if event == WasStarted && row'.playStarts > 1 {
          CountTrack(user, item.mbid, Keep);
        }
        discoveries := discoveries[(user, item.mbid) := row'];
      }
    }

    /** The per-recording, discovery and log writes; a missing discovery row is an error. */
    method WriteSides(d: Delivery, item: Item, applied: bool) returns (ok: bool)
      modifies this
      ensures ok <==> (NeedsDiscovery(item) ==> (d.user, item.mbid) in old(discoveries))
      ensures ok ==> View() == WithSides(old(View()), d, item, applied)
    {
      if item.mbid != EMPTY && applied && CountsForTrack(item.outcome) {
        CountTrack(d.user, item.mbid, item.outcome);
      }
      if NeedsDiscovery(item) && (d.user, item.mbid) !in discoveries {
        return false;
      }
      WriteDiscovery(d.user, item, d.request.event, applied);
      if d.request.eventId != EMPTY {
        events := events[(d.user, d.request.eventId) := LogRow(d.session, d.request)];
      }
      return true;
    }

    /** applyPlaybackFeedback: on an error the tables may be half written, for the caller to roll back. */
    method ApplyPlaybackFeedback(d: Delivery) returns (r: Result<Reply, Error>)
      modifies this
      ensures r.Ok? <==> Feedback(old(View()), d).Ok?
      ensures r.Ok? ==> Feedback(old(View()), d) == Ok((View(), r.value))
      ensures r.Err? ==> Feedback(old(View()), d) == Err(r.error)
    {
      var req := d.request;
      if !Known(View(), d) {
        return Err(NotFound);
      }
      if Logged(View(), d) {
        if events[(d.user, req.eventId)] != LogRow(d.session, req) {
          return Err(EventConflict);
        }
        return Ok(Reply(items[req.item], false, true, false));
      }
      r := ApplyNew(d);
    }

    method ApplyNew(d: Delivery) returns (r: Result<Reply, Error>)
      requires Known(View(), d) && !Logged(View(), d)
      modifies this
      ensures r.Ok? ==> Feedback(old(View()), d) == Ok((View(), r.value))
      ensures r.Err? ==> Feedback(old(View()), d) == Err(r.error)
    {
      var item, applied := WriteItem(d);
      ghost var s1 := View();
      NewFeedback(old(View()), d, item, applied, s1);
      var ok := WriteSides(d, item, applied);
      if !ok {
        return Err(NotFound);
      }
      r := Ok(NewReply(d, item, applied));
    }

    /** One transaction: committed as a whole or rolled back as a whole. */
    method Attempt(d: Delivery, fate: TxFate) returns (r: Result<Reply, Error>)
      modifies this
      ensures r.Ok? ==> Feedback(old(View()), d) == Ok((View(), r.value))
      ensures r.Err? ==> View() == old(View())
      ensures r.Ok? ==> fate == Clear
      ensures fate == BusyAtBegin ==> r == Err(Busy)
      ensures fate == Clear && r.Err? ==> Feedback(old(View()), d) == Err(r.error)
      ensures fate == BusyAtCommit && Feedback(old(View()), d).Err? ==> r == Err(Feedback(old(View()), d).error)
      ensures r == Err(Busy) ==> fate == BusyAtBegin || fate == BusyAtCommit
      ensures Feedback(old(View()), d).Ok? && (fate == BusyAtBegin || fate == BusyAtCommit) ==> r == Err(Busy)
    {
      if fate == BusyAtBegin || fate == BrokenAtBegin {
        return Err(if fate == BusyAtBegin then Busy else OtherFailure);
      }
      var items0, events0, transitions0, tracks0, discoveries0 := items, events, transitions, tracks, discoveries;
      r := ApplyPlaybackFeedback(d);
      if r.Ok? && fate != Clear {
        r := Err(if fate == BusyAtCommit then Busy else OtherFailure);
      }
      if r.Err? {
        items, events, transitions, tracks, discoveries := items0, events0, transitions0, tracks0, discoveries0;
      }
    }

    /**
      RecordPlaybackFeedback: up to four attempts while the database is busy.  However many it
      takes, the request takes effect exactly once on success and not at all on an error.
     */
    method Record(d: Delivery, eventIdLength: nat, fates: seq<TxFate>) returns (r: Result<Reply, Error>)
      modifies this
      ensures r.Ok? ==> Feedback(old(View()), d) == Ok((View(), r.value))
      ensures r.Err? ==> View() == old(View())
      ensures eventIdLength > 255 ==> r == Err(Validation)
      ensures r.Ok? <==> eventIdLength <= 255 && Feedback(old(View()), d).Ok? && BusyThenClear(fates)
      ensures eventIdLength <= 255 && Feedback(old(View()), d).Err? && BusyThenClear(fates) ==>
                r == Err(Feedback(old(View()), d).error)
      ensures eventIdLength <= 255 && Feedback(old(View()), d).Ok? && AlwaysBusy(fates) ==> r == Err(Busy)
    {
      if eventIdLength > 255 {
        return Err(Validation);
      }
      r := Err(Busy);
      var attempt := 0;
      while attempt < MAX_ATTEMPTS
        invariant attempt <= MAX_ATTEMPTS && r == Err(Busy) && View() == old(View())
        invariant forall k :: 0 <= k < attempt && k < |fates| ==> fates[k] == BusyAtBegin || fates[k] == BusyAtCommit
        invariant attempt <= |fates|
      {
        var fate := if attempt < |fates| then fates[attempt] else Clear;
        r := Attempt(d, fate);
        if r != Err(Busy) {
          assert fate == Clear ==> ClearAt(fates, attempt);
          assert fate == BrokenAtBegin || fate == BrokenAtCommit ==> !BusyThenClear(fates);
          return;
        }
        attempt := attempt + 1;
      }
    }
  }

  /** At most three busy attempts before a clear one. */
  predicate BusyThenClear(fates: seq<TxFate>) {
    exists k :: 0 <= k < 4 && ClearAt(fates, k)
  }

  /** Attempt k is clear and every one before it is busy. */
  predicate ClearAt(fates: seq<TxFate>, k: nat) {
    && (k < |fates| ==> fates[k] == Clear)
    && (forall j :: 0 <= j < k && j < |fates| ==> fates[j] == BusyAtBegin || fates[j] == BusyAtCommit)
  }

  predicate AlwaysBusy(fates: seq<TxFate>) {
    |fates| >= 4 && forall k :: 0 <= k < 4 ==> fates[k] == BusyAtBegin || fates[k] == BusyAtCommit
  }
}
