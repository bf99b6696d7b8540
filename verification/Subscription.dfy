/** A subscriber's view of one session (`SubscriptionCursor`, src/server.rs:1415-1570,
    over the bus of src/stream_bus.rs): the bus is joined first, the log is read
    second, and everything the kernel does may happen in between.

    An accepted envelope appears here as its log entry shows it (`Logs.EnvelopeOf`);
    what the bus carries is that envelope, a missing timestamp aside
    (`Ordinals.OperationPublishesHistory`). */
module Subscriptions {
  import opened Sessions
  import opened Modes

  /** An envelope with its accepted ordinal. */
  datatype Numbered = Numbered(ordinal: int, envelope: Envelope)

  function NumberFrom(first: int, envelopes: seq<Envelope>): seq<Numbered> {
    seq(|envelopes|, i requires 0 <= i < |envelopes| => Numbered(first + i, envelopes[i]))
  }

  function IdsOf(envelopes: seq<Envelope>): set<string> {
    if envelopes == [] then {} else IdsOf(envelopes[..|envelopes| - 1]) + {envelopes[|envelopes| - 1].messageId}
  }

  datatype Cursor = Cursor(replay: seq<Numbered>, dedup: Option<set<string>>, nextLive: Option<int>)

  const FreshCursor := Cursor([], None, None)

  datatype Filtered = Filtered(skip: bool, dedup: Option<set<string>>)

  /** `should_skip_replayed`: drop a replayed duplicate; the first miss disarms. */
  function Filter(dedup: Option<set<string>>, id: string): Filtered {
    if dedup.Some? && id in dedup.value then Filtered(true, Some(dedup.value - {id}))
    else Filtered(false, None)
  }

  /** A non-empty replay (re)arms the filter, an empty one leaves it as it was. */
  function LoadSnapshot(c: Cursor, after: nat, replay: seq<Envelope>, highWater: nat): Cursor {
    Cursor(c.replay + NumberFrom(after + 1, replay), if replay == [] then c.dedup else Some(IdsOf(replay)), Some(highWater + 1))
  }

  /** What one receive yields. */
  datatype Pull = Yielded(item: Numbered) | Skipped | Nothing | Ended | StreamLagged(skipped: nat)

  datatype Pulled = Pulled(pull: Pull, cursor: Cursor, queue: seq<Envelope>)

  /** A live envelope that passed the filter takes the next ordinal. */
  function Live(c: Cursor, env: Envelope, queue: seq<Envelope>): Pulled {
    if c.nextLive.None? then Pulled(Yielded(Numbered(0, env)), c, queue)
    else Pulled(Yielded(Numbered(c.nextLive.value, env)), c.(nextLive := Some(c.nextLive.value + 1)), queue)
  }

  /** One turn of `next` or `try_next` over the envelopes waiting on the receiver. */
  function PullOnce(c: Cursor, queue: seq<Envelope>, capacity: nat, closed: bool): Pulled {
    if c.replay != [] then Pulled(Yielded(c.replay[0]), c.(replay := c.replay[1..]), queue)
    else if |queue| > capacity then Pulled(StreamLagged(|queue| - capacity), c, queue[|queue| - capacity..])
    else if queue == [] then Pulled(if closed then Ended else Nothing, c, queue)
    else
      var f := Filter(c.dedup, queue[0].messageId);
      if f.skip then Pulled(Skipped, c.(dedup := f.dedup), queue[1..])
      else Live(c.(dedup := f.dedup), queue[0], queue[1..])
  }

  // ---- The interleaved system ----------------------------------------------

  /** A subscription after its snapshot: what it was asked for, how much was
      published when it joined, the high-water mark it read, and its progress.
      `queue` is what the bus has sent it and it has not received. */
  datatype Subscription = Subscription(
    after: nat, join: nat, horizon: nat, cursor: Cursor, queue: seq<Envelope>, delivered: seq<Numbered>)

  datatype Phase =
    | Away
    | Joined(join: nat, queue: seq<Envelope>)
    | Reading(sub: Subscription)
    | Finished(sub: Subscription)
    | Refused(base: nat)

  /** One session's accepted history, the bus and one subscriber. Compaction has
      discarded the first `base` envelopes and the first `sentTo` are published. */
  datatype System = System(history: seq<Envelope>, base: nat, sentTo: nat, closed: bool, phase: Phase)

  datatype Event =
    | Accept(env: Envelope)   // an envelope reaches the in-memory log
    | Compact                 // the log is replaced by a checkpoint
    | Publish                 // the oldest accepted, unpublished envelope is sent
    | Close                   // the channel's last sender goes away
    | Join                    // the subscriber joins the bus
    | ReadLog(after: nat)     // it reads the log after an ordinal
    | Receive

  predicate Fresh(history: seq<Envelope>, env: Envelope) { forall i :: 0 <= i < |history| ==> history[i].messageId != env.messageId }

  /** Publication follows acceptance; a subscriber joins, reads, receives. */
  predicate Enabled(y: System, e: Event) {
    match e
    case Accept(env) => Fresh(y.history, env)
    case Publish => y.sentTo < |y.history|
    case Join => y.phase.Away?
    case ReadLog(_) => y.phase.Joined?
    case Receive => y.phase.Reading?
    case _ => true
  }

  /** The bus hands a published envelope to whoever has joined. */
  function Send(phase: Phase, env: Envelope): Phase {
    match phase
    case Joined(join, queue) => Joined(join, queue + [env])
    case Reading(sub) => Reading(sub.(queue := sub.queue + [env]))
    case _ => phase
  }

  function Subscribe(history: seq<Envelope>, join: nat, queue: seq<Envelope>, after: nat): Subscription {
    var replay := if after < |history| then history[after..] else [];
    Subscription(after, join, |history|, LoadSnapshot(FreshCursor, after, replay, |history|), queue, [])
  }

  function Take(sub: Subscription, capacity: nat, closed: bool): Phase {
    var p := PullOnce(sub.cursor, sub.queue, capacity, closed);
    var sub' := sub.(cursor := p.cursor, queue := p.queue);
    match p.pull
    case Yielded(item) => Reading(sub'.(delivered := sub.delivered + [item]))
    case Skipped => Reading(sub')
    case Nothing => Reading(sub')
    case _ => Finished(sub')
  }

  function Next(y: System, e: Event, capacity: nat): System
    requires Enabled(y, e)
  {
    match e
    case Accept(env) => y.(history := y.history + [env])
    case Compact => y.(base := |y.history|)
    case Publish => y.(sentTo := y.sentTo + 1, phase := Send(y.phase, y.history[y.sentTo]))
    case Close => y.(closed := true)
    case Join => y.(phase := Joined(y.sentTo, []))
    case ReadLog(after) =>
      y.(phase := if after < y.base then Refused(y.base) else Reading(Subscribe(y.history, y.phase.join, y.phase.queue, after)))
    case Receive => y.(phase := Take(y.phase.sub, capacity, y.closed))
  }

  predicate Distinct(history: seq<Envelope>) {
    forall i, j :: 0 <= i < j < |history| ==> history[i].messageId != history[j].messageId
  }

  /** `end` is reached from `y` by `events`, each enabled when it happens. */
  predicate Reaches(y: System, events: seq<Event>, capacity: nat, end: System)
    decreases |events|
  {
    if events == [] then end == y
    else Enabled(y, events[0]) && Reaches(Next(y, events[0], capacity), events[1..], capacity, end)
  }

  // ---- The invariant -------------------------------------------------------

  /** Where a subscription stands: `reached` counts what the subscriber has seen of
      the history, `pos` what its receiver has. */
  datatype Place = Place(after: nat, join: nat, horizon: nat, reached: nat, pos: nat)

  predicate Proper(p: Place, sentTo: nat, accepted: nat) {
    && p.after <= p.join <= p.horizon <= accepted && p.join <= p.pos <= sentTo <= accepted
    && p.after <= p.reached <= accepted
    && if p.reached < p.horizon then p.pos == p.join
       else if p.reached == p.horizon then p.pos <= p.horizon
       else p.pos == p.reached
  }

  /** The filter holds the replayed ids the receiver has not yet repeated. */
  function Armed(history: seq<Envelope>, p: Place): Option<set<string>>
    requires Proper(p, p.pos, |history|)
  {
    if p.after < p.horizon then Some(IdsOf(history[p.after..p.horizon]) - IdsOf(history[p.join..p.pos])) else None
  }

  function ExpectedCursor(history: seq<Envelope>, p: Place): Cursor
    requires Proper(p, p.pos, |history|)
  {
    if p.reached <= p.horizon then Cursor(NumberFrom(p.reached + 1, history[p.reached..p.horizon]), Armed(history, p), Some(p.horizon + 1))
    else Cursor([], None, Some(p.reached + 1))
  }

  /** The subscriber has exactly the history after `after`, in order, each envelope
      once and under its own ordinal. */
  function Expected(history: seq<Envelope>, sentTo: nat, p: Place): Subscription
    requires Proper(p, sentTo, |history|)
  {
    Subscription(p.after, p.join, p.horizon, ExpectedCursor(history, p), history[p.pos..sentTo],
                 NumberFrom(p.after + 1, history[p.after..p.reached]))
  }

  ghost predicate Streaming(history: seq<Envelope>, sentTo: nat, sub: Subscription) {
    exists p: Place :: Proper(p, sentTo, |history|) && sub == Expected(history, sentTo, p)
  }

  predicate ExactlyOnce(history: seq<Envelope>, sub: Subscription) {
    var reached := sub.after + |sub.delivered|;
    reached <= |history| && sub.delivered == NumberFrom(sub.after + 1, history[sub.after..reached])
  }

  ghost predicate PhaseFine(history: seq<Envelope>, sentTo: nat, phase: Phase) {
    match phase
    case Joined(join, queue) => join <= sentTo <= |history| && queue == history[join..sentTo]
    case Reading(sub) => Streaming(history, sentTo, sub)
    case Finished(sub) => ExactlyOnce(history, sub)
    case _ => true
  }

  ghost predicate Invariant(y: System) { y.sentTo <= |y.history| && PhaseFine(y.history, y.sentTo, y.phase) }

  // ---- Every event keeps it ------------------------------------------------

  lemma {:induction false} SliceStable(history: seq<Envelope>, env: Envelope, lo: int, hi: int)
    requires 0 <= lo <= hi <= |history|
    ensures (history + [env])[lo..hi] == history[lo..hi]
  {
  }

  lemma {:induction false} SliceGrows(history: seq<Envelope>, lo: int, hi: int)
    requires 0 <= lo <= hi < |history|
    ensures history[lo..hi + 1] == history[lo..hi] + [history[hi]]
  {
  }

  lemma {:induction false} AcceptExpected(history: seq<Envelope>, env: Envelope, sentTo: nat, p: Place)
    requires Proper(p, sentTo, |history|)
    ensures Expected(history + [env], sentTo, p) == Expected(history, sentTo, p)
  {
    SliceStable(history, env, p.pos, sentTo);
    SliceStable(history, env, p.after, p.reached);
    SliceStable(history, env, p.after, p.horizon);
    SliceStable(history, env, p.join, p.pos);
    if p.reached <= p.horizon { SliceStable(history, env, p.reached, p.horizon); }
  }

  lemma {:induction false} PublishExpected(history: seq<Envelope>, sentTo: nat, p: Place)
    requires Proper(p, sentTo, |history|) && sentTo < |history|
    ensures
      var sub := Expected(history, sentTo, p);
      Expected(history, sentTo + 1, p) == sub.(queue := sub.queue + [history[sentTo]])
  {
    SliceGrows(history, p.pos, sentTo);
  }

  /** The snapshot arms the filter with everything the receiver can repeat. */
  lemma {:induction false} SubscribeExpected(history: seq<Envelope>, sentTo: nat, join: nat, after: nat)
    requires after <= join <= sentTo <= |history|
    ensures Subscribe(history, join, history[join..sentTo], after) == Expected(history, sentTo, Place(after, join, |history|, after, join))
  {
    var all := IdsOf(history[after..]);
    assert history[after..] == history[after..|history|];
    assert all - IdsOf(history[join..join]) == all;
  }

  lemma {:induction false} NumberSplit(first: int, history: seq<Envelope>, lo: int, mid: int, hi: int)
    requires 0 <= lo <= mid <= hi <= |history|
    ensures NumberFrom(first, history[lo..hi]) == NumberFrom(first, history[lo..mid]) + NumberFrom(first + mid - lo, history[mid..hi])
  {
  }

  lemma {:induction false} NumberOne(first: int, history: seq<Envelope>, i: int)
    requires 0 <= i < |history|
    ensures NumberFrom(first, history[i..i + 1]) == [Numbered(first, history[i])]
  {
  }

  lemma {:induction false} DeliverNext(history: seq<Envelope>, after: nat, reached: nat)
    requires after <= reached < |history|
    ensures NumberFrom(after + 1, history[after..reached]) + [Numbered(reached + 1, history[reached])]
         == NumberFrom(after + 1, history[after..reached + 1])
  {
    NumberSplit(after + 1, history, after, reached, reached + 1);
    NumberOne(reached + 1, history, reached);
  }

  /** The replay queue moves on by one. */
  lemma {:induction false} ReplayCursor(history: seq<Envelope>, p: Place)
    requires Proper(p, p.pos, |history|) && p.reached < p.horizon
    ensures
      var cursor := ExpectedCursor(history, p);
      && cursor.replay != [] && cursor.replay[0] == Numbered(p.reached + 1, history[p.reached])
      && cursor.(replay := cursor.replay[1..]) == ExpectedCursor(history, p.(reached := p.reached + 1))
  {
    NumberSplit(p.reached + 1, history, p.reached, p.reached + 1, p.horizon);
    NumberOne(p.reached + 1, history, p.reached);
  }

  lemma {:induction false} ReplayStep(history: seq<Envelope>, sentTo: nat, p: Place, capacity: nat, closed: bool)
    requires Proper(p, sentTo, |history|) && p.reached < p.horizon
    ensures Take(Expected(history, sentTo, p), capacity, closed) == Reading(Expected(history, sentTo, p.(reached := p.reached + 1)))
  {
    ReplayCursor(history, p);
    DeliverNext(history, p.after, p.reached);
  }

  lemma {:induction false} IdsSlice(history: seq<Envelope>, lo: int, hi: int, i: int)
    requires Distinct(history) && 0 <= lo <= hi <= |history| && 0 <= i < |history|
    ensures history[i].messageId in IdsOf(history[lo..hi]) <==> lo <= i < hi
    decreases hi - lo
  {
    if lo < hi {
      assert history[lo..hi][..hi - lo - 1] == history[lo..hi - 1];
      IdsSlice(history, lo, hi - 1, i);
    }
  }

  /** A repeat is in the filter, and dropping it moves the filter on by one. */
  lemma {:induction false} RepeatFiltered(history: seq<Envelope>, p: Place)
    requires Distinct(history) && Proper(p, p.pos, |history|) && p.pos < p.horizon == p.reached
    ensures Filter(Armed(history, p), history[p.pos].messageId) == Filtered(true, Armed(history, p.(pos := p.pos + 1)))
  {
    IdsSlice(history, p.after, p.horizon, p.pos);
    IdsSlice(history, p.join, p.pos, p.pos);
    assert history[p.join..p.pos + 1][..p.pos - p.join] == history[p.join..p.pos];
    var all, seen, id := IdsOf(history[p.after..p.horizon]), IdsOf(history[p.join..p.pos]), history[p.pos].messageId;
    assert all - seen - {id} == all - (seen + {id});
  }

  lemma {:induction false} RepeatStep(history: seq<Envelope>, sentTo: nat, p: Place, capacity: nat, closed: bool)
    requires Distinct(history) && Proper(p, sentTo, |history|) && p.pos < p.horizon == p.reached
    requires 0 < sentTo - p.pos <= capacity
    ensures Take(Expected(history, sentTo, p), capacity, closed) == Reading(Expected(history, sentTo, p.(pos := p.pos + 1)))
  {
    RepeatFiltered(history, p);
    assert history[p.pos..sentTo][1..] == history[p.pos + 1..sentTo];
  }

  lemma {:induction false} NoRepeat(history: seq<Envelope>, p: Place)
    requires Distinct(history) && Proper(p, p.pos, |history|) && p.horizon <= p.pos < |history|
    ensures Filter(ExpectedCursor(history, p).dedup, history[p.pos].messageId) == Filtered(false, None)
  {
    IdsSlice(history, p.after, p.horizon, p.pos);
  }

  /** The first envelope past the snapshot disarms the filter and takes the next
      ordinal, and so does each one after it. */
  lemma {:induction false} LiveStep(history: seq<Envelope>, sentTo: nat, p: Place, capacity: nat, closed: bool)
    requires Distinct(history) && Proper(p, sentTo, |history|) && p.horizon <= p.pos == p.reached
    requires 0 < sentTo - p.pos <= capacity
    ensures Take(Expected(history, sentTo, p), capacity, closed)
         == Reading(Expected(history, sentTo, p.(pos := p.pos + 1, reached := p.reached + 1)))
  {
    NoRepeat(history, p);
    assert history[p.pos..sentTo][1..] == history[p.pos + 1..sentTo];
    DeliverNext(history, p.after, p.reached);
  }

  lemma {:induction false} IdleStep(history: seq<Envelope>, sentTo: nat, p: Place, capacity: nat, closed: bool)
    requires Proper(p, sentTo, |history|) && p.horizon <= p.reached && !(0 < sentTo - p.pos <= capacity)
    ensures
      var sub, phase := Expected(history, sentTo, p), Take(Expected(history, sentTo, p), capacity, closed);
      phase == Reading(sub) || (phase.Finished? && phase.sub.delivered == sub.delivered && phase.sub.after == sub.after)
  {
  }

  lemma {:induction false} ReceiveKeeps(history: seq<Envelope>, sentTo: nat, p: Place, capacity: nat, closed: bool)
    requires Distinct(history) && Proper(p, sentTo, |history|)
    ensures
      var phase := Take(Expected(history, sentTo, p), capacity, closed);
      || (exists p': Place :: Proper(p', sentTo, |history|) && phase == Reading(Expected(history, sentTo, p')))
      || (phase.Finished? && ExactlyOnce(history, phase.sub))
  {
    var phase := Take(Expected(history, sentTo, p), capacity, closed);
    if p.reached < p.horizon {
      ReplayStep(history, sentTo, p, capacity, closed);
      assert Proper(p.(reached := p.reached + 1), sentTo, |history|);
    } else if 0 < sentTo - p.pos <= capacity {
      if p.pos < p.horizon {
        RepeatStep(history, sentTo, p, capacity, closed);
        assert Proper(p.(pos := p.pos + 1), sentTo, |history|);
      } else {
        LiveStep(history, sentTo, p, capacity, closed);
        assert Proper(p.(pos := p.pos + 1, reached := p.reached + 1), sentTo, |history|);
      }
    } else { IdleStep(history, sentTo, p, capacity, closed); }
  }

  lemma {:induction false} AcceptKeeps(history: seq<Envelope>, env: Envelope, sentTo: nat, sub: Subscription)
    requires Streaming(history, sentTo, sub)
    ensures Streaming(history + [env], sentTo, sub)
  {
    var p :| Proper(p, sentTo, |history|) && sub == Expected(history, sentTo, p);
    AcceptExpected(history, env, sentTo, p);
  }

  lemma {:induction false} PublishKeeps(history: seq<Envelope>, sentTo: nat, sub: Subscription)
    requires Streaming(history, sentTo, sub) && sentTo < |history|
    ensures Streaming(history, sentTo + 1, sub.(queue := sub.queue + [history[sentTo]]))
  {
    var p :| Proper(p, sentTo, |history|) && sub == Expected(history, sentTo, p);
    PublishExpected(history, sentTo, p);
  }

  lemma {:induction false} TakeKeeps(history: seq<Envelope>, sentTo: nat, sub: Subscription, capacity: nat, closed: bool)
    requires Distinct(history) && Streaming(history, sentTo, sub)
    ensures PhaseFine(history, sentTo, Take(sub, capacity, closed))
  {
    var p :| Proper(p, sentTo, |history|) && sub == Expected(history, sentTo, p);
    ReceiveKeeps(history, sentTo, p, capacity, closed);
  }

  lemma {:induction false} ReadingKeeps(y: System, e: Event, capacity: nat)
    requires Invariant(y) && Distinct(y.history) && Enabled(y, e) && y.phase.Reading?
    ensures Invariant(Next(y, e, capacity))
  {
    match e
    case Accept(env) => AcceptKeeps(y.history, env, y.sentTo, y.phase.sub);
    case Publish => PublishKeeps(y.history, y.sentTo, y.phase.sub);
    case Receive => TakeKeeps(y.history, y.sentTo, y.phase.sub, capacity, y.closed);
    case _ =>
  }

  lemma {:induction false} SubscribeKeeps(y: System, after: nat, capacity: nat)
    requires Invariant(y) && y.phase.Joined? && after <= y.phase.join
    ensures Invariant(Next(y, ReadLog(after), capacity))
  {
    SubscribeExpected(y.history, y.sentTo, y.phase.join, after);
  }

  lemma {:induction false} OtherKeeps(y: System, e: Event, capacity: nat)
    requires Invariant(y) && Enabled(y, e) && !y.phase.Reading? && (e.ReadLog? ==> e.after < y.base)
    ensures Invariant(Next(y, e, capacity))
  {
  }

  lemma {:induction false} EventKeeps(y: System, e: Event, capacity: nat)
    requires Invariant(y) && Distinct(y.history) && Enabled(y, e) && (e.ReadLog? ==> e.after <= y.phase.join || e.after < y.base)
    ensures Invariant(Next(y, e, capacity))
  {
    if y.phase.Reading? { ReadingKeeps(y, e, capacity); }
    else if e.ReadLog? && e.after >= y.base { SubscribeKeeps(y, e.after, capacity); }
    else { OtherKeeps(y, e, capacity); }
  }

  lemma {:induction false} DistinctGrows(history: seq<Envelope>, env: Envelope)
    requires Distinct(history) && Fresh(history, env)
    ensures Distinct(history + [env])
  {
  }

  // ---- Exactly once --------------------------------------------------------

  predicate Asked(phase: Phase) { phase.Reading? || phase.Finished? }

  /** Once asked, the starting ordinal, the join and the snapshot are fixed. */
  lemma {:induction false} AskedOnce(y: System, events: seq<Event>, capacity: nat, end: System)
    requires Reaches(y, events, capacity, end) && Asked(y.phase)
    ensures Asked(end.phase)
    ensures end.phase.sub.after == y.phase.sub.after && end.phase.sub.join == y.phase.sub.join && end.phase.sub.horizon == y.phase.sub.horizon
    decreases |events|
  {
    if events != [] { AskedOnce(Next(y, events[0], capacity), events[1..], capacity, end); }
  }

  /** The subscriber asked for nothing past what was published when it joined. */
  predicate Modest(phase: Phase) { Asked(phase) ==> phase.sub.after <= phase.sub.join }

  lemma {:induction false} RunKeeps(y: System, events: seq<Event>, capacity: nat, end: System)
    requires Invariant(y) && Distinct(y.history) && Reaches(y, events, capacity, end) && Modest(end.phase)
    ensures Invariant(end) && Distinct(end.history)
    decreases |events|
  {
    if events != [] {
      var e, y' := events[0], Next(y, events[0], capacity);
      if Asked(y'.phase) { AskedOnce(y', events[1..], capacity, end); }
      EventKeeps(y, e, capacity);
      if e.Accept? { DistinctGrows(y.history, e.env); }
      RunKeeps(y', events[1..], capacity, end);
    }
  }

  /** The subscriber has not joined yet; any prefix of the history is published. */
  predicate Initial(y: System) { y.phase.Away? && y.sentTo <= |y.history| && Distinct(y.history) }

  /** Exactly once: under every interleaving of acceptance, publication, compaction,
      channel closing, joining, reading and receiving, a subscriber that asked for
      nothing past what was published when it joined has received, at any moment,
      a gap-free, duplicate-free run of the accepted history right after `after`,
      each envelope under its accepted ordinal. */
  lemma {:induction false} SubscriberSeesHistoryOnce(y: System, events: seq<Event>, capacity: nat, end: System)
    requires Initial(y) && Reaches(y, events, capacity, end) && Asked(end.phase) && end.phase.sub.after <= end.phase.sub.join
    ensures
      var sub := end.phase.sub;
      && sub.after + |sub.delivered| <= |end.history|
      && forall i :: 0 <= i < |sub.delivered| ==> sub.delivered[i] == Numbered(sub.after + 1 + i, end.history[sub.after + i])
  {
    RunKeeps(y, events, capacity, end);
  }

  /** Nothing is withheld: a stream that is not lagging and has nothing to yield has
      yielded everything published and everything the snapshot held. */
  lemma {:induction false} SubscriberCatchesUp(y: System, events: seq<Event>, capacity: nat, end: System)
    requires Initial(y) && Reaches(y, events, capacity, end) && end.phase.Reading? && end.phase.sub.after <= end.phase.sub.join
    requires
      var pull := PullOnce(end.phase.sub.cursor, end.phase.sub.queue, capacity, end.closed).pull;
      pull.Nothing? || pull.Ended?
    ensures end.phase.sub.after + |end.phase.sub.delivered| == Max(end.phase.sub.horizon, end.sentTo)
  {
    RunKeeps(y, events, capacity, end);
    var p :| Proper(p, end.sentTo, |end.history|) && end.phase.sub == Expected(end.history, end.sentTo, p);
  }

  // ---- When the ordinals are exact -----------------------------------------

  predicate TrueOrdinals(y: System) {
    Asked(y.phase) ==>
      forall i :: 0 <= i < |y.phase.sub.delivered| ==>
        var item := y.phase.sub.delivered[i];
        1 <= item.ordinal <= |y.history| && item.envelope == y.history[item.ordinal - 1]
  }

  lemma {:induction false} OnceIsTrue(history: seq<Envelope>, sub: Subscription)
    requires ExactlyOnce(history, sub)
    ensures forall i :: 0 <= i < |sub.delivered| ==>
      var item := sub.delivered[i];
      1 <= item.ordinal <= |history| && item.envelope == history[item.ordinal - 1]
  {
  }

  lemma {:induction false} StreamingIsOnce(history: seq<Envelope>, sentTo: nat, sub: Subscription)
    requires Streaming(history, sentTo, sub)
    ensures ExactlyOnce(history, sub)
  {
  }

  lemma {:induction false} FineIsTrue(y: System)
    requires Invariant(y)
    ensures TrueOrdinals(y)
  {
    if y.phase.Reading? { StreamingIsOnce(y.history, y.sentTo, y.phase.sub); }
    if Asked(y.phase) { OnceIsTrue(y.history, y.phase.sub); }
  }

  function AskedFrom(phase: Phase, after: nat): Phase {
    match phase
    case Reading(sub) => Reading(sub.(after := after))
    case Finished(sub) => Finished(sub.(after := after))
    case _ => phase
  }

  /** Nothing reads the starting ordinal again once the replay is loaded. */
  lemma {:induction false} AfterIsForgotten(y: System, events: seq<Event>, capacity: nat, end: System, after: nat)
    requires Reaches(y, events, capacity, end) && Asked(y.phase)
    ensures Reaches(y.(phase := AskedFrom(y.phase, after)), events, capacity, end.(phase := AskedFrom(end.phase, after)))
    decreases |events|
  {
    if events != [] {
      var y' := Next(y, events[0], capacity);
      assert Next(y.(phase := AskedFrom(y.phase, after)), events[0], capacity) == y'.(phase := AskedFrom(y'.phase, after));
      AfterIsForgotten(y', events[1..], capacity, end, after);
    }
  }

  lemma {:induction false} ReachesMore(y: System, events: seq<Event>, capacity: nat, mid: System, e: Event)
    requires Reaches(y, events, capacity, mid) && Enabled(mid, e)
    ensures Reaches(y, events + [e], capacity, Next(mid, e, capacity))
    decreases |events|
  {
    if events == [] {
      assert [e][1..] == [];
    } else {
      assert (events + [e])[1..] == events[1..] + [e];
      ReachesMore(Next(y, events[0], capacity), events[1..], capacity, mid, e);
    }
  }

  /** Receiving the whole replay batch. */
  lemma {:induction false} Drain(y: System, capacity: nat) returns (events: seq<Event>, end: System)
    requires y.phase.Reading?
    ensures Reaches(y, events, capacity, end)
    ensures end == y.(phase := Reading(y.phase.sub.(
        cursor := y.phase.sub.cursor.(replay := []), delivered := y.phase.sub.delivered + y.phase.sub.cursor.replay)))
    decreases |y.phase.sub.cursor.replay|
  {
    if y.phase.sub.cursor.replay == [] {
      events, end := [], y;
    } else {
      var y' := Next(y, Receive, capacity);
      var replay := y.phase.sub.cursor.replay;
      assert y.phase.sub.delivered + [replay[0]] + replay[1..] == y.phase.sub.delivered + replay;
      var rest;
      rest, end := Drain(y', capacity);
      events := [Receive] + rest;
      assert events[1..] == rest;
    }
  }

  /** The receiver's next envelope is not in the replay, so it passes the filter and
      is numbered after the high-water mark. */
  lemma {:induction false} Misnumbered(y: System, h: nat, join: nat, capacity: nat)
    requires y.phase.Reading? && 0 < |y.phase.sub.queue| <= capacity && |y.history| == h
    requires y.phase.sub.cursor.replay == [] && y.phase.sub.cursor.nextLive == Some(h + 1)
    requires Filter(y.phase.sub.cursor.dedup, y.phase.sub.queue[0].messageId) == Filtered(false, None)
    ensures !TrueOrdinals(Next(y, Receive, capacity))
  {
    var n := |y.phase.sub.delivered|;
    assert Next(y, Receive, capacity).phase.sub.delivered[n].ordinal == h + 1;
  }

  lemma {:induction false} UnreplayedPasses(history: seq<Envelope>, join: nat, after: nat)
    requires Distinct(history) && join < after && join < |history|
    ensures Filter(Subscribe(history, join, [], after).cursor.dedup, history[join].messageId) == Filtered(false, None)
  {
    if after < |history| {
      assert history[after..] == history[after..|history|];
      IdsSlice(history, after, |history|, join);
    }
  }

  /** Asked past the join with something accepted since, some continuation delivers
      a wrong ordinal. */
  lemma {:induction false} WrongOrdinal(y: System, after: nat, capacity: nat) returns (events: seq<Event>, end: System)
    requires Invariant(y) && Distinct(y.history) && y.phase.Joined? && y.base <= after && |y.phase.queue| <= capacity && 0 < capacity
    requires y.phase.join < after && y.phase.join < |y.history|
    ensures Reaches(Next(y, ReadLog(after), capacity), events, capacity, end) && !TrueOrdinals(end)
  {
    var start := Next(y, ReadLog(after), capacity);
    events, end := Drain(start, capacity);
    if end.phase.sub.queue == [] {
      ReachesMore(start, events, capacity, end, Publish);
      events, end := events + [Publish], Next(end, Publish, capacity);
    }
    UnreplayedPasses(y.history, y.phase.join, after);
    Misnumbered(end, |y.history|, y.phase.join, capacity);
    ReachesMore(start, events, capacity, end, Receive);
    events, end := events + [Receive], Next(end, Receive, capacity);
  }

  /** With nothing accepted between the join and the snapshot, asking past it is
      asking from it. */
  lemma {:induction false} QuietStart(y: System, after: nat, capacity: nat)
    requires Invariant(y) && y.phase.Joined? && y.base <= after && y.phase.join == |y.history| < after
    ensures
      var start := Next(y, ReadLog(after), capacity);
      && start.phase.Reading? && Invariant(start.(phase := AskedFrom(start.phase, |y.history|)))
  {
    SubscribeExpected(y.history, y.sentTo, |y.history|, |y.history|);
  }

  lemma {:induction false} QuietWindow(y: System, after: nat, capacity: nat, events: seq<Event>, end: System)
    requires Invariant(y) && Distinct(y.history) && y.phase.Joined? && y.base <= after
    requires y.phase.join == |y.history| < after
    requires Reaches(Next(y, ReadLog(after), capacity), events, capacity, end)
    ensures TrueOrdinals(end)
  {
    var start, h := Next(y, ReadLog(after), capacity), |y.history|;
    QuietStart(y, after, capacity);
    FollowQuiet(start, h, capacity, events, end);
  }

  lemma {:induction false} FollowQuiet(start: System, h: nat, capacity: nat, events: seq<Event>, end: System)
    requires start.phase.Reading? && Invariant(start.(phase := AskedFrom(start.phase, h))) && Distinct(start.history)
    requires h <= start.phase.sub.join && Reaches(start, events, capacity, end)
    ensures TrueOrdinals(end)
  {
    AfterIsForgotten(start, events, capacity, end, h);
    AskedOnce(start, events, capacity, end);
    RunKeeps(start.(phase := AskedFrom(start.phase, h)), events, capacity, end.(phase := AskedFrom(end.phase, h)));
    FineIsTrue(end.(phase := AskedFrom(end.phase, h)));
  }

  lemma {:induction false} ModestOrdinals(y: System, after: nat, capacity: nat, events: seq<Event>, end: System)
    requires Invariant(y) && Distinct(y.history) && y.phase.Joined? && y.base <= after <= y.phase.join
    requires Reaches(Next(y, ReadLog(after), capacity), events, capacity, end)
    ensures TrueOrdinals(end)
  {
    var start := Next(y, ReadLog(after), capacity);
    EventKeeps(y, ReadLog(after), capacity);
    AskedOnce(start, events, capacity, end);
    RunKeeps(start, events, capacity, end);
    FineIsTrue(end);
  }

  ghost predicate AlwaysExact(start: System, capacity: nat) {
    forall events, end :: Reaches(start, events, capacity, end) ==> TrueOrdinals(end)
  }

  /** Every ordinal a subscription will ever deliver is exact if and only if it asked
      for nothing past what was published when it joined the bus, or nothing was
      accepted between that join and its snapshot. */
  lemma {:induction false} OrdinalsExactIff(y: System, after: nat, capacity: nat)
    requires Invariant(y) && Distinct(y.history) && y.phase.Joined? && y.base <= after && |y.phase.queue| <= capacity && 0 < capacity
    ensures AlwaysExact(Next(y, ReadLog(after), capacity), capacity) <==> after <= y.phase.join || y.phase.join == |y.history|
  {
    var start := Next(y, ReadLog(after), capacity);
    if after <= y.phase.join || y.phase.join == |y.history| {
      forall events, end | Reaches(start, events, capacity, end) ensures TrueOrdinals(end) {
        if after <= y.phase.join { ModestOrdinals(y, after, capacity, events, end); }
        else { QuietWindow(y, after, capacity, events, end); }
      }
    } else {
      var events, end := WrongOrdinal(y, after, capacity);
      assert !AlwaysExact(start, capacity);
    }
  }

  lemma {:induction false} Before(y: System, e: Event, rest: seq<Event>, capacity: nat, end: System)
    requires Enabled(y, e) && Reaches(Next(y, e, capacity), rest, capacity, end)
    ensures Reaches(y, [e] + rest, capacity, end)
  {
    assert ([e] + rest)[1..] == rest;
  }

  /** Such a subscription comes about: an envelope is accepted after the join, and the
      subscriber asks for what follows it before it is published. */
  lemma {:induction false} AskedPastJoin(y: System, env: Envelope, capacity: nat) returns (events: seq<Event>, end: System)
    requires Initial(y) && y.sentTo == |y.history| && y.base <= |y.history| && Fresh(y.history, env) && 0 < capacity
    ensures Reaches(y, events, capacity, end) && !TrueOrdinals(end)
  {
    var joined := Next(y, Join, capacity);
    var accepted := Next(joined, Accept(env), capacity);
    var after := |accepted.history|;
    EventKeeps(y, Join, capacity);
    EventKeeps(joined, Accept(env), capacity);
    events, end := WrongOrdinal(accepted, after, capacity);
    Before(accepted, ReadLog(after), events, capacity, end);
    Before(joined, Accept(env), [ReadLog(after)] + events, capacity, end);
    Before(y, Join, [Accept(env)] + ([ReadLog(after)] + events), capacity, end);
    events := [Join] + ([Accept(env)] + ([ReadLog(after)] + events));
  }
}
