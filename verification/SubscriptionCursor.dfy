/** The session stream bus (src/stream_bus.rs) and the cursor that reads it
    (src/server.rs:1415-1570), as the objects they are. A channel is a broadcast
    channel: every receiver sees what was sent after it subscribed, unless it
    falls more than the capacity behind. */
module SubscriptionCursors {
  import opened Sessions
  import opened Modes
  import opened Subscriptions

  class Channel {
    var sent: seq<Envelope>
    var receivers: nat
    var closed: bool
    const capacity: nat

    constructor (capacity: nat)
      ensures sent == [] && receivers == 0 && !closed && this.capacity == capacity
    {
      sent, receivers, closed := [], 0, false;
      this.capacity := capacity;
    }
  }

  datatype Received = Got(env: Envelope) | Empty | Closed | Lagged(skipped: nat)

  class Receiver {
    const channel: Channel
    var position: nat

    ghost predicate Valid() reads this, channel { position <= |channel.sent| }

    /** What it was sent and has not received. */
    ghost function Waiting(): seq<Envelope>
      requires Valid()
      reads this, channel
    {
      channel.sent[position..]
    }

    constructor (channel: Channel)
      ensures Valid() && this.channel == channel && Waiting() == []
    {
      this.channel := channel;
      position := |channel.sent|;
    }

    method TryRecv() returns (r: Received)
      requires Valid()
      modifies this`position
      ensures Valid()
      ensures |old(Waiting())| > channel.capacity ==>
        r == Lagged(|old(Waiting())| - channel.capacity) && Waiting() == old(Waiting())[|old(Waiting())| - channel.capacity..]
      ensures 0 < |old(Waiting())| <= channel.capacity ==> r == Got(old(Waiting())[0]) && Waiting() == old(Waiting())[1..]
      ensures old(Waiting()) == [] ==> r == (if channel.closed then Closed else Empty) && Waiting() == []
    {
      var behind := |channel.sent| - position;
      if behind > channel.capacity {
        position := |channel.sent| - channel.capacity;
        return Lagged(behind - channel.capacity);
      }
      if behind == 0 { return if channel.closed then Closed else Empty; }
      r := Got(channel.sent[position]);
      position := position + 1;
    }
  }

  class SessionStreamBus {
    var channels: map<string, Channel>
    const capacity: nat

    constructor (capacity: nat)
      ensures channels == map[] && this.capacity == capacity
    {
      channels := map[];
      this.capacity := capacity;
    }

    /** Distinct sessions have distinct channels. */
    ghost predicate Valid() reads this { forall s, t :: s in channels && t in channels && channels[s] == channels[t] ==> s == t }

    method Subscribe(sessionId: string) returns (r: Receiver)
      requires Valid()
      modifies this, channels.Values
      ensures Valid() && fresh(r) && r.Valid() && r.Waiting() == []
      ensures sessionId in channels && channels[sessionId] == r.channel
      ensures sessionId in old(channels) ==> channels == old(channels) && r.channel.receivers == old(channels[sessionId].receivers) + 1
      ensures sessionId !in old(channels) ==> channels == old(channels)[sessionId := r.channel] && fresh(r.channel) && r.channel.receivers == 1
      ensures forall s :: s in old(channels) ==> channels[s].sent == old(channels[s].sent)
      ensures forall s :: s in old(channels) && s != sessionId ==> unchanged(old(channels)[s])
    {
      if sessionId !in channels {
        var c := new Channel(capacity);
        channels := channels[sessionId := c];
      }
      channels[sessionId].receivers := channels[sessionId].receivers + 1;
      r := new Receiver(channels[sessionId]);
    }

    /** Reaches every receiver of the session's channel; without one it is lost. */
    method Publish(sessionId: string, env: Envelope)
      requires Valid()
      modifies channels.Values
      ensures sessionId in channels && channels[sessionId].receivers > 0 ==>
        channels[sessionId].sent == old(channels[sessionId].sent) + [env]
      ensures sessionId in channels && channels[sessionId].receivers == 0 ==> channels[sessionId].sent == old(channels[sessionId].sent)
      ensures forall s :: s in channels ==> channels[s].receivers == old(channels[s].receivers) && channels[s].closed == old(channels[s].closed)
      ensures forall s :: s in channels && s != sessionId ==> unchanged(channels[s])
    {
      if sessionId in channels && channels[sessionId].receivers > 0 {
        channels[sessionId].sent := channels[sessionId].sent + [env];
      }
    }

    /** A channel someone still reads is never removed. */
    method RemoveIfUnused(sessionId: string) returns (gone: bool)
      requires Valid()
      modifies this
      ensures Valid()
      ensures gone <==> sessionId !in channels
      ensures gone <==> sessionId !in old(channels) || old(channels)[sessionId].receivers == 0
      ensures channels == if gone then old(channels) - {sessionId} else old(channels)
    {
      if sessionId !in channels { return true; }
      gone := channels[sessionId].receivers == 0;
      if gone { channels := channels - {sessionId}; }
    }
  }

  // ---- The cursor ----------------------------------------------------------

  /** Receives until one is not a repeat. */
  function PullNext(c: Cursor, queue: seq<Envelope>, capacity: nat, closed: bool): Pulled
    decreases |queue|
  {
    var p := PullOnce(c, queue, capacity, closed);
    if p.pull.Skipped? then PullNext(p.cursor, p.queue, capacity, closed) else p
  }

  class SubscriptionCursor {
    var receiver: Receiver?
    var replay: seq<Numbered>
    var dedup: Option<set<string>>
    var nextLive: Option<int>

    ghost predicate Valid() reads this, receiver, if receiver != null then {receiver.channel} else {} {
      receiver != null ==> receiver.Valid()
    }

    function View(): Cursor reads this { Cursor(replay, dedup, nextLive) }

    constructor (receiver: Receiver)
      requires receiver.Valid()
      ensures Valid() && this.receiver == receiver && View() == FreshCursor
    {
      this.receiver, replay, dedup, nextLive := receiver, [], None, None;
    }

    method Load(after: nat, batch: seq<Envelope>, highWater: nat)
      modifies this`replay, this`dedup, this`nextLive
      ensures View() == LoadSnapshot(old(View()), after, batch, highWater)
    {
      if batch != [] { dedup := Some(IdsOf(batch)); }
      replay := replay + NumberFrom(after + 1, batch);
      nextLive := Some(highWater + 1);
    }

    method ShouldSkipReplayed(env: Envelope) returns (skip: bool)
      modifies this`dedup
      ensures Filtered(skip, dedup) == Filter(old(dedup), env.messageId)
    {
      if dedup.Some? && env.messageId in dedup.value {
        dedup := Some(dedup.value - {env.messageId});
        return true;
      }
      dedup := None;
      return false;
    }

    method Number(env: Envelope) returns (item: Numbered)
      modifies this`nextLive
      ensures item == Numbered(if old(nextLive).Some? then old(nextLive).value else 0, env)
      ensures nextLive == if old(nextLive).Some? then Some(old(nextLive).value + 1) else None
    {
      if nextLive.None? { return Numbered(0, env); }
      item := Numbered(nextLive.value, env);
      nextLive := Some(nextLive.value + 1);
    }

    /** One receive from the bus, filtered and numbered. */
    method ReceiveLive() returns (pull: Pull)
      requires Valid() && receiver != null && replay == []
      modifies this`dedup, this`nextLive, receiver
      ensures Valid()
      ensures
        Pulled(pull, View(), receiver.Waiting())
          == old(PullOnce(View(), receiver.Waiting(), receiver.channel.capacity, receiver.channel.closed))
    {
      var got := receiver.TryRecv();
      match got {
        case Empty => return Nothing;
        case Closed => return Ended;
        case Lagged(n) => return StreamLagged(n);
        case Got(env) =>
          var skip := ShouldSkipReplayed(env);
          if skip { return Skipped; }
          var item := Number(env);
          return Yielded(item);
      }
    }

    method TryNext() returns (pull: Pull)
      requires Valid() && receiver != null
      modifies this, receiver
      ensures Valid()
      ensures
        var p := old(PullNext(View(), receiver.Waiting(), receiver.channel.capacity, receiver.channel.closed));
        && pull == p.pull && View() == p.cursor && old(receiver).Valid() && old(receiver).Waiting() == p.queue
        && receiver == (if pull.Ended? then null else old(receiver))
    {
      if replay != [] {
        pull, replay := Yielded(replay[0]), replay[1..];
        return;
      }
      while true
        invariant receiver == old(receiver) && receiver != null && receiver.Valid() && replay == []
        invariant PullNext(View(), receiver.Waiting(), receiver.channel.capacity, receiver.channel.closed)
               == old(PullNext(View(), receiver.Waiting(), receiver.channel.capacity, receiver.channel.closed))
        decreases |receiver.Waiting()|
      {
        pull := ReceiveLive();
        if !pull.Skipped? {
          if pull.Ended? { receiver := null; }
          return;
        }
      }
    }
  }

  /** A call of `TryNext` is a run of receives of the interleaved system, so the
      exactly-once theorem is about what it returns. */
  lemma {:induction false} TryNextIsReceives(y: System, capacity: nat) returns (events: seq<Event>, end: System)
    requires y.phase.Reading?
    ensures Reaches(y, events, capacity, end) && Asked(end.phase)
    ensures
      var sub, sub' := y.phase.sub, end.phase.sub;
      var p := PullNext(sub.cursor, sub.queue, capacity, y.closed);
      && sub'.cursor == p.cursor && sub'.queue == p.queue
      && sub'.delivered == (if p.pull.Yielded? then sub.delivered + [p.pull.item] else sub.delivered)
      && end.phase.Finished? == (p.pull.Ended? || p.pull.StreamLagged?)
    decreases |y.phase.sub.queue|
  {
    var y' := Next(y, Receive, capacity);
    assert [Receive][1..] == [];
    if PullOnce(y.phase.sub.cursor, y.phase.sub.queue, capacity, y.closed).pull.Skipped? {
      var rest;
      rest, end := TryNextIsReceives(y', capacity);
      events := [Receive] + rest;
      assert events[1..] == rest;
    } else {
      events, end := [Receive], y';
    }
  }
}
