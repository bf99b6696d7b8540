/** WatchSessions (src/server.rs:2302-2419, src/watch_sync.rs:68-151): an initial
    sync over a snapshot of the registry's handles, while lifecycle events keep
    arriving on a bounded bus and are moved into a bounded buffer. */
module Watching {
  import opened Sessions

  datatype Kind = Created | Resolved | Expired | Suspended | Resumed | Cancelled

  datatype LifeEvent = LifeEvent(kind: Kind, id: string)

  // ---- Draining the bus ----------------------------------------------------

  datatype DrainError = Lagged(skipped: nat) | Overflow(limit: nat)

  datatype Drained = Drained(pending: seq<LifeEvent>, waiting: seq<LifeEvent>, error: Option<DrainError>)

  /** Everything waiting moves to the buffer, in order, or the stream fails. */
  function Drain(pending: seq<LifeEvent>, waiting: seq<LifeEvent>, limit: nat, capacity: nat): Drained
    requires |pending| <= limit
  {
    if |waiting| > capacity then Drained(pending, waiting[|waiting| - capacity..], Some(Lagged(|waiting| - capacity)))
    else if |pending| + |waiting| <= limit then Drained(pending + waiting, [], None)
    else
      var room := limit - |pending|;
      Drained(pending + waiting[..room], waiting[room + 1..], Some(Overflow(limit)))
  }

  /** A lifecycle bus receiver: what it was sent and has not received. */
  class LifecycleReceiver {
    var waiting: seq<LifeEvent>
    const capacity: nat

    constructor (capacity: nat)
      ensures waiting == [] && this.capacity == capacity
    {
      waiting := [];
      this.capacity := capacity;
    }

    method TryRecv() returns (event: Option<LifeEvent>, skipped: nat)
      modifies this
      ensures |old(waiting)| > capacity ==>
        event.None? && skipped == |old(waiting)| - capacity && waiting == old(waiting)[skipped..]
      ensures |old(waiting)| <= capacity ==> skipped == 0
      ensures 0 < |old(waiting)| <= capacity ==> event == Some(old(waiting)[0]) && waiting == old(waiting)[1..]
      ensures old(waiting) == [] ==> event.None? && waiting == []
    {
      skipped := 0;
      if |waiting| > capacity {
        skipped := |waiting| - capacity;
        waiting := waiting[skipped..];
        return None, skipped;
      }
      if waiting == [] { return None, 0; }
      event := Some(waiting[0]);
      waiting := waiting[1..];
    }
  }

  method DrainLifecycleEvents(rx: LifecycleReceiver, pending: seq<LifeEvent>, limit: nat)
    returns (buffer: seq<LifeEvent>, error: Option<DrainError>)
    requires |pending| <= limit
    modifies rx
    ensures Drained(buffer, rx.waiting, error) == Drain(pending, old(rx.waiting), limit, rx.capacity)
    ensures |buffer| <= limit
  {
    buffer := pending;
    ghost var sent := rx.waiting;
    ghost var i := 0;
    while true
      invariant |buffer| <= limit
      invariant 0 <= i <= |sent| && rx.waiting == sent[i..] && buffer == pending + sent[..i]
      invariant i > 0 ==> |sent| <= rx.capacity
      decreases |rx.waiting|
    {
      var event, skipped := rx.TryRecv();
      if skipped > 0 { return buffer, Some(Lagged(skipped)); }
      if event.None? {
        assert sent[..i] == sent;
        return buffer, None;
      }
      if |buffer| >= limit { return buffer, Some(Overflow(limit)); }
      buffer := buffer + [event.value];
      i := i + 1;
    }
  }

  // ---- The stream ----------------------------------------------------------

  datatype Phase = Subscribed | Syncing(drained: bool) | Live | Failed(error: DrainError)

  /** `bus` is every event published since the subscription, of which the first
      `taken` have left the receiver. `emitted` are the sessions the sync has
      yielded, `handles` those it has still to visit. */
  datatype Watch = Watch(
    bus: seq<LifeEvent>, taken: nat, handles: seq<string>, emitted: seq<string>,
    pending: seq<LifeEvent>, output: seq<LifeEvent>, phase: Phase)

  datatype Step =
    | Publish(event: LifeEvent)
    | Snapshot(handles: seq<string>)
    | DrainBus
    | VisitNext
    | Advance

  const Subscription := Watch([], 0, [], [], [], [], Subscribed)

  predicate Distinct(ids: seq<string>) { forall i, j :: 0 <= i < j < |ids| ==> ids[i] != ids[j] }

  predicate Enabled(w: Watch, e: Step) {
    match e
    case Publish(_) => true
    case Snapshot(_) => w.phase.Subscribed?
    case DrainBus => w.phase == Syncing(false)
    case VisitNext => w.phase == Syncing(true)
    case Advance => w.phase.Live?
  }

  function Waiting(w: Watch): seq<LifeEvent> { if w.taken <= |w.bus| then w.bus[w.taken..] else [] }

  /** The post-sync filter: an event the sync already showed is dropped. */
  function Show(w: Watch, event: LifeEvent): Watch {
    if event.kind == Created && event.id in w.emitted then w else w.(output := w.output + [event])
  }

  function Next(w: Watch, e: Step, limit: nat, capacity: nat): Watch
    requires |w.pending| <= limit
  {
    match e
    case Publish(event) => w.(bus := w.bus + [event])
    case Snapshot(handles) => w.(handles := handles, phase := Syncing(false))
    case DrainBus =>
      var d := Drain(w.pending, Waiting(w), limit, capacity);
      if d.error.Some? then w.(phase := Failed(d.error.value)) else w.(pending := d.pending, taken := |w.bus|, phase := Syncing(true))
    case VisitNext =>
      if w.handles == [] then w.(phase := Live)
      else
        var id := w.handles[0];
        w.(handles := w.handles[1..], emitted := w.emitted + [id], output := w.output + [LifeEvent(Created, id)], phase := Syncing(false))
    case Advance =>
      if w.pending != [] then Show(w.(pending := w.pending[1..]), w.pending[0])
      else if |Waiting(w)| > capacity then w.(phase := Failed(Lagged(|Waiting(w)| - capacity)))
      else if Waiting(w) == [] then w
      else Show(w.(taken := w.taken + 1), Waiting(w)[0])
  }

  predicate Reaches(w: Watch, steps: seq<Step>, limit: nat, capacity: nat, end: Watch)
    decreases |steps|
  {
    if steps == [] then end == w
    else
      && |w.pending| <= limit && Enabled(w, steps[0])
      && Reaches(Next(w, steps[0], limit, capacity), steps[1..], limit, capacity, end)
  }

  // ---- What a stream has shown ---------------------------------------------

  function CreatedFor(ids: seq<string>): seq<LifeEvent> {
    if ids == [] then [] else CreatedFor(ids[..|ids| - 1]) + [LifeEvent(Created, ids[|ids| - 1])]
  }

  /** The events a client is shown after the sync. */
  function Shown(events: seq<LifeEvent>, synced: seq<string>): seq<LifeEvent> {
    if events == [] then []
    else
      var front, last := events[..|events| - 1], events[|events| - 1];
      Shown(front, synced) + if last.kind == Created && last.id in synced then [] else [last]
  }

  predicate Twice(events: seq<LifeEvent>, event: LifeEvent) {
    exists i, j :: 0 <= i < j < |events| && events[i] == event && events[j] == event
  }

  /** How much of the bus has reached the client. */
  function Passed(w: Watch): int { w.taken - |w.pending| }

  predicate Accounted(w: Watch) {
    && 0 <= Passed(w) <= w.taken <= |w.bus|
    && w.pending == w.bus[Passed(w)..w.taken]
    && (!w.phase.Live? && !w.phase.Failed? ==> Passed(w) == 0)
    && w.output == CreatedFor(w.emitted) + Shown(w.bus[..Passed(w)], w.emitted)
    && (w.phase.Live? ==> w.handles == [])
    && (w.phase.Subscribed? ==> w.emitted == [])
  }

  lemma {:induction false} ShownNext(bus: seq<LifeEvent>, n: int, synced: seq<string>)
    requires 0 <= n < |bus|
    ensures Shown(bus[..n + 1], synced) == Shown(bus[..n], synced) + if bus[n].kind == Created && bus[n].id in synced then [] else [bus[n]]
  {
    assert bus[..n + 1][..n] == bus[..n];
  }

  lemma {:induction false} PublishKeeps(w: Watch, event: LifeEvent, limit: nat, capacity: nat)
    requires Accounted(w) && |w.pending| <= limit
    ensures Accounted(Next(w, Publish(event), limit, capacity))
  {
    var bus := w.bus + [event];
    assert bus[..Passed(w)] == w.bus[..Passed(w)];
    assert bus[Passed(w)..w.taken] == w.bus[Passed(w)..w.taken];
  }

  lemma {:induction false} SyncKeeps(w: Watch, e: Step, limit: nat, capacity: nat)
    requires Accounted(w) && |w.pending| <= limit && Enabled(w, e) && (e.Snapshot? || e.DrainBus? || e.VisitNext?)
    ensures Accounted(Next(w, e, limit, capacity)) && |Next(w, e, limit, capacity).pending| <= limit
  {
    if e.DrainBus? {
      assert w.bus[..w.taken] + w.bus[w.taken..] == w.bus;
    } else if e.VisitNext? && w.handles != [] {
      var w' := Next(w, e, limit, capacity);
      assert w'.emitted[..|w.emitted|] == w.emitted;
      assert w.bus[..0] == [];
    }
  }

  /** Showing the next event of the bus. */
  lemma {:induction false} ShowKeeps(w: Watch, n: int)
    requires 0 <= n < w.taken <= |w.bus| && w.phase.Live? && w.handles == []
    requires w.pending == w.bus[n + 1..w.taken] && w.output == CreatedFor(w.emitted) + Shown(w.bus[..n], w.emitted)
    ensures Accounted(Show(w, w.bus[n]))
  {
    ShownNext(w.bus, n, w.emitted);
  }

  lemma {:induction false} AdvanceKeeps(w: Watch, limit: nat, capacity: nat)
    requires Accounted(w) && |w.pending| <= limit && w.phase.Live?
    ensures Accounted(Next(w, Advance, limit, capacity)) && |Next(w, Advance, limit, capacity).pending| <= limit
  {
    var n := Passed(w);
    if w.pending != [] {
      assert w.bus[n..w.taken][0] == w.bus[n] && w.bus[n..w.taken][1..] == w.bus[n + 1..w.taken];
      ShowKeeps(w.(pending := w.pending[1..]), n);
    } else if 0 < |Waiting(w)| <= capacity {
      assert Waiting(w)[0] == w.bus[n];
      ShowKeeps(w.(taken := w.taken + 1), n);
    }
  }

  lemma {:induction false} StepAccounted(w: Watch, e: Step, limit: nat, capacity: nat)
    requires Accounted(w) && |w.pending| <= limit && Enabled(w, e)
    ensures Accounted(Next(w, e, limit, capacity)) && |Next(w, e, limit, capacity).pending| <= limit
  {
    if e.Publish? { PublishKeeps(w, e.event, limit, capacity); }
    else if e.Advance? { AdvanceKeeps(w, limit, capacity); }
    else { SyncKeeps(w, e, limit, capacity); }
  }

  lemma {:induction false} RunAccounted(w: Watch, steps: seq<Step>, limit: nat, capacity: nat, end: Watch)
    requires Accounted(w) && |w.pending| <= limit && Reaches(w, steps, limit, capacity, end)
    ensures Accounted(end) && |end.pending| <= limit
    decreases |steps|
  {
    if steps != [] {
      StepAccounted(w, steps[0], limit, capacity);
      RunAccounted(Next(w, steps[0], limit, capacity), steps[1..], limit, capacity, end);
    }
  }

  // ---- The theorems --------------------------------------------------------

  function Transitions(events: seq<LifeEvent>): seq<LifeEvent> {
    if events == [] then []
    else
      var front, last := events[..|events| - 1], events[|events| - 1];
      Transitions(front) + if last.kind == Created then [] else [last]
  }

  lemma {:induction false} TransitionsAppend(a: seq<LifeEvent>, b: seq<LifeEvent>)
    ensures Transitions(a + b) == Transitions(a) + Transitions(b)
  {
    if b == [] {
      assert a + b == a;
    } else {
      var front := b[..|b| - 1];
      assert (a + b)[..|a + b| - 1] == a + front;
      TransitionsAppend(a, front);
    }
  }

  lemma {:induction false} CreatedForFacts(ids: seq<string>)
    ensures Transitions(CreatedFor(ids)) == [] && |CreatedFor(ids)| == |ids|
    ensures forall i :: 0 <= i < |ids| ==> CreatedFor(ids)[i] == LifeEvent(Created, ids[i])
  {
    if ids != [] {
      var front := ids[..|ids| - 1];
      CreatedForFacts(front);
      var all := CreatedFor(ids);
      assert all[..|all| - 1] == CreatedFor(front);
    }
  }

  lemma {:induction false} ShownTransitions(events: seq<LifeEvent>, synced: seq<string>)
    ensures Transitions(Shown(events, synced)) == Transitions(events)
  {
    if events != [] {
      var front, last := events[..|events| - 1], events[|events| - 1];
      ShownTransitions(front, synced);
      if !(last.kind == Created && last.id in synced) {
        var all := Shown(events, synced);
        assert all[..|all| - 1] == Shown(front, synced);
      } else {
        assert Shown(events, synced) == Shown(front, synced);
      }
    }
  }

  /** Every other event passes through, in bus order: what a client has seen of them
      is exactly what the bus carried up to the last one shown. */
  lemma {:induction false} TransitionsPassInOrder(steps: seq<Step>, limit: nat, capacity: nat, end: Watch)
    requires Reaches(Subscription, steps, limit, capacity, end)
    ensures 0 <= Passed(end) <= |end.bus| && Transitions(end.output) == Transitions(end.bus[..Passed(end)])
  {
    RunAccounted(Subscription, steps, limit, capacity, end);
    TransitionsAppend(CreatedFor(end.emitted), Shown(end.bus[..Passed(end)], end.emitted));
    CreatedForFacts(end.emitted);
    ShownTransitions(end.bus[..Passed(end)], end.emitted);
  }

  /** The buffer never exceeds its limit. */
  lemma {:induction false} BufferBounded(steps: seq<Step>, limit: nat, capacity: nat, end: Watch)
    requires Reaches(Subscription, steps, limit, capacity, end)
    ensures |end.pending| <= limit
  {
    RunAccounted(Subscription, steps, limit, capacity, end);
  }

  lemma {:induction false} ShownMembers(events: seq<LifeEvent>, synced: seq<string>, event: LifeEvent)
    ensures event in Shown(events, synced) <==> event in events && !(event.kind == Created && event.id in synced)
  {
    if events != [] {
      var front, last := events[..|events| - 1], events[|events| - 1];
      ShownMembers(front, synced, event);
      assert events == front + [last];
    }
  }

  lemma {:induction false} TwiceLast(events: seq<LifeEvent>, last: LifeEvent, event: LifeEvent)
    ensures Twice(events + [last], event) <==> Twice(events, event) || (last == event && event in events)
  {
    var all := events + [last];
    if Twice(all, event) {
      var i, j :| 0 <= i < j < |all| && all[i] == event && all[j] == event;
      assert events[i] == event;
      if j < |events| { assert events[j] == event; }
    }
    if Twice(events, event) {
      var i, j :| 0 <= i < j < |events| && events[i] == event && events[j] == event;
      assert all[i] == event && all[j] == event;
    }
    if last == event && event in events {
      var i :| 0 <= i < |events| && events[i] == event;
      assert all[i] == event && all[|events|] == event;
    }
  }

  lemma {:induction false} TwiceShown(events: seq<LifeEvent>, synced: seq<string>, event: LifeEvent)
    ensures Twice(Shown(events, synced), event) <==> Twice(events, event) && !(event.kind == Created && event.id in synced)
  {
    if events != [] {
      var front, last := events[..|events| - 1], events[|events| - 1];
      TwiceShown(front, synced, event);
      ShownMembers(front, synced, event);
      TwiceLast(front, last, event);
      TwiceLast(Shown(front, synced), last, event);
      assert events == front + [last];
      if last.kind == Created && last.id in synced { assert Shown(events, synced) == Shown(front, synced); }
    }
  }

  lemma {:induction false} TwiceJoined(a: seq<LifeEvent>, b: seq<LifeEvent>, event: LifeEvent)
    requires event !in a || event !in b
    ensures Twice(a + b, event) <==> Twice(a, event) || Twice(b, event)
  {
    if b == [] {
      assert a + b == a;
    } else {
      var front, last := b[..|b| - 1], b[|b| - 1];
      assert b == front + [last] && a + b == (a + front) + [last];
      TwiceJoined(a, front, event);
      TwiceLast(a + front, last, event);
      TwiceLast(front, last, event);
    }
  }

  /** The sync shows a session once; what it shows, the bus does not show again. */
  lemma {:induction false} TwiceOutput(w: Watch, id: string)
    requires Accounted(w) && Distinct(w.emitted)
    ensures Twice(w.output, LifeEvent(Created, id)) <==> id !in w.emitted && Twice(w.bus[..Passed(w)], LifeEvent(Created, id))
  {
    var event, events := LifeEvent(Created, id), w.bus[..Passed(w)];
    CreatedForFacts(w.emitted);
    ShownMembers(events, w.emitted, event);
    TwiceShown(events, w.emitted, event);
    TwiceJoined(CreatedFor(w.emitted), Shown(events, w.emitted), event);
  }

  /** What a stream that caught up with the bus has shown as Created. */
  lemma {:induction false} ShownCreated(w: Watch, id: string)
    requires Accounted(w) && Passed(w) == |w.bus|
    ensures LifeEvent(Created, id) in w.output <==> id in w.emitted || LifeEvent(Created, id) in w.bus
  {
    CreatedForFacts(w.emitted);
    assert w.bus[..|w.bus|] == w.bus;
    ShownMembers(w.bus, w.emitted, LifeEvent(Created, id));
    if id in w.emitted {
      var i :| 0 <= i < |w.emitted| && w.emitted[i] == id;
      assert CreatedFor(w.emitted)[i] == LifeEvent(Created, id);
    }
  }

  /** A live stream has visited its whole snapshot. */
  lemma {:induction false} SyncVisitsSnapshot(w: Watch, steps: seq<Step>, limit: nat, capacity: nat, end: Watch)
    requires Reaches(w, steps, limit, capacity, end) && end.phase.Live? && !w.phase.Subscribed? && (w.phase.Live? ==> w.handles == [])
    ensures end.emitted == w.emitted + w.handles
    decreases |steps|
  {
    if steps != [] {
      var w' := Next(w, steps[0], limit, capacity);
      SyncVisitsSnapshot(w', steps[1..], limit, capacity, end);
      assert w'.emitted + w'.handles == w.emitted + w.handles;
    }
  }
}
