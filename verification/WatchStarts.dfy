/** WatchSessions against session starts: a start registers its session
    (src/runtime.rs:1043), commits it, and only then announces it on the lifecycle bus
    (src/runtime.rs:1136-1141); a stream subscribes to the bus before it snapshots the
    registry. Starts, rollbacks, evictions and the stream interleave freely. */
module WatchedStarts {
  import opened Sessions
  import W = Watching

  /** Until it is committed or rolled back, a start holds its session's mutex. */
  datatype Stage = Registered | Failing | Committed | Announced | RolledBack {
    predicate Held() { Registered? || Failing? }
    predicate Durable() { Committed? || Announced? }
  }

  datatype Start = Start(id: string, stage: Stage)

  /** `registry` maps an id to the start whose session it holds; `reused` records that
      an id was registered again although an earlier start of it had not rolled
      back. `heard` are the starts announced before the stream subscribed; `order`
      are the handles its snapshot took, when there were `known` starts. */
  datatype System = System(
    starts: seq<Start>, registry: map<string, nat>, reused: bool,
    watch: Option<W.Watch>, heard: set<nat>, order: seq<nat>, known: nat)

  datatype Step =
    | Register(id: string)
    | Commit(o: nat)
    | Fail(o: nat)              // storage failed: poisoned, still registered and locked
    | Remove(o: nat)            // the rollback removes the id and lets go
    | Announce(o: nat)
    | Evict(id: string)
    | Report(event: W.LifeEvent)
    | Subscribe
    | Snapshot(order: seq<nat>)
    | DrainBus
    | VisitNext
    | Advance

  predicate At(y: System, o: nat, stage: Stage) { o < |y.starts| && y.starts[o].stage == stage }

  /** The snapshot clones every handle of the map, in any order. */
  predicate Arranges(order: seq<nat>, registry: map<string, nat>) {
    && (forall i, j :: 0 <= i < j < |order| ==> order[i] != order[j])
    && (forall i :: 0 <= i < |order| ==> order[i] in registry.Values)
    && (forall id :: id in registry ==> registry[id] in order)
  }

  /** Visiting a session waits for its mutex. */
  predicate Visitable(y: System) {
    y.watch.Some? &&
    var n := |y.watch.value.emitted|;
    y.watch.value.handles != [] ==> n < |y.order| && y.order[n] < |y.starts| && !y.starts[y.order[n]].stage.Held()
  }

  predicate Enabled(y: System, e: Step) {
    match e
    case Register(id) => id !in y.registry
    case Commit(o) => At(y, o, Registered)
    case Fail(o) => At(y, o, Registered)
    case Remove(o) => At(y, o, Failing)
    case Announce(o) => At(y, o, Committed)
    case Evict(id) => id in y.registry
    case Report(event) => event.kind != W.Created
    case Subscribe => y.watch.None?
    case Snapshot(order) => y.watch.Some? && y.watch.value.phase.Subscribed? && Arranges(order, y.registry)
    case DrainBus => y.watch.Some? && W.Enabled(y.watch.value, W.DrainBus)
    case VisitNext => y.watch.Some? && W.Enabled(y.watch.value, W.VisitNext) && Visitable(y)
    case Advance => y.watch.Some? && W.Enabled(y.watch.value, W.Advance)
  }

  function Move(y: System, o: nat, stage: Stage): System
    requires o < |y.starts|
  {
    y.(starts := y.starts[o := y.starts[o].(stage := stage)])
  }

  function Publish(y: System, event: W.LifeEvent): System {
    if y.watch.None? then y else y.(watch := Some(y.watch.value.(bus := y.watch.value.bus + [event])))
  }

  function With(y: System, w: W.Watch): System { y.(watch := Some(w)) }

  predicate Taken(starts: seq<Start>, id: string) {
    exists o :: 0 <= o < |starts| && starts[o].id == id && !starts[o].stage.RolledBack?
  }

  function IdsOf(starts: seq<Start>, order: seq<nat>): seq<string> {
    seq(|order|, i requires 0 <= i < |order| => if order[i] < |starts| then starts[order[i]].id else "")
  }

  function AnnouncedNow(starts: seq<Start>): set<nat> { set o: nat | o < |starts| && starts[o].stage.Announced? }

  function Next(y: System, e: Step, limit: nat, capacity: nat): System
    requires Enabled(y, e) && (y.watch.Some? ==> |y.watch.value.pending| <= limit)
  {
    match e
    case Register(id) =>
      y.(starts := y.starts + [Start(id, Registered)], registry := y.registry[id := |y.starts|], reused := y.reused || Taken(y.starts, id))
    case Commit(o) => Move(y, o, Committed)
    case Fail(o) => Move(y, o, Failing)
    case Remove(o) => Move(y, o, RolledBack).(registry := y.registry - {y.starts[o].id})
    case Announce(o) => Publish(Move(y, o, Announced), W.LifeEvent(W.Created, y.starts[o].id))
    case Evict(id) => y.(registry := y.registry - {id})
    case Report(event) => Publish(y, event)
    case Subscribe => y.(watch := Some(W.Subscription), heard := AnnouncedNow(y.starts))
    case Snapshot(order) =>
      y.(watch := Some(W.Next(y.watch.value, W.Snapshot(IdsOf(y.starts, order)), limit, capacity)), order := order, known := |y.starts|)
    case DrainBus => With(y, W.Next(y.watch.value, W.DrainBus, limit, capacity))
    case VisitNext => With(y, W.Next(y.watch.value, W.VisitNext, limit, capacity))
    case Advance => With(y, W.Next(y.watch.value, W.Advance, limit, capacity))
  }

  const Nothing := System([], map[], false, None, {}, [], 0)

  predicate Reaches(y: System, steps: seq<Step>, limit: nat, capacity: nat, end: System)
    decreases |steps|
  {
    if steps == [] then end == y
    else
      && Enabled(y, steps[0]) && (y.watch.Some? ==> |y.watch.value.pending| <= limit)
      && Reaches(Next(y, steps[0], limit, capacity), steps[1..], limit, capacity, end)
  }

  // ---- Starts and the bus --------------------------------------------------

  predicate RegistryFine(y: System) {
    forall id :: id in y.registry ==> y.registry[id] < |y.starts| && y.starts[y.registry[id]].id == id
  }

  /** Of the starts of one id, all but one rolled back. */
  predicate Single(starts: seq<Start>) {
    forall o, p :: 0 <= o < p < |starts| && starts[o].id == starts[p].id ==> starts[o].stage.RolledBack? || starts[p].stage.RolledBack?
  }

  /** Created is on the bus for exactly the sessions announced since the subscription. */
  predicate BusFine(starts: seq<Start>, heard: set<nat>, bus: seq<W.LifeEvent>) {
    && (forall o :: o in heard ==> o < |starts| && starts[o].stage.Announced?)
    && (forall o :: 0 <= o < |starts| && starts[o].stage.Announced? && o !in heard ==> W.LifeEvent(W.Created, starts[o].id) in bus)
    && (forall i :: 0 <= i < |bus| && bus[i].kind == W.Created ==> HasAnnounced(starts, heard, bus[i].id))
  }

  /** It is there twice for exactly the ids announced twice since. */
  ghost predicate BusCounts(starts: seq<Start>, heard: set<nat>, bus: seq<W.LifeEvent>) {
    forall id :: W.Twice(bus, W.LifeEvent(W.Created, id)) <==> AnnouncedTwice(starts, heard, id)
  }

  predicate AnnouncedTwice(starts: seq<Start>, heard: set<nat>, id: string) {
    exists o, p :: 0 <= o < p < |starts| && Unheard(starts, heard, o, id) && Unheard(starts, heard, p, id)
  }

  predicate Unheard(starts: seq<Start>, heard: set<nat>, o: nat, id: string) {
    o < |starts| && starts[o].id == id && starts[o].stage.Announced? && o !in heard
  }

  predicate HasAnnounced(starts: seq<Start>, heard: set<nat>, id: string) {
    exists o :: 0 <= o < |starts| && Unheard(starts, heard, o, id)
  }

  /** Starts only move on: ids stay, what was announced stays so. */
  predicate Grows(a: seq<Start>, b: seq<Start>) {
    && |a| <= |b|
    && forall o :: 0 <= o < |a| ==>
         && b[o].id == a[o].id
         && (a[o].stage.Announced? ==> b[o].stage.Announced?)
         && (a[o].stage.RolledBack? ==> b[o].stage.RolledBack?)
         && (!a[o].stage.Held() ==> !b[o].stage.Held())
  }

  lemma {:induction false} StepGrows(y: System, e: Step, limit: nat, capacity: nat)
    requires Enabled(y, e) && (y.watch.Some? ==> |y.watch.value.pending| <= limit)
    ensures Grows(y.starts, Next(y, e, limit, capacity).starts)
  {
  }

  lemma {:induction false} RegisterSingle(starts: seq<Start>, id: string)
    requires Single(starts) && !Taken(starts, id)
    ensures Single(starts + [Start(id, Registered)])
  {
  }

  lemma {:induction false} MoveSingle(starts: seq<Start>, o: nat, stage: Stage)
    requires Single(starts) && o < |starts| && !starts[o].stage.RolledBack?
    ensures Single(starts[o := starts[o].(stage := stage)])
  {
  }

  /** Events other than Created, and starts that are not announced, leave it alone. */
  lemma {:induction false} BusQuiet(starts: seq<Start>, starts': seq<Start>, heard: set<nat>, bus: seq<W.LifeEvent>)
    requires BusFine(starts, heard, bus) && Grows(starts, starts')
    requires forall o :: 0 <= o < |starts'| && starts'[o].stage.Announced? ==> o < |starts| && starts[o].stage.Announced?
    ensures BusFine(starts', heard, bus)
  {
    forall i | 0 <= i < |bus| && bus[i].kind == W.Created ensures HasAnnounced(starts', heard, bus[i].id) {
      var o :| 0 <= o < |starts| && Unheard(starts, heard, o, bus[i].id);
      assert Unheard(starts', heard, o, bus[i].id);
    }
  }

  lemma {:induction false} BusReport(starts: seq<Start>, heard: set<nat>, bus: seq<W.LifeEvent>, event: W.LifeEvent)
    requires BusFine(starts, heard, bus) && event.kind != W.Created
    ensures BusFine(starts, heard, bus + [event])
    ensures BusCounts(starts, heard, bus) ==> BusCounts(starts, heard, bus + [event])
  {
    forall id { W.TwiceLast(bus, event, W.LifeEvent(W.Created, id)); }
  }

  lemma {:induction false} BusAnnounce(starts: seq<Start>, heard: set<nat>, bus: seq<W.LifeEvent>, o: nat)
    requires BusFine(starts, heard, bus) && o < |starts| && starts[o].stage == Committed
    ensures BusFine(starts[o := starts[o].(stage := Announced)], heard, bus + [W.LifeEvent(W.Created, starts[o].id)])
  {
    var starts', bus' := starts[o := starts[o].(stage := Announced)], bus + [W.LifeEvent(W.Created, starts[o].id)];
    forall i | 0 <= i < |bus'| && bus'[i].kind == W.Created ensures HasAnnounced(starts', heard, bus'[i].id) {
      if i < |bus| {
        var p :| 0 <= p < |starts| && Unheard(starts, heard, p, bus[i].id);
        assert Unheard(starts', heard, p, bus'[i].id);
      } else {
        assert Unheard(starts', heard, o, bus'[i].id);
      }
    }
    forall p | 0 <= p < |starts'| && starts'[p].stage.Announced? && p !in heard ensures W.LifeEvent(W.Created, starts'[p].id) in bus' {
      if p == o { assert bus'[|bus|] == W.LifeEvent(W.Created, starts'[p].id); }
      else { assert W.LifeEvent(W.Created, starts[p].id) in bus; }
    }
  }

  lemma {:induction false} CountsAnnounce(starts: seq<Start>, heard: set<nat>, bus: seq<W.LifeEvent>, o: nat)
    requires BusFine(starts, heard, bus) && BusCounts(starts, heard, bus) && o < |starts| && starts[o].stage == Committed
    ensures BusCounts(starts[o := starts[o].(stage := Announced)], heard, bus + [W.LifeEvent(W.Created, starts[o].id)])
  {
    var starts', created := starts[o := starts[o].(stage := Announced)], W.LifeEvent(W.Created, starts[o].id);
    forall id ensures W.Twice(bus + [created], W.LifeEvent(W.Created, id)) <==> AnnouncedTwice(starts', heard, id) {
      W.TwiceLast(bus, created, W.LifeEvent(W.Created, id));
      CreatedIffAnnounced(starts, heard, bus, id);
      AnnouncedAgain(starts, heard, o, id);
    }
  }

  lemma {:induction false} CreatedIffAnnounced(starts: seq<Start>, heard: set<nat>, bus: seq<W.LifeEvent>, id: string)
    requires BusFine(starts, heard, bus)
    ensures W.LifeEvent(W.Created, id) in bus <==> HasAnnounced(starts, heard, id)
  {
  }

  lemma {:induction false} AnnouncedAgain(starts: seq<Start>, heard: set<nat>, o: nat, id: string)
    requires o < |starts| && starts[o].stage == Committed && o !in heard
    ensures AnnouncedTwice(starts[o := starts[o].(stage := Announced)], heard, id)
      <==> AnnouncedTwice(starts, heard, id) || (starts[o].id == id && HasAnnounced(starts, heard, id))
  {
    var starts' := starts[o := starts[o].(stage := Announced)];
    assert forall p: nat :: p != o ==> Unheard(starts', heard, p, id) == Unheard(starts, heard, p, id);
    if AnnouncedTwice(starts, heard, id) {
      var p, q :| 0 <= p < q < |starts| && Unheard(starts, heard, p, id) && Unheard(starts, heard, q, id);
      assert Unheard(starts', heard, p, id) && Unheard(starts', heard, q, id);
    }
    if starts[o].id == id && HasAnnounced(starts, heard, id) {
      var p :| 0 <= p < |starts| && Unheard(starts, heard, p, id);
      assert Unheard(starts', heard, p, id) && Unheard(starts', heard, o, id);
    }
  }

  lemma {:induction false} CountsQuiet(starts: seq<Start>, starts': seq<Start>, heard: set<nat>, bus: seq<W.LifeEvent>)
    requires BusCounts(starts, heard, bus) && Grows(starts, starts')
    requires forall o :: 0 <= o < |starts'| && starts'[o].stage.Announced? ==> o < |starts| && starts[o].stage.Announced?
    ensures BusCounts(starts', heard, bus)
  {
    assert forall o: nat, id :: Unheard(starts', heard, o, id) == Unheard(starts, heard, o, id);
  }

  /** An id that is never reused is announced once. */
  lemma {:induction false} SingleAnnouncedOnce(starts: seq<Start>, heard: set<nat>, id: string)
    requires Single(starts)
    ensures !AnnouncedTwice(starts, heard, id)
  {
  }

  // ---- The snapshot --------------------------------------------------------

  /** The sync shows the snapshot's sessions in turn, each once its start let go. */
  predicate OrderFine(starts: seq<Start>, heard: set<nat>, order: seq<nat>, known: nat, w: W.Watch) {
    !w.phase.Subscribed? ==>
      && IdsOf(starts, order) == w.emitted + w.handles
      && W.Distinct(w.emitted + w.handles)
      && known <= |starts|
      && (forall i :: 0 <= i < |order| ==> order[i] < known)
      && (forall o :: o in heard ==> o < known)
      && (forall i :: 0 <= i < |w.emitted| && i < |order| ==> order[i] < |starts| && !starts[order[i]].stage.Held())
  }

  lemma {:induction false} OrderGrows(starts: seq<Start>, starts': seq<Start>, heard: set<nat>, order: seq<nat>, known: nat, w: W.Watch)
    requires OrderFine(starts, heard, order, known, w) && Grows(starts, starts')
    ensures OrderFine(starts', heard, order, known, w)
  {
    if !w.phase.Subscribed? {
      assert IdsOf(starts', order) == IdsOf(starts, order);
    }
  }

  lemma {:induction false} OrderSame(starts: seq<Start>, heard: set<nat>, order: seq<nat>, known: nat, w: W.Watch, w': W.Watch)
    requires OrderFine(starts, heard, order, known, w) && w'.emitted == w.emitted && w'.handles == w.handles
    requires !w.phase.Subscribed?
    ensures OrderFine(starts, heard, order, known, w')
  {
  }

  /** The registry holds one start per id, so a snapshot lists each id once. */
  lemma {:induction false} SnapshotDistinct(y: System, order: seq<nat>)
    requires RegistryFine(y) && Arranges(order, y.registry)
    ensures W.Distinct(IdsOf(y.starts, order)) && forall i :: 0 <= i < |order| ==> order[i] < |y.starts|
  {
    forall i | 0 <= i < |order| ensures order[i] < |y.starts| && y.starts[order[i]].id in y.registry && y.registry[y.starts[order[i]].id] == order[i] {
      assert order[i] in y.registry.Values;
      var id :| id in y.registry && y.registry[id] == order[i];
    }
  }

  lemma {:induction false} SnapshotOrder(y: System, order: seq<nat>, limit: nat, capacity: nat)
    requires Enabled(y, Snapshot(order)) && |y.watch.value.pending| <= limit && y.watch.value.emitted == []
    requires RegistryFine(y) && forall o :: o in y.heard ==> o < |y.starts|
    ensures var y' := Next(y, Snapshot(order), limit, capacity); OrderFine(y'.starts, y'.heard, y'.order, y'.known, y'.watch.value)
  {
    SnapshotDistinct(y, order);
    var ids := IdsOf(y.starts, order);
    assert [] + ids == ids;
  }

  lemma {:induction false} VisitOrder(y: System, limit: nat, capacity: nat)
    requires Enabled(y, VisitNext) && |y.watch.value.pending| <= limit
    requires OrderFine(y.starts, y.heard, y.order, y.known, y.watch.value)
    ensures OrderFine(y.starts, y.heard, y.order, y.known, Next(y, VisitNext, limit, capacity).watch.value)
  {
    var w, w' := y.watch.value, Next(y, VisitNext, limit, capacity).watch.value;
    assert w'.emitted + w'.handles == w.emitted + w.handles;
  }

  // ---- Every run -----------------------------------------------------------

  ghost predicate StreamFine(y: System, limit: nat) {
    y.watch.Some? ==>
      var w := y.watch.value;
      && W.Accounted(w) && |w.pending| <= limit
      && BusFine(y.starts, y.heard, w.bus)
      && BusCounts(y.starts, y.heard, w.bus)
      && OrderFine(y.starts, y.heard, y.order, y.known, w)
  }

  ghost predicate Fine(y: System, limit: nat) {
    RegistryFine(y) && (!y.reused ==> Single(y.starts)) && StreamFine(y, limit)
  }

  predicate Moves(e: Step) { e.Commit? || e.Fail? || e.Remove? }

  lemma {:induction false} StartsKeep(y: System, e: Step, limit: nat, capacity: nat)
    requires Fine(y, limit) && Enabled(y, e)
    ensures var y' := Next(y, e, limit, capacity); RegistryFine(y') && (!y'.reused ==> Single(y'.starts))
  {
    if e.Register? {
      if !y.reused && !Taken(y.starts, e.id) { RegisterSingle(y.starts, e.id); }
    } else if Moves(e) || e.Announce? {
      if !y.reused {
        MoveSingle(y.starts, e.o, if e.Commit? then Committed else if e.Fail? then Failing else if e.Remove? then RolledBack else Announced);
      }
    }
  }

  /** Registering, committing, rolling back and evicting do not touch the stream. */
  lemma {:induction false} QuietKeeps(y: System, e: Step, limit: nat, capacity: nat)
    requires StreamFine(y, limit) && Enabled(y, e) && (e.Register? || e.Evict? || Moves(e))
    ensures StreamFine(Next(y, e, limit, capacity), limit)
  {
    if y.watch.Some? {
      var y' := Next(y, e, limit, capacity);
      StepGrows(y, e, limit, capacity);
      BusQuiet(y.starts, y'.starts, y.heard, y.watch.value.bus);
      CountsQuiet(y.starts, y'.starts, y.heard, y.watch.value.bus);
      OrderGrows(y.starts, y'.starts, y.heard, y.order, y.known, y.watch.value);
    }
  }

  lemma {:induction false} AnnounceKeeps(y: System, o: nat, limit: nat, capacity: nat)
    requires Fine(y, limit) && Enabled(y, Announce(o))
    ensures StreamFine(Next(y, Announce(o), limit, capacity), limit)
  {
    if y.watch.Some? {
      var y', w := Next(y, Announce(o), limit, capacity), y.watch.value;
      var created := W.LifeEvent(W.Created, y.starts[o].id);
      StepGrows(y, Announce(o), limit, capacity);
      W.PublishKeeps(w, created, limit, capacity);
      BusAnnounce(y.starts, y.heard, w.bus, o);
      CountsAnnounce(y.starts, y.heard, w.bus, o);
      OrderGrows(y.starts, y'.starts, y.heard, y.order, y.known, w);
    }
  }

  lemma {:induction false} ReportKeeps(y: System, event: W.LifeEvent, limit: nat, capacity: nat)
    requires StreamFine(y, limit) && Enabled(y, Report(event))
    ensures StreamFine(Next(y, Report(event), limit, capacity), limit)
  {
    if y.watch.Some? {
      W.PublishKeeps(y.watch.value, event, limit, capacity);
      BusReport(y.starts, y.heard, y.watch.value.bus, event);
    }
  }

  lemma {:induction false} SnapshotKeeps(y: System, order: seq<nat>, limit: nat, capacity: nat)
    requires Fine(y, limit) && Enabled(y, Snapshot(order))
    ensures StreamFine(Next(y, Snapshot(order), limit, capacity), limit)
  {
    W.StepAccounted(y.watch.value, W.Snapshot(IdsOf(y.starts, order)), limit, capacity);
    SnapshotOrder(y, order, limit, capacity);
  }

  lemma {:induction false} VisitKeeps(y: System, limit: nat, capacity: nat)
    requires Fine(y, limit) && Enabled(y, VisitNext)
    ensures StreamFine(Next(y, VisitNext, limit, capacity), limit)
  {
    W.StepAccounted(y.watch.value, W.VisitNext, limit, capacity);
    VisitOrder(y, limit, capacity);
  }

  /** Receiving changes neither the bus nor what was visited. */
  lemma {:induction false} ReceiveKeeps(y: System, w: W.Watch, limit: nat)
    requires StreamFine(y, limit) && y.watch.Some? && !y.watch.value.phase.Subscribed?
    requires W.Accounted(w) && |w.pending| <= limit
    requires var v := y.watch.value; w.bus == v.bus && w.emitted == v.emitted && w.handles == v.handles
    ensures StreamFine(With(y, w), limit)
  {
    OrderSame(y.starts, y.heard, y.order, y.known, y.watch.value, w);
  }

  lemma {:induction false} DrainKeeps(y: System, limit: nat, capacity: nat)
    requires StreamFine(y, limit) && Enabled(y, DrainBus)
    ensures StreamFine(Next(y, DrainBus, limit, capacity), limit)
  {
    W.SyncKeeps(y.watch.value, W.DrainBus, limit, capacity);
    ReceiveKeeps(y, W.Next(y.watch.value, W.DrainBus, limit, capacity), limit);
  }

  lemma {:induction false} AdvanceKeeps(y: System, limit: nat, capacity: nat)
    requires StreamFine(y, limit) && Enabled(y, Advance)
    ensures StreamFine(Next(y, Advance, limit, capacity), limit)
  {
    W.AdvanceKeeps(y.watch.value, limit, capacity);
    ReceiveKeeps(y, W.Next(y.watch.value, W.Advance, limit, capacity), limit);
  }

  lemma {:induction false} SubscribeKeeps(y: System, limit: nat, capacity: nat)
    requires Enabled(y, Subscribe)
    ensures StreamFine(Next(y, Subscribe, limit, capacity), limit)
  {
  }

  lemma {:induction false} StepKeeps(y: System, e: Step, limit: nat, capacity: nat)
    requires Fine(y, limit) && Enabled(y, e)
    ensures Fine(Next(y, e, limit, capacity), limit)
  {
    StartsKeep(y, e, limit, capacity);
    if e.Subscribe? { SubscribeKeeps(y, limit, capacity); }
    else if e.Announce? { AnnounceKeeps(y, e.o, limit, capacity); }
    else if e.Report? { ReportKeeps(y, e.event, limit, capacity); }
    else if e.Register? || e.Evict? || Moves(e) { QuietKeeps(y, e, limit, capacity); }
    else if e.Snapshot? { SnapshotKeeps(y, e.order, limit, capacity); }
    else if e.VisitNext? { VisitKeeps(y, limit, capacity); }
    else if e.DrainBus? { DrainKeeps(y, limit, capacity); }
    else { AdvanceKeeps(y, limit, capacity); }
  }

  lemma {:induction false} RunFine(y: System, steps: seq<Step>, limit: nat, capacity: nat, end: System)
    requires Fine(y, limit) && Reaches(y, steps, limit, capacity, end)
    ensures Fine(end, limit)
    decreases |steps|
  {
    if steps != [] {
      StepKeeps(y, steps[0], limit, capacity);
      RunFine(Next(y, steps[0], limit, capacity), steps[1..], limit, capacity, end);
    }
  }

  // ---- The theorems --------------------------------------------------------

  function BootStarts(ids: seq<string>): seq<Start> { seq(|ids|, i requires 0 <= i < |ids| => Start(ids[i], Announced)) }

  /** A server that recovered `ids` at startup, before it serves anything: their starts
      were announced by an earlier process. */
  predicate Booted(y: System, ids: seq<string>) {
    && y.starts == BootStarts(ids) && W.Distinct(ids)
    && (forall i :: 0 <= i < |ids| ==> ids[i] in y.registry && y.registry[ids[i]] == i)
    && (forall id :: id in y.registry ==> id in ids)
    && y == System(y.starts, y.registry, false, None, {}, [], 0)
  }

  lemma {:induction false} BootFine(y: System, ids: seq<string>, limit: nat)
    requires Booted(y, ids)
    ensures Fine(y, limit)
  {
    forall id | id in y.registry ensures y.registry[id] < |y.starts| && y.starts[y.registry[id]].id == id {
      var i :| 0 <= i < |ids| && ids[i] == id;
    }
  }

  /** A live stream that has passed on everything on the bus. */
  predicate CaughtUp(y: System) {
    y.watch.Some? && y.watch.value.phase.Live? && W.Passed(y.watch.value) == |y.watch.value.bus|
  }

  predicate Shows(y: System, id: string) { y.watch.Some? && W.LifeEvent(W.Created, id) in y.watch.value.output }

  /** What can make a stream show Created: its snapshot took the session's handle, or
      the session was announced after the subscription. */
  predicate Reason(y: System, o: nat, id: string) {
    o < |y.starts| && y.starts[o].id == id && (o in y.order || (y.starts[o].stage.Announced? && o !in y.heard))
  }

  predicate Listed(y: System, id: string) { exists o :: o in y.order && o < |y.starts| && y.starts[o].id == id }

  lemma {:induction false} EmittedIsOrder(y: System, limit: nat, id: string)
    requires StreamFine(y, limit) && CaughtUp(y)
    ensures id in y.watch.value.emitted <==> Listed(y, id)
  {
    var w := y.watch.value;
    assert w.emitted + w.handles == w.emitted;
    assert IdsOf(y.starts, y.order) == w.emitted;
    if id in w.emitted {
      var i :| 0 <= i < |w.emitted| && w.emitted[i] == id;
      assert y.order[i] in y.order && y.starts[y.order[i]].id == id;
    }
    if Listed(y, id) {
      var o :| o in y.order && o < |y.starts| && y.starts[o].id == id;
      var i :| 0 <= i < |y.order| && y.order[i] == o;
      assert w.emitted[i] == id;
    }
  }

  /** Exactly what a stream that caught up has shown as Created. */
  lemma {:induction false} ShownIff(y: System, ids: seq<string>, steps: seq<Step>, limit: nat, capacity: nat, end: System, id: string)
    requires Booted(y, ids) && Reaches(y, steps, limit, capacity, end) && CaughtUp(end)
    ensures Shows(end, id) <==> exists o :: Reason(end, o, id)
  {
    BootFine(y, ids, limit);
    RunFine(y, steps, limit, capacity, end);
    var w, created := end.watch.value, W.LifeEvent(W.Created, id);
    W.ShownCreated(w, id);
    EmittedIsOrder(end, limit, id);
    if Listed(end, id) {
      var o :| o in end.order && o < |end.starts| && end.starts[o].id == id;
      assert Reason(end, o, id);
    }
    if created in w.bus {
      var i :| 0 <= i < |w.bus| && w.bus[i] == created;
      var o :| 0 <= o < |end.starts| && Unheard(end.starts, end.heard, o, id);
      assert Reason(end, o, id);
    }
  }

  /** A stream that caught up has shown Created twice for an id exactly when the id was
      announced twice after the subscription and was not in the snapshot. */
  lemma {:induction false} ShownTwiceIff(y: System, ids: seq<string>, steps: seq<Step>, limit: nat, capacity: nat, end: System, id: string)
    requires Booted(y, ids) && Reaches(y, steps, limit, capacity, end) && CaughtUp(end)
    ensures W.Twice(end.watch.value.output, W.LifeEvent(W.Created, id)) <==> !Listed(end, id) && AnnouncedTwice(end.starts, end.heard, id)
  {
    BootFine(y, ids, limit);
    RunFine(y, steps, limit, capacity, end);
    var w := end.watch.value;
    EmittedIsOrder(end, limit, id);
    assert w.bus[..|w.bus|] == w.bus && w.emitted + w.handles == w.emitted;
    W.TwiceOutput(w, id);
  }

  lemma {:induction false} PrefixOnce(events: seq<W.LifeEvent>, n: int, event: W.LifeEvent)
    requires 0 <= n <= |events| && W.Twice(events[..n], event)
    ensures W.Twice(events, event)
  {
    var i, j :| 0 <= i < j < n && events[..n][i] == event && events[..n][j] == event;
    assert events[i] == event && events[j] == event;
  }

  /** No stream, caught up or not, shows Created twice for an id as long as ids are not
      reused. */
  lemma {:induction false} CreatedAtMostOnce(y: System, ids: seq<string>, steps: seq<Step>, limit: nat, capacity: nat, end: System, id: string)
    requires Booted(y, ids) && Reaches(y, steps, limit, capacity, end) && !end.reused && end.watch.Some?
    ensures !W.Twice(end.watch.value.output, W.LifeEvent(W.Created, id))
  {
    BootFine(y, ids, limit);
    RunFine(y, steps, limit, capacity, end);
    var w := end.watch.value;
    assert w.emitted == (w.emitted + w.handles)[..|w.emitted|];
    W.TwiceOutput(w, id);
    SingleAnnouncedOnce(end.starts, end.heard, id);
    if W.Twice(w.bus[..W.Passed(w)], W.LifeEvent(W.Created, id)) { PrefixOnce(w.bus, W.Passed(w), W.LifeEvent(W.Created, id)); }
  }

  /** Every session that was resident at the snapshot or registered after it, and whose
      start was committed and announced, is shown as Created exactly once. */
  lemma {:induction false} CreatedExactlyOnce(y: System, ids: seq<string>, steps: seq<Step>, limit: nat, capacity: nat, end: System, o: nat)
    requires Booted(y, ids) && Reaches(y, steps, limit, capacity, end) && CaughtUp(end) && !end.reused
    requires At(end, o, Announced) && (o in end.order || end.known <= o)
    ensures Shows(end, end.starts[o].id) && !W.Twice(end.watch.value.output, W.LifeEvent(W.Created, end.starts[o].id))
  {
    BootFine(y, ids, limit);
    RunFine(y, steps, limit, capacity, end);
    assert Reason(end, o, end.starts[o].id);
    ShownIff(y, ids, steps, limit, capacity, end, end.starts[o].id);
    CreatedAtMostOnce(y, ids, steps, limit, capacity, end, end.starts[o].id);
  }

  /** No start of `id` ever committed. */
  predicate Uncommitted(y: System, id: string) {
    forall o :: 0 <= o < |y.starts| && y.starts[o].id == id ==> !y.starts[o].stage.Durable()
  }

  /** Created is shown for an id no start of which committed exactly when the snapshot
      took the placeholder of a start that was rolled back. */
  lemma {:induction false} UncommittedShownIff(y: System, ids: seq<string>, steps: seq<Step>, limit: nat, capacity: nat, end: System, id: string)
    requires Booted(y, ids) && Reaches(y, steps, limit, capacity, end) && CaughtUp(end) && Uncommitted(end, id)
    ensures Shows(end, id) <==> exists o :: o in end.order && At(end, o, RolledBack) && end.starts[o].id == id
  {
    BootFine(y, ids, limit);
    RunFine(y, steps, limit, capacity, end);
    ShownIff(y, ids, steps, limit, capacity, end, id);
    if o :| Reason(end, o, id) {
      var i :| 0 <= i < |end.order| && end.order[i] == o;
      var w := end.watch.value;
      assert w.emitted + w.handles == w.emitted;
      assert |IdsOf(end.starts, end.order)| == |end.order|;
      assert At(end, o, RolledBack);
    }
    if o :| o in end.order && At(end, o, RolledBack) && end.starts[o].id == id {
      assert Reason(end, o, id);
    }
  }

  // ---- Executions ----------------------------------------------------------

  predicate Leads(y: System, e: Step, y': System, limit: nat, capacity: nat) {
    Enabled(y, e) && (y.watch.Some? ==> |y.watch.value.pending| <= limit) && Next(y, e, limit, capacity) == y'
  }

  lemma {:induction false} Chain(states: seq<System>, steps: seq<Step>, limit: nat, capacity: nat)
    requires |states| == |steps| + 1
    requires forall i :: 0 <= i < |steps| ==> Leads(states[i], steps[i], states[i + 1], limit, capacity)
    ensures Reaches(states[0], steps, limit, capacity, states[|steps|])
    decreases |steps|
  {
    if steps != [] {
      assert Leads(states[0], steps[0], states[1], limit, capacity);
      forall i | 0 <= i < |steps[1..]| ensures Leads(states[1..][i], steps[1..][i], states[1..][i + 1], limit, capacity) {
        assert Leads(states[i + 1], steps[i + 1], states[i + 2], limit, capacity);
      }
      Chain(states[1..], steps[1..], limit, capacity);
    }
  }

  lemma {:induction false} Join(y: System, first: seq<Step>, mid: System, second: seq<Step>, end: System, limit: nat, capacity: nat)
    requires Reaches(y, first, limit, capacity, mid) && Reaches(mid, second, limit, capacity, end)
    ensures Reaches(y, first + second, limit, capacity, end)
    decreases |first|
  {
    if first == [] {
      assert first + second == second;
    } else {
      assert (first + second)[1..] == first[1..] + second;
      Join(Next(y, first[0], limit, capacity), first[1..], mid, second, end, limit, capacity);
    }
  }

  lemma {:induction false} DrainLeads(y: System, w: W.Watch, limit: nat, capacity: nat)
    requires y.watch == Some(w) && w.bus == [] && w.taken == 0 && w.pending == [] && w.phase == W.Syncing(false)
    ensures Leads(y, DrainBus, With(y, w.(phase := W.Syncing(true))), limit, capacity)
  {
    assert W.Waiting(w) == [];
    assert w.pending + [] == [];
  }

  lemma {:induction false} SyncEnds(y: System, w: W.Watch, limit: nat, capacity: nat)
    requires y.watch == Some(w) && w.handles == [] && w.pending == [] && w.phase == W.Syncing(true)
    ensures Leads(y, VisitNext, With(y, w.(phase := W.Live)), limit, capacity)
  {
  }

  /** A start failed after a snapshot took its placeholder. */
  function Abandoned(id: string): System {
    System([Start(id, RolledBack)], map[], false, Some(W.Subscription.(handles := [id], phase := W.Syncing(false))), {}, [0], 1)
  }

  lemma {:induction false} ReachAbandoned(id: string, limit: nat, capacity: nat) returns (steps: seq<Step>)
    ensures Reaches(Nothing, steps, limit, capacity, Abandoned(id))
  {
    var y1 := Nothing.(watch := Some(W.Subscription));
    var y2 := y1.(starts := [Start(id, Registered)], registry := map[id := 0]);
    var y3 := Abandoned(id).(starts := y2.starts, registry := y2.registry);
    var y4 := y3.(starts := [Start(id, Failing)]);
    assert IdsOf(y2.starts, [0]) == [id] && y2.registry[id] in y2.registry.Values;
    steps := [Subscribe, Register(id), Snapshot([0]), Fail(0), Remove(0)];
    Chain([Nothing, y1, y2, y3, y4, Abandoned(id)], steps, limit, capacity);
  }

  function Visited(id: string): W.Watch {
    W.Subscription.(emitted := [id], output := [W.LifeEvent(W.Created, id)], phase := W.Syncing(false))
  }

  lemma {:induction false} VisitAbandoned(id: string, limit: nat, capacity: nat)
    ensures var y := Abandoned(id);
      Leads(With(y, y.watch.value.(phase := W.Syncing(true))), VisitNext, With(y, Visited(id)), limit, capacity)
  {
    var w := Abandoned(id).watch.value.(phase := W.Syncing(true));
    assert w.handles[1..] == [] && w.emitted + [id] == [id];
    assert w.output + [W.LifeEvent(W.Created, id)] == [W.LifeEvent(W.Created, id)];
  }

  /** The placeholder of a start that is rolled back is shown as Created. */
  lemma {:induction false} PlaceholderShown(id: string, limit: nat, capacity: nat) returns (steps: seq<Step>, end: System)
    ensures Reaches(Nothing, steps, limit, capacity, end) && CaughtUp(end) && Uncommitted(end, id) && Shows(end, id)
  {
    var y, w := Abandoned(id), Visited(id);
    DrainLeads(y, y.watch.value, limit, capacity);
    VisitAbandoned(id, limit, capacity);
    DrainLeads(With(y, w), w, limit, capacity);
    SyncEnds(With(y, w.(phase := W.Syncing(true))), w.(phase := W.Syncing(true)), limit, capacity);
    end := With(y, w.(phase := W.Live));
    var more := [DrainBus, VisitNext, DrainBus, VisitNext];
    Chain([y, With(y, y.watch.value.(phase := W.Syncing(true))), With(y, w), With(y, w.(phase := W.Syncing(true))), end], more, limit, capacity);
    steps := ReachAbandoned(id, limit, capacity);
    Join(Nothing, steps, y, more, end, limit, capacity);
    steps := steps + more;
  }

  function Listening(): W.Watch { W.Subscription.(phase := W.Live) }

  lemma {:induction false} SnapshotNothing(limit: nat, capacity: nat)
    ensures Leads(With(Nothing, W.Subscription), Snapshot([]), With(Nothing, W.Subscription.(phase := W.Syncing(false))), limit, capacity)
  {
    assert IdsOf([], []) == [];
  }

  lemma {:induction false} ReachListening(limit: nat, capacity: nat) returns (steps: seq<Step>)
    ensures Reaches(Nothing, steps, limit, capacity, With(Nothing, Listening()))
  {
    var w, w' := W.Subscription.(phase := W.Syncing(false)), W.Subscription.(phase := W.Syncing(true));
    assert AnnouncedNow([]) == {};
    SnapshotNothing(limit, capacity);
    DrainLeads(With(Nothing, w), w, limit, capacity);
    SyncEnds(With(Nothing, w'), w', limit, capacity);
    steps := [Subscribe, Snapshot([]), DrainBus, VisitNext];
    Chain([Nothing, With(Nothing, W.Subscription), With(Nothing, w), With(Nothing, w'), With(Nothing, Listening())], steps, limit, capacity);
  }

  /** A session starts and a live stream shows it. */
  lemma {:induction false} StartLive(y: System, id: string, limit: nat, capacity: nat) returns (steps: seq<Step>, end: System)
    requires y.registry == map[] && y.watch.Some? && capacity >= 1
    requires var w := y.watch.value; w.phase.Live? && w.pending == [] && w.taken == |w.bus| && id !in w.emitted
    ensures Reaches(y, steps, limit, capacity, end)
    ensures var w, created := y.watch.value, W.LifeEvent(W.Created, id);
      && end.registry == map[id := |y.starts|]
      && end.watch == Some(w.(bus := w.bus + [created], taken := w.taken + 1, output := w.output + [created]))
  {
    var w, o, created := y.watch.value, |y.starts|, W.LifeEvent(W.Created, id);
    var y1 := Next(y, Register(id), limit, capacity);
    var y2 := y1.(starts := y.starts + [Start(id, Committed)]);
    var y3 := y1.(starts := y.starts + [Start(id, Announced)], watch := Some(w.(bus := w.bus + [created])));
    assert y1.starts[o := Start(id, Committed)] == y2.starts && y2.starts[o := Start(id, Announced)] == y3.starts;
    end := y3.(watch := Some(w.(bus := w.bus + [created], taken := w.taken + 1, output := w.output + [created])));
    assert W.Waiting(y3.watch.value) == [created];
    steps := [Register(id), Commit(o), Announce(o), Advance];
    Chain([y, y1, y2, y3, end], steps, limit, capacity);
  }

  /** Created comes a second time for an id that is registered again after its session
      was evicted. */
  lemma {:induction false} ReusedShownTwice(id: string, limit: nat, capacity: nat) returns (steps: seq<Step>, end: System)
    requires capacity >= 1
    ensures Reaches(Nothing, steps, limit, capacity, end) && CaughtUp(end)
    ensures W.Twice(end.watch.value.output, W.LifeEvent(W.Created, id))
  {
    var y := With(Nothing, Listening());
    steps := ReachListening(limit, capacity);
    var more, first := StartLive(y, id, limit, capacity);
    Join(Nothing, steps, y, more, first, limit, capacity);
    steps := steps + more;
    var evicted := first.(registry := map[]);
    Chain([first, evicted], [Evict(id)], limit, capacity);
    Join(Nothing, steps, first, [Evict(id)], evicted, limit, capacity);
    steps := steps + [Evict(id)];
    more, end := StartLive(evicted, id, limit, capacity);
    Join(Nothing, steps, evicted, more, end, limit, capacity);
    steps := steps + more;
    assert end.watch.value.output[0] == end.watch.value.output[1];
  }
}
