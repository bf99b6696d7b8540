/** The kernel under the subscriber: a log read is the `ReadLog` event, a run of kernel
    operations is a run of `Subscriptions.System`, and so what a subscriber
    receives, whenever it joins, reads and receives during that run, is the
    accepted history of the kernel. */
module SubscriptionKernel {
  import opened Sessions
  import opened Modes
  import opened Logs
  import opened Replay
  import opened Kernels
  import opened KernelProofs
  import O = Ordinals
  import S = Subscriptions

  /** The accepted history as subscribers are shown it. */
  function Shown(history: Log): seq<Envelope> {
    seq(|history|, i requires 0 <= i < |history| => EnvelopeOf(history[i]))
  }

  function ShownEntries(entries: seq<Ordinal>): seq<S.Numbered> {
    seq(|entries|, i requires 0 <= i < |entries| => S.Numbered(entries[i].ordinal, EnvelopeOf(entries[i].entry)))
  }

  lemma {:induction false} ShownDistinct(history: Log)
    requires DistinctIds(history)
    ensures S.Distinct(Shown(history))
  {
  }

  /** Reading a session's log is the `ReadLog` event: the same refusals, the same
      batch, the same high-water mark. */
  lemma {:induction false} SnapshotIsReadLog(log: Log, history: Log, after: nat, read: IncomingRead, join: nat, queue: seq<Envelope>)
    requires O.ReadsHistory(log, history, after, read)
    ensures read.BelowBase? <==> after < Base(log)
    ensures read.Available? ==>
      var cursor := S.Subscribe(Shown(history), join, queue, after).cursor;
      cursor.replay == ShownEntries(read.entries) && cursor.nextLive == Some(read.highWater + 1)
  {
    if read.Available? && after < |history| {
      var rest := Shown(history)[after..];
      assert forall i :: 0 <= i < |rest| ==> rest[i] == Shown(history)[after + i];
      var replay, entries := S.NumberFrom(after + 1, rest), ShownEntries(read.entries);
      forall i | 0 <= i < |replay| ensures replay[i] == entries[i] {
        assert read.entries[i] == Ordinal(after + 1 + i, history[after + i]);
      }
    }
  }

  // ---- Compaction in an operation ------------------------------------------

  /** The log in memory accounts for the accepted history from its base on. */
  predicate Tracks(k: Kernel) {
    Base(k.memory) <= |k.history| && Logs.Accepted(k.memory) == k.history[Base(k.memory)..]
  }

  /** Appending discards nothing. */
  predicate Steady(k: Kernel, k': Kernel) { Tracks(k') && Base(k'.memory) == Base(k.memory) }

  /** Nothing was discarded, or everything accepted so far. */
  predicate Based(k: Kernel, k': Kernel) { Steady(k, k') || Base(k'.memory) == |k'.history| }

  lemma {:induction false} RecordSteady(k: Kernel, e: LogEntry)
    requires Tracks(k) && (e.kind == Checkpoint ==> e.compacted == 0)
    ensures Steady(k, Record(k, e))
  {
    var log := k.memory + [e];
    assert DropLast(log) == k.memory && Last(log) == e;
    if e.kind == Incoming { assert (k.history + [e])[Base(log)..] == k.history[Base(log)..] + [e]; }
  }

  lemma {:induction false} CheckpointSteady(k: Kernel, w: World, site: Site)
    requires Tracks(k)
    ensures Steady(k, ForceCheckpoint(k, w, site))
  {
    RecordSteady(k, CheckpointEntry(k.session, w.clock(site), 0));
  }

  lemma {:induction false} CloseBased(cfg: Config, k: Kernel, w: World)
    requires Tracks(k)
    ensures Based(k, CloseLog(cfg, k, w))
  {
    CheckpointSteady(k, w, Checkpointing);
    var log := [CompactedEntry(k, w)];
    assert DropLast(log) == [];
  }

  lemma {:induction false} SynthesisSteady(ctx: Context, cfg: Config, k: Kernel, now: int, w: World)
    requires Tracks(k) && Synthesize(ctx, cfg, k, now, w).Emitted?
    ensures Steady(k, Synthesize(ctx, cfg, k, now, w).kernel)
  {
    var syn := NextSynthetic(ctx.modes(k.session.bind.mode).value, k.session, now).value.value;
    var e := IncomingEntry(syn.envelope, syn.envelope.timestamp);
    RecordSteady(k, e);
    CheckpointSteady(Record(k, e).(session := CommitSynthetic(k.session, syn)), w, SynthesisCheckpoint);
  }

  lemma BasedAfter(k: Kernel, mid: Kernel, k': Kernel)
    requires Steady(k, mid) && Based(mid, k')
    ensures Based(k, k')
  {
  }

  lemma {:induction false} DeliverBased(cfg: Config, mode: Mode, k: Kernel, env: Envelope, now: int, w: World)
    requires Tracks(k)
    ensures Based(k, DispatchAndDeliver(cfg, mode, k, env, now, w).kernel)
  {
    var response := mode.onMessage(k.session, env, now);
    if response.Ok? && w.stores(Commitment) {
      var e := IncomingEntry(env, now);
      RecordSteady(k, e);
      var committed := Record(k, e).(session := Commit(k.session, env, response.value), activity := k.activity.Credit(env.sender, now));
      if committed.session.state == Resolved { CloseBased(cfg, committed, w); }
      else { CheckpointSteady(committed, w, Checkpointing); }
      BasedAfter(k, committed, DispatchAndDeliver(cfg, mode, k, env, now, w).kernel);
    }
  }

  lemma {:induction false} CancelBased(cfg: Config, k: Kernel, payload: Bytes, w: World)
    requires Tracks(k)
    ensures Based(k, CancelSession(cfg, k, payload, w).kernel)
  {
    RecordSteady(k, InternalEntry("TtlExpired", [], k.session, w.clock(Expiry)));
    RecordSteady(k, InternalEntry("SessionCancel", payload, k.session, w.clock(Commitment)));
    CloseBased(cfg, Control(k, "SessionCancel", payload, k.session.Cancel().session, w), w);
  }

  lemma {:induction false} CleanupBased(cfg: Config, k: Kernel, now: int, w: World)
    requires Tracks(k)
    ensures Based(k, Cleanup(cfg, k, now, w).kernel)
  {
    RecordSteady(k, InternalEntry("TtlExpired", [], k.session, now));
    CloseBased(cfg, Record(k, InternalEntry("TtlExpired", [], k.session, now)).(session := k.session.(state := Expired)), w);
  }

  lemma {:induction false} ReadBased(k: Kernel, w: World)
    requires Tracks(k)
    ensures Based(k, Read(k, w).kernel)
  {
    RecordSteady(k, InternalEntry("TtlExpired", [], k.session, w.clock(Expiry)));
  }

  lemma {:induction false} SuspendBased(k: Kernel, payload: Bytes, w: World)
    requires Tracks(k)
    ensures Based(k, SuspendSession(k, payload, w).kernel)
  {
    RecordSteady(k, InternalEntry("TtlExpired", [], k.session, w.clock(Expiry)));
    RecordSteady(k, InternalEntry("SessionSuspend", payload, k.session, w.clock(Commitment)));
  }

  lemma {:induction false} ResumeBased(k: Kernel, encode: int -> Bytes, w: World)
    requires Tracks(k)
    ensures Based(k, ResumeSession(k, encode, w).kernel)
  {
    RecordSteady(k, InternalEntry("SessionResume", encode(BankedOnWire(k.session)), k.session, w.clock(Commitment)));
  }

  lemma {:induction false} MessageBased(ctx: Context, cfg: Config, k: Kernel, env: Envelope, w: World)
    requires Tracks(k)
    ensures Based(k, SendMessage(ctx, cfg, k, env, w).kernel)
  {
    RecordSteady(k, InternalEntry("TtlExpired", [], k.session, w.clock(Expiry)));
    var now, mode := w.clock(Commitment), ctx.modes(k.session.bind.mode);
    if mode.Some? {
      match Synthesize(ctx, cfg, k, now, w)
      case SynthesisFailed(_) =>
      case NothingDue => DeliverBased(cfg, mode.value, k, env, now, w);
      case Emitted(k') =>
        SynthesisSteady(ctx, cfg, k, now, w);
        DeliverBased(cfg, mode.value, k', env, now, w);
    }
  }

  lemma {:induction false} PerformBased(ctx: Context, cfg: Config, k: Kernel, cmd: Command, w: World)
    requires Tracks(k)
    ensures Based(k, Perform(ctx, cfg, k, cmd, w).kernel)
  {
    match cmd
    case Send(env) => MessageBased(ctx, cfg, k, env, w);
    case SweepAt(now) => if Synthesize(ctx, cfg, k, now, w).Emitted? { SynthesisSteady(ctx, cfg, k, now, w); }
    case Look => ReadBased(k, w);
    case CancelWith(payload) => CancelBased(cfg, k, payload, w);
    case SuspendWith(payload) => SuspendBased(k, payload, w);
    case ResumeWith(encode) => ResumeBased(k, encode, w);
    case CleanupAt(now) => CleanupBased(cfg, k, now, w);
  }

  // ---- A kernel run as events ----------------------------------------------

  /** Each accepted envelope is published before the next is accepted; a compaction
      comes between the last acceptance of an operation and its publication. */
  function EventsFor(added: Log, compacts: bool): seq<S.Event> {
    var compact := if compacts then [S.Compact] else [];
    if added == [] then compact
    else EventsFor(DropLast(added), false) + [S.Accept(EnvelopeOf(Last(added)))] + compact + [S.Publish]
  }

  function Quiet(history: Log, base: nat): S.System { S.System(Shown(history), base, |history|, false, S.Away) }

  lemma {:induction false} EventsRun(history: Log, added: Log, base: nat, base': nat, capacity: nat)
    requires DistinctIds(history + added) && (base' == base || base' == |history + added|)
    ensures S.Reaches(Quiet(history, base), EventsFor(added, base' != base), capacity, Quiet(history + added, base'))
    decreases |added|
  {
    var all := history + added;
    if added == [] {
      assert all == history;
      if base' != base { S.ReachesMore(Quiet(history, base), [], capacity, Quiet(history, base), S.Compact); }
    } else {
      var front, last := DropLast(added), Last(added);
      var before := history + front;
      assert all == before + [last];
      assert forall i :: 0 <= i < |before| ==> before[i] == all[i];
      EventsRun(history, front, base, base, capacity);
      AcceptRun(Quiet(history, base), EventsFor(front, false), before, last, base, base', capacity);
    }
  }

  lemma {:induction false} ShownFresh(before: Log, last: LogEntry)
    requires DistinctIds(before + [last])
    ensures S.Fresh(Shown(before), EnvelopeOf(last))
  {
    var all, n := before + [last], |before|;
    ShownDistinct(all);
    forall i | 0 <= i < n ensures Shown(before)[i].messageId != EnvelopeOf(last).messageId {
      assert all[i] == before[i] && all[n] == last;
      assert Shown(all)[i].messageId != Shown(all)[n].messageId;
    }
  }

  lemma {:induction false} AcceptRun(y: S.System, events: seq<S.Event>, before: Log, last: LogEntry, base: nat, base': nat, capacity: nat)
    requires DistinctIds(before + [last]) && (base' == base || base' == |before| + 1)
    requires S.Reaches(y, events, capacity, Quiet(before, base))
    ensures
      var compact := if base' != base then [S.Compact] else [];
      S.Reaches(y, events + [S.Accept(EnvelopeOf(last))] + compact + [S.Publish], capacity, Quiet(before + [last], base'))
  {
    var all, mid := before + [last], Quiet(before, base);
    assert Shown(all) == Shown(before) + [EnvelopeOf(last)];
    ShownFresh(before, last);
    var accepted := mid.(history := Shown(all));
    S.ReachesMore(y, events, capacity, mid, S.Accept(EnvelopeOf(last)));
    var events' := events + [S.Accept(EnvelopeOf(last))];
    if base' != base {
      S.ReachesMore(y, events', capacity, accepted, S.Compact);
      S.ReachesMore(y, events' + [S.Compact], capacity, accepted.(base := base'), S.Publish);
    } else {
      S.ReachesMore(y, events', capacity, accepted, S.Publish);
      assert events' + [] == events';
    }
  }

  function SystemOf(k: Kernel): S.System { Quiet(k.history, Base(k.memory)) }

  /** What a completed operation does, as events. */
  function OperationEvents(k: Kernel, k': Kernel): seq<S.Event> {
    EventsFor(if |k.history| <= |k'.history| then k'.history[|k.history|..] else [], Base(k'.memory) != Base(k.memory))
  }

  lemma GoodTracks(sc: Scope, k: Kernel)
    requires Good(sc, k)
    ensures Tracks(k) && DistinctIds(k.history)
  {
  }

  lemma {:induction false} StepIsEvents(k: Kernel, k': Kernel, capacity: nat)
    requires k.history <= k'.history && DistinctIds(k'.history) && Based(k, k')
    ensures S.Reaches(SystemOf(k), OperationEvents(k, k'), capacity, SystemOf(k'))
  {
    assert k.history + k'.history[|k.history|..] == k'.history;
    EventsRun(k.history, k'.history[|k.history|..], Base(k.memory), Base(k'.memory), capacity);
  }

  /** An operation is a run of the system: acceptances, publications and at most one
      compaction. */
  lemma {:induction false} OperationIsRun(sc: Scope, k: Kernel, step: Step, capacity: nat)
    requires sc.Lawful() && Good(sc, k) && Ticks(sc, step.world) && step.fate.Completes?
    ensures S.Reaches(SystemOf(k), OperationEvents(k, Take(sc.ctx, sc.cfg, k, step)), capacity, SystemOf(Take(sc.ctx, sc.cfg, k, step)))
  {
    var k' := Take(sc.ctx, sc.cfg, k, step);
    TakeGood(sc, k, step);
    GoodTracks(sc, k);
    GoodTracks(sc, k');
    PerformBased(sc.ctx, sc.cfg, k.(trail := []), step.cmd, step.world);
    StepIsEvents(k, k', capacity);
  }

  function RunEvents(ctx: Context, cfg: Config, k: Kernel, steps: seq<Step>): seq<S.Event> {
    if steps == [] then []
    else
      var before := DropLast(steps);
      RunEvents(ctx, cfg, k, before) + OperationEvents(Run(ctx, cfg, k, before), Run(ctx, cfg, k, steps))
  }

  lemma {:induction false} ReachesJoin(y: S.System, first: seq<S.Event>, mid: S.System, second: seq<S.Event>, end: S.System, capacity: nat)
    requires S.Reaches(y, first, capacity, mid) && S.Reaches(mid, second, capacity, end)
    ensures S.Reaches(y, first + second, capacity, end)
    decreases |first|
  {
    if first == [] {
      assert first + second == second;
    } else {
      assert (first + second)[1..] == first[1..] + second;
      ReachesJoin(S.Next(y, first[0], capacity), first[1..], mid, second, end, capacity);
    }
  }

  /** So is every run of operations, from any state a start or a recovery leaves. */
  lemma {:induction false} RunIsRun(sc: Scope, k: Kernel, steps: seq<Step>, capacity: nat)
    requires sc.Lawful() && Good(sc, k)
    requires forall i :: 0 <= i < |steps| ==> Ticks(sc, steps[i].world) && steps[i].fate.Completes?
    ensures S.Reaches(SystemOf(k), RunEvents(sc.ctx, sc.cfg, k, steps), capacity, SystemOf(Run(sc.ctx, sc.cfg, k, steps)))
  {
    if steps != [] {
      var before := DropLast(steps);
      var mid := Run(sc.ctx, sc.cfg, k, before);
      RunIsRun(sc, k, before, capacity);
      ReplayRefinesRun(sc, k, before);
      OperationIsRun(sc, mid, Last(steps), capacity);
      ReachesJoin(SystemOf(k), RunEvents(sc.ctx, sc.cfg, k, before), SystemOf(mid),
                  OperationEvents(mid, Run(sc.ctx, sc.cfg, k, steps)), SystemOf(Run(sc.ctx, sc.cfg, k, steps)), capacity);
    }
  }

  // ---- A subscriber during a kernel run ------------------------------------

  predicate OfKernel(e: S.Event) { e.Accept? || e.Compact? || e.Publish? }

  function KernelPart(events: seq<S.Event>): seq<S.Event> {
    if events == [] then [] else (if OfKernel(events[0]) then [events[0]] else []) + KernelPart(events[1..])
  }

  predicate SameCore(y: S.System, z: S.System) { y.history == z.history && y.base == z.base && y.sentTo == z.sentTo }

  /** A subscriber changes nothing for the kernel: without it, the same events lead to
      the same history, base and publications. */
  lemma {:induction false} WithoutSubscriber(y: S.System, events: seq<S.Event>, end: S.System, z: S.System, capacity: nat) returns (alone: S.System)
    requires S.Reaches(y, events, capacity, end) && SameCore(y, z)
    ensures S.Reaches(z, KernelPart(events), capacity, alone) && SameCore(end, alone)
    decreases |events|
  {
    if events == [] {
      alone := z;
    } else {
      var e := events[0];
      if OfKernel(e) {
        alone := WithoutSubscriber(S.Next(y, e, capacity), events[1..], end, S.Next(z, e, capacity), capacity);
        assert KernelPart(events)[0] == e && KernelPart(events)[1..] == KernelPart(events[1..]);
      } else {
        alone := WithoutSubscriber(S.Next(y, e, capacity), events[1..], end, z, capacity);
        assert KernelPart(events) == KernelPart(events[1..]);
      }
    }
  }

  lemma {:induction false} HistoryGrows(y: S.System, events: seq<S.Event>, end: S.System, capacity: nat)
    requires S.Reaches(y, events, capacity, end)
    ensures y.history <= end.history
    decreases |events|
  {
    if events != [] { HistoryGrows(S.Next(y, events[0], capacity), events[1..], end, capacity); }
  }

  lemma {:induction false} PrefixHistory(y: S.System, part: seq<S.Event>, mid: S.System, all: seq<S.Event>, end: S.System, capacity: nat)
    requires S.Reaches(y, part, capacity, mid) && S.Reaches(y, all, capacity, end) && part <= all
    ensures mid.history <= end.history
    decreases |part|
  {
    if part == [] { HistoryGrows(y, all, end, capacity); }
    else {
      assert all[0] == part[0] && part[1..] <= all[1..];
      PrefixHistory(S.Next(y, part[0], capacity), part[1..], mid, all[1..], end, capacity);
    }
  }

  /** Whenever a subscriber joins, reads and receives while the kernel runs, between
      operations or in the middle of one, what it has received is the accepted
      history of the run right after `after`, each envelope once and under its
      accepted ordinal. */
  lemma {:induction false} SubscriberSeesKernelHistory(sc: Scope, k: Kernel, steps: seq<Step>, events: seq<S.Event>, capacity: nat, end: S.System)
    requires sc.Lawful() && Good(sc, k)
    requires forall i :: 0 <= i < |steps| ==> Ticks(sc, steps[i].world) && steps[i].fate.Completes?
    requires S.Reaches(SystemOf(k), events, capacity, end) && KernelPart(events) <= RunEvents(sc.ctx, sc.cfg, k, steps)
    requires S.Asked(end.phase) && end.phase.sub.after <= end.phase.sub.join
    ensures
      var sub, accepted := end.phase.sub, Shown(Run(sc.ctx, sc.cfg, k, steps).history);
      && sub.after + |sub.delivered| <= |accepted|
      && forall i :: 0 <= i < |sub.delivered| ==> sub.delivered[i] == S.Numbered(sub.after + 1 + i, accepted[sub.after + i])
  {
    GoodTracks(sc, k);
    ShownDistinct(k.history);
    RunIsRun(sc, k, steps, capacity);
    var alone := WithoutSubscriber(SystemOf(k), events, end, SystemOf(k), capacity);
    PrefixHistory(SystemOf(k), KernelPart(events), alone, RunEvents(sc.ctx, sc.cfg, k, steps), SystemOf(Run(sc.ctx, sc.cfg, k, steps)), capacity);
    S.SubscriberSeesHistoryOnce(SystemOf(k), events, capacity, end);
  }
}
