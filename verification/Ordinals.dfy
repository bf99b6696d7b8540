/** Accepted ordinals and publication order (section 3.2 of RFC-MACP-0006). */
module Ordinals {
  import opened Sessions
  import opened Modes
  import opened Logs
  import opened Replay
  import opened Kernels
  import opened KernelProofs
  import opened KernelTheorems

  /** Reading a session's log at any time returns exactly the accepted history
      above `after`, each entry under its position in that history, and refuses
      when part of that range was compacted away. */
  ghost predicate ReadsHistory(log: Log, history: Log, after: nat, read: IncomingRead) {
    match read
    case BelowBase(base) => base == Base(log) && after < base <= |history|
    case Available(entries, highWater) =>
      && Base(log) <= after && highWater == |history|
      && |entries| == (if after < |history| then |history| - after else 0)
      && forall i :: 0 <= i < |entries| ==> entries[i] == Ordinal(after + 1 + i, history[after + i])
  }

  lemma ReadOfSuffix(log: Log, history: Log, after: nat, read: IncomingRead)
    requires Base(log) <= |history| && Logs.Accepted(log) == history[Base(log)..]
    requires IsSnapshot(log, after, read)
    ensures ReadsHistory(log, history, after, read)
  {
    if read.Available? {
      forall i | 0 <= i < |read.entries| ensures read.entries[i] == Ordinal(after + 1 + i, history[after + i]) {
        assert history[Base(log)..][after + i - Base(log)] == history[after + i];
      }
    }
  }

  lemma {:induction false} SnapshotReadsHistory(sc: Scope, k: Kernel, after: nat, read: IncomingRead)
    requires Good(sc, k) && IsSnapshot(k.memory, after, read)
    ensures ReadsHistory(k.memory, k.history, after, read)
    ensures HighWater(k.memory) == |k.history| == |k.session.seen|
  {
    ReadOfSuffix(k.memory, k.history, after, read);
    ReplayAgreesOnSeen(sc, k);
    CountIds(k.history);
  }

  /** The in-memory log of a session, which eviction drops. */
  function Kept(k: Kernel, evicted: bool): Log { if evicted then [] else k.memory }

  /** A read that comes after the eviction of its session finds no log: it answers an
      empty history and is not refused. It reads the history exactly when the session
      is still resident. */
  lemma {:induction false} EvictedReadIsShort(sc: Scope, k: Kernel, evicted: bool, after: nat, read: IncomingRead)
    requires Good(sc, k) && IsSnapshot(Kept(k, evicted), after, read)
    ensures ReadsHistory(k.memory, k.history, after, read) <==> !evicted
    ensures evicted ==> read == Available([], 0)
  {
    if evicted { HighWaterPositive(k.memory); } else { ReadOfSuffix(k.memory, k.history, after, read); }
  }

  lemma {:induction false} CountIds(history: Log)
    requires DistinctIds(history)
    ensures |Ids(history)| == |history|
  {
    if history == [] {
      assert Ids(history) == {};
    } else {
      var front, last := DropLast(history), Last(history);
      CountIds(front);
      assert history == front + [last];
      IdsAppend(front, last);
    }
  }

  lemma ReadsAgree(log: Log, history: Log, after: nat, read: IncomingRead, log': Log, history': Log, after': nat, read': IncomingRead)
    requires ReadsHistory(log, history, after, read) && read.Available?
    requires ReadsHistory(log', history', after', read') && read'.Available?
    requires history <= history'
    ensures read.highWater <= read'.highWater
    ensures forall i, j :: 0 <= i < |read.entries| && 0 <= j < |read'.entries| && read.entries[i].ordinal == read'.entries[j].ordinal ==>
      read.entries[i].entry == read'.entries[j].entry
  {
  }

  /** Ordinals are stable: whatever happens between two reads (appends, checkpoints,
      compaction, failures, crashes), the entry a client saw under an ordinal is
      the entry every later read returns under it, or the later read refuses. */
  lemma {:induction false} OrdinalsStable(sc: Scope, k: Kernel, steps: seq<Step>,
                                          after: nat, read: IncomingRead, after': nat, read': IncomingRead)
    requires sc.Lawful() && Good(sc, k)
    requires forall i :: 0 <= i < |steps| ==> Ticks(sc, steps[i].world)
    requires IsSnapshot(k.memory, after, read) && read.Available?
    requires IsSnapshot(Run(sc.ctx, sc.cfg, k, steps).memory, after', read') && read'.Available?
    ensures read.highWater <= read'.highWater
    ensures forall i, j :: 0 <= i < |read.entries| && 0 <= j < |read'.entries| && read.entries[i].ordinal == read'.entries[j].ordinal ==>
      read.entries[i].entry == read'.entries[j].entry
  {
    ReplayRefinesRun(sc, k, steps);
    var end := Run(sc.ctx, sc.cfg, k, steps);
    SnapshotReadsHistory(sc, k, after, read);
    SnapshotReadsHistory(sc, end, after', read');
    ReadsAgree(k.memory, k.history, after, read, end.memory, end.history, after', read');
  }

  // ---- Publication ---------------------------------------------------------

  /** `published` lists the envelopes of `entries`, in order. */
  ghost predicate Publishes(published: seq<Envelope>, entries: Log) {
    && |published| == |entries|
    && forall i :: 0 <= i < |entries| ==> EnvelopeOf(entries[i]) == FillTimestamp(published[i], entries[i].receivedAt)
  }

  ghost predicate PublishesGrowth(k: Kernel, k': Kernel) {
    && k.history <= k'.history && k.published <= k'.published
    && Publishes(k'.published[|k.published|..], k'.history[|k.history|..])
  }

  /** Control operations accept and publish nothing. */
  lemma {:induction false} ControlPublishesNothing(ctx: Context, cfg: Config, k: Kernel, cmd: Command, w: World)
    requires !cmd.Send? && !cmd.SweepAt?
    ensures Perform(ctx, cfg, k, cmd, w).kernel.history == k.history && Perform(ctx, cfg, k, cmd, w).kernel.published == k.published
  {
  }

  lemma PublishesSame(k: Kernel, k': Kernel)
    requires k'.history == k.history && k'.published == k.published
    ensures PublishesGrowth(k, k')
  {
  }

  /** A completed operation publishes exactly what it accepted, in ordinal order. */
  lemma {:induction false} OperationPublishesHistory(sc: Scope, k: Kernel, cmd: Command, w: World)
    requires sc.Lawful() && Good(sc, k)
    ensures PublishesGrowth(k, Perform(sc.ctx, sc.cfg, k, cmd, w).kernel)
  {
    var k' := Perform(sc.ctx, sc.cfg, k, cmd, w).kernel;
    if k.session.state.IsTerminal() {
      TerminalAbsorbs(sc.ctx, sc.cfg, k, cmd, w);
      PublishesSame(k, k');
    } else if cmd.Send? {
      MessagePublishes(sc, k, cmd.env, w);
    } else if cmd.SweepAt? {
      if Synthesize(sc.ctx, sc.cfg, k, cmd.now, w).Emitted? { SynthesisPublishes(sc, k, cmd.now, w); } else { PublishesSame(k, k'); }
    } else {
      ControlPublishesNothing(sc.ctx, sc.cfg, k, cmd, w);
      PublishesSame(k, k');
    }
  }

  lemma {:induction false} SynthesisPublishes(sc: Scope, k: Kernel, now: int, w: World)
    requires sc.Lawful() && sc.inv(k.session) && sc.ctx.modes(k.session.bind.mode) == Some(sc.mode) && k.session.WellFormed()
    requires Synthesize(sc.ctx, sc.cfg, k, now, w).Emitted?
    ensures PublishesGrowth(k, Synthesize(sc.ctx, sc.cfg, k, now, w).kernel)
  {
    SyntheticFacts(sc.mode, sc.inv, sc.when, k.session, now);
    SynthesisGrowth(sc.ctx, sc.cfg, k, now, w);
    var syn := NextSynthetic(sc.mode, k.session, now).value.value;
    RecordedIsFilled(syn.envelope, syn.envelope.timestamp, k.session.bind.mode);
  }

  lemma DeliverPublishes(cfg: Config, mode: Mode, k: Kernel, env: Envelope, now: int, w: World)
    requires CheckShape(env).Ok? && env.mode != ""
    ensures PublishesGrowth(k, DispatchAndDeliver(cfg, mode, k, env, now, w).kernel)
  {
    RecordedIsFilled(env, now, env.mode);
    if DispatchAndDeliver(cfg, mode, k, env, now, w).reply.Accepted? { DeliverAppends(cfg, mode, k, env, now, w); }
  }

  lemma PublishesJoin(a: Kernel, b: Kernel, c: Kernel)
    requires PublishesGrowth(a, b) && PublishesGrowth(b, c)
    ensures PublishesGrowth(a, c)
  {
    assert c.history[|a.history|..] == b.history[|a.history|..] + c.history[|b.history|..];
    assert c.published[|a.published|..] == b.published[|a.published|..] + c.published[|b.published|..];
  }

  lemma {:induction false} MessagePublishes(sc: Scope, k: Kernel, env: Envelope, w: World)
    requires sc.Lawful() && sc.inv(k.session) && sc.ctx.modes(k.session.bind.mode) == Some(sc.mode) && k.session.WellFormed()
    ensures PublishesGrowth(k, SendMessage(sc.ctx, sc.cfg, k, env, w).kernel)
  {
    var now := w.clock(Commitment);
    if CheckPreconditions(k.session, env, now) == Ok(Proceed) && Admit(sc.mode, k.session, env).Ok? {
      match Synthesize(sc.ctx, sc.cfg, k, now, w)
      case SynthesisFailed(_) =>
      case NothingDue => DeliverPublishes(sc.cfg, sc.mode, k, env, now, w);
      case Emitted(k') =>
        SynthesisPublishes(sc, k, now, w);
        DeliverPublishes(sc.cfg, sc.mode, k', env, now, w);
        PublishesJoin(k, k', DispatchAndDeliver(sc.cfg, sc.mode, k', env, now, w).kernel);
    }
  }
}
