/** Eager and lazy synthesis (section 5.1 of RFC-MACP-0010): the background sweep
    and the message path settle a due envelope the same way. */
module EagerLazy {
  import opened Sessions
  import opened Modes
  import opened Logs
  import opened Kernels
  import opened KernelProofs

  /** No message is dispatched while an unrecorded synthetic is due: whatever kernel
      a message is dispatched against has nothing left to synthesize. */
  lemma {:induction false} DispatchIsSettled(sc: Scope, k: Kernel, now: int, w: World)
    requires sc.Lawful() && sc.inv(k.session) && sc.ctx.modes(k.session.bind.mode) == Some(sc.mode)
    ensures
      match Synthesize(sc.ctx, sc.cfg, k, now, w)
      case SynthesisFailed(_) => true
      case NothingDue => NextSynthetic(sc.mode, k.session, now) == Ok(None)
      case Emitted(k') => NextSynthetic(sc.mode, k'.session, now) == Ok(None)
  {
    if Synthesize(sc.ctx, sc.cfg, k, now, w).Emitted? { SyntheticFacts(sc.mode, sc.inv, sc.when, k.session, now); }
  }

  function EraseStamp(e: LogEntry): LogEntry {
    if e.kind == Checkpoint then e.(receivedAt := 0, timestamp := 0) else e
  }

  /** Equal logs up to the stamps of their checkpoints. */
  ghost predicate SameLog(a: Log, b: Log) {
    |a| == |b| && forall i :: 0 <= i < |a| ==> EraseStamp(a[i]) == EraseStamp(b[i])
  }

  ghost predicate SameKernel(a: Kernel, b: Kernel) {
    && a.session == b.session && a.activity == b.activity && a.published == b.published && a.history == b.history
    && SameLog(a.durable, b.durable) && SameLog(a.memory, b.memory)
  }

  lemma {:induction false} SameLogSameOrdinals(a: Log, b: Log)
    requires SameLog(a, b)
    ensures Base(a) == Base(b) && Logs.Accepted(a) == Logs.Accepted(b)
  {
    if a != [] {
      SameLogSameOrdinals(DropLast(a), DropLast(b));
      assert EraseStamp(Last(a)) == EraseStamp(Last(b));
    }
  }

  lemma RecordSame(a: Kernel, b: Kernel, e: LogEntry, e': LogEntry)
    requires SameKernel(a, b) && EraseStamp(e) == EraseStamp(e') && (e.kind == Incoming ==> e == e')
    ensures SameKernel(Record(a, e), Record(b, e'))
  {
  }

  lemma CheckpointSame(cfg: Config, a: Kernel, b: Kernel, w: World, w': World, site: Site)
    requires SameKernel(a, b) && w.stores(site) == w'.stores(site)
    ensures SameKernel(ForceCheckpoint(a, w, site), ForceCheckpoint(b, w', site))
    ensures SameKernel(MaybeCheckpoint(cfg, a, w, site), MaybeCheckpoint(cfg, b, w', site))
  {
    RecordSame(a, b, CheckpointEntry(a.session, w.clock(site), 0), CheckpointEntry(b.session, w'.clock(site), 0));
  }

  lemma CloseSame(cfg: Config, a: Kernel, b: Kernel, w: World)
    requires SameKernel(a, b)
    ensures SameKernel(CloseLog(cfg, a, w), CloseLog(cfg, b, w))
  {
    SameLogSameOrdinals(a.memory, b.memory);
    CheckpointSame(cfg, a, b, w, w, Checkpointing);
  }

  lemma {:induction false} DispatchSame(cfg: Config, mode: Mode, a: Kernel, b: Kernel, env: Envelope, now: int, w: World)
    requires SameKernel(a, b)
    ensures
      var x := DispatchAndDeliver(cfg, mode, a, env, now, w);
      var y := DispatchAndDeliver(cfg, mode, b, env, now, w);
      x.reply == y.reply && SameKernel(x.kernel, y.kernel)
  {
    var response := mode.onMessage(a.session, env, now);
    if response.Ok? && w.stores(Commitment) {
      var e := IncomingEntry(env, now);
      RecordSame(a, b, e, e);
      var s := Commit(a.session, env, response.value);
      var activity := a.activity.Credit(env.sender, now);
      var x, y := Record(a, e).(session := s, activity := activity), Record(b, e).(session := s, activity := activity);
      assert SameKernel(x, y);
      CloseSame(cfg, x, y, w);
      CheckpointSame(cfg, x, y, w, w, Checkpointing);
    }
  }

  lemma EmitSame(cfg: Config, k: Kernel, syn: Synthetic, w: World, w': World)
    requires w.stores(SynthesisCheckpoint) == w'.stores(SynthesisCheckpoint)
    ensures SameKernel(EmitSynthetic(cfg, k, syn, w), EmitSynthetic(cfg, k, syn, w'))
  {
    var committed := Record(k, IncomingEntry(syn.envelope, syn.envelope.timestamp)).(session := CommitSynthetic(k.session, syn));
    CheckpointSame(cfg, committed, committed, w, w', SynthesisCheckpoint);
  }

  /** A sweep at any time from the deadline up to a trigger, followed by the trigger,
      leaves the same reply, session, history, publications and log (checkpoints
      in the same positions, up to their stamps) as the trigger alone. */
  lemma {:induction false} SweepThenSendEqualsSend(sc: Scope, k: Kernel, env: Envelope, sweepAt: int, sweeping: World, w: World)
    requires sc.Lawful() && sc.inv(k.session) && sc.ctx.modes(k.session.bind.mode) == Some(sc.mode)
    requires CheckPreconditions(k.session, env, w.clock(Commitment)) == Ok(Proceed) && Admit(sc.mode, k.session, env).Ok?
    requires sc.mode.due(k.session, sweepAt).Some? && sweepAt <= w.clock(Commitment)
    requires Synthesize(sc.ctx, sc.cfg, k, w.clock(Commitment), w).Emitted?
    requires sweeping.stores(Synthesis) && sweeping.stores(SynthesisCheckpoint) == w.stores(SynthesisCheckpoint)
    ensures
      var eager := SendMessage(sc.ctx, sc.cfg, Sweep(sc.ctx, sc.cfg, k, sweepAt, sweeping).kernel, env, w);
      var lazy := SendMessage(sc.ctx, sc.cfg, k, env, w);
      eager.reply == lazy.reply && SameKernel(eager.kernel, lazy.kernel)
  {
    var now := w.clock(Commitment);
    assert sc.mode.due(k.session, now) == sc.mode.due(k.session, sweepAt);
    var syn := NextSynthetic(sc.mode, k.session, now).value.value;
    assert NextSynthetic(sc.mode, k.session, sweepAt) == NextSynthetic(sc.mode, k.session, now);
    var swept := EmitSynthetic(sc.cfg, k, syn, sweeping);
    var inline := EmitSynthetic(sc.cfg, k, syn, w);
    EmitSame(sc.cfg, k, syn, sweeping, w);
    SyntheticFacts(sc.mode, sc.inv, sc.when, k.session, now);
    TriggerSurvivesSynthesis(sc, k, env, now, w);
    assert Admit(sc.mode, swept.session, env) == Admit(sc.mode, k.session, env);
    assert Synthesize(sc.ctx, sc.cfg, swept, now, w) == NothingDue;
    DispatchSame(sc.cfg, sc.mode, swept, inline, env, now, w);
  }
}
