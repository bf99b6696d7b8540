/** What the kernel promises its callers, over all inputs, failures and runs. */
module KernelTheorems {
  import opened Sessions
  import opened Modes
  import opened Logs
  import opened Replay
  import opened Kernels
  import opened KernelProofs

  // ---- Start ---------------------------------------------------------------

  /** The recorded start replays to the session that was accepted: the deadline
      base, the suspension cap, the revision and the bound versions all come
      back from the entry. */
  lemma StartReplays(sc: Scope, env: Envelope, now: int)
    requires PrepareStart(sc.ctx, env, now).Ok? && sc.ctx.modes(env.mode) == Some(sc.mode) && env.sessionId == sc.id
    requires sc.Lawful() && EstablishesInvariant(sc.mode, sc.inv)
    ensures
      var started := PrepareStart(sc.ctx, env, now).value;
      && Head(sc.ctx, env.sessionId, started.entry) == Ok(started.session)
      && started.session.WellFormed() && sc.inv(started.session)
      && started.session.seen == {env.messageId} && env.messageId != ""
      && started.entry.messageId == env.messageId && started.entry.IsStart()
      && started.session.bind.sessionId == env.sessionId && started.session.bind.mode == env.mode
  {
    var started := PrepareStart(sc.ctx, env, now).value;
    var v := ValidateStart(sc.ctx, env, now).value;
    var policy := sc.ctx.resolve(EffectivePolicyId(v.payload.policyVersion)).value;
    var requested := v.payload.policyVersion;
    var s := NewSession(env, v.payload,
                        if v.boundModeVersion.Some? then v.boundModeVersion.value else v.payload.modeVersion,
                        if requested == "" then policy.policyId else requested,
                        Some(policy), v.ttlMs, v.ttlBase, now, CURRENT_SEMANTICS_REV, v.maxSuspend);
    assert started.session == Commit(s, env, sc.mode.onStart(s, env).value);
    assert RecordedEnvelope(started.entry, env.sessionId, env.mode) == FillTimestamp(env, now);
    assert sc.mode.onStart(s, FillTimestamp(env, now)) == sc.mode.onStart(s, env);
  }

  lemma StartGood(sc: Scope, env: Envelope, now: int)
    requires PrepareStart(sc.ctx, env, now).Ok? && sc.ctx.modes(env.mode) == Some(sc.mode) && env.sessionId == sc.id
    requires sc.Lawful() && EstablishesInvariant(sc.mode, sc.inv)
    ensures Good(sc, StartedKernel(PrepareStart(sc.ctx, env, now).value, env))
  {
    StartReplays(sc, env, now);
    var started := PrepareStart(sc.ctx, env, now).value;
    var log := [started.entry];
    assert DropLast(log) == [];
    assert log[0..] == log;
    assert Ids(log) == {env.messageId} by { assert log[0].messageId == env.messageId; }
  }

  /** From an accepted start on, every run leaves a log that replays to the live
      session: equal to it, or differing only in the suspension mark of a session
      that expired while suspended. */
  lemma {:induction false} EveryRunReplays(sc: Scope, env: Envelope, now: int, steps: seq<Step>)
    requires PrepareStart(sc.ctx, env, now).Ok? && sc.ctx.modes(env.mode) == Some(sc.mode) && env.sessionId == sc.id
    requires sc.Lawful() && EstablishesInvariant(sc.mode, sc.inv)
    requires forall i :: 0 <= i < |steps| ==> Ticks(sc, steps[i].world)
    ensures
      var end := Run(sc.ctx, sc.cfg, StartedKernel(PrepareStart(sc.ctx, env, now).value, env), steps);
      && end.memory == end.durable
      && Replayed(sc.ctx, sc.id, end.durable).Ok?
      && Agree(Replayed(sc.ctx, sc.id, end.durable).value, end.session)
      && end.history != [] && end.history[0].IsStart() && end.history[0].messageId == env.messageId
  {
    var k := StartedKernel(PrepareStart(sc.ctx, env, now).value, env);
    StartGood(sc, env, now);
    StartReplays(sc, env, now);
    ReplayRefinesRun(sc, k, steps);
    assert k.history[0] == Run(sc.ctx, sc.cfg, k, steps).history[0];
  }

  // ---- When replay is exact ------------------------------------------------

  /** The operation expires the session while it is suspended. */
  predicate ExpiresSuspended(k: Kernel, cmd: Command, w: World) {
    && k.session.state == Suspended
    && MaybeExpire(k, w).NowExpired?
    && match cmd
       case Send(env) => CheckPreconditions(k.session, env, w.clock(Commitment)) == Ok(PastDeadline)
       case Look => true
       case CancelWith(_) => true
       case SuspendWith(_) => true
       case _ => false
  }

  ghost predicate Exact(ctx: Context, id: string, k: Kernel) { Meaning(ctx, id, k.durable) == Ok(k.session) }

  /** A terminal session is absorbing: no completed operation changes it, its log,
      its history or what was published. */
  lemma TerminalAbsorbs(ctx: Context, cfg: Config, k: Kernel, cmd: Command, w: World)
    requires k.session.state.IsTerminal()
    ensures Perform(ctx, cfg, k, cmd, w).kernel == k
  {
  }

  /** Expiring a suspended session: the live path clears the suspension mark, the
      replayed one keeps it. */
  lemma {:induction false} ExpiryLosesMark(sc: Scope, k: Kernel, cmd: Command, w: World)
    requires Good(sc, k) && Exact(sc.ctx, sc.id, k) && ExpiresSuspended(k, cmd, w)
    ensures !Exact(sc.ctx, sc.id, Perform(sc.ctx, sc.cfg, k, cmd, w).kernel)
  {
    var k' := Perform(sc.ctx, sc.cfg, k, cmd, w).kernel;
    var e := InternalEntry("TtlExpired", [], k.session, w.clock(Expiry));
    assert k'.durable == k.durable + [e];
    assert DropLast(k.durable + [e]) == k.durable;
    assert Meaning(sc.ctx, sc.id, k'.durable) == Ok(k.session.(state := Expired));
  }

  lemma {:induction false} ExpiresExactly(sc: Scope, k: Kernel, cmd: Command, w: World)
    requires sc.Lawful() && Good(sc, k) && k.trail == [] && Ticks(sc, w) && Exact(sc.ctx, sc.id, k)
    requires !ExpiresSuspended(k, cmd, w) && !k.session.state.IsTerminal() && Perform(sc.ctx, sc.cfg, k, cmd, w).kernel.session.state == Expired
    ensures Exact(sc.ctx, sc.id, Perform(sc.ctx, sc.cfg, k, cmd, w).kernel)
  {
    match cmd
    case ResumeWith(encode) => ResumeSound(sc, k.history, k, encode, w);
    case CleanupAt(now) => CleanupSound(sc, k.history, k, now, w);
    case _ =>
      ExpirySound(sc, k.history, k, w);
      ExpiredByDeadline(sc.ctx, sc.cfg, k, cmd, w);
  }

  /** From an exact state, replay stays exact unless the operation expires the
      session while it is suspended. */
  lemma {:induction false} ExactStep(sc: Scope, k: Kernel, cmd: Command, w: World)
    requires sc.Lawful() && Good(sc, k) && k.trail == [] && Ticks(sc, w)
    requires Exact(sc.ctx, sc.id, k)
    ensures Exact(sc.ctx, sc.id, Perform(sc.ctx, sc.cfg, k, cmd, w).kernel) <==> !ExpiresSuspended(k, cmd, w)
  {
    var k' := Perform(sc.ctx, sc.cfg, k, cmd, w).kernel;
    if ExpiresSuspended(k, cmd, w) {
      ExpiryLosesMark(sc, k, cmd, w);
    } else if k.session.state.IsTerminal() {
      TerminalAbsorbs(sc.ctx, sc.cfg, k, cmd, w);
    } else if k'.session.state == Expired {
      ExpiresExactly(sc, k, cmd, w);
    } else {
      PerformSound(sc, k.history, k, cmd, w);
    }
  }

  lemma DispatchNeverExpires(cfg: Config, mode: Mode, k: Kernel, env: Envelope, now: int, w: World)
    requires k.session.state != Expired
    ensures DispatchAndDeliver(cfg, mode, k, env, now, w).kernel.session.state != Expired
  {
  }

  lemma SynthesisNeverExpires(ctx: Context, cfg: Config, k: Kernel, now: int, w: World)
    requires k.session.state != Expired && Synthesize(ctx, cfg, k, now, w).Emitted?
    ensures Synthesize(ctx, cfg, k, now, w).kernel.session.state != Expired
  {
  }

  /** Apart from resume and cleanup, only an expired deadline expires a session. */
  lemma ExpiredByDeadline(ctx: Context, cfg: Config, k: Kernel, cmd: Command, w: World)
    requires !k.session.state.IsTerminal() && !cmd.ResumeWith? && !cmd.CleanupAt?
    requires Perform(ctx, cfg, k, cmd, w).kernel.session.state == Expired
    ensures MaybeExpire(k, w).NowExpired? && Perform(ctx, cfg, k, cmd, w).kernel == MaybeExpire(k, w).kernel
    ensures cmd.Send? ==> CheckPreconditions(k.session, cmd.env, w.clock(Commitment)) == Ok(PastDeadline)
  {
    if cmd.Send? { MessageExpiredByDeadline(ctx, cfg, k, cmd.env, w); }
    if cmd.SweepAt? && Synthesize(ctx, cfg, k, cmd.now, w).Emitted? { SynthesisNeverExpires(ctx, cfg, k, cmd.now, w); }
  }

  lemma MessageExpiredByDeadline(ctx: Context, cfg: Config, k: Kernel, env: Envelope, w: World)
    requires !k.session.state.IsTerminal()
    requires SendMessage(ctx, cfg, k, env, w).kernel.session.state == Expired
    ensures MaybeExpire(k, w).NowExpired? && SendMessage(ctx, cfg, k, env, w).kernel == MaybeExpire(k, w).kernel
    ensures CheckPreconditions(k.session, env, w.clock(Commitment)) == Ok(PastDeadline)
  {
    var now := w.clock(Commitment);
    var mode := ctx.modes(k.session.bind.mode);
    if CheckPreconditions(k.session, env, now) == Ok(Proceed) && mode.Some? {
      match Synthesize(ctx, cfg, k, now, w)
      case SynthesisFailed(_) =>
      case NothingDue => DispatchNeverExpires(cfg, mode.value, k, env, now, w);
      case Emitted(k') =>
        SynthesisNeverExpires(ctx, cfg, k, now, w);
        DispatchNeverExpires(cfg, mode.value, k', env, now, w);
    }
  }

  /** Some step since the last recovery expired the session while suspended. */
  ghost predicate MarkLost(ctx: Context, cfg: Config, k: Kernel, steps: seq<Step>) {
    if steps == [] then false
    else
      && Last(steps).fate.Completes?
      && (|| MarkLost(ctx, cfg, k, DropLast(steps))
          || ExpiresSuspended(Run(ctx, cfg, k, DropLast(steps)).(trail := []), Last(steps).cmd, Last(steps).world))
  }

  /** An inexact session is one that expired while suspended, and stays so. */
  lemma InexactIsExpired(sc: Scope, k: Kernel)
    requires Good(sc, k) && !Exact(sc.ctx, sc.id, k)
    ensures k.session.state == Expired
  {
  }

  lemma {:induction false} RecoveryIsExact(sc: Scope, k: Kernel, step: Step)
    requires sc.Lawful() && Good(sc, k) && Ticks(sc, step.world) && step.fate.Crashes?
    ensures Exact(sc.ctx, sc.id, Take(sc.ctx, sc.cfg, k, step))
  {
    var before := k.(trail := []);
    PerformSound(sc, before.history, before, step.cmd, step.world);
    var after := Perform(sc.ctx, sc.cfg, before, step.cmd, step.world).kernel;
    RecoverGood(sc, k, CrashPoint(before, after, step.fate.writes));
  }

  lemma {:induction false} ExactTake(sc: Scope, k: Kernel, step: Step)
    requires sc.Lawful() && Good(sc, k) && Ticks(sc, step.world) && step.fate.Completes?
    ensures Exact(sc.ctx, sc.id, Take(sc.ctx, sc.cfg, k, step))
       <==> Exact(sc.ctx, sc.id, k) && !ExpiresSuspended(k.(trail := []), step.cmd, step.world)
  {
    var before := k.(trail := []);
    if Exact(sc.ctx, sc.id, k) {
      ExactStep(sc, before, step.cmd, step.world);
    } else {
      InexactIsExpired(sc, k);
      TerminalAbsorbs(sc.ctx, sc.cfg, before, step.cmd, step.world);
    }
  }

  lemma {:induction false} ExactRun(sc: Scope, k: Kernel, steps: seq<Step>)
    requires sc.Lawful() && Good(sc, k) && Exact(sc.ctx, sc.id, k)
    requires forall i :: 0 <= i < |steps| ==> Ticks(sc, steps[i].world)
    ensures Exact(sc.ctx, sc.id, Run(sc.ctx, sc.cfg, k, steps)) <==> !MarkLost(sc.ctx, sc.cfg, k, steps)
  {
    if steps != [] {
      var front, step := DropLast(steps), Last(steps);
      ExactRun(sc, k, front);
      ReplayRefinesRun(sc, k, front);
      var mid := Run(sc.ctx, sc.cfg, k, front);
      if step.fate.Completes? { ExactTake(sc, mid, step); } else { RecoveryIsExact(sc, mid, step); }
    }
  }

  /** After any run, replaying the durable log gives exactly the live session if and
      only if no step since the last recovery expired it while suspended. */
  lemma {:induction false} ReplayExactIff(sc: Scope, k: Kernel, steps: seq<Step>)
    requires sc.Lawful() && Good(sc, k) && Exact(sc.ctx, sc.id, k)
    requires forall i :: 0 <= i < |steps| ==> Ticks(sc, steps[i].world)
    ensures
      var end := Run(sc.ctx, sc.cfg, k, steps);
      Replayed(sc.ctx, sc.id, end.durable) == Ok(end.session) <==> !MarkLost(sc.ctx, sc.cfg, k, steps)
  {
    ExactRun(sc, k, steps);
    ReplayRefinesRun(sc, k, steps);
    ReplayIsMeaning(sc.ctx, sc.id, Run(sc.ctx, sc.cfg, k, steps).durable);
  }

  // ---- Eager and lazy expiry, activity -------------------------------------

  /** The cleanup loop expires an open session exactly when an operation that looked
      at it at the same instant would, and leaves the same session and entry; it
      then also closes the log. */
  lemma EagerExpiryAgrees(cfg: Config, k: Kernel, now: int, w: World)
    requires k.session.WellFormed() && k.session.state == Open && w.clock(Expiry) == now
    ensures MaybeExpire(k, w).NowExpired? <==> k.session.DeadlinePassed(now) && w.stores(Expiry)
    ensures Cleanup(cfg, k, now, w).kernel == if MaybeExpire(k, w).NowExpired? then CloseLog(cfg, MaybeExpire(k, w).kernel, w) else k
  {
  }

  lemma DispatchCredits(cfg: Config, mode: Mode, k: Kernel, env: Envelope, now: int, w: World)
    ensures
      var out := DispatchAndDeliver(cfg, mode, k, env, now, w);
      out.kernel.activity == if out.reply.Accepted? then k.activity.Credit(env.sender, now) else k.activity
  {
  }

  /** Only the sender of an accepted client message is credited with activity: not the
      participant a synthetic speaks for, and nobody for a rejection. */
  lemma {:induction false} ActivityTracksAcceptance(ctx: Context, cfg: Config, k: Kernel, env: Envelope, w: World)
    ensures
      var out := SendMessage(ctx, cfg, k, env, w);
      out.kernel.activity == if out.reply.Accepted? then k.activity.Credit(env.sender, w.clock(Commitment)) else k.activity
  {
    var now, mode := w.clock(Commitment), ctx.modes(k.session.bind.mode);
    if CheckPreconditions(k.session, env, now) == Ok(Proceed) && mode.Some? {
      match Synthesize(ctx, cfg, k, now, w)
      case SynthesisFailed(_) =>
      case NothingDue => DispatchCredits(cfg, mode.value, k, env, now, w);
      case Emitted(k') => DispatchCredits(cfg, mode.value, k', env, now, w);
    }
  }

  lemma {:induction false} OthersKeepActivity(ctx: Context, cfg: Config, k: Kernel, cmd: Command, w: World)
    requires !cmd.Send?
    ensures Perform(ctx, cfg, k, cmd, w).kernel.activity == k.activity
  {
  }

  /** The step is a client message that the run accepts. */
  predicate Accepts(ctx: Context, cfg: Config, k: Kernel, step: Step) {
    step.cmd.Send? && step.fate.Completes? && SendMessage(ctx, cfg, k.(trail := []), step.cmd.env, step.world).reply.Accepted?
  }

  /** The accepted client messages of `sender` since the start or the last recovery,
      as the clock readings of their acceptance. */
  function AcceptedFrom(ctx: Context, cfg: Config, k: Kernel, steps: seq<Step>, sender: string): seq<int> {
    if steps == [] || Last(steps).fate.Crashes? then []
    else
      var before := DropLast(steps);
      AcceptedFrom(ctx, cfg, k, before, sender) + AcceptedNow(ctx, cfg, Run(ctx, cfg, k, before), Last(steps), sender)
  }

  function AcceptedNow(ctx: Context, cfg: Config, k: Kernel, step: Step, sender: string): seq<int> {
    if Accepts(ctx, cfg, k, step) && step.cmd.env.sender == sender then [step.world.clock(Commitment)] else []
  }

  predicate Counts(activity: Activity, accepted: seq<int>, sender: string) {
    && (sender in activity.counts <==> accepted != []) && (sender in activity.lastSeen <==> accepted != [])
    && (accepted != [] ==> activity.counts[sender] == |accepted| && activity.lastSeen[sender] == Last(accepted))
  }

  lemma {:induction false} StepCounts(ctx: Context, cfg: Config, k: Kernel, step: Step, accepted: seq<int>, sender: string)
    requires step.fate.Completes? && Counts(k.activity, accepted, sender)
    ensures Counts(Take(ctx, cfg, k, step).activity, accepted + AcceptedNow(ctx, cfg, k, step, sender), sender)
  {
    if step.cmd.Send? { ActivityTracksAcceptance(ctx, cfg, k.(trail := []), step.cmd.env, step.world); }
    else { OthersKeepActivity(ctx, cfg, k.(trail := []), step.cmd, step.world); }
    assert accepted + [] == accepted;
  }

  lemma {:induction false} RecoveryForgetsActivity(sc: Scope, k: Kernel, step: Step)
    requires sc.Lawful() && Good(sc, k) && Ticks(sc, step.world) && step.fate.Crashes?
    ensures Take(sc.ctx, sc.cfg, k, step).activity == NoActivity
  {
    var before := k.(trail := []);
    PerformSound(sc, before.history, before, step.cmd, step.world);
    RecoverGood(sc, k, CrashPoint(before, Perform(sc.ctx, sc.cfg, before, step.cmd, step.world).kernel, step.fate.writes));
  }

  /** After any run, a participant's count is the number of their client messages
      accepted since the start or the last recovery, and their last-seen time is
      when the last of them was accepted. Synthetic envelopes count for nobody. */
  lemma {:induction false} ActivityCountsAcceptances(sc: Scope, k: Kernel, steps: seq<Step>, sender: string)
    requires sc.Lawful() && Good(sc, k) && k.activity == NoActivity
    requires forall i :: 0 <= i < |steps| ==> Ticks(sc, steps[i].world)
    ensures Counts(Run(sc.ctx, sc.cfg, k, steps).activity, AcceptedFrom(sc.ctx, sc.cfg, k, steps, sender), sender)
  {
    if steps != [] {
      var before, step := DropLast(steps), Last(steps);
      var mid := Run(sc.ctx, sc.cfg, k, before);
      if step.fate.Crashes? {
        ReplayRefinesRun(sc, k, before);
        RecoveryForgetsActivity(sc, mid, step);
      } else {
        ActivityCountsAcceptances(sc, k, before, sender);
        StepCounts(sc.ctx, sc.cfg, mid, step, AcceptedFrom(sc.ctx, sc.cfg, k, before, sender), sender);
      }
    }
  }

  // ---- Rejections and acknowledgements -------------------------------------

  /** A log grown by the entry of a due synthetic and at most one checkpoint. */
  ghost predicate GrownBySynthetic(k: Kernel, k': Kernel, syn: LogEntry) {
    && syn.kind == Incoming && k'.history == k.history + [syn]
    && (|| k'.durable == k.durable + [syn]
        || exists at :: k'.durable == k.durable + [syn, CheckpointEntry(k'.session, at, 0)])
  }

  lemma SynthesisGrowth(ctx: Context, cfg: Config, k: Kernel, now: int, w: World)
    requires Synthesize(ctx, cfg, k, now, w).Emitted? && ctx.modes(k.session.bind.mode).Some?
    ensures
      var syn := NextSynthetic(ctx.modes(k.session.bind.mode).value, k.session, now).value.value;
      var k' := Synthesize(ctx, cfg, k, now, w).kernel;
      && GrownBySynthetic(k, k', IncomingEntry(syn.envelope, syn.envelope.timestamp))
      && k'.session == CommitSynthetic(k.session, syn)
      && k'.activity == k.activity && k'.published == k.published + [syn.envelope]
  {
    var syn := NextSynthetic(ctx.modes(k.session.bind.mode).value, k.session, now).value.value;
    var e := IncomingEntry(syn.envelope, syn.envelope.timestamp);
    var c := CheckpointEntry(CommitSynthetic(k.session, syn), w.clock(SynthesisCheckpoint), 0);
    assert k.durable + [e] + [c] == k.durable + [e, c];
  }

  /** A rejected message never consumes its own id. All it can leave behind is one
      expiry entry, or one synthetic entry with at most one checkpoint. */
  lemma {:induction false} RejectionFrame(sc: Scope, k: Kernel, env: Envelope, w: World)
    requires sc.Lawful() && Good(sc, k)
    requires SendMessage(sc.ctx, sc.cfg, k, env, w).reply.Rejected?
    ensures
      var k' := SendMessage(sc.ctx, sc.cfg, k, env, w).kernel;
      || (k'.durable == k.durable && k'.session == k.session && k'.history == k.history)
      || (&& k'.durable == k.durable + [InternalEntry("TtlExpired", [], k.session, w.clock(Expiry))]
          && k'.session == k.session.Expire().session && k'.history == k.history)
      || (exists syn ::
            && GrownBySynthetic(k, k', syn) && syn.messageId != env.messageId
            && k'.session.seen == k.session.seen + {syn.messageId} && k'.session.state == Open)
  {
    var now := w.clock(Commitment);
    if CheckPreconditions(k.session, env, now) == Ok(Proceed) && Admit(sc.mode, k.session, env).Ok?
       && Synthesize(sc.ctx, sc.cfg, k, now, w).Emitted?
    {
      SynthesisGrowth(sc.ctx, sc.cfg, k, now, w);
      TriggerSurvivesSynthesis(sc, k, env, now, w);
      var k' := Synthesize(sc.ctx, sc.cfg, k, now, w).kernel;
      assert SendMessage(sc.ctx, sc.cfg, k, env, w) == DispatchAndDeliver(sc.cfg, sc.mode, k', env, now, w);
      assert SendMessage(sc.ctx, sc.cfg, k, env, w).kernel == k';
      var syn := NextSynthetic(sc.mode, k.session, now).value.value;
      assert GrownBySynthetic(k, k', IncomingEntry(syn.envelope, syn.envelope.timestamp));
    }
  }

  lemma DeliverAppends(cfg: Config, mode: Mode, k: Kernel, env: Envelope, now: int, w: World)
    requires DispatchAndDeliver(cfg, mode, k, env, now, w).reply.Accepted?
    ensures DispatchAndDeliver(cfg, mode, k, env, now, w).kernel.history == k.history + [IncomingEntry(env, now)]
  {
  }

  lemma AcceptedIsLast(ctx: Context, cfg: Config, k: Kernel, env: Envelope, w: World)
    requires SendMessage(ctx, cfg, k, env, w).reply.Accepted?
    ensures CheckShape(env).Ok? && env.messageId !in k.session.seen
    ensures
      var h := SendMessage(ctx, cfg, k, env, w).kernel.history;
      h != [] && Last(h) == IncomingEntry(env, w.clock(Commitment))
  {
    var now := w.clock(Commitment);
    var mode := ctx.modes(k.session.bind.mode).value;
    match Synthesize(ctx, cfg, k, now, w)
    case NothingDue => DeliverAppends(cfg, mode, k, env, now, w);
    case Emitted(k') => DeliverAppends(cfg, mode, k', env, now, w);
  }

  /** An accepted message is in the accepted history exactly once, and was not
      there before. */
  lemma {:induction false} AcceptanceRecorded(sc: Scope, k: Kernel, env: Envelope, w: World)
    requires sc.Lawful() && Good(sc, k) && k.trail == [] && Ticks(sc, w)
    requires SendMessage(sc.ctx, sc.cfg, k, env, w).reply.Accepted?
    ensures Good(sc, SendMessage(sc.ctx, sc.cfg, k, env, w).kernel)
    ensures
      var h := SendMessage(sc.ctx, sc.cfg, k, env, w).kernel.history;
      && env.messageId !in Ids(k.history)
      && h != [] && Last(h) == IncomingEntry(env, w.clock(Commitment))
      && (forall i :: 0 <= i < |h| - 1 ==> h[i].messageId != env.messageId)
  {
    MessageSound(sc, k.history, k, env, w);
    ReplayAgreesOnSeen(sc, k);
    AcceptedIsLast(sc.ctx, sc.cfg, k, env, w);
    DistinctHistory(sc, SendMessage(sc.ctx, sc.cfg, k, env, w).kernel);
  }

  lemma DistinctHistory(sc: Scope, k: Kernel)
    requires Good(sc, k)
    ensures DistinctIds(k.history)
  {
  }

  /** The dedup set is the set of accepted ids, in memory as on disk. */
  lemma ReplayAgreesOnSeen(sc: Scope, k: Kernel)
    requires Good(sc, k)
    ensures k.session.seen == Ids(k.history) && k.session.bind == Meaning(sc.ctx, sc.id, k.durable).value.bind
  {
  }

  /** Crash and retry safety. Once acknowledged, a message stays in history exactly
      once through any further run of operations, failures and crashes, and
      sending it again is answered as a duplicate and writes nothing. */
  lemma {:induction false} AcknowledgedSurvives(sc: Scope, k: Kernel, env: Envelope, w: World, steps: seq<Step>, retry: World)
    requires sc.Lawful() && Good(sc, k) && k.trail == [] && Ticks(sc, w)
    requires SendMessage(sc.ctx, sc.cfg, k, env, w).reply.Accepted?
    requires forall i :: 0 <= i < |steps| ==> Ticks(sc, steps[i].world)
    ensures
      var end := Run(sc.ctx, sc.cfg, SendMessage(sc.ctx, sc.cfg, k, env, w).kernel, steps);
      && env.messageId in Ids(end.history) && DistinctIds(end.history)
      && Replayed(sc.ctx, sc.id, end.durable).Ok? && env.messageId in Replayed(sc.ctx, sc.id, end.durable).value.seen
      && SendMessage(sc.ctx, sc.cfg, end, env, retry) == Outcome(end, AlreadyAccepted(end.session.state))
  {
    var k' := SendMessage(sc.ctx, sc.cfg, k, env, w).kernel;
    AcceptedIsLast(sc.ctx, sc.cfg, k, env, w);
    AcceptanceRecorded(sc, k, env, w);
    ReplayRefinesRun(sc, k', steps);
    var end := Run(sc.ctx, sc.cfg, k', steps);
    var last := |k'.history| - 1;
    assert end.history[last] == k'.history[last] && end.history[last].messageId == env.messageId;
    RetryIsDuplicate(sc, end, env, retry);
  }

  /** Resending any id already in history writes nothing. */
  lemma {:induction false} RetryIsDuplicate(sc: Scope, k: Kernel, env: Envelope, w: World)
    requires Good(sc, k) && CheckShape(env).Ok? && env.messageId in Ids(k.history)
    ensures SendMessage(sc.ctx, sc.cfg, k, env, w) == Outcome(k, AlreadyAccepted(k.session.state))
    ensures Replayed(sc.ctx, sc.id, k.durable).Ok? && env.messageId in Replayed(sc.ctx, sc.id, k.durable).value.seen
    ensures DistinctIds(k.history)
  {
    ReplayAgreesOnSeen(sc, k);
    ReplayIsMeaning(sc.ctx, sc.id, k.durable);
  }

  /** What one in-flight operation can add to history before a crash: for a message,
      the synthetic it provoked and itself, in that order; for a sweep, the
      synthetic; nothing otherwise. */
  ghost predicate InFlight(ctx: Context, k: Kernel, cmd: Command, w: World, added: Log) {
    var mode := ctx.modes(k.session.bind.mode);
    var now := if cmd.SweepAt? then cmd.now else w.clock(Commitment);
    var next := if mode.Some? then NextSynthetic(mode.value, k.session, now) else Ok(None);
    var synthetic := if next.Ok? && next.value.Some?
                     then [IncomingEntry(next.value.value.envelope, next.value.value.envelope.timestamp)] else [];
    match cmd
    case Send(env) =>
      added == [] || added == synthetic || added == synthetic + [IncomingEntry(env, now)]
    case SweepAt(_) => added == [] || added == synthetic
    case _ => added == []
  }

  lemma {:induction false} SynthesisTrail(ctx: Context, cfg: Config, k: Kernel, now: int, w: World)
    requires Synthesize(ctx, cfg, k, now, w).Emitted? && ctx.modes(k.session.bind.mode).Some?
    ensures
      var syn := NextSynthetic(ctx.modes(k.session.bind.mode).value, k.session, now).value.value;
      var e := IncomingEntry(syn.envelope, syn.envelope.timestamp);
      var k' := Synthesize(ctx, cfg, k, now, w).kernel;
      && k.trail <= k'.trail
      && forall i :: |k.trail| <= i < |k'.trail| ==> k'.trail[i].history == k.history + [e]
  {
  }

  lemma {:induction false} DeliverTrail(cfg: Config, mode: Mode, k: Kernel, env: Envelope, now: int, w: World)
    ensures
      var k' := DispatchAndDeliver(cfg, mode, k, env, now, w).kernel;
      && k.trail <= k'.trail
      && forall i :: |k.trail| <= i < |k'.trail| ==> k'.trail[i].history == k.history + [IncomingEntry(env, now)]
  {
  }

  /** Every durable state an operation passes through adds at most that. */
  lemma {:induction false} CrashAddsInFlightOnly(ctx: Context, cfg: Config, k: Kernel, cmd: Command, w: World, i: nat)
    requires k.trail == [] && i < |Perform(ctx, cfg, k, cmd, w).kernel.trail|
    ensures
      var p := Perform(ctx, cfg, k, cmd, w).kernel.trail[i];
      exists added :: p.history == k.history + added && InFlight(ctx, k, cmd, w, added)
  {
    var p := Perform(ctx, cfg, k, cmd, w).kernel.trail[i];
    match cmd
    case Send(env) => MessageAddsInFlightOnly(ctx, cfg, k, env, w, i);
    case SweepAt(now) => SynthesisTrail(ctx, cfg, k, now, w);
    case _ =>
      ControlAddsNothing(ctx, cfg, k, cmd, w, i);
      assert p.history == k.history + [];
      assert InFlight(ctx, k, cmd, w, []);
  }

  lemma {:induction false} ExpiryAddsNothing(k: Kernel, w: World)
    requires k.trail == [] && MaybeExpire(k, w).NowExpired?
    ensures
      var k' := MaybeExpire(k, w).kernel;
      k'.history == k.history && forall i :: 0 <= i < |k'.trail| ==> k'.trail[i].history == k.history
  {
  }

  lemma {:induction false} CloseAddsNothing(cfg: Config, k: Kernel, w: World)
    requires forall i :: 0 <= i < |k.trail| ==> k.trail[i].history == k.history
    ensures
      var k' := CloseLog(cfg, k, w);
      k'.history == k.history && forall i :: 0 <= i < |k'.trail| ==> k'.trail[i].history == k.history
  {
  }

  lemma {:induction false} ControlAddsNothing(ctx: Context, cfg: Config, k: Kernel, cmd: Command, w: World, i: nat)
    requires k.trail == [] && !cmd.Send? && !cmd.SweepAt? && i < |Perform(ctx, cfg, k, cmd, w).kernel.trail|
    ensures Perform(ctx, cfg, k, cmd, w).kernel.trail[i].history == k.history
  {
    if MaybeExpire(k, w).NowExpired? { ExpiryAddsNothing(k, w); }
    match cmd
    case CancelWith(payload) => CloseAddsNothing(cfg, Control(k, "SessionCancel", payload, k.session.Cancel().session, w), w);
    case CleanupAt(now) =>
      CloseAddsNothing(cfg, Record(k, InternalEntry("TtlExpired", [], k.session, now)).(session := k.session.(state := Expired)), w);
    case _ =>
  }

  lemma {:induction false} MessageAddsInFlightOnly(ctx: Context, cfg: Config, k: Kernel, env: Envelope, w: World, i: nat)
    requires k.trail == [] && i < |SendMessage(ctx, cfg, k, env, w).kernel.trail|
    ensures
      var p := SendMessage(ctx, cfg, k, env, w).kernel.trail[i];
      exists added :: p.history == k.history + added && InFlight(ctx, k, Send(env), w, added)
  {
    var now := w.clock(Commitment);
    var p := SendMessage(ctx, cfg, k, env, w).kernel.trail[i];
    if CheckPreconditions(k.session, env, now) == Ok(PastDeadline) {
      assert p.history == k.history + [];
      assert InFlight(ctx, k, Send(env), w, []);
    } else {
      var mode := ctx.modes(k.session.bind.mode).value;
      match Synthesize(ctx, cfg, k, now, w)
      case NothingDue =>
        DeliverTrail(cfg, mode, k, env, now, w);
        assert InFlight(ctx, k, Send(env), w, [] + [IncomingEntry(env, now)]);
        assert p.history == k.history + ([] + [IncomingEntry(env, now)]);
      case Emitted(k') =>
        SettledAddsInFlightOnly(ctx, cfg, mode, k, env, w, i);
    }
  }

  lemma {:induction false} SettledAddsInFlightOnly(ctx: Context, cfg: Config, mode: Mode, k: Kernel, env: Envelope, w: World, i: nat)
    requires ctx.modes(k.session.bind.mode) == Some(mode) && Synthesize(ctx, cfg, k, w.clock(Commitment), w).Emitted? && k.trail == []
    requires
      var k' := Synthesize(ctx, cfg, k, w.clock(Commitment), w).kernel;
      i < |DispatchAndDeliver(cfg, mode, k', env, w.clock(Commitment), w).kernel.trail|
    ensures
      var k' := Synthesize(ctx, cfg, k, w.clock(Commitment), w).kernel;
      var p := DispatchAndDeliver(cfg, mode, k', env, w.clock(Commitment), w).kernel.trail[i];
      exists added :: p.history == k.history + added && InFlight(ctx, k, Send(env), w, added)
  {
    var now := w.clock(Commitment);
    var k' := Synthesize(ctx, cfg, k, now, w).kernel;
    SynthesisTrail(ctx, cfg, k, now, w);
    SynthesisGrowth(ctx, cfg, k, now, w);
    DeliverTrail(cfg, mode, k', env, now, w);
    var syn := NextSynthetic(mode, k.session, now).value.value;
    var e := IncomingEntry(syn.envelope, syn.envelope.timestamp);
    if i < |k'.trail| {
      assert InFlight(ctx, k, Send(env), w, [e]);
    } else {
      assert InFlight(ctx, k, Send(env), w, [e] + [IncomingEntry(env, now)]);
      assert DispatchAndDeliver(cfg, mode, k', env, now, w).kernel.trail[i].history == k.history + ([e] + [IncomingEntry(env, now)]);
    }
  }
}
