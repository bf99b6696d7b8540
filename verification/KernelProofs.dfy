/** What every operation of the kernel keeps, with every storage failure, clock
    reading and crash. */
module KernelProofs {
  import opened Sessions
  import opened Modes
  import opened Logs
  import opened Replay
  import opened Kernels

  /** What a run is about: its registries and configuration, the session's id and
      mode, the invariant the mode keeps and the instants it may be paused at. */
  datatype Scope = Scope(ctx: Context, cfg: Config, id: string, mode: Mode, inv: Session -> bool, when: int -> bool) {
    ghost predicate Lawful() { Modes.Lawful(mode, inv, when) }
  }

  function Ids(history: Log): set<string> { set i | 0 <= i < |history| :: history[i].messageId }

  ghost predicate DistinctIds(history: Log) {
    && (forall i :: 0 <= i < |history| ==> history[i].messageId != "" && history[i].kind == Incoming)
    && (forall i, j :: 0 <= i < j < |history| ==> history[i].messageId != history[j].messageId)
  }

  /** A replayed session against the live one: equal, except that replay keeps the
      suspension mark of a session that expired while suspended. */
  ghost predicate Agree(replayed: Session, live: Session) {
    || replayed == live
    || (live.state == Expired && live.suspendedAt.None? && replayed == live.(suspendedAt := replayed.suspendedAt))
  }

  /** A durable state recovery can start from. */
  ghost predicate PointGood(sc: Scope, p: Point) {
    && Coherent(sc.ctx, sc.id, p.log)
    && var s := Meaning(sc.ctx, sc.id, p.log).value;
       && s.WellFormed() && s.bind.sessionId == sc.id && sc.inv(s)
       && sc.ctx.modes(s.bind.mode) == Some(sc.mode)
       && s.seen == Ids(p.history)
       && DistinctIds(p.history)
       && Base(p.log) <= |p.history|
       && Logs.Accepted(p.log) == p.history[Base(p.log)..]
  }

  ghost predicate Good(sc: Scope, k: Kernel) {
    && k.memory == k.durable
    && PointGood(sc, Point(k.durable, k.history))
    && Agree(Meaning(sc.ctx, sc.id, k.durable).value, k.session)
    && k.session.WellFormed()
  }

  /** Every durable state an operation passed through can be recovered from, and
      lies between the histories before and after it. */
  ghost predicate TrailGood(sc: Scope, h0: Log, k: Kernel) {
    forall i :: 0 <= i < |k.trail| ==>
      && PointGood(sc, k.trail[i])
      && h0 <= k.trail[i].history <= k.history
  }

  ghost predicate Sound(sc: Scope, h0: Log, k: Kernel) {
    Good(sc, k) && TrailGood(sc, h0, k) && h0 <= k.history
  }

  /** The acceptance clock never reads zero, and reads an instant in scope. */
  ghost predicate Ticks(sc: Scope, w: World) { w.clock(Commitment) != 0 && sc.when(w.clock(Commitment)) }

  // ---- Micro steps ---------------------------------------------------------

  lemma IdsAppend(history: Log, e: LogEntry)
    requires DistinctIds(history) && e.kind == Incoming && e.messageId != "" && e.messageId !in Ids(history)
    ensures DistinctIds(history + [e]) && Ids(history + [e]) == Ids(history) + {e.messageId}
  {
    var all := history + [e];
    assert forall i :: 0 <= i < |history| ==> all[i] == history[i];
    assert all[|history|] == e;
    forall x | x in Ids(history) + {e.messageId} ensures x in Ids(all) {
      if x != e.messageId {
        var i :| 0 <= i < |history| && history[i].messageId == x;
        assert all[i].messageId == x;
      }
    }
    forall i, j | 0 <= i < j < |all| ensures all[i].messageId != all[j].messageId {
      assert all[i].messageId in Ids(history);
    }
  }

  /** A new durable state joins the ones an operation has passed through. */
  lemma {:induction false} TrailGrows(sc: Scope, h0: Log, k: Kernel, k': Kernel, p: Point)
    requires TrailGood(sc, h0, k) && h0 <= k.history <= k'.history
    requires k'.trail == k.trail + [p] && PointGood(sc, p) && h0 <= p.history <= k'.history
    ensures TrailGood(sc, h0, k')
  {
    forall i | 0 <= i < |k'.trail| ensures PointGood(sc, k'.trail[i]) && h0 <= k'.trail[i].history <= k'.history {
      if i < |k.trail| { assert k'.trail[i] == k.trail[i]; }
    }
  }

  /** What an entry must be for replay to take it. */
  ghost predicate Recordable(sc: Scope, s: Session, e: LogEntry) {
    && e.kind != Checkpoint
    && ApplyEntry(sc.mode, sc.id, s, e).Ok?
    && var r := ApplyEntry(sc.mode, sc.id, s, e).value;
       && r.WellFormed() && sc.inv(r) && r.bind == s.bind
       && (e.kind == Incoming ==> e.messageId != "" && e.messageId !in s.seen && r.seen == s.seen + {e.messageId})
       && (e.kind == Internal ==> r.seen == s.seen)
  }

  lemma {:induction false} RecordPoint(sc: Scope, k: Kernel, e: LogEntry)
    requires PointGood(sc, Point(k.durable, k.history)) && Meaning(sc.ctx, sc.id, k.durable) == Ok(k.session)
    requires Recordable(sc, k.session, e)
    ensures PointGood(sc, Point(Record(k, e).durable, Record(k, e).history))
    ensures Meaning(sc.ctx, sc.id, Record(k, e).durable) == ApplyEntry(sc.mode, sc.id, k.session, e)
  {
    var log := k.durable + [e];
    assert DropLast(log) == k.durable;
    CoherentExtend(sc.ctx, sc.id, k.durable, e);
    AcceptedAppend(k.durable, [e]);
    assert DropLast([e]) == [];
    if e.kind == Incoming { IdsAppend(k.history, e); }
    assert Record(k, e).history[Base(log)..] == k.history[Base(k.durable)..] + (if e.kind == Incoming then [e] else []);
  }

  /** An entry whose replayed effect agrees with the new live session. */
  lemma {:induction false} RecordSound(sc: Scope, h0: Log, k: Kernel, e: LogEntry, s: Session)
    requires Sound(sc, h0, k) && Meaning(sc.ctx, sc.id, k.durable) == Ok(k.session)
    requires Recordable(sc, k.session, e) && Agree(ApplyEntry(sc.mode, sc.id, k.session, e).value, s) && s.WellFormed()
    ensures Sound(sc, h0, Record(k, e).(session := s))
    ensures Meaning(sc.ctx, sc.id, Record(k, e).durable) == ApplyEntry(sc.mode, sc.id, k.session, e)
  {
    RecordPoint(sc, k, e);
    var k' := Record(k, e).(session := s);
    TrailGrows(sc, h0, k, k', Point(k'.durable, k'.history));
  }

  lemma {:induction false} CheckpointSound(sc: Scope, h0: Log, k: Kernel, at: int)
    requires Sound(sc, h0, k)
    requires Meaning(sc.ctx, sc.id, k.durable) == Ok(k.session)
    ensures Sound(sc, h0, Record(k, CheckpointEntry(k.session, at, 0)))
    ensures Meaning(sc.ctx, sc.id, Record(k, CheckpointEntry(k.session, at, 0)).durable) == Ok(k.session)
  {
    var e := CheckpointEntry(k.session, at, 0);
    var log := k.durable + [e];
    assert DropLast(log) == k.durable;
    CoherentExtend(sc.ctx, sc.id, k.durable, e);
    AcceptedAppend(k.durable, [e]);
    assert DropLast([e]) == [];
    var k' := Record(k, e);
    assert forall i :: 0 <= i < |k.trail| ==> k'.trail[i] == k.trail[i];
  }

  /** A compacted log means what the log it replaced meant, and its base accounts
      for every accepted ordinal. */
  lemma {:induction false} CompactionSound(sc: Scope, h0: Log, k: Kernel, w: World)
    requires Sound(sc, h0, k)
    requires Meaning(sc.ctx, sc.id, k.durable) == Ok(k.session)
    ensures Sound(sc, h0, CloseLog(sc.cfg, k, w))
    ensures Meaning(sc.ctx, sc.id, CloseLog(sc.cfg, k, w).durable) == Ok(k.session)
  {
    if sc.cfg.compactTerminalLogs && w.stores(Compaction) {
      var e := CompactedEntry(k, w);
      var log := [e];
      assert DropLast(log) == [];
      HighWaterPositive(k.memory);
      assert HighWater(k.memory) == |k.history|;
      assert Base(log) == |k.history|;
      assert k.history[|k.history|..] == [];
      var k' := CloseLog(sc.cfg, k, w);
      assert forall i :: 0 <= i < |k.trail| ==> k'.trail[i] == k.trail[i];
    } else if w.stores(Checkpointing) {
      CheckpointSound(sc, h0, k, w.clock(Checkpointing));
    }
  }

  // ---- Operations ----------------------------------------------------------

  /** Replay rebuilds the envelope a client sent, up to a missing timestamp. */
  lemma RecordedIsFilled(env: Envelope, at: int, mode: string)
    requires CheckShape(env).Ok? && env.mode == mode && mode != ""
    ensures RecordedEnvelope(IncomingEntry(env, at), env.sessionId, mode) == FillTimestamp(env, at)
    ensures EnvelopeOf(IncomingEntry(env, at)) == FillTimestamp(env, at)
    ensures at != 0 ==> RecordedAt(IncomingEntry(env, at)) == at
    ensures env.timestamp == at ==> RecordedAt(IncomingEntry(env, at)) == at
  {
  }

  lemma {:induction false} ExpirySound(sc: Scope, h0: Log, k: Kernel, w: World)
    requires sc.Lawful() && Sound(sc, h0, k)
    ensures MaybeExpire(k, w).NowExpired? ==>
      var k' := MaybeExpire(k, w).kernel;
      && Sound(sc, h0, k') && k'.session.state == Expired
      && (k.session.state == Open ==> Meaning(sc.ctx, sc.id, k'.durable) == Ok(k'.session))
  {
    if MaybeExpire(k, w).NowExpired? {
      var e := InternalEntry("TtlExpired", [], k.session, w.clock(Expiry));
      assert DropLast(k.durable + [e]) == k.durable;
      RecordSound(sc, h0, k, e, k.session.Expire().session);
    }
  }

  lemma {:induction false} SyntheticRecordable(sc: Scope, s: Session, now: int)
    requires sc.Lawful() && sc.inv(s) && s.WellFormed() && s.bind.sessionId == sc.id
    requires NextSynthetic(sc.mode, s, now).Ok? && NextSynthetic(sc.mode, s, now).value.Some?
    ensures
      var syn := NextSynthetic(sc.mode, s, now).value.value;
      var e := IncomingEntry(syn.envelope, syn.envelope.timestamp);
      && Recordable(sc, s, e) && ApplyEntry(sc.mode, sc.id, s, e) == Ok(CommitSynthetic(s, syn))
      && CommitSynthetic(s, syn).WellFormed() && CommitSynthetic(s, syn).state == Open
  {
    SyntheticFacts(sc.mode, sc.inv, sc.when, s, now);
    var syn := NextSynthetic(sc.mode, s, now).value.value;
    RecordedIsFilled(syn.envelope, syn.envelope.timestamp, s.bind.mode);
  }

  lemma {:induction false} SynthesisSound(sc: Scope, h0: Log, k: Kernel, now: int, w: World)
    requires sc.Lawful() && Sound(sc, h0, k)
    ensures Synthesize(sc.ctx, sc.cfg, k, now, w).Emitted? ==>
      var k' := Synthesize(sc.ctx, sc.cfg, k, now, w).kernel;
      Sound(sc, h0, k') && k'.session.state == Open && Meaning(sc.ctx, sc.id, k'.durable) == Ok(k'.session)
  {
    if Synthesize(sc.ctx, sc.cfg, k, now, w).Emitted? {
      SyntheticRecordable(sc, k.session, now);
      var syn := NextSynthetic(sc.mode, k.session, now).value.value;
      var e, s := IncomingEntry(syn.envelope, syn.envelope.timestamp), CommitSynthetic(k.session, syn);
      RecordSound(sc, h0, k, e, s);
      var committed := Record(k, e).(session := s);
      if AtInterval(sc.cfg, |committed.memory|) && w.stores(SynthesisCheckpoint) {
        CheckpointSound(sc, h0, committed, w.clock(SynthesisCheckpoint));
      }
    }
  }

  lemma {:induction false} MessageRecordable(sc: Scope, s: Session, env: Envelope, now: int)
    requires sc.Lawful() && sc.inv(s) && s.WellFormed() && s.bind.sessionId == sc.id && now != 0 && sc.when(now)
    requires s.state == Open && CheckShape(env).Ok? && env.mode == s.bind.mode && env.sessionId == sc.id && env.messageId !in s.seen
    requires Admit(sc.mode, s, env).Ok? && sc.mode.onMessage(s, env, now).Ok?
    ensures
      var s' := Commit(s, env, sc.mode.onMessage(s, env, now).value);
      Recordable(sc, s, IncomingEntry(env, now)) && ApplyEntry(sc.mode, sc.id, s, IncomingEntry(env, now)) == Ok(s') && s'.WellFormed()
  {
    RecordedIsFilled(env, now, s.bind.mode);
  }

  /** Activity and publications play no part in it. */
  lemma SoundAside(sc: Scope, h0: Log, k: Kernel, k': Kernel)
    requires Sound(sc, h0, k) && k' == k.(activity := k'.activity, published := k'.published)
    ensures Sound(sc, h0, k')
  {
  }

  /** What follows the commit of an accepted message. */
  function Tail(cfg: Config, k: Kernel, w: World): Kernel {
    if k.session.state == Resolved then CloseLog(cfg, k, w) else MaybeCheckpoint(cfg, k, w, Checkpointing)
  }

  lemma {:induction false} TailSound(sc: Scope, h0: Log, k: Kernel, w: World)
    requires Sound(sc, h0, k) && Meaning(sc.ctx, sc.id, k.durable) == Ok(k.session)
    ensures Sound(sc, h0, Tail(sc.cfg, k, w))
  {
    if k.session.state == Resolved {
      CompactionSound(sc, h0, k, w);
    } else if AtInterval(sc.cfg, |k.memory|) && w.stores(Checkpointing) {
      CheckpointSound(sc, h0, k, w.clock(Checkpointing));
    }
  }

  lemma {:induction false} DeliverSound(sc: Scope, h0: Log, k: Kernel, env: Envelope, now: int, w: World)
    requires sc.Lawful() && Sound(sc, h0, k) && now != 0 && sc.when(now)
    requires k.session.state == Open && CheckShape(env).Ok? && env.mode == k.session.bind.mode && env.sessionId == sc.id
    requires env.messageId !in k.session.seen
    requires Admit(sc.mode, k.session, env).Ok?
    ensures Sound(sc, h0, DispatchAndDeliver(sc.cfg, sc.mode, k, env, now, w).kernel)
  {
    var response := sc.mode.onMessage(k.session, env, now);
    if response.Ok? && w.stores(Commitment) {
      MessageRecordable(sc, k.session, env, now);
      var e, s := IncomingEntry(env, now), Commit(k.session, env, response.value);
      RecordSound(sc, h0, k, e, s);
      var recorded := Record(k, e).(session := s);
      var committed := recorded.(activity := k.activity.Credit(env.sender, now));
      SoundAside(sc, h0, recorded, committed);
      TailSound(sc, h0, committed, w);
      SoundAside(sc, h0, Tail(sc.cfg, committed, w), DispatchAndDeliver(sc.cfg, sc.mode, k, env, now, w).kernel);
    }
  }

  /** A synthetic leaves its trigger admissible: still open, still authorized and
      not a duplicate of the synthetic. */
  lemma {:induction false} TriggerSurvivesSynthesis(sc: Scope, k: Kernel, env: Envelope, now: int, w: World)
    requires sc.Lawful() && sc.inv(k.session) && sc.ctx.modes(k.session.bind.mode) == Some(sc.mode)
    requires Admit(sc.mode, k.session, env).Ok? && env.messageId !in k.session.seen
    requires Synthesize(sc.ctx, sc.cfg, k, now, w).Emitted?
    ensures
      var s := Synthesize(sc.ctx, sc.cfg, k, now, w).kernel.session;
      && s.state == Open && s.bind == k.session.bind
      && env.messageId !in s.seen
      && Admit(sc.mode, s, env) == Admit(sc.mode, k.session, env)
  {
    SyntheticFacts(sc.mode, sc.inv, sc.when, k.session, now);
    var syn := NextSynthetic(sc.mode, k.session, now).value.value;
    assert sc.mode.due(k.session, now) == Some(syn.envelope);
    assert sc.mode.validateClient(k.session, env).Ok?;
  }

  lemma {:induction false} ProceedSound(sc: Scope, h0: Log, k: Kernel, env: Envelope, w: World)
    requires sc.Lawful() && Sound(sc, h0, k) && Ticks(sc, w)
    requires CheckPreconditions(k.session, env, w.clock(Commitment)) == Ok(Proceed)
    requires Admit(sc.mode, k.session, env).Ok?
    ensures
      match Synthesize(sc.ctx, sc.cfg, k, w.clock(Commitment), w)
      case SynthesisFailed(_) => true
      case NothingDue => Sound(sc, h0, DispatchAndDeliver(sc.cfg, sc.mode, k, env, w.clock(Commitment), w).kernel)
      case Emitted(k') => Sound(sc, h0, DispatchAndDeliver(sc.cfg, sc.mode, k', env, w.clock(Commitment), w).kernel)
  {
    var now := w.clock(Commitment);
    match Synthesize(sc.ctx, sc.cfg, k, now, w)
    case SynthesisFailed(_) =>
    case NothingDue => DeliverSound(sc, h0, k, env, now, w);
    case Emitted(k') =>
      SynthesisSound(sc, h0, k, now, w);
      TriggerSurvivesSynthesis(sc, k, env, now, w);
      DeliverSound(sc, h0, k', env, now, w);
  }

  lemma {:induction false} MessageSound(sc: Scope, h0: Log, k: Kernel, env: Envelope, w: World)
    requires sc.Lawful() && Sound(sc, h0, k) && Ticks(sc, w)
    ensures Sound(sc, h0, SendMessage(sc.ctx, sc.cfg, k, env, w).kernel)
  {
    match CheckPreconditions(k.session, env, w.clock(Commitment))
    case Err(_) =>
    case Ok(Duplicate) =>
    case Ok(PastDeadline) => ExpirySound(sc, h0, k, w);
    case Ok(Proceed) =>
      if Admit(sc.mode, k.session, env).Ok? { ProceedSound(sc, h0, k, env, w); }
  }

  lemma {:induction false} ControlSound(sc: Scope, h0: Log, k: Kernel, e: LogEntry, s: Session)
    requires sc.Lawful() && Sound(sc, h0, k) && Meaning(sc.ctx, sc.id, k.durable) == Ok(k.session)
    requires e.kind == Internal && ApplyEntry(sc.mode, sc.id, k.session, e) == Ok(s)
    requires s.WellFormed() && sc.inv(s) && s.bind == k.session.bind && s.seen == k.session.seen
    ensures Sound(sc, h0, Record(k, e).(session := s))
    ensures Meaning(sc.ctx, sc.id, Record(k, e).durable) == Ok(s)
  {
    assert DropLast(k.durable + [e]) == k.durable;
    RecordSound(sc, h0, k, e, s);
  }

  lemma {:induction false} CancelSound(sc: Scope, h0: Log, k: Kernel, payload: Bytes, w: World)
    requires sc.Lawful() && Sound(sc, h0, k)
    ensures Sound(sc, h0, CancelSession(sc.cfg, k, payload, w).kernel)
  {
    ExpirySound(sc, h0, k, w);
    var expired := MaybeExpire(k, w);
    if expired.NotDue? && !k.session.state.IsTerminal() && w.stores(Commitment) {
      var e := InternalEntry("SessionCancel", payload, k.session, w.clock(Commitment));
      ControlSound(sc, h0, k, e, k.session.Cancel().session);
      CompactionSound(sc, h0, Control(k, "SessionCancel", payload, k.session.Cancel().session, w), w);
    }
  }

  lemma {:induction false} SuspendSound(sc: Scope, h0: Log, k: Kernel, payload: Bytes, w: World)
    requires sc.Lawful() && Sound(sc, h0, k) && sc.when(w.clock(Commitment))
    ensures Sound(sc, h0, SuspendSession(k, payload, w).kernel)
  {
    ExpirySound(sc, h0, k, w);
    if MaybeExpire(k, w).NotDue? && k.session.state == Open && w.stores(Commitment) {
      var now := w.clock(Commitment);
      ControlSound(sc, h0, k, InternalEntry("SessionSuspend", payload, k.session, now), k.session.Suspend(now).session);
    }
  }

  lemma {:induction false} ResumeSound(sc: Scope, h0: Log, k: Kernel, encode: int -> Bytes, w: World)
    requires sc.Lawful() && Sound(sc, h0, k) && sc.when(w.clock(Commitment))
    ensures Sound(sc, h0, ResumeSession(k, encode, w).kernel)
    ensures k.session.state == Suspended ==>
      Meaning(sc.ctx, sc.id, ResumeSession(k, encode, w).kernel.durable) == Ok(ResumeSession(k, encode, w).kernel.session)
  {
    if k.session.state == Suspended && w.stores(Commitment) {
      var now := w.clock(Commitment);
      var e := InternalEntry("SessionResume", encode(BankedOnWire(k.session)), k.session, now);
      ControlSound(sc, h0, k, e, k.session.Resume(now).session);
    }
  }

  lemma {:induction false} CleanupSound(sc: Scope, h0: Log, k: Kernel, now: int, w: World)
    requires sc.Lawful() && Sound(sc, h0, k)
    ensures Sound(sc, h0, Cleanup(sc.cfg, k, now, w).kernel)
    ensures k.session.state == Open ==>
      Meaning(sc.ctx, sc.id, Cleanup(sc.cfg, k, now, w).kernel.durable) == Ok(Cleanup(sc.cfg, k, now, w).kernel.session)
  {
    if k.session.state == Open && now > k.session.ttlExpiry && w.stores(Expiry) {
      var e := InternalEntry("TtlExpired", [], k.session, now);
      var s := k.session.(state := Expired);
      ControlSound(sc, h0, k, e, s);
      CompactionSound(sc, h0, Record(k, e).(session := s), w);
    }
  }

  lemma {:induction false} PerformSound(sc: Scope, h0: Log, k: Kernel, cmd: Command, w: World)
    requires sc.Lawful() && Sound(sc, h0, k) && Ticks(sc, w)
    ensures Sound(sc, h0, Perform(sc.ctx, sc.cfg, k, cmd, w).kernel)
  {
    match cmd
    case Send(env) => MessageSound(sc, h0, k, env, w);
    case SweepAt(now) => SynthesisSound(sc, h0, k, now, w);
    case Look => ExpirySound(sc, h0, k, w);
    case CancelWith(payload) => CancelSound(sc, h0, k, payload, w);
    case SuspendWith(payload) => SuspendSound(sc, h0, k, payload, w);
    case ResumeWith(encode) => ResumeSound(sc, h0, k, encode, w);
    case CleanupAt(now) => CleanupSound(sc, h0, k, now, w);
  }

  /** Recovery from any durable state an operation passes through. */
  lemma {:induction false} RecoverGood(sc: Scope, k: Kernel, p: Point)
    requires PointGood(sc, p) && k.session.bind.sessionId == sc.id
    ensures Good(sc, Recover(sc.ctx, k, p))
    ensures Recover(sc.ctx, k, p).durable == p.log && Recover(sc.ctx, k, p).history == p.history
    ensures Meaning(sc.ctx, sc.id, p.log) == Ok(Recover(sc.ctx, k, p).session)
    ensures Recover(sc.ctx, k, p).activity == NoActivity
  {
    ReplayIsMeaning(sc.ctx, sc.id, p.log);
  }

  lemma {:induction false} TakeGood(sc: Scope, k: Kernel, step: Step)
    requires sc.Lawful() && Good(sc, k) && Ticks(sc, step.world)
    ensures Good(sc, Take(sc.ctx, sc.cfg, k, step))
    ensures k.history <= Take(sc.ctx, sc.cfg, k, step).history
  {
    var before := k.(trail := []);
    PerformSound(sc, k.history, before, step.cmd, step.world);
    if step.fate.Crashes? {
      var after := Perform(sc.ctx, sc.cfg, before, step.cmd, step.world).kernel;
      RecoverGood(sc, k, CrashPoint(before, after, step.fate.writes));
    }
  }

  /** Replay refines live execution: whatever was sent, suspended, resumed,
      cancelled, expired, swept, checkpointed, compacted, refused by storage or
      interrupted by a crash, memory and disk hold the same log and replaying it
      rebuilds the live session. Accepted history is never lost. */
  lemma {:induction false} ReplayRefinesRun(sc: Scope, k: Kernel, steps: seq<Step>)
    requires sc.Lawful() && Good(sc, k)
    requires forall i :: 0 <= i < |steps| ==> Ticks(sc, steps[i].world)
    ensures
      var end := Run(sc.ctx, sc.cfg, k, steps);
      && Good(sc, end)
      && end.memory == end.durable
      && Replayed(sc.ctx, sc.id, end.durable).Ok?
      && Agree(Replayed(sc.ctx, sc.id, end.durable).value, end.session)
      && k.history <= end.history
  {
    if steps != [] {
      ReplayRefinesRun(sc, k, DropLast(steps));
      TakeGood(sc, Run(sc.ctx, sc.cfg, k, DropLast(steps)), Last(steps));
    }
    ReplayIsMeaning(sc.ctx, sc.id, Run(sc.ctx, sc.cfg, k, steps).durable);
  }
}
