/** One session under its mutex, as src/runtime.rs drives it: every operation
    validates, appends durably (the commit point), commits in memory and
    publishes. Storage outcomes and clock readings are arbitrary inputs. */
module Kernels {
  import opened Sessions
  import opened Modes
  import opened Logs
  import opened Replay

  datatype Config = Config(checkpointInterval: nat, compactTerminalLogs: bool)

  /** The places where an operation touches storage or reads the clock. */
  datatype Site = Synthesis | SynthesisCheckpoint | Commitment | Checkpointing | Compaction | Expiry

  /** What the outside world answers at each of them during one operation. */
  datatype World = World(stores: Site -> bool, clock: Site -> int)

  /** What storage holds after a durable write, and every envelope accepted so
      far, including those a compaction has since discarded. */
  datatype Point = Point(log: Log, history: Log)

  /** `history` and `trail` are auxiliary: all accepted entries ever, and the
      durable states this operation has passed through. */
  datatype Kernel = Kernel(
    session: Session, activity: Activity, durable: Log, memory: Log,
    published: seq<Envelope>, history: Log, trail: seq<Point>)

  datatype Reply = Accepted(state: SessionState) | AlreadyAccepted(state: SessionState) | Rejected(error: MacpError)

  datatype Outcome = Outcome(kernel: Kernel, reply: Reply)

  // ---- Writes --------------------------------------------------------------

  /** A durable append followed by the in-memory one. */
  function Record(k: Kernel, e: LogEntry): Kernel {
    var history := if e.kind == Incoming then k.history + [e] else k.history;
    k.(durable := k.durable + [e], memory := k.memory + [e], history := history,
       trail := k.trail + [Point(k.durable + [e], history)])
  }

  function ForceCheckpoint(k: Kernel, w: World, site: Site): Kernel {
    if w.stores(site) then Record(k, CheckpointEntry(k.session, w.clock(site), 0)) else k
  }

  predicate AtInterval(cfg: Config, length: nat) {
    cfg.checkpointInterval != 0 && length >= cfg.checkpointInterval && length % cfg.checkpointInterval == 0
  }

  function MaybeCheckpoint(cfg: Config, k: Kernel, w: World, site: Site): Kernel {
    if AtInterval(cfg, |k.memory|) then ForceCheckpoint(k, w, site) else k
  }

  /** `maybe_compact_log`: the checkpoint accounts for every ordinal it discards. */
  function CompactedEntry(k: Kernel, w: World): LogEntry {
    CheckpointEntry(k.session, w.clock(Compaction), HighWater(k.memory))
  }

  /** The tail of every operation that ends a session. */
  function CloseLog(cfg: Config, k: Kernel, w: World): Kernel {
    if cfg.compactTerminalLogs && w.stores(Compaction) then
      var log := [CompactedEntry(k, w)];
      k.(durable := log, memory := log, trail := k.trail + [Point(log, k.history)])
    else ForceCheckpoint(k, w, Checkpointing)
  }

  // ---- Operations ----------------------------------------------------------

  datatype Expiring = ExpiryFailed | NotDue | NowExpired(kernel: Kernel)

  function MaybeExpire(k: Kernel, w: World): Expiring {
    var now := w.clock(Expiry);
    if !k.session.DeadlinePassed(now) then NotDue
    else if !w.stores(Expiry) then ExpiryFailed
    else NowExpired(Record(k, InternalEntry("TtlExpired", [], k.session, now)).(session := k.session.Expire().session))
  }

  datatype Synthesizing = SynthesisFailed(error: MacpError) | NothingDue | Emitted(kernel: Kernel)

  function EmitSynthetic(cfg: Config, k: Kernel, syn: Synthetic, w: World): Kernel {
    var recorded := Record(k, IncomingEntry(syn.envelope, syn.envelope.timestamp));
    var committed := recorded.(session := CommitSynthetic(k.session, syn));
    var k' := MaybeCheckpoint(cfg, committed, w, SynthesisCheckpoint);
    k'.(published := k'.published + [syn.envelope])
  }

  function Synthesize(ctx: Context, cfg: Config, k: Kernel, now: int, w: World): Synthesizing {
    var mode := ctx.modes(k.session.bind.mode);
    if mode.None? then NothingDue
    else
      var next := NextSynthetic(mode.value, k.session, now);
      if next.Err? then SynthesisFailed(next.error)
      else if next.value.None? then NothingDue
      else if !w.stores(Synthesis) then SynthesisFailed(StorageFailed)
      else Emitted(EmitSynthetic(cfg, k, next.value.value, w))
  }

  /** The commit phase of an accepted message, checkpointing and publish included. */
  function Deliver(cfg: Config, k: Kernel, env: Envelope, response: ModeResponse, now: int, w: World): Kernel {
    var recorded := Record(k, IncomingEntry(env, now));
    var committed := recorded.(session := Commit(k.session, env, response), activity := k.activity.Credit(env.sender, now));
    var k' :=
      if committed.session.state == Resolved then CloseLog(cfg, committed, w)
      else MaybeCheckpoint(cfg, committed, w, Checkpointing);
    k'.(published := k'.published + [env])
  }

  function SendMessage(ctx: Context, cfg: Config, k: Kernel, env: Envelope, w: World): Outcome {
    var now := w.clock(Commitment);
    match CheckPreconditions(k.session, env, now)
    case Err(e) => Outcome(k, Rejected(e))
    case Ok(Duplicate) => Outcome(k, AlreadyAccepted(k.session.state))
    case Ok(PastDeadline) =>
      (match MaybeExpire(k, w)
       case ExpiryFailed => Outcome(k, Rejected(StorageFailed))
       case NotDue => Outcome(k, Rejected(TtlExpired))
       case NowExpired(k') => Outcome(k', Rejected(TtlExpired)))
    case Ok(Proceed) =>
      var mode := ctx.modes(k.session.bind.mode);
      if mode.None? then Outcome(k, Rejected(UnknownMode))
      else
        var admitted := Admit(mode.value, k.session, env);
        if admitted.Err? then Outcome(k, Rejected(admitted.error))
        else
          match Synthesize(ctx, cfg, k, now, w)
          case SynthesisFailed(e) => Outcome(k, Rejected(e))
          case NothingDue => DispatchAndDeliver(cfg, mode.value, k, env, now, w)
          case Emitted(k') => DispatchAndDeliver(cfg, mode.value, k', env, now, w)
  }

  function DispatchAndDeliver(cfg: Config, mode: Mode, k: Kernel, env: Envelope, now: int, w: World): Outcome {
    var response := mode.onMessage(k.session, env, now);
    if response.Err? then Outcome(k, Rejected(response.error))
    else if !w.stores(Commitment) then Outcome(k, Rejected(StorageFailed))
    else
      var k' := Deliver(cfg, k, env, response.value, now, w);
      Outcome(k', Accepted(k'.session.state))
  }

  /** One candidate of `sweep_due_synthetic_accepts`. */
  function Sweep(ctx: Context, cfg: Config, k: Kernel, now: int, w: World): Outcome {
    var swept := if k.session.state == Open then Synthesize(ctx, cfg, k, now, w) else NothingDue;
    Outcome(if swept.Emitted? then swept.kernel else k, Accepted(k.session.state))
  }

  /** `get_session_checked`. */
  function Read(k: Kernel, w: World): Outcome {
    var expired := MaybeExpire(k, w);
    var k' := if expired.NowExpired? then expired.kernel else k;
    Outcome(k', Accepted(k'.session.state))
  }

  /** A control operation that records one internal entry and moves the session. */
  function Control(k: Kernel, messageType: string, payload: Bytes, moved: Session, w: World): Kernel {
    Record(k, InternalEntry(messageType, payload, k.session, w.clock(Commitment))).(session := moved)
  }

  function CancelSession(cfg: Config, k: Kernel, payload: Bytes, w: World): Outcome {
    var expired := MaybeExpire(k, w);
    if expired.ExpiryFailed? then Outcome(k, Rejected(StorageFailed))
    else
      var k' := if expired.NowExpired? then expired.kernel else k;
      if k'.session.state.IsTerminal() then Outcome(k', Accepted(k'.session.state))
      else if !w.stores(Commitment) then Outcome(k', Rejected(StorageFailed))
      else Outcome(CloseLog(cfg, Control(k', "SessionCancel", payload, k'.session.Cancel().session, w), w), Accepted(Cancelled))
  }

  function SuspendSession(k: Kernel, payload: Bytes, w: World): Outcome {
    var expired := MaybeExpire(k, w);
    if expired.ExpiryFailed? then Outcome(k, Rejected(StorageFailed))
    else
      var k' := if expired.NowExpired? then expired.kernel else k;
      if k'.session.state != Open then Outcome(k', Rejected(SessionNotOpen))
      else if !w.stores(Commitment) then Outcome(k', Rejected(StorageFailed))
      else Outcome(Control(k', "SessionSuspend", payload, k'.session.Suspend(w.clock(Commitment)).session, w), Accepted(Suspended))
  }

  /** The `banked_ms` a resume writes: what was left of the TTL at the suspend. */
  function BankedOnWire(s: Session): int {
    if s.suspendedAt.None? then 0 else Max(Sat(s.ttlExpiry - s.suspendedAt.value), 0)
  }

  function ResumeSession(k: Kernel, payload: int -> Bytes, w: World): Outcome {
    if k.session.state != Suspended then Outcome(k, Rejected(SessionNotOpen))
    else if !w.stores(Commitment) then Outcome(k, Rejected(StorageFailed))
    else
      var moved := k.session.Resume(w.clock(Commitment));
      Outcome(Control(k, "SessionResume", payload(BankedOnWire(k.session)), moved.session, w),
              if moved.error.None? then Accepted(Open) else Rejected(TtlExpired))
  }

  /** One candidate of `cleanup_expired_sessions`. */
  function Cleanup(cfg: Config, k: Kernel, now: int, w: World): Outcome {
    if k.session.state != Open || now <= k.session.ttlExpiry || !w.stores(Expiry) then Outcome(k, Accepted(k.session.state))
    else
      var recorded := Record(k, InternalEntry("TtlExpired", [], k.session, now));
      Outcome(CloseLog(cfg, recorded.(session := k.session.(state := Expired)), w), Accepted(Expired))
  }

  // ---- Starting a session --------------------------------------------------

  datatype ValidStart = ValidStart(payload: StartPayload, boundModeVersion: Option<string>, ttlMs: int, ttlBase: int, maxSuspend: int)

  /** The Unicode property White_Space, which `trim` goes by. */
  predicate Whitespace(c: char) {
    var n := c as int;
    || 0x09 <= n <= 0x0D || n == 0x20 || n == 0x85 || n == 0xA0 || n == 0x1680
    || 0x2000 <= n <= 0x200A || n == 0x2028 || n == 0x2029 || n == 0x202F || n == 0x205F || n == 0x3000
  }

  predicate Blank(s: string) { forall c :: c in s ==> Whitespace(c) }

  /** `validate_session_start`, as `process_session_start` configures it. */
  function ValidateStart(ctx: Context, env: Envelope, now: int): Result<ValidStart> {
    if CheckShape(env).Err? then Err(CheckShape(env).error)
    else if env.messageType != "SessionStart" || Blank(env.mode) then Err(InvalidEnvelope)
    else if !ctx.validId(env.sessionId) then Err(InvalidSessionId)
    else
      var parsed := ParseStart(ctx, env.payload);
      if parsed.Err? then Err(parsed.error)
      else
        var p := parsed.value;
        var descriptor := ctx.descriptor(env.mode);
        if ctx.strict(env.mode) && CheckCanonical(ctx, env.mode, p).Err? then Err(CheckCanonical(ctx, env.mode, p).error)
        else if descriptor.Some? && p.modeVersion != "" && p.modeVersion != descriptor.value then Err(InvalidEnvelope)
        else if ExtractTtl(p).Err? then Err(InvalidTtl)
        else Ok(ValidStart(p, if p.modeVersion == "" then descriptor else None, p.ttlMs,
                           if env.timestamp > 0 then env.timestamp else now,
                           if p.maxSuspend > 0 then p.maxSuspend else MAX_SUSPEND_MS))
  }

  /** `ValidatedStart::accept` with the policy the registry resolved. */
  function AcceptStart(mode: Mode, env: Envelope, v: ValidStart, policy: Policy, now: int): Result<Session> {
    var requested := v.payload.policyVersion;
    if requested != "" && policy.policyId != requested then Err(UnknownPolicyVersion)
    else if policy.mode != "*" && policy.mode != env.mode then Err(InvalidPolicyDefinition)
    else
      var s := NewSession(env, v.payload,
                          if v.boundModeVersion.Some? then v.boundModeVersion.value else v.payload.modeVersion,
                          if requested == "" then policy.policyId else requested,
                          Some(policy), v.ttlMs, v.ttlBase, now, CURRENT_SEMANTICS_REV, v.maxSuspend);
      var response := mode.onStart(s, env);
      if response.Err? then Err(response.error)
      else
        var client := mode.validateClient(s, env);
        if client.Err? then Err(client.error) else Ok(Commit(s, env, response.value))
  }

  datatype Started = Started(session: Session, entry: LogEntry)

  /** Everything `process_session_start` decides before it reserves the id. */
  function PrepareStart(ctx: Context, env: Envelope, now: int): Result<Started> {
    if Blank(env.mode) then Err(InvalidEnvelope)
    else if !ctx.validId(env.sessionId) then Err(InvalidSessionId)
    else if ctx.modes(env.mode).None? then Err(UnknownMode)
    else
      var v := ValidateStart(ctx, env, now);
      if v.Err? then Err(v.error)
      else
        var policy := ctx.resolve(EffectivePolicyId(v.value.payload.policyVersion));
        if policy.None? then Err(UnknownPolicyVersion)
        else
          var s := AcceptStart(ctx.modes(env.mode).value, env, v.value, policy.value, now);
          if s.Err? then Err(s.error)
          else Ok(Started(s.value, IncomingEntry(env, now).(
                            boundModeVersion := v.value.boundModeVersion,
                            semanticsRev := CURRENT_SEMANTICS_REV,
                            boundMaxSuspend := Some(v.value.maxSuspend))))
  }

  /** The kernel once a start is durable and published. */
  function StartedKernel(started: Started, env: Envelope): Kernel {
    Kernel(started.session, NoActivity, [started.entry], [started.entry], [env], [started.entry],
           [Point([started.entry], [started.entry])])
  }

  // ---- Runs ----------------------------------------------------------------

  datatype Command =
    | Send(env: Envelope)
    | SweepAt(now: int)
    | Look
    | CancelWith(payload: Bytes)
    | SuspendWith(payload: Bytes)
    | ResumeWith(encode: int -> Bytes)
    | CleanupAt(now: int)

  function Perform(ctx: Context, cfg: Config, k: Kernel, cmd: Command, w: World): Outcome {
    match cmd
    case Send(env) => SendMessage(ctx, cfg, k, env, w)
    case SweepAt(now) => Sweep(ctx, cfg, k, now, w)
    case Look => Read(k, w)
    case CancelWith(payload) => CancelSession(cfg, k, payload, w)
    case SuspendWith(payload) => SuspendSession(k, payload, w)
    case ResumeWith(encode) => ResumeSession(k, encode, w)
    case CleanupAt(now) => Cleanup(cfg, k, now, w)
  }

  /** How an operation ends: normally, or with the process dying after that many
      of its durable writes, followed by recovery from storage. */
  datatype Fate = Completes | Crashes(writes: nat)

  datatype Step = Step(cmd: Command, world: World, fate: Fate)

  /** Recovery of this session: src/recovery.rs:57-94. */
  function Recover(ctx: Context, k: Kernel, p: Point): Kernel {
    var replayed := Replayed(ctx, k.session.bind.sessionId, p.log);
    if replayed.Err? then k
    else Kernel(replayed.value, NoActivity, p.log, p.log, [], p.history, [])
  }

  function CrashPoint(before: Kernel, after: Kernel, writes: nat): Point {
    if writes == 0 || after.trail == [] then Point(before.durable, before.history)
    else if writes < |after.trail| then after.trail[writes - 1]
    else after.trail[|after.trail| - 1]
  }

  function Take(ctx: Context, cfg: Config, k: Kernel, step: Step): Kernel {
    var before := k.(trail := []);
    var after := Perform(ctx, cfg, before, step.cmd, step.world).kernel;
    match step.fate
    case Completes => after
    case Crashes(writes) => Recover(ctx, k, CrashPoint(before, after, writes))
  }

  function Run(ctx: Context, cfg: Config, k: Kernel, steps: seq<Step>): Kernel {
    if steps == [] then k
    else Take(ctx, cfg, Run(ctx, cfg, k, DropLast(steps)), Last(steps))
  }
}
