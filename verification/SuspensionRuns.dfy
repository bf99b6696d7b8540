/** Runs in which a suspension does what the exact conditions of `KernelTheorems` and
    `Suspension` single out. Each starts from any accepted start that is open;
    `SomeStart` shows that there is one. */
module SuspensionRuns {
  import opened Sessions
  import opened Modes
  import opened Logs
  import opened Replay
  import opened Kernels
  import opened KernelProofs
  import opened KernelTheorems
  import S = Suspension

  /** Storage works; the expiry check and the commit read the clock once each. */
  function Reading(expiry: int, commitment: int): World {
    World(site => true, (site: Site) => if site == Expiry then expiry else commitment)
  }

  function At(cmd: Command, expiry: int, commitment: int): Step { Step(cmd, Reading(expiry, commitment), Completes) }

  /** Each step happens at one instant, none before the one before it. */
  ghost predicate Punctual(steps: seq<Step>, from: int) {
    S.Forwards(steps, from) && forall i, site :: 0 <= i < |steps| ==> steps[i].world.clock(site) == steps[i].world.clock(Commitment)
  }

  /** A session as a start leaves it, its cap within the range of the clock. */
  predicate Roomy(s: Session) {
    && s.state == Open && s.accumulated == 0 && s.intervals == []
    && 0 < s.ttlExpiry && Overdue(s) <= I64_MAX
  }

  /** The first instant past the cap of a suspension that began at the deadline. */
  function Overdue(s: Session): int { s.ttlExpiry + s.EffectiveMaxSuspend() + 1 }

  /** An accepted start of a lawful mode that leaves such a session. */
  ghost predicate Opens(sc: Scope, env: Envelope, now: int) {
    && PrepareStart(sc.ctx, env, now).Ok? && sc.ctx.modes(env.mode) == Some(sc.mode) && env.sessionId == sc.id
    && sc.Lawful() && EstablishesInvariant(sc.mode, sc.inv) && sc.when == S.Always
    && Roomy(PrepareStart(sc.ctx, env, now).value.session)
  }

  function From(sc: Scope, env: Envelope, now: int): Kernel
    requires PrepareStart(sc.ctx, env, now).Ok?
  {
    StartedKernel(PrepareStart(sc.ctx, env, now).value, env)
  }

  lemma {:induction false} TwoSteps(ctx: Context, cfg: Config, k: Kernel, first: Step, second: Step)
    ensures Run(ctx, cfg, k, [first]) == Take(ctx, cfg, k, first)
    ensures Run(ctx, cfg, k, [first, second]) == Take(ctx, cfg, Take(ctx, cfg, k, first), second)
  {
    assert DropLast([first]) == [] && DropLast([first, second]) == [first];
  }

  /** Suspending such a session at its deadline's last instant. */
  function Paused(k: Kernel, commitment: int): Kernel {
    Record(k.(trail := []), InternalEntry("SessionSuspend", [], k.session, commitment)).(
      session := k.session.(state := Suspended, suspendedAt := Some(commitment)))
  }

  lemma {:induction false} SuspendFirst(ctx: Context, cfg: Config, k: Kernel, commitment: int)
    requires Roomy(k.session)
    ensures Take(ctx, cfg, k, At(SuspendWith([]), k.session.ttlExpiry, commitment)) == Paused(k, commitment)
  {
  }

  lemma {:induction false} LookLosesMark(ctx: Context, cfg: Config, k: Kernel) returns (steps: seq<Step>)
    requires Roomy(k.session)
    ensures MarkLost(ctx, cfg, k, steps) && Punctual(steps, k.session.ttlExpiry)
  {
    var t, late := k.session.ttlExpiry, Overdue(k.session);
    var suspend, look := At(SuspendWith([]), t, t), At(Look, late, late);
    steps := [suspend, look];
    SuspendFirst(ctx, cfg, k, t);
    TwoSteps(ctx, cfg, k, suspend, look);
    assert DropLast(steps) == [suspend] && Last(steps) == look;
    assert ExpiresSuspended(Paused(k, t).(trail := []), Look, look.world);
  }

  lemma {:induction false} StartExact(sc: Scope, env: Envelope, now: int)
    requires Opens(sc, env, now)
    ensures Good(sc, From(sc, env, now)) && Exact(sc.ctx, sc.id, From(sc, env, now))
  {
    StartGood(sc, env, now);
    StartReplays(sc, env, now);
    assert DropLast(From(sc, env, now).durable) == [];
  }

  /** Reading a suspended session past its cap expires it; its log then replays to a
      session that still carries the suspension mark. */
  lemma {:induction false} ReplayKeepsMark(sc: Scope, env: Envelope, now: int) returns (steps: seq<Step>)
    requires Opens(sc, env, now)
    ensures Punctual(steps, From(sc, env, now).session.ttlExpiry) && forall i :: 0 <= i < |steps| ==> Ticks(sc, steps[i].world)
    ensures var end := Run(sc.ctx, sc.cfg, From(sc, env, now), steps); Replayed(sc.ctx, sc.id, end.durable) != Ok(end.session)
  {
    StartExact(sc, env, now);
    steps := LookLosesMark(sc.ctx, sc.cfg, From(sc, env, now));
    ReplayExactIff(sc, From(sc, env, now), steps);
  }

  /** The suspension is stamped one millisecond past the deadline; the resume leaves
      the session open at that instant, one past its deadline still, and its entry
      carries zero. */
  ghost predicate ResumedLate(ctx: Context, cfg: Config, k: Kernel, encode: int -> Bytes, suspend: Step, resume: Step) {
    var late := k.session.ttlExpiry + 1;
    var before, end := Run(ctx, cfg, k, [suspend]), Run(ctx, cfg, k, [suspend, resume]);
    && before.session.state == Suspended && before.session.suspendedAt == Some(late)
    && end.session.state == Open && end.session.ttlExpiry - late == -1
    && end.durable == before.durable + [InternalEntry("SessionResume", encode(0), k.session, late)]
  }

  /** A suspend whose expiry check reads the last instant before the deadline and whose
      commit reads the next one. */
  lemma {:induction false} StampedPastDeadline(sc: Scope, env: Envelope, now: int, encode: int -> Bytes) returns (suspend: Step, resume: Step)
    requires Opens(sc, env, now)
    ensures Ticks(sc, suspend.world) && Ticks(sc, resume.world)
    ensures suspend.world.clock(Expiry) <= suspend.world.clock(Commitment) <= resume.world.clock(Commitment)
    ensures ResumedLate(sc.ctx, sc.cfg, From(sc, env, now), encode, suspend, resume)
  {
    suspend, resume := ResumePastDeadline(sc.ctx, sc.cfg, From(sc, env, now), encode);
  }

  lemma {:induction false} ResumePastDeadline(ctx: Context, cfg: Config, k: Kernel, encode: int -> Bytes) returns (suspend: Step, resume: Step)
    requires Roomy(k.session)
    ensures 0 < suspend.world.clock(Expiry) <= suspend.world.clock(Commitment) <= resume.world.clock(Commitment)
    ensures ResumedLate(ctx, cfg, k, encode, suspend, resume)
  {
    var t := k.session.ttlExpiry;
    suspend, resume := At(SuspendWith([]), t, t + 1), At(ResumeWith(encode), t + 1, t + 1);
    SuspendFirst(ctx, cfg, k, t + 1);
    TwoSteps(ctx, cfg, k, suspend, resume);
  }

  /** The session is over its cap and expired, its deadline where it was. */
  predicate Overran(k: Kernel, s: Session) {
    s.state == Expired && s.accumulated == k.session.EffectiveMaxSuspend() + 1 && s.ttlExpiry == k.session.ttlExpiry
  }

  /** A resume past the cap banks the pause and leaves the deadline where it was. */
  lemma {:induction false} OverCapKeepsDeadline(sc: Scope, env: Envelope, now: int, encode: int -> Bytes) returns (steps: seq<Step>)
    requires Opens(sc, env, now)
    ensures Punctual(steps, From(sc, env, now).session.ttlExpiry) && forall i :: 0 <= i < |steps| ==> Ticks(sc, steps[i].world)
    ensures Overran(From(sc, env, now), Run(sc.ctx, sc.cfg, From(sc, env, now), steps).session)
  {
    steps := ResumeOverCap(sc.ctx, sc.cfg, From(sc, env, now), encode);
  }

  lemma {:induction false} ResumeOverCap(ctx: Context, cfg: Config, k: Kernel, encode: int -> Bytes) returns (steps: seq<Step>)
    requires Roomy(k.session)
    ensures Punctual(steps, k.session.ttlExpiry) && Overran(k, Run(ctx, cfg, k, steps).session)
  {
    var t, late := k.session.ttlExpiry, Overdue(k.session);
    var suspend, resume := At(SuspendWith([]), t, t), At(ResumeWith(encode), late, late);
    steps := [suspend, resume];
    SuspendFirst(ctx, cfg, k, t);
    TwoSteps(ctx, cfg, k, suspend, resume);
  }

  // ---- Such starts exist ---------------------------------------------------

  /** A mode that accepts everything and keeps no state. */
  const Plain := Mode((s, env) => Ok(NoOp), (s, env, at) => Ok(NoOp), (s, env) => Ok(()), (s, now) => None, (s, env) => Ok(()))

  const PlainStart := DefaultStart.(ttlMs := 1000)

  const PlainContext := Context(
    name => Some(Plain), name => false, name => None, payload => Some(PlainStart), (name, p) => true, id => true,
    id => Some(Policy(id, "*", [])))

  const PlainEnvelope := Envelope(MACP_VERSION, "plain", "SessionStart", "m", "s", "a", 0, [1])

  lemma {:induction false} PlainValid()
    ensures ValidateStart(PlainContext, PlainEnvelope, 1) == Ok(ValidStart(PlainStart, None, 1000, 1, MAX_SUSPEND_MS))
    ensures !Blank(PlainEnvelope.mode)
  {
    var env := PlainEnvelope;
    assert env.mode[0] in env.mode && !Whitespace(env.mode[0]);
    assert |env.messageType| == 12 && |env.messageId| == 1 && |env.sender| == 1;
  }

  lemma {:induction false} SomeStart(cfg: Config) returns (sc: Scope, env: Envelope)
    ensures Opens(sc, env, 1)
  {
    sc, env := Scope(PlainContext, cfg, "s", Plain, (s: Session) => true, S.Always), PlainEnvelope;
    PlainValid();
    assert PrepareStart(sc.ctx, env, 1).Ok?;
    assert TimestampBlind(Plain, sc.inv) && KeepsInvariant(Plain, sc.inv, sc.when) && SynthesisLaws(Plain, sc.inv);
  }
}
