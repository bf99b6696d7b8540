/** Suspension and the session clock (section 7.5 of RFC-MACP-0001): pauses move
    the deadline by exactly their length, and the deadline of an offer is the
    first instant at which enough unsuspended time has passed. */
module Suspension {
  import opened Sessions
  import opened Modes
  import opened Logs
  import opened Replay
  import opened Kernels
  import opened KernelProofs
  import opened KernelTheorems
  import opened Deadlines

  /** The completed pauses, added up. */
  function TotalPaused(pauses: seq<Pause>): int {
    if pauses == [] then 0 else TotalPaused(DropLast(pauses)) + Max(Last(pauses).to - Last(pauses).from, 0)
  }

  /** A session's deadline accounts for every completed pause since `start`. */
  predicate Conserved(start: int, s: Session) {
    && 0 <= s.accumulated <= I64_MAX
    && (s.OverCap() ==> s.state == Expired)
    && (!s.OverCap() ==> s.ttlExpiry == Sat(start + s.accumulated))
    && (s.bind.semanticsRev >= 2 ==> s.accumulated == Min(I64_MAX, TotalPaused(s.intervals)))
  }

  lemma ResumeConserves(start: int, s: Session, at: int)
    requires 0 <= start && Conserved(start, s)
    ensures Conserved(start, s.Resume(at).session)
  {
    if s.state == Suspended {
      var closed := s.Closed(at);
      assert s.bind.semanticsRev >= 2 ==> DropLast(closed.intervals) == s.intervals;
    }
  }

  /** A property of sessions that messages leave alone and that survives every
      transition the kernel makes at the instants in `when`. */
  ghost predicate KernelClosed(extra: Session -> bool, when: int -> bool) {
    && (forall s: Session, env: Envelope, r: ModeResponse :: extra(s) && s.state.Open? ==> extra(Commit(s, env, r)))
    && (forall s: Session, at: int :: extra(s) && when(at) ==> extra(s.Suspend(at).session) && extra(s.Resume(at).session))
    && (forall s: Session :: extra(s) ==> extra(s.Cancel().session) && extra(s.Expire().session) && extra(s.(state := Expired)))
  }

  function Both(inv: Session -> bool, extra: Session -> bool): Session -> bool {
    s => inv(s) && extra(s)
  }

  lemma {:induction false} LawsStrengthen(mode: Mode, inv: Session -> bool, extra: Session -> bool, wide: int -> bool, when: int -> bool)
    requires Modes.Lawful(mode, inv, wide) && KernelClosed(extra, when) && (forall at :: when(at) ==> wide(at))
    ensures Modes.Lawful(mode, Both(inv, extra), when)
  {
    var both := Both(inv, extra);
    assert TimestampBlind(mode, both);
    forall s: Session, env: Envelope, at: int |
        both(s) && s.state.Open? && mode.onMessage(s, env, at).Ok? && MayReach(mode, s, env, at, when)
      ensures both(Commit(s, env, mode.onMessage(s, env, at).value))
    {
      assert inv(s) && extra(s);
    }
    assert KeepsInvariant(mode, both, when);
    SynthesisLawsStrengthen(mode, inv, both);
  }

  lemma SynthesisLawsStrengthen(mode: Mode, inv: Session -> bool, both: Session -> bool)
    requires SynthesisLaws(mode, inv) && (forall s :: both(s) ==> inv(s))
    ensures SynthesisLaws(mode, both)
  {
  }

  lemma ConservedClosed(start: int, when: int -> bool)
    requires 0 <= start
    ensures KernelClosed((s: Session) => Conserved(start, s), when)
  {
    forall s: Session, at: int | Conserved(start, s) ensures Conserved(start, s.Suspend(at).session) && Conserved(start, s.Resume(at).session) {
      ResumeConserves(start, s, at);
      QuietConserves(start, s, s.Suspend(at).session);
    }
    forall s: Session, env: Envelope, r: ModeResponse | Conserved(start, s) && s.state.Open? ensures Conserved(start, Commit(s, env, r)) {
      QuietConserves(start, s, Commit(s, env, r));
    }
    forall s: Session | Conserved(start, s)
      ensures Conserved(start, s.Cancel().session) && Conserved(start, s.Expire().session) && Conserved(start, s.(state := Expired))
    {
      QuietConserves(start, s, s.Cancel().session);
      QuietConserves(start, s, s.Expire().session);
      QuietConserves(start, s, s.(state := Expired));
    }
  }

  lemma QuietConserves(start: int, s: Session, s': Session)
    requires Conserved(start, s)
    requires s'.bind == s.bind && s'.ttlExpiry == s.ttlExpiry && s'.accumulated == s.accumulated && s'.intervals == s.intervals
    requires s.state == Expired ==> s'.state == Expired
    ensures Conserved(start, s')
  {
  }

  /** In every reachable state the deadline is the start deadline plus the completed
      pauses, unless a cap was exceeded, and then the session is expired. */
  lemma {:induction false} DeadlineConserved(sc: Scope, start: int, k: Kernel, steps: seq<Step>)
    requires sc.Lawful() && Good(sc, k) && 0 <= start && Conserved(start, Meaning(sc.ctx, sc.id, k.durable).value)
    requires forall i :: 0 <= i < |steps| ==> Ticks(sc, steps[i].world)
    ensures Conserved(start, Run(sc.ctx, sc.cfg, k, steps).session)
  {
    var extra := (s: Session) => Conserved(start, s);
    ConservedClosed(start, sc.when);
    LawsStrengthen(sc.mode, sc.inv, extra, sc.when, sc.when);
    var sc' := sc.(inv := Both(sc.inv, extra));
    GoodWith(sc, sc', k);
    assert forall i :: 0 <= i < |steps| ==> Ticks(sc', steps[i].world);
    ReplayRefinesRun(sc', k, steps);
    LiveConserved(sc', start, Run(sc.ctx, sc.cfg, k, steps));
  }

  lemma LiveConserved(sc: Scope, start: int, k: Kernel)
    requires Good(sc, k) && forall s :: sc.inv(s) ==> Conserved(start, s)
    ensures Conserved(start, k.session)
  {
    assert sc.inv(Meaning(sc.ctx, sc.id, k.durable).value);
  }

  lemma GoodWith(sc: Scope, sc': Scope, k: Kernel)
    requires Good(sc, k) && sc' == sc.(inv := sc'.inv, when := sc'.when)
    requires sc'.inv(Meaning(sc.ctx, sc.id, k.durable).value)
    ensures Good(sc', k)
  {
  }

  /** From an accepted start on, the deadline is the one the start bound, plus the
      completed pauses. */
  lemma {:induction false} DeadlineFromStart(sc: Scope, env: Envelope, now: int, steps: seq<Step>)
    requires PrepareStart(sc.ctx, env, now).Ok? && sc.ctx.modes(env.mode) == Some(sc.mode) && env.sessionId == sc.id
    requires sc.Lawful() && EstablishesInvariant(sc.mode, sc.inv)
    requires forall i :: 0 <= i < |steps| ==> Ticks(sc, steps[i].world)
    requires 0 <= PrepareStart(sc.ctx, env, now).value.session.ttlExpiry
    ensures
      var started := PrepareStart(sc.ctx, env, now).value;
      Conserved(started.session.ttlExpiry, Run(sc.ctx, sc.cfg, StartedKernel(started, env), steps).session)
  {
    var started := PrepareStart(sc.ctx, env, now).value;
    StartGood(sc, env, now);
    StartReplays(sc, env, now);
    StartConserved(sc, env, now);
    DeadlineConserved(sc, started.session.ttlExpiry, StartedKernel(started, env), steps);
  }

  /** No session that is still going exceeds its caps: the bound one, or seven days,
      on suspended time, and 1024 pauses from revision 2 on. */
  lemma {:induction false} CapsHold(sc: Scope, env: Envelope, now: int, steps: seq<Step>)
    requires PrepareStart(sc.ctx, env, now).Ok? && sc.ctx.modes(env.mode) == Some(sc.mode) && env.sessionId == sc.id
    requires sc.Lawful() && EstablishesInvariant(sc.mode, sc.inv)
    requires forall i :: 0 <= i < |steps| ==> Ticks(sc, steps[i].world)
    requires 0 <= PrepareStart(sc.ctx, env, now).value.session.ttlExpiry
    ensures
      var s := Run(sc.ctx, sc.cfg, StartedKernel(PrepareStart(sc.ctx, env, now).value, env), steps).session;
      s.state != Expired ==>
        && s.accumulated <= (if s.bind.maxSuspend > 0 then s.bind.maxSuspend else 604_800_000)
        && (s.bind.semanticsRev >= 2 ==> |s.intervals| <= 1024 && s.accumulated == Min(I64_MAX, TotalPaused(s.intervals)))
  {
    DeadlineFromStart(sc, env, now, steps);
  }

  lemma StartConserved(sc: Scope, env: Envelope, now: int)
    requires PrepareStart(sc.ctx, env, now).Ok?
    ensures Conserved(PrepareStart(sc.ctx, env, now).value.session.ttlExpiry, PrepareStart(sc.ctx, env, now).value.session)
  {
  }

  /** A resume that expires the session does not move the deadline, so the deadline
      still equals start plus pauses exactly when no cap was exceeded (or the
      pause that exceeded it had no length). */
  lemma ConservedExactly(start: int, s: Session, now: int)
    requires s.state == Suspended && Conserved(start, s) && 0 <= start
    requires start + s.accumulated + s.Banked(now) <= I64_MAX
    ensures
      var s' := s.Resume(now).session;
      s'.ttlExpiry == start + s'.accumulated <==> !s.Closed(now).OverCap() || s.Banked(now) == 0
  {
  }

  /** After a resume the time left is the `banked_ms` its entry carries, exactly when
      the suspension was stamped no later than the deadline. */
  lemma TimeLeftIsBanked(s: Session, now: int)
    requires s.state == Suspended && s.suspendedAt.Some? && s.Resume(now).error.None?
    requires 0 <= s.suspendedAt.value <= now && I64_MIN < s.ttlExpiry && s.ttlExpiry + now <= I64_MAX
    ensures
      var s' := s.Resume(now).session;
      && s'.ttlExpiry - now == s.ttlExpiry - s.suspendedAt.value
      && (s'.ttlExpiry - now == BankedOnWire(s) <==> s.suspendedAt.value <= s.ttlExpiry)
  {
  }

  // ---- Pauses are ordered and disjoint -------------------------------------

  predicate Chronological(latest: int, s: Session) {
    && (forall i :: 0 <= i < |s.intervals| ==> s.intervals[i].from <= s.intervals[i].to <= latest)
    && (forall i, j :: 0 <= i < j < |s.intervals| ==> s.intervals[i].to <= s.intervals[j].from)
    && (s.suspendedAt.Some? ==>
          && s.suspendedAt.value <= latest
          && forall i :: 0 <= i < |s.intervals| ==> s.intervals[i].to <= s.suspendedAt.value)
  }

  lemma ChronologicalResume(latest: int, s: Session)
    requires Chronological(latest, s)
    ensures Chronological(latest, s.Resume(latest).session)
  {
    if s.state == Suspended {
      var from := if s.suspendedAt.Some? then s.suspendedAt.value else latest;
      var longer := s.intervals + [Pause(from, latest)];
      assert forall i :: 0 <= i < |s.intervals| ==> longer[i] == s.intervals[i];
      assert forall i :: 0 <= i < |s.intervals| ==> s.intervals[i].to <= from;
    }
  }

  lemma ChronologicalQuiet(latest: int, s: Session, s': Session)
    requires Chronological(latest, s) && s'.intervals == s.intervals
    requires s'.suspendedAt == s.suspendedAt || s'.suspendedAt.None? || s'.suspendedAt == Some(latest)
    ensures Chronological(latest, s')
  {
  }

  lemma ChronologicalClosed(latest: int)
    ensures KernelClosed((s: Session) => Chronological(latest, s), (at: int) => at == latest)
  {
    forall s: Session, env: Envelope, r: ModeResponse | Chronological(latest, s) ensures Chronological(latest, Commit(s, env, r)) {
      ChronologicalQuiet(latest, s, Commit(s, env, r));
    }
    forall s: Session | Chronological(latest, s)
      ensures Chronological(latest, s.Resume(latest).session) && Chronological(latest, s.Suspend(latest).session)
    {
      ChronologicalResume(latest, s);
      ChronologicalQuiet(latest, s, s.Suspend(latest).session);
    }
    forall s: Session | Chronological(latest, s)
      ensures Chronological(latest, s.Cancel().session) && Chronological(latest, s.Expire().session) && Chronological(latest, s.(state := Expired))
    {
      ChronologicalQuiet(latest, s, s.Cancel().session);
      ChronologicalQuiet(latest, s, s.Expire().session);
      ChronologicalQuiet(latest, s, s.(state := Expired));
    }
  }

  /** Clock readings that never run backwards, none of them zero. */
  predicate Forwards(steps: seq<Step>, from: int) {
    && (forall i :: 0 <= i < |steps| ==> from <= steps[i].world.clock(Commitment) && steps[i].world.clock(Commitment) != 0)
    && (forall i, j :: 0 <= i < j < |steps| ==> steps[i].world.clock(Commitment) <= steps[j].world.clock(Commitment))
  }

  function LatestReading(steps: seq<Step>, from: int): int {
    if steps == [] then from else Last(steps).world.clock(Commitment)
  }

  ghost predicate OnTime(sc: Scope, k: Kernel, latest: int) {
    Good(sc, k) && Chronological(latest, Meaning(sc.ctx, sc.id, k.durable).value)
  }

  /** Under a clock that never runs backwards, recorded pauses never overlap and
      none ends after the latest reading. */
  lemma {:induction false} PausesOrdered(sc: Scope, k: Kernel, steps: seq<Step>, latest: int)
    requires sc.when == Always && sc.Lawful() && OnTime(sc, k, latest) && Forwards(steps, latest)
    ensures OnTime(sc, Run(sc.ctx, sc.cfg, k, steps), LatestReading(steps, latest))
    ensures Chronological(LatestReading(steps, latest), Run(sc.ctx, sc.cfg, k, steps).session)
  {
    if steps != [] {
      var front := DropLast(steps);
      PausesOrdered(sc, k, front, latest);
      ChronologicalStep(sc, Run(sc.ctx, sc.cfg, k, front), Last(steps), LatestReading(front, latest));
    }
    LiveOnTime(sc, Run(sc.ctx, sc.cfg, k, steps), LatestReading(steps, latest));
  }

  /** Live and replayed sessions differ at most in the suspension mark, which the
      live one has cleared. */
  lemma LiveOnTime(sc: Scope, k: Kernel, latest: int)
    requires OnTime(sc, k, latest)
    ensures Chronological(latest, k.session)
  {
  }

  const Always: int -> bool := (at: int) => true

  lemma {:induction false} ChronologicalStep(sc: Scope, k: Kernel, step: Step, latest: int)
    requires sc.when == Always && sc.Lawful() && OnTime(sc, k, latest)
    requires latest <= step.world.clock(Commitment) && step.world.clock(Commitment) != 0
    ensures OnTime(sc, Take(sc.ctx, sc.cfg, k, step), step.world.clock(Commitment))
  {
    var now := step.world.clock(Commitment);
    var extra, when := (s: Session) => Chronological(now, s), (at: int) => at == now;
    ChronologicalClosed(now);
    LawsStrengthen(sc.mode, sc.inv, extra, sc.when, when);
    var sc' := sc.(inv := Both(sc.inv, extra), when := when);
    GoodWith(sc, sc', k);
    TakeGood(sc', k, step);
    GoodWith(sc', sc, Take(sc.ctx, sc.cfg, k, step));
  }
}
