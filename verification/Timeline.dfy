/** The implicit accept on the session's timeline (section 5.1 of RFC-MACP-0010):
    over every run under a clock that never runs backwards, an outstanding offer
    is accepted for its target exactly once it has waited its timeout in
    unsuspended time, and the recorded instant is the first such one. */
module Timelines {
  import opened Sessions
  import opened Modes
  import opened Logs
  import opened Replay
  import opened Kernels
  import opened KernelProofs
  import opened KernelTheorems
  import opened Handoff
  import D = Deadlines
  import S = Suspension

  /** The offer a session is waiting on. */
  ghost function Waiting(c: Codec, s: Session): Option<Offer> {
    if c.decodeState(s.modeState).None? then None else Outstanding(c.decodeState(s.modeState).value)
  }

  /** The suspension snapshot an offer carries accounts for every pause before it. */
  predicate OfferClock(latest: int, s: Session, o: Offer) {
    && 0 < o.offeredAt <= latest
    && s.accumulated - o.suspendedAtOffer == D.Banked(D.Since(s.intervals, o.offeredAt))
    && (s.suspendedAt.Some? ==> o.offeredAt <= s.suspendedAt.value)
  }

  predicate PauseClock(latest: int, s: Session) {
    && 0 < latest <= I64_MAX && s.bind.semanticsRev >= 2
    && S.Chronological(latest, s)
    && (forall i :: 0 <= i < |s.intervals| ==> 0 <= s.intervals[i].from)
    && (s.suspendedAt.Some? ==> 0 <= s.suspendedAt.value)
    && (s.state.Open? ==> s.suspendedAt.None?)
    && s.accumulated == S.TotalPaused(s.intervals)
  }

  ghost predicate Timeline(c: Codec, latest: int, s: Session) {
    && HandoffInv(c, s) && PauseClock(latest, s)
    && (Waiting(c, s).Some? ==> OfferClock(latest, s, Waiting(c, s).value))
  }

  // ---- Sequences of pauses -------------------------------------------------

  lemma {:induction false} SinceAppend(pauses: seq<Pause>, p: Pause, t: int)
    ensures D.Since(pauses + [p], t) == D.Since(pauses, t) + (if p.from >= t then [p] else [])
  {
    if pauses != [] {
      assert (pauses + [p])[1..] == pauses[1..] + [p];
      SinceAppend(pauses[1..], p, t);
    }
  }

  lemma {:induction false} BankedAppend(pauses: seq<Pause>, p: Pause)
    ensures D.Banked(pauses + [p]) == D.Banked(pauses) + Max(p.to - p.from, 0)
  {
    if pauses != [] {
      assert (pauses + [p])[1..] == pauses[1..] + [p];
      BankedAppend(pauses[1..], p);
    }
  }

  lemma {:induction false} SinceLatest(pauses: seq<Pause>, t: int)
    requires forall i :: 0 <= i < |pauses| ==> pauses[i].to <= t
    ensures D.Banked(D.Since(pauses, t)) == 0
  {
    if pauses != [] {
      assert forall i :: 0 <= i < |pauses[1..]| ==> pauses[1..][i] == pauses[i + 1];
      SinceLatest(pauses[1..], t);
    }
  }

  lemma {:induction false} SinceMembers(pauses: seq<Pause>, t: int)
    ensures forall i :: 0 <= i < |D.Since(pauses, t)| ==> D.Since(pauses, t)[i] in pauses && t <= D.Since(pauses, t)[i].from
  {
    if pauses != [] {
      SinceMembers(pauses[1..], t);
      assert forall p :: p in pauses[1..] ==> p in pauses;
    }
  }

  predicate Disjoint(pauses: seq<Pause>) { forall i, j :: 0 <= i < j < |pauses| ==> pauses[i].to <= pauses[j].from }

  lemma {:induction false} SinceDisjoint(pauses: seq<Pause>, t: int)
    requires Disjoint(pauses)
    ensures Disjoint(D.Since(pauses, t))
  {
    if pauses != [] {
      var rest := pauses[1..];
      assert forall i :: 0 <= i < |rest| ==> rest[i] == pauses[i + 1];
      SinceDisjoint(rest, t);
      SinceMembers(rest, t);
      assert forall p :: p in rest ==> pauses[0].to <= p.from;
    }
  }

  lemma {:induction false} SinceOrdered(pauses: seq<Pause>, t: int, latest: int)
    requires forall i :: 0 <= i < |pauses| ==> 0 <= pauses[i].from <= pauses[i].to <= latest
    requires forall i, j :: 0 <= i < j < |pauses| ==> pauses[i].to <= pauses[j].from
    ensures D.OrderedFrom(D.Since(pauses, t), t)
    ensures forall i :: 0 <= i < |D.Since(pauses, t)| ==> D.Since(pauses, t)[i].to <= latest
  {
    SinceMembers(pauses, t);
    SinceDisjoint(pauses, t);
    assert forall p :: p in pauses ==> 0 <= p.from <= p.to <= latest;
  }

  /** Disjoint pauses cannot add up to more than the clock shows. */
  lemma {:induction false} TotalBound(pauses: seq<Pause>, hi: int)
    requires 0 <= hi && forall i :: 0 <= i < |pauses| ==> 0 <= pauses[i].from <= pauses[i].to <= hi
    requires forall i, j :: 0 <= i < j < |pauses| ==> pauses[i].to <= pauses[j].from
    ensures 0 <= S.TotalPaused(pauses) <= hi
  {
    if pauses != [] { TotalBound(DropLast(pauses), Last(pauses).from); }
  }

  // ---- The mode keeps the timeline -----------------------------------------

  lemma OutstandingIs(s: Session, st: HandoffState, h: string)
    requires Sane(s, st) && h in st.offers && st.offers[h].disposition == Offered
    ensures Outstanding(st) == Some(st.offers[h])
  {
  }

  /** A message ends the wait, leaves it as it is, or opens one stamped with the
      acceptance clock and the suspension banked so far. */
  predicate NextWait(env: Envelope, at: int, accumulated: int, before: Option<Offer>, after: Option<Offer>) {
    || after == None
    || after == before
    || (env.messageType == "HandoffOffer" && after.value.offeredAt == at && after.value.suspendedAtOffer == accumulated)
  }

  lemma OfferWait(c: Codec, s: Session, env: Envelope, at: int, st: HandoffState)
    requires s.bind.semanticsRev >= 2 && Sane(s, st) && HandleOffer(c, s, env, at, st).Ok? && env.messageType == "HandoffOffer"
    ensures NextWait(env, at, s.accumulated, Outstanding(st), Outstanding(HandleOffer(c, s, env, at, st).value))
  {
    var st' := HandleOffer(c, s, env, at, st).value;
    var id := c.decodeOffer(env.payload).value.handoffId;
    SaneOffer(c, s, env, at, st);
    OutstandingIs(s, st', id);
  }

  lemma {:induction false} MessageWait(c: Codec, s: Session, env: Envelope, at: int)
    requires c.RoundTrips() && HandoffInv(c, s) && s.bind.semanticsRev >= 2 && OnMessage(c, s, env, at).Ok?
    ensures NextWait(env, at, s.accumulated, Waiting(c, s), Waiting(c, Commit(s, env, OnMessage(c, s, env, at).value)))
  {
    var st := c.decodeState(s.modeState).value;
    if env.messageType == "HandoffOffer" { OfferWait(c, s, env, at, st); }
    else if env.messageType == "HandoffAccept" { SaneAccept(c, s, env, st); }
    else if env.messageType == "HandoffDecline" { SaneDecline(c, s, env, st); }
    else if env.messageType == "HandoffContext" {
      SaneContext(c, s, env, st);
      SameWait(s, st, HandleContext(c, env, st).value);
    } else { assert st.(offers := st.offers) == st; }
  }

  lemma SameWait(s: Session, st: HandoffState, st': HandoffState)
    requires Sane(s, st) && Sane(s, st') && st'.offers == st.offers
    ensures Outstanding(st') == Outstanding(st)
  {
    if h :| h in st.offers && st.offers[h].disposition == Offered {
      OutstandingIs(s, st, h);
      OutstandingIs(s, st', h);
    }
  }

  lemma {:induction false} WaitClock(latest: int, s: Session, s': Session, env: Envelope, at: int, before: Option<Offer>, after: Option<Offer>)
    requires PauseClock(latest, s) && s.state.Open? && NextWait(env, at, s.accumulated, before, after)
    requires before.Some? ==> OfferClock(latest, s, before.value)
    requires at == latest || env.messageType != "HandoffOffer"
    requires s'.accumulated == s.accumulated && s'.intervals == s.intervals && s'.suspendedAt == s.suspendedAt
    ensures after.Some? ==> OfferClock(latest, s', after.value)
  {
    SinceLatest(s.intervals, latest);
  }

  lemma {:induction false} MessageTimeline(c: Codec, latest: int, s: Session, env: Envelope, at: int)
    requires c.RoundTrips() && Timeline(c, latest, s) && s.state.Open? && OnMessage(c, s, env, at).Ok?
    requires at == latest || env.messageType != "HandoffOffer"
    requires ValidateClient(c, s, env).Ok? || IsSynthetic(HandoffMode(c), s, env, at)
    ensures Timeline(c, latest, Commit(s, env, OnMessage(c, s, env, at).value))
  {
    var s' := Commit(s, env, OnMessage(c, s, env, at).value);
    MessageKeepsInv(c, s, env, at);
    MessageWait(c, s, env, at);
    WaitClock(latest, s, s', env, at, Waiting(c, s), Waiting(c, s'));
  }

  lemma {:induction false} ResumePauses(latest: int, s: Session)
    requires PauseClock(latest, s) && s.state == Suspended
    ensures PauseClock(latest, s.Resume(latest).session)
    ensures s.Closed(latest).accumulated == s.accumulated + s.Banked(latest)
  {
    var closed := s.Closed(latest);
    S.ChronologicalResume(latest, s);
    TotalBound(closed.intervals, latest);
    assert DropLast(closed.intervals) == s.intervals;
  }

  lemma {:induction false} ResumeTimeline(c: Codec, latest: int, s: Session)
    requires Timeline(c, latest, s)
    ensures Timeline(c, latest, s.Resume(latest).session)
  {
    if s.state == Suspended {
      var s' := s.Resume(latest).session;
      QuietKeepsInv(c, s, s');
      ResumePauses(latest, s);
      if Waiting(c, s).Some? {
        var o, p := Waiting(c, s).value, Last(s'.intervals);
        assert s'.intervals == s.intervals + [p];
        SinceAppend(s.intervals, p, o.offeredAt);
        BankedAppend(D.Since(s.intervals, o.offeredAt), p);
      }
    }
  }

  lemma QuietTimeline(c: Codec, latest: int, s: Session, s': Session)
    requires Timeline(c, latest, s)
    requires s' == s.(state := s'.state, suspendedAt := s'.suspendedAt)
    requires s'.suspendedAt == s.suspendedAt || s'.suspendedAt.None? || s'.suspendedAt == Some(latest)
    requires s'.state.Open? ==> s'.suspendedAt.None?
    ensures Timeline(c, latest, s')
  {
    S.ChronologicalQuiet(latest, s, s');
  }

  lemma {:induction false} TimelineKeeps(c: Codec, latest: int)
    requires c.RoundTrips()
    ensures KeepsInvariant(HandoffMode(c), s => Timeline(c, latest, s), at => at == latest)
  {
    var mode, inv, when := HandoffMode(c), (s: Session) => Timeline(c, latest, s), (at: int) => at == latest;
    forall s: Session, env: Envelope, at: int |
        inv(s) && s.state.Open? && mode.onMessage(s, env, at).Ok? && MayReach(mode, s, env, at, when)
      ensures inv(Commit(s, env, mode.onMessage(s, env, at).value))
    {
      MessageTimeline(c, latest, s, env, at);
    }
    forall s: Session, at: int | inv(s) && when(at) ensures inv(s.Suspend(at).session) && inv(s.Resume(at).session) {
      QuietTimeline(c, latest, s, s.Suspend(at).session);
      ResumeTimeline(c, latest, s);
    }
    forall s: Session | inv(s) ensures inv(s.Cancel().session) && inv(s.Expire().session) && inv(s.(state := Expired)) {
      QuietTimeline(c, latest, s, s.Cancel().session);
      QuietTimeline(c, latest, s, s.Expire().session);
      QuietTimeline(c, latest, s, s.(state := Expired));
    }
  }

  lemma {:induction false} TimelineLawful(c: Codec, latest: int)
    requires c.RoundTrips()
    ensures Lawful(HandoffMode(c), s => Timeline(c, latest, s), at => at == latest)
  {
    var inv := (s: Session) => Timeline(c, latest, s);
    HandoffTimestampBlind(c, inv);
    TimelineKeeps(c, latest);
    forall s: Session, now: int | inv(s) && Due(c, s, now).Some? ensures SynthesisLaw(HandoffMode(c), s, now) {
      HandoffSynthesis(c, s, now);
    }
  }

  /** A fresh session is on the timeline. */
  lemma TimelineStarts(c: Codec, latest: int)
    requires c.RoundTrips() && 0 < latest <= I64_MAX
    ensures EstablishesInvariant(HandoffMode(c), s => Timeline(c, latest, s))
  {
    forall s: Session, env: Envelope |
        s.state.Open? && s.bind.semanticsRev == CURRENT_SEMANTICS_REV && s.suspendedAt.None? && s.accumulated == 0 && s.intervals == []
        && s.seen == {} && OnStart(c, s, env).Ok? && ValidateClient(c, s, env).Ok?
      ensures Timeline(c, latest, Commit(s, env, OnStart(c, s, env).value))
    {
    }
  }

  lemma TimelineLater(c: Codec, latest: int, later: int, s: Session)
    requires Timeline(c, latest, s) && latest <= later <= I64_MAX
    ensures Timeline(c, later, s)
  {
  }

  /** A handoff session starts on the timeline. */
  lemma {:induction false} StartOnTimeline(sc: Scope, c: Codec, env: Envelope, now: int, latest: int)
    requires c.RoundTrips() && sc.mode == HandoffMode(c) && sc.ctx.modes(env.mode) == Some(sc.mode) && env.sessionId == sc.id
    requires PrepareStart(sc.ctx, env, now).Ok? && 0 < latest <= I64_MAX
    ensures Good(TimelineScope(sc, c, latest), StartedKernel(PrepareStart(sc.ctx, env, now).value, env))
  {
    TimelineLawful(c, latest);
    TimelineStarts(c, latest);
    StartGood(TimelineScope(sc, c, latest), env, now);
  }

  // ---- The theorems --------------------------------------------------------

  /** Each run's clock readings are positive and never run backwards. */
  predicate Clocked(steps: seq<Step>, from: int) {
    && (forall i :: 0 <= i < |steps| ==> from <= steps[i].world.clock(Commitment) <= I64_MAX)
    && (forall i, j :: 0 <= i < j < |steps| ==> steps[i].world.clock(Commitment) <= steps[j].world.clock(Commitment))
  }

  function LastReading(steps: seq<Step>, from: int): int {
    if steps == [] then from else Last(steps).world.clock(Commitment)
  }

  ghost function TimelineScope(sc: Scope, c: Codec, latest: int): Scope {
    sc.(inv := s => Timeline(c, latest, s), when := at => at == latest)
  }

  lemma {:induction false} TimelineStep(sc: Scope, c: Codec, k: Kernel, step: Step, latest: int)
    requires sc.mode == HandoffMode(c) && c.RoundTrips() && Good(TimelineScope(sc, c, latest), k)
    requires latest <= step.world.clock(Commitment) <= I64_MAX
    ensures Good(TimelineScope(sc, c, step.world.clock(Commitment)), Take(sc.ctx, sc.cfg, k, step))
  {
    var now := step.world.clock(Commitment);
    var sc' := TimelineScope(sc, c, now);
    TimelineLater(c, latest, now, Meaning(sc.ctx, sc.id, k.durable).value);
    S.GoodWith(TimelineScope(sc, c, latest), sc', k);
    TimelineLawful(c, now);
    TakeGood(sc', k, step);
  }

  /** Every reachable handoff session is on the timeline. */
  lemma {:induction false} RunOnTimeline(sc: Scope, c: Codec, k: Kernel, steps: seq<Step>, latest: int)
    requires sc.mode == HandoffMode(c) && c.RoundTrips() && Good(TimelineScope(sc, c, latest), k) && Clocked(steps, latest)
    ensures Good(TimelineScope(sc, c, LastReading(steps, latest)), Run(sc.ctx, sc.cfg, k, steps))
  {
    if steps != [] {
      RunOnTimeline(sc, c, k, DropLast(steps), latest);
      TimelineStep(sc, c, Run(sc.ctx, sc.cfg, k, DropLast(steps)), Last(steps), LastReading(DropLast(steps), latest));
    }
  }

  /** Unsuspended time the offer has waited by `t`. */
  function Waited(s: Session, o: Offer, t: int): int { D.ActiveIn(D.Since(s.intervals, o.offeredAt), o.offeredAt, t) }

  lemma {:induction false} ElapsedIsWaited(latest: int, s: Session, o: Offer, now: int)
    requires PauseClock(latest, s) && OfferClock(latest, s, o) && latest <= now <= I64_MAX
    ensures Elapsed(s, o, now) == Waited(s, o, now) <= now - o.offeredAt
  {
    var pauses := D.Since(s.intervals, o.offeredAt);
    SinceOrdered(s.intervals, o.offeredAt, latest);
    D.AllInsideWindow(pauses, o.offeredAt, now);
    D.PausedBounds(pauses, o.offeredAt, now);
  }

  /** The recorded deadline is the earliest instant with that much waiting. */
  lemma {:induction false} DeadlineIsEarliest(latest: int, s: Session, o: Offer, timeout: int, now: int)
    requires PauseClock(latest, s) && OfferClock(latest, s, o) && latest <= now <= I64_MAX
    requires 0 < timeout <= I64_MAX && timeout <= Waited(s, o, now)
    ensures Deadline(s, o, timeout) == D.Walk(o.offeredAt, timeout, D.Since(s.intervals, o.offeredAt))
    ensures o.offeredAt <= Deadline(s, o, timeout) <= now && Waited(s, o, Deadline(s, o, timeout)) == timeout
    ensures forall t :: o.offeredAt <= t < Deadline(s, o, timeout) ==> Waited(s, o, t) < timeout
  {
    var pauses := D.Since(s.intervals, o.offeredAt);
    SinceOrdered(s.intervals, o.offeredAt, latest);
    SinceInRange(s.intervals, o.offeredAt, latest);
    D.SaturationOnlyAtTheEnd(o.offeredAt, timeout, pauses);
    D.WalkIsEarliest(pauses, o.offeredAt, timeout, now);
    D.WalkIsEarliest(pauses, o.offeredAt, timeout, D.Walk(o.offeredAt, timeout, pauses));
    forall t | o.offeredAt <= t < Deadline(s, o, timeout) ensures Waited(s, o, t) < timeout {
      D.WalkIsEarliest(pauses, o.offeredAt, timeout, t);
    }
  }

  lemma {:induction false} SinceInRange(pauses: seq<Pause>, t: int, latest: int)
    requires latest <= I64_MAX && forall i :: 0 <= i < |pauses| ==> 0 <= pauses[i].from <= pauses[i].to <= latest
    ensures forall i :: 0 <= i < |D.Since(pauses, t)| ==> D.InRange(D.Since(pauses, t)[i].from) && D.InRange(D.Since(pauses, t)[i].to)
  {
    if pauses != [] {
      var rest := pauses[1..];
      forall i | 0 <= i < |rest| ensures 0 <= rest[i].from <= rest[i].to <= latest { assert rest[i] == pauses[i + 1]; }
      SinceInRange(rest, t, latest);
    }
  }

  /** In every reachable state, an implicit accept is due exactly when the
      outstanding offer has waited its timeout in unsuspended time; the envelope
      carries the first such instant, which is never in the future. */
  lemma {:induction false} ImplicitAcceptOnTime(sc: Scope, c: Codec, k: Kernel, steps: seq<Step>, latest: int, now: int)
    requires sc.mode == HandoffMode(c) && c.RoundTrips() && Good(TimelineScope(sc, c, latest), k) && Clocked(steps, latest)
    requires LastReading(steps, latest) <= now <= I64_MAX
    requires
      var s := Run(sc.ctx, sc.cfg, k, steps).session;
      s.state == Open && Waiting(c, s).Some? && Timeout(c, s) > 0
    ensures
      var s := Run(sc.ctx, sc.cfg, k, steps).session;
      var o, timeout := Waiting(c, s).value, Timeout(c, s);
      && (Due(c, s, now).Some? <==> timeout <= Waited(s, o, now))
      && (Due(c, s, now).Some? ==>
            var at := Due(c, s, now).value.timestamp;
            && o.offeredAt <= at <= now && Waited(s, o, at) == timeout
            && forall t :: o.offeredAt <= t < at ==> Waited(s, o, t) < timeout)
  {
    var s := Run(sc.ctx, sc.cfg, k, steps).session;
    var o, end := Waiting(c, s).value, LastReading(steps, latest);
    RunOnTimeline(sc, c, k, steps, latest);
    ElapsedIsWaited(end, s, o, now);
    if Due(c, s, now).Some? { DeadlineIsEarliest(end, s, o, Timeout(c, s), now); }
  }

  lemma LiveInv(sc: Scope, c: Codec, latest: int, k: Kernel)
    requires Good(TimelineScope(sc, c, latest), k) && k.session.state == Open
    ensures Timeline(c, latest, k.session) && sc.ctx.modes(k.session.bind.mode) == Some(sc.mode)
  {
  }

  /** In every reachable state, while storage works, the kernel appends an implicit
      accept exactly when an offer is outstanding, the policy sets a timeout and the
      offer has waited it in unsuspended time: no earlier message can have taken the
      envelope's id. */
  lemma {:induction false} ImplicitAcceptEmitted(sc: Scope, c: Codec, k: Kernel, steps: seq<Step>, latest: int, now: int, w: World)
    requires sc.mode == HandoffMode(c) && c.RoundTrips() && Good(TimelineScope(sc, c, latest), k) && Clocked(steps, latest)
    requires LastReading(steps, latest) <= now <= I64_MAX && w.stores(Synthesis)
    requires Run(sc.ctx, sc.cfg, k, steps).session.state == Open
    ensures
      var end := Run(sc.ctx, sc.cfg, k, steps);
      var o, timeout := Waiting(c, end.session), Timeout(c, end.session);
      Synthesize(sc.ctx, sc.cfg, end, now, w).Emitted? <==> o.Some? && 0 < timeout <= Waited(end.session, o.value, now)
  {
    var end, last := Run(sc.ctx, sc.cfg, k, steps), LastReading(steps, latest);
    RunOnTimeline(sc, c, k, steps, latest);
    LiveInv(sc, c, last, end);
    EmittedIffWaited(c, last, end.session, now);
  }

  lemma {:induction false} EmittedIffWaited(c: Codec, latest: int, s: Session, now: int)
    requires c.RoundTrips() && Timeline(c, latest, s) && s.state == Open && latest <= now <= I64_MAX
    ensures
      var next := NextSynthetic(HandoffMode(c), s, now);
      next.Ok? && (next.value.Some? <==> Waiting(c, s).Some? && 0 < Timeout(c, s) <= Waited(s, Waiting(c, s).value, now))
  {
    SyntheticNeverRefused(c, s, now);
    if Due(c, s, now).Some? { DueUnseen(c, s, now); }
    if Waiting(c, s).Some? { ElapsedIsWaited(latest, s, Waiting(c, s).value, now); }
  }

  /** What is recorded does not depend on when it is observed: a pause that begins
      after the accept fell due leaves the envelope as it was. */
  lemma {:induction false} LaterPauseKeepsAccept(c: Codec, latest: int, s: Session, now: int, paused: int, resumed: int, later: int)
    requires Timeline(c, latest, s) && s.state == Open && Due(c, s, now).Some?
    requires latest <= now <= paused <= resumed <= later <= I64_MAX
    requires s.Suspend(paused).session.Resume(resumed).error.None?
    ensures Due(c, s.Suspend(paused).session.Resume(resumed).session, later) == Due(c, s, now)
  {
    var s' := s.Suspend(paused).session.Resume(resumed).session;
    var o, timeout := Waiting(c, s).value, Timeout(c, s);
    TimelineLater(c, latest, paused, s);
    QuietTimeline(c, paused, s, s.Suspend(paused).session);
    TimelineLater(c, paused, resumed, s.Suspend(paused).session);
    ResumeTimeline(c, resumed, s.Suspend(paused).session);
    ElapsedIsWaited(latest, s, o, now);
    DeadlineIsEarliest(latest, s, o, timeout, now);
    SinceOrdered(s'.intervals, o.offeredAt, resumed);
    PauseAfterDeadline(s, s', o, timeout, Pause(paused, resumed), later);
    ElapsedIsWaited(resumed, s', o, later);
    DeadlineIsEarliest(resumed, s', o, timeout, later);
  }

  lemma {:induction false} PauseAfterDeadline(s: Session, s': Session, o: Offer, timeout: int, p: Pause, later: int)
    requires s'.intervals == s.intervals + [p] && 0 < timeout && p.from <= p.to <= later
    requires D.OrderedFrom(D.Since(s'.intervals, o.offeredAt), o.offeredAt) && o.offeredAt <= p.from
    requires D.Walk(o.offeredAt, timeout, D.Since(s.intervals, o.offeredAt)) <= p.from
    ensures D.Walk(o.offeredAt, timeout, D.Since(s'.intervals, o.offeredAt)) == D.Walk(o.offeredAt, timeout, D.Since(s.intervals, o.offeredAt))
    ensures timeout <= Waited(s', o, later)
  {
    var pauses := D.Since(s.intervals, o.offeredAt);
    SinceAppend(s.intervals, p, o.offeredAt);
    D.LaterPauseIrrelevant(pauses, o.offeredAt, timeout, p);
    D.WalkIsEarliest(pauses + [p], o.offeredAt, timeout, later);
  }
}
