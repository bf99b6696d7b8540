/** The kernel's operations as src/runtime.rs performs them on the session behind
    its mutex, statement by statement, each proved equal to the specification in
    `Kernels` whose properties `KernelProofs` and `KernelTheorems` establish. */
module SessionKernels {
  import opened Sessions
  import opened Modes
  import opened Logs
  import opened Replay
  import opened Kernels

  class SessionKernel {
    const ctx: Context
    const cfg: Config

    var session: Session
    var activity: Activity
    /** The log in storage and its in-memory copy. */
    var durable: Log
    var memory: Log
    /** What the session's bus has carried. */
    var published: seq<Envelope>

    ghost var history: Log
    ghost var trail: seq<Point>

    ghost function View(): Kernel
      reads this
    { Kernel(session, activity, durable, memory, published, history, trail) }

    /** A session whose start has just become durable. */
    constructor (ctx: Context, cfg: Config, started: Started, env: Envelope)
      ensures this.ctx == ctx && this.cfg == cfg
      ensures View() == StartedKernel(started, env)
    {
      this.ctx, this.cfg := ctx, cfg;
      session, activity := started.session, NoActivity;
      durable, memory := [started.entry], [started.entry];
      published := [env];
      history, trail := [started.entry], [Point([started.entry], [started.entry])];
    }

    /** The durable append; the in-memory log is left to the caller. */
    method AppendLogEntry(e: LogEntry, ok: bool) returns (stored: bool)
      modifies this`durable, this`history, this`trail
      ensures stored == ok
      ensures stored ==> View().(memory := old(memory) + [e]) == Record(old(View()), e)
      ensures !stored ==> View() == old(View())
    {
      if !ok { return false; }
      durable := durable + [e];
      if e.kind == Incoming { history := history + [e]; }
      trail := trail + [Point(durable, history)];
      return true;
    }

    method ForceInsertCheckpoint(w: World, site: Site)
      modifies this
      ensures View() == ForceCheckpoint(old(View()), w, site)
    {
      var checkpoint := CheckpointEntry(session, w.clock(site), 0);
      var stored := AppendLogEntry(checkpoint, w.stores(site));
      if !stored { return; }
      memory := memory + [checkpoint];
    }

    method MaybeInsertCheckpoint(w: World, site: Site)
      modifies this
      ensures View() == MaybeCheckpoint(cfg, old(View()), w, site)
    {
      if cfg.checkpointInterval == 0 { return; }
      var length := |memory|;
      if length < cfg.checkpointInterval || length % cfg.checkpointInterval != 0 { return; }
      ForceInsertCheckpoint(w, site);
    }

    /** Counts the ordinals a compaction discards and replaces the log. */
    method MaybeCompactLog(w: World) returns (compacted: bool)
      modifies this
      ensures compacted == (cfg.compactTerminalLogs && w.stores(Compaction))
      ensures compacted ==> View() == CloseLog(cfg, old(View()), w)
      ensures !compacted ==> View() == old(View())
    {
      if !cfg.compactTerminalLogs { return false; }
      var priorBase, count := 0, 0;
      for i := 0 to |memory|
        invariant priorBase == Base(memory[..i]) && count == |Logs.Accepted(memory[..i])|
        invariant View() == old(View())
      {
        assert DropLast(memory[..i + 1]) == memory[..i];
        if memory[i].kind == Checkpoint && memory[i].compacted > priorBase { priorBase := memory[i].compacted; }
        if memory[i].kind == Incoming { count := count + 1; }
      }
      assert memory[..|memory|] == memory;
      if !w.stores(Compaction) { return false; }
      var checkpoint := CheckpointEntry(session, w.clock(Compaction), priorBase + count);
      durable := [checkpoint];
      trail := trail + [Point(durable, history)];
      memory := [checkpoint];
      return true;
    }

    method CloseTerminalLog(w: World)
      modifies this
      ensures View() == CloseLog(cfg, old(View()), w)
    {
      var compacted := MaybeCompactLog(w);
      if !compacted { ForceInsertCheckpoint(w, Checkpointing); }
    }

    method MaybeExpireSession(w: World) returns (r: Result<bool>)
      modifies this
      ensures
        match MaybeExpire(old(View()), w)
        case ExpiryFailed => r == Err(StorageFailed) && View() == old(View())
        case NotDue => r == Ok(false) && View() == old(View())
        case NowExpired(k) => r == Ok(true) && View() == k
    {
      var now := w.clock(Expiry);
      if session.DeadlinePassed(now) {
        var entry := InternalEntry("TtlExpired", [], session, now);
        var stored := AppendLogEntry(entry, w.stores(Expiry));
        if !stored { return Err(StorageFailed); }
        memory := memory + [entry];
        session := session.Expire().session;
        return Ok(true);
      }
      return Ok(false);
    }

    method SynthesizeDueAccept(now: int, w: World) returns (r: Result<bool>)
      modifies this
      ensures
        match Synthesize(ctx, cfg, old(View()), now, w)
        case SynthesisFailed(e) => r == Err(e) && View() == old(View())
        case NothingDue => r == Ok(false) && View() == old(View())
        case Emitted(k) => r == Ok(true) && View() == k
    {
      var mode := ctx.modes(session.bind.mode);
      if mode.None? { return Ok(false); }
      var next := NextSynthetic(mode.value, session, now);
      if next.Err? { return Err(next.error); }
      if next.value.None? { return Ok(false); }
      var syn := next.value.value;
      var entry := IncomingEntry(syn.envelope, syn.envelope.timestamp);
      var stored := AppendLogEntry(entry, w.stores(Synthesis));
      if !stored { return Err(StorageFailed); }
      memory := memory + [entry];
      session := CommitSynthetic(session, syn);
      MaybeInsertCheckpoint(w, SynthesisCheckpoint);
      published := published + [syn.envelope];
      return Ok(true);
    }

    method ProcessMessage(env: Envelope, w: World) returns (reply: Reply)
      modifies this
      ensures Outcome(View(), reply) == SendMessage(ctx, cfg, old(View()), env, w)
    {
      var now := w.clock(Commitment);
      var pre := CheckPreconditions(session, env, now);
      if pre.Err? { return Rejected(pre.error); }
      match pre.value {
        case Duplicate => return AlreadyAccepted(session.state);
        case PastDeadline =>
          var expired := MaybeExpireSession(w);
          return Rejected(if expired.Err? then expired.error else TtlExpired);
        case Proceed =>
      }
      var mode := ctx.modes(session.bind.mode);
      if mode.None? { return Rejected(UnknownMode); }
      var admitted := Admit(mode.value, session, env);
      if admitted.Err? { return Rejected(admitted.error); }
      var synthesized := SynthesizeDueAccept(now, w);
      if synthesized.Err? { return Rejected(synthesized.error); }
      reply := DispatchMessage(mode.value, env, now, w);
    }

    method DispatchMessage(mode: Mode, env: Envelope, now: int, w: World) returns (reply: Reply)
      modifies this
      ensures Outcome(View(), reply) == DispatchAndDeliver(cfg, mode, old(View()), env, now, w)
    {
      var response := mode.onMessage(session, env, now);
      if response.Err? { return Rejected(response.error); }
      var entry := IncomingEntry(env, now);
      var stored := AppendLogEntry(entry, w.stores(Commitment));
      if !stored { return Rejected(StorageFailed); }
      memory := memory + [entry];
      session := Commit(session, env, response.value);
      activity := activity.Credit(env.sender, now);
      var state := session.state;
      if state == Resolved { CloseTerminalLog(w); } else { MaybeInsertCheckpoint(w, Checkpointing); }
      published := published + [env];
      return Reply.Accepted(state);
    }

    method Cancel(payload: Bytes, w: World) returns (reply: Reply)
      modifies this
      ensures Outcome(View(), reply) == CancelSession(cfg, old(View()), payload, w)
    {
      var expired := MaybeExpireSession(w);
      if expired.Err? { return Rejected(expired.error); }
      if session.state.IsTerminal() { return Reply.Accepted(session.state); }
      var entry := InternalEntry("SessionCancel", payload, session, w.clock(Commitment));
      var stored := AppendLogEntry(entry, w.stores(Commitment));
      if !stored { return Rejected(StorageFailed); }
      memory := memory + [entry];
      session := session.Cancel().session;
      CloseTerminalLog(w);
      return Reply.Accepted(Cancelled);
    }

    method Suspend(payload: Bytes, w: World) returns (reply: Reply)
      modifies this
      ensures Outcome(View(), reply) == SuspendSession(old(View()), payload, w)
    {
      var expired := MaybeExpireSession(w);
      if expired.Err? { return Rejected(expired.error); }
      if session.state != Open { return Rejected(SessionNotOpen); }
      var now := w.clock(Commitment);
      var entry := InternalEntry("SessionSuspend", payload, session, now);
      var stored := AppendLogEntry(entry, w.stores(Commitment));
      if !stored { return Rejected(StorageFailed); }
      memory := memory + [entry];
      session := session.Suspend(now).session;
      return Reply.Accepted(Suspended);
    }

    method Resume(payload: int -> Bytes, w: World) returns (reply: Reply)
      modifies this
      ensures Outcome(View(), reply) == ResumeSession(old(View()), payload, w)
    {
      if session.state != Suspended { return Rejected(SessionNotOpen); }
      var now := w.clock(Commitment);
      var banked := BankedOnWire(session);
      var entry := InternalEntry("SessionResume", payload(banked), session, now);
      var stored := AppendLogEntry(entry, w.stores(Commitment));
      if !stored { return Rejected(StorageFailed); }
      memory := memory + [entry];
      var moved := session.Resume(now);
      session := moved.session;
      return if moved.error.None? then Reply.Accepted(Open) else Rejected(TtlExpired);
    }

    /** `get_session_checked`: a failed expiry is swallowed. */
    method GetChecked(w: World) returns (s: Session)
      modifies this
      ensures View() == Read(old(View()), w).kernel && s == session
    {
      var _ := MaybeExpireSession(w);
      return session;
    }

    method SettleDue(now: int, w: World) returns (emitted: bool)
      modifies this
      ensures View() == Sweep(ctx, cfg, old(View()), now, w).kernel
      ensures emitted == Settles(ctx, cfg, old(View()), now, w)
      ensures |history| == |old(history)| + (if emitted then 1 else 0)
    {
      if session.state != Open { return false; }
      var swept := SynthesizeDueAccept(now, w);
      return swept == Ok(true);
    }

    method ExpireIfStale(now: int, w: World) returns (expired: bool)
      modifies this
      ensures View() == Cleanup(cfg, old(View()), now, w).kernel
      ensures expired == (old(session.state) == Open && now > old(session.ttlExpiry) && w.stores(Expiry))
    {
      if session.state != Open || now <= session.ttlExpiry { return false; }
      var entry := InternalEntry("TtlExpired", [], session, now);
      var stored := AppendLogEntry(entry, w.stores(Expiry));
      if !stored { return false; }
      memory := memory + [entry];
      session := session.(state := Expired);
      CloseTerminalLog(w);
      return true;
    }
  }

  ghost predicate Distinct(cells: seq<SessionKernel>) {
    forall i, j :: 0 <= i < j < |cells| ==> cells[i] != cells[j]
  }

  /** `cleanup_expired_sessions` over the handles it snapshotted, with one clock
      reading for the whole pass and its own storage outcomes for each session. */
  method CleanupExpiredSessions(candidates: seq<SessionKernel>, now: int, worlds: nat -> World)
    requires Distinct(candidates)
    modifies candidates
    ensures forall i :: 0 <= i < |candidates| ==>
      candidates[i].View() == Cleanup(candidates[i].cfg, old(candidates[i].View()), now, worlds(i)).kernel
  {
    for i := 0 to |candidates|
      invariant forall j :: 0 <= j < i ==>
        candidates[j].View() == Cleanup(candidates[j].cfg, old(candidates[j].View()), now, worlds(j)).kernel
      invariant forall j :: i <= j < |candidates| ==> candidates[j].View() == old(candidates[j].View())
    {
      var _ := candidates[i].ExpireIfStale(now, worlds(i));
    }
  }

  /** The sweep appends a due envelope to this session's accepted history. */
  ghost predicate Settles(ctx: Context, cfg: Config, k: Kernel, now: int, w: World) {
    k.session.state == Open && Synthesize(ctx, cfg, k, now, w).Emitted?
  }

  ghost function Views(cells: seq<SessionKernel>): seq<Kernel>
    reads cells
  {
    seq(|cells|, i requires 0 <= i < |cells| reads cells => cells[i].View())
  }

  /** What a sweep makes of each session. */
  ghost function SweptViews(cells: seq<SessionKernel>, views: seq<Kernel>, now: int, worlds: nat -> World): seq<Kernel>
    requires |cells| == |views|
  {
    seq(|cells|, i requires 0 <= i < |cells| => Sweep(cells[i].ctx, cells[i].cfg, views[i], now, worlds(i)).kernel)
  }

  ghost function Settled(cells: seq<SessionKernel>, views: seq<Kernel>, now: int, worlds: nat -> World): seq<bool>
    requires |cells| == |views|
  {
    seq(|cells|, i requires 0 <= i < |cells| => Settles(cells[i].ctx, cells[i].cfg, views[i], now, worlds(i)))
  }

  ghost function Count(flags: seq<bool>): nat {
    if flags == [] then 0 else Count(DropLast(flags)) + if Last(flags) then 1 else 0
  }

  lemma CountNext(flags: seq<bool>, i: nat)
    requires i < |flags|
    ensures Count(flags[..i + 1]) == Count(flags[..i]) + if flags[i] then 1 else 0
  {
    assert DropLast(flags[..i + 1]) == flags[..i];
  }

  /** `sweep_due_synthetic_accepts`: every open candidate is settled, and the count
      returned is the number of envelopes that entered accepted history. */
  method SweepDueSyntheticAccepts(candidates: seq<SessionKernel>, now: int, worlds: nat -> World) returns (emitted: nat)
    requires Distinct(candidates)
    modifies candidates
    ensures Views(candidates) == SweptViews(candidates, old(Views(candidates)), now, worlds)
    ensures emitted == Count(Settled(candidates, old(Views(candidates)), now, worlds))
  {
    emitted := 0;
    ghost var views := Views(candidates);
    ghost var goal, settled := SweptViews(candidates, views, now, worlds), Settled(candidates, views, now, worlds);
    for i := 0 to |candidates|
      invariant forall j :: 0 <= j < i ==> candidates[j].View() == goal[j]
      invariant forall j :: i <= j < |candidates| ==> candidates[j].View() == views[j]
      invariant emitted == Count(settled[..i])
    {
      CountNext(settled, i);
      var cell := candidates[i];
      assert goal[i] == Sweep(cell.ctx, cell.cfg, cell.View(), now, worlds(i)).kernel;
      assert settled[i] == Settles(cell.ctx, cell.cfg, cell.View(), now, worlds(i));
      var swept := cell.SettleDue(now, worlds(i));
      if swept { emitted := emitted + 1; }
    }
    assert settled[..|candidates|] == settled;
    assert Views(candidates) == goal;
  }
}
