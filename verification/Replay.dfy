/** Rebuilding a session from its log: src/replay.rs over the event application of
    crates/macp-modes/src/replay.rs. */
module Replay {
  import opened Sessions
  import opened Modes
  import opened Logs

  const LEGACY_EXTENSION_TTL_MS := 60_000

  datatype StartPayload = StartPayload(
    intent: string, participants: seq<string>, modeVersion: string,
    configurationVersion: string, policyVersion: string, ttlMs: int, contextId: string,
    extensions: map<string, Bytes>, roots: seq<Root>, maxSuspend: int)

  const DefaultStart := StartPayload("", [], "", "", "", 0, "", map[], [], 0)

  /** The registries and codecs both the live path and replay consult. */
  datatype Context = Context(
    modes: string -> Option<Mode>,
    strict: string -> bool,
    descriptor: string -> Option<string>,
    parse: Bytes -> Option<StartPayload>,
    canonical: (string, StartPayload) -> bool,
    validId: string -> bool,
    resolve: string -> Option<Policy>)

  /** `parse_session_start_payload`: an empty payload never decodes. */
  function ParseStart(ctx: Context, payload: Bytes): Result<StartPayload> {
    if payload == [] || ctx.parse(payload).None? then Err(InvalidPayload)
    else Ok(ctx.parse(payload).value)
  }

  function ExtractTtl(p: StartPayload): Result<int> {
    if 1 <= p.ttlMs <= MAX_TTL_MS then Ok(p.ttlMs) else Err(InvalidTtl)
  }

  /** `validate_canonical_start`: the TTL first, then the rest of the contract. */
  function CheckCanonical(ctx: Context, mode: string, p: StartPayload): Result<()> {
    if ExtractTtl(p).Err? then Err(InvalidTtl)
    else if !ctx.canonical(mode, p) then Err(InvalidPayload)
    else Ok(())
  }

  function EffectivePolicyId(requested: string): string {
    if requested == "" then DEFAULT_POLICY_ID else requested
  }

  function NewSession(env: Envelope, p: StartPayload, modeVersion: string, policyVersion: string,
                      policy: Option<Policy>, ttlMs: int, base: int, startedAt: int,
                      rev: nat, maxSuspend: int): Session {
    Session(
      Bindings(env.sessionId, env.mode, env.sender, p.participants, p.intent, modeVersion,
               p.configurationVersion, policyVersion, p.contextId, p.extensions, p.roots, policy,
               ttlMs, startedAt, rev, maxSuspend),
      Open, Sat(base + ttlMs), None, [], {}, None, 0, [])
  }

  // ---- Entries as events ---------------------------------------------------

  function RecordedAt(e: LogEntry): int {
    if e.receivedAt != 0 then e.receivedAt else e.timestamp
  }

  function RecordedEnvelope(e: LogEntry, sessionId: string, sessionMode: string): Envelope {
    Envelope(
      if e.macpVersion == "" then MACP_VERSION else e.macpVersion,
      if e.mode == "" then sessionMode else e.mode,
      e.messageType, e.messageId, sessionId, e.sender,
      if e.timestamp != 0 then e.timestamp else e.receivedAt,
      if e.payload.Raw? then e.payload.bytes else [])
  }

  datatype ReplayEvent =
    | Message(envelope: Envelope, at: int)
    | SuspendedAt(at: int)
    | ResumedAt(at: int)
    | WasCancelled
    | WasExpired

  function EventOf(e: LogEntry, sessionId: string, sessionMode: string): Option<ReplayEvent> {
    match e.kind
    case Incoming => Some(Message(RecordedEnvelope(e, sessionId, sessionMode), RecordedAt(e)))
    case Internal =>
      if e.messageType == "TtlExpired" then Some(WasExpired)
      else if e.messageType == "SessionCancel" then Some(WasCancelled)
      else if e.messageType == "SessionSuspend" then Some(SuspendedAt(RecordedAt(e)))
      else if e.messageType == "SessionResume" then Some(ResumedAt(RecordedAt(e)))
      else None
    case Checkpoint => None
  }

  /** `apply_event`, without activity credit as the server log replays it. */
  function ApplyEvent(mode: Mode, s: Session, event: ReplayEvent): Result<Session> {
    match event
    case SuspendedAt(at) => Ok(s.Suspend(at).session)
    case ResumedAt(at) => Ok(s.Resume(at).session)
    case WasCancelled => Ok(s.Cancel().session)
    case WasExpired => Ok(s.(state := Expired))
    case Message(env, at) =>
      var taken := if env.messageId == "" then s else s.Take(env.messageId);
      if s.state != Open then Ok(taken)
      else
        var authorized := mode.authorize(s, env);
        if authorized.Err? then Err(authorized.error)
        else
          var response := mode.onMessage(s, env, at);
          if response.Err? then Err(response.error)
          else Ok(taken.ApplyResponse(response.value))
  }

  function ApplyEntry(mode: Mode, sessionId: string, s: Session, e: LogEntry): Result<Session> {
    var event := EventOf(e, sessionId, s.bind.mode);
    if event.None? then Ok(s) else ApplyEvent(mode, s, event.value)
  }

  function ApplyEntries(mode: Mode, sessionId: string, s: Session, entries: Log): Result<Session> {
    if entries == [] then Ok(s)
    else
      var before := ApplyEntries(mode, sessionId, s, DropLast(entries));
      if before.Err? then before else ApplyEntry(mode, sessionId, before.value, Last(entries))
  }

  /** No event changes what a session bound. */
  lemma {:induction false} BindingsKept(mode: Mode, sessionId: string, s: Session, entries: Log)
    ensures
      var r := ApplyEntries(mode, sessionId, s, entries);
      r.Ok? ==> r.value.bind == s.bind
  {
    if entries != [] { BindingsKept(mode, sessionId, s, DropLast(entries)); }
  }

  // ---- The recorded start --------------------------------------------------

  /** `replay_start` on the entry `recorded_start` found. */
  function ReplayStart(ctx: Context, mode: Mode, sessionId: string, e: LogEntry): Result<Session> {
    var env := RecordedEnvelope(e, sessionId, e.mode);
    var strict := ctx.strict(e.mode);
    var requested := if ParseStart(ctx, env.payload).Ok? then ParseStart(ctx, env.payload).value.policyVersion else "";
    var policy := ctx.resolve(EffectivePolicyId(requested));
    var parsed := if env.payload == [] && !strict then Ok(DefaultStart) else ParseStart(ctx, env.payload);
    if parsed.Err? then Err(parsed.error)
    else if strict && CheckCanonical(ctx, env.mode, parsed.value).Err? then
      Err(CheckCanonical(ctx, env.mode, parsed.value).error)
    else
      var p := parsed.value;
      var ttl := if !strict && p.ttlMs == 0 then Ok(LEGACY_EXTENSION_TTL_MS) else ExtractTtl(p);
      if ttl.Err? then Err(ttl.error)
      else
        var base := if env.timestamp > 0 then env.timestamp else e.receivedAt;
        var policyVersion := if policy.Some? && p.policyVersion == "" then policy.value.policyId else p.policyVersion;
        var modeVersion := if e.boundModeVersion.Some? then e.boundModeVersion.value else p.modeVersion;
        var s := NewSession(env, p, modeVersion, policyVersion, policy, ttl.value, base, e.receivedAt, e.semanticsRev,
                            if e.boundMaxSuspend.Some? then e.boundMaxSuspend.value else 0);
        var response := mode.onStart(s, env);
        if response.Err? then Err(response.error)
        else Ok(s.Take(env.messageId).ApplyResponse(response.value))
  }

  // ---- replay_session ------------------------------------------------------

  function LastCheckpoint(log: Log): (r: Option<nat>)
    ensures r.Some? ==> r.value < |log| && log[r.value].kind == Checkpoint
    ensures r.Some? ==> forall j :: r.value < j < |log| ==> log[j].kind != Checkpoint
    ensures r.None? ==> forall j :: 0 <= j < |log| ==> log[j].kind != Checkpoint
  {
    if log == [] then None
    else if Last(log).kind == Checkpoint then Some(|log| - 1)
    else LastCheckpoint(DropLast(log))
  }

  function StartPosition(log: Log): (r: Option<nat>)
    ensures r.Some? ==> r.value < |log| && log[r.value].IsStart()
    ensures r.Some? ==> forall j :: 0 <= j < r.value ==> !log[j].IsStart()
    ensures r.None? ==> forall j :: 0 <= j < |log| ==> !log[j].IsStart()
  {
    if log == [] then None
    else if StartPosition(DropLast(log)).Some? then StartPosition(DropLast(log))
    else if Last(log).IsStart() then Some(|log| - 1)
    else None
  }

  /** The session a checkpoint restores, if it can be trusted. */
  function CheckpointSession(ctx: Context, sessionId: string, e: LogEntry): Result<Option<Session>> {
    if !e.payload.Snapshot? then Err(InvalidPayload)
    else
      var s := Restore(sessionId, e.payload.session);
      if s.bind.policyVersion != "" && s.bind.policy.None? then Ok(None)
      else if ctx.modes(s.bind.mode).None? then Err(UnknownMode)
      else Ok(Some(s))
  }

  function FromCheckpoint(ctx: Context, sessionId: string, log: Log): Result<Option<Session>> {
    var at := LastCheckpoint(log);
    if at.None? then Ok(None)
    else
      var start := CheckpointSession(ctx, sessionId, log[at.value]);
      if start.Err? || start.value.None? then start
      else
        var s := start.value.value;
        var mode := ctx.modes(s.bind.mode).value;
        var r := ApplyEntries(mode, sessionId, s, log[at.value + 1..]);
        if r.Err? then Err(r.error) else Ok(Some(r.value))
  }

  /** Full replay; the loop skips one entry, wherever the start was found. */
  function FromStart(ctx: Context, sessionId: string, log: Log): Result<Session> {
    var at := StartPosition(log);
    if at.None? || log[at.value].mode == "" then Err(InvalidPayload)
    else
      var mode := ctx.modes(log[at.value].mode);
      if mode.None? then Err(UnknownMode)
      else
        var s := ReplayStart(ctx, mode.value, sessionId, log[at.value]);
        if s.Err? then s else ApplyEntries(mode.value, sessionId, s.value, log[1..])
  }

  function Replayed(ctx: Context, sessionId: string, log: Log): Result<Session> {
    var fast := FromCheckpoint(ctx, sessionId, log);
    if fast.Err? then Err(fast.error)
    else if fast.value.Some? then Ok(fast.value.value)
    else FromStart(ctx, sessionId, log)
  }

  /** The per-entry loop of both replay paths. */
  method ReplayEntries(mode: Mode, sessionId: string, start: Session, entries: Log) returns (r: Result<Session>)
    ensures r == ApplyEntries(mode, sessionId, start, entries)
  {
    var s := start;
    for i := 0 to |entries|
      invariant ApplyEntries(mode, sessionId, start, entries[..i]) == Ok(s)
    {
      assert DropLast(entries[..i + 1]) == entries[..i];
      var next := ApplyEntry(mode, sessionId, s, entries[i]);
      if next.Err? {
        ErrorsPersist(mode, sessionId, start, entries, i + 1);
        return next;
      }
      s := next.value;
    }
    assert entries[..|entries|] == entries;
    return Ok(s);
  }

  lemma {:induction false} ErrorsPersist(mode: Mode, sessionId: string, s: Session, entries: Log, n: nat)
    requires n <= |entries|
    requires ApplyEntries(mode, sessionId, s, entries[..n]).Err?
    ensures ApplyEntries(mode, sessionId, s, entries) == ApplyEntries(mode, sessionId, s, entries[..n])
  {
    if n == |entries| {
      assert entries[..n] == entries;
    } else {
      assert DropLast(entries)[..n] == entries[..n];
      ErrorsPersist(mode, sessionId, s, DropLast(entries), n);
    }
  }

  /** `replay_session`, with the reverse search and the two loops of the source. */
  method ReplaySession(ctx: Context, sessionId: string, log: Log) returns (r: Result<Session>)
    ensures r == Replayed(ctx, sessionId, log)
  {
    var at := |log| - 1;
    while 0 <= at && log[at].kind != Checkpoint
      invariant -1 <= at < |log|
      invariant forall j :: at < j < |log| ==> log[j].kind != Checkpoint
    {
      at := at - 1;
    }
    if 0 <= at {
      var start := CheckpointSession(ctx, sessionId, log[at]);
      if start.Err? { return Err(start.error); }
      if start.value.Some? {
        var s := start.value.value;
        r := ReplayEntries(ctx.modes(s.bind.mode).value, sessionId, s, log[at + 1..]);
        return;
      }
    }
    var pos := 0;
    while pos < |log| && !log[pos].IsStart()
      invariant 0 <= pos <= |log|
      invariant forall j :: 0 <= j < pos ==> !log[j].IsStart()
    {
      pos := pos + 1;
    }
    if pos == |log| || log[pos].mode == "" { return Err(InvalidPayload); }
    var mode := ctx.modes(log[pos].mode);
    if mode.None? { return Err(UnknownMode); }
    var s := ReplayStart(ctx, mode.value, sessionId, log[pos]);
    if s.Err? { return s; }
    r := ReplayEntries(mode.value, sessionId, s.value, log[1..]);
  }

  // ---- Reference semantics: fold the whole log, ignoring checkpoints -------

  function Head(ctx: Context, sessionId: string, e: LogEntry): Result<Session> {
    if e.IsStart() then
      if e.mode == "" then Err(InvalidPayload)
      else if ctx.modes(e.mode).None? then Err(UnknownMode)
      else ReplayStart(ctx, ctx.modes(e.mode).value, sessionId, e)
    else
      var r := CheckpointSession(ctx, sessionId, e);
      if r.Err? then Err(r.error) else if r.value.None? then Err(InvalidPayload) else Ok(r.value.value)
  }

  /** What a log means: its head, then every later entry, checkpoints ignored. */
  function Meaning(ctx: Context, sessionId: string, log: Log): Result<Session> {
    if log == [] then Err(InvalidPayload)
    else if |log| == 1 then Head(ctx, sessionId, log[0])
    else
      var before := Meaning(ctx, sessionId, DropLast(log));
      if before.Err? then before
      else
        var mode := ctx.modes(before.value.bind.mode);
        if mode.None? then Err(UnknownMode) else ApplyEntry(mode.value, sessionId, before.value, Last(log))
  }

  /** A log this runtime could have written: it opens with the SessionStart or
      with a compacting checkpoint, and every later checkpoint serializes the
      session the entries before it mean, policy definition included. */
  ghost predicate Coherent(ctx: Context, sessionId: string, log: Log) {
    && log != []
    && (log[0].IsStart() || (log[0].kind == Checkpoint && log[0].compacted > 0))
    && Meaning(ctx, sessionId, log).Ok?
    && forall i :: 0 < i < |log| && log[i].kind == Checkpoint ==>
         && log[i].compacted == 0
         && Meaning(ctx, sessionId, log[..i]).Ok?
         && CheckpointSession(ctx, sessionId, log[i]) == Ok(Some(Meaning(ctx, sessionId, log[..i]).value))
  }

  lemma {:induction false} MeaningPrefix(ctx: Context, sessionId: string, log: Log, n: nat)
    requires 0 < n <= |log|
    requires Meaning(ctx, sessionId, log).Ok?
    ensures Meaning(ctx, sessionId, log[..n]).Ok?
  {
    if n == |log| {
      assert log[..n] == log;
    } else {
      assert DropLast(log)[..n] == log[..n];
      MeaningPrefix(ctx, sessionId, DropLast(log), n);
    }
  }

  /** A mode for every session a log can mean. */
  lemma {:induction false} MeaningHasMode(ctx: Context, sessionId: string, log: Log)
    requires Meaning(ctx, sessionId, log).Ok?
    ensures ctx.modes(Meaning(ctx, sessionId, log).value.bind.mode).Some?
  {
    if |log| > 1 {
      MeaningHasMode(ctx, sessionId, DropLast(log));
      var before := Meaning(ctx, sessionId, DropLast(log)).value;
      BindingsKept(ctx.modes(before.bind.mode).value, sessionId, before, [Last(log)]);
      assert DropLast([Last(log)]) == [];
    }
  }

  lemma {:induction false} MeaningSplit(ctx: Context, sessionId: string, log: Log, n: nat)
    requires 0 < n <= |log|
    requires Meaning(ctx, sessionId, log[..n]).Ok?
    ensures
      var s := Meaning(ctx, sessionId, log[..n]).value;
      && ctx.modes(s.bind.mode).Some?
      && Meaning(ctx, sessionId, log) == ApplyEntries(ctx.modes(s.bind.mode).value, sessionId, s, log[n..])
  {
    MeaningHasMode(ctx, sessionId, log[..n]);
    if n == |log| {
      assert log[..n] == log && log[n..] == [];
    } else {
      var front := DropLast(log);
      assert front[..n] == log[..n] && DropLast(log[n..]) == front[n..];
      MeaningSplit(ctx, sessionId, front, n);
      var s := Meaning(ctx, sessionId, log[..n]).value;
      BindingsKept(ctx.modes(s.bind.mode).value, sessionId, s, front[n..]);
    }
  }

  lemma StartBindsMode(ctx: Context, sessionId: string, e: LogEntry)
    requires e.IsStart() && Head(ctx, sessionId, e).Ok?
    ensures Head(ctx, sessionId, e).value.bind.mode == e.mode
  {
  }

  lemma {:induction false} StartReplayIsMeaning(ctx: Context, sessionId: string, log: Log)
    requires Coherent(ctx, sessionId, log) && LastCheckpoint(log).None?
    ensures Replayed(ctx, sessionId, log) == Meaning(ctx, sessionId, log)
  {
    assert log[..1] == [log[0]];
    MeaningPrefix(ctx, sessionId, log, 1);
    MeaningSplit(ctx, sessionId, log, 1);
    StartBindsMode(ctx, sessionId, log[0]);
  }

  /** A checkpoint means the session it holds. */
  lemma {:induction false} CheckpointMeaning(ctx: Context, sessionId: string, log: Log, i: nat)
    requires Coherent(ctx, sessionId, log) && i < |log| && log[i].kind == Checkpoint
    ensures Meaning(ctx, sessionId, log[..i + 1]).Ok?
    ensures CheckpointSession(ctx, sessionId, log[i]) == Ok(Some(Meaning(ctx, sessionId, log[..i + 1]).value))
  {
    MeaningPrefix(ctx, sessionId, log, i + 1);
    if i == 0 {
      assert log[..1] == [log[0]];
    } else {
      assert DropLast(log[..i + 1]) == log[..i];
    }
  }

  /** Replay, from the start or from the last checkpoint, computes the meaning. */
  lemma {:induction false} ReplayIsMeaning(ctx: Context, sessionId: string, log: Log)
    requires Coherent(ctx, sessionId, log)
    ensures Replayed(ctx, sessionId, log) == Meaning(ctx, sessionId, log)
  {
    var at := LastCheckpoint(log);
    if at.None? {
      StartReplayIsMeaning(ctx, sessionId, log);
    } else {
      CheckpointMeaning(ctx, sessionId, log, at.value);
      MeaningSplit(ctx, sessionId, log, at.value + 1);
    }
  }

  // ---- Checkpoints never change meaning ------------------------------------

  /** Drop the chosen checkpoints, never the head. */
  function Thin(log: Log, drop: nat -> bool): Log {
    if |log| <= 1 then log
    else if Last(log).kind == Checkpoint && drop(|log| - 1) then Thin(DropLast(log), drop)
    else Thin(DropLast(log), drop) + [Last(log)]
  }

  lemma {:induction false} CoherentPrefix(ctx: Context, sessionId: string, log: Log)
    requires |log| > 1 && Coherent(ctx, sessionId, log)
    ensures Coherent(ctx, sessionId, DropLast(log))
  {
    var front := DropLast(log);
    forall i | 0 < i < |front| && front[i].kind == Checkpoint
      ensures front[i].compacted == 0
      ensures Meaning(ctx, sessionId, front[..i]).Ok?
      ensures CheckpointSession(ctx, sessionId, front[i]) == Ok(Some(Meaning(ctx, sessionId, front[..i]).value))
    {
      assert front[..i] == log[..i] && front[i] == log[i];
    }
  }

  /** Removing any subset of the non-compacting checkpoints leaves a log of the
      same kind with the same meaning, so replay rebuilds the same session. */
  lemma {:induction false} ThinKeepsMeaning(ctx: Context, sessionId: string, log: Log, drop: nat -> bool)
    requires Coherent(ctx, sessionId, log)
    ensures Coherent(ctx, sessionId, Thin(log, drop))
    ensures Meaning(ctx, sessionId, Thin(log, drop)) == Meaning(ctx, sessionId, log)
    ensures Replayed(ctx, sessionId, Thin(log, drop)) == Replayed(ctx, sessionId, log)
  {
    ThinCoherent(ctx, sessionId, log, drop);
    ReplayIsMeaning(ctx, sessionId, log);
    ReplayIsMeaning(ctx, sessionId, Thin(log, drop));
  }

  lemma {:induction false} ThinCoherent(ctx: Context, sessionId: string, log: Log, drop: nat -> bool)
    requires Coherent(ctx, sessionId, log)
    ensures Coherent(ctx, sessionId, Thin(log, drop))
    ensures Meaning(ctx, sessionId, Thin(log, drop)) == Meaning(ctx, sessionId, log)
  {
    if |log| > 1 {
      var front, last := DropLast(log), Last(log);
      CoherentPrefix(ctx, sessionId, log);
      ThinCoherent(ctx, sessionId, front, drop);
      var thin := Thin(front, drop);
      MeaningHasMode(ctx, sessionId, front);
      if !(last.kind == Checkpoint && drop(|log| - 1)) {
        assert front == log[..|log| - 1];
        CoherentExtend(ctx, sessionId, thin, last);
      }
    }
  }

  /** Appending to a coherent log. */
  lemma {:induction false} CoherentExtend(ctx: Context, sessionId: string, log: Log, e: LogEntry)
    requires Coherent(ctx, sessionId, log)
    requires Meaning(ctx, sessionId, log + [e]).Ok?
    requires e.kind == Checkpoint ==>
      e.compacted == 0 && CheckpointSession(ctx, sessionId, e) == Ok(Some(Meaning(ctx, sessionId, log).value))
    ensures Coherent(ctx, sessionId, log + [e])
  {
    var all := log + [e];
    forall i | 0 < i < |all| && all[i].kind == Checkpoint
      ensures all[i].compacted == 0
      ensures Meaning(ctx, sessionId, all[..i]).Ok?
      ensures CheckpointSession(ctx, sessionId, all[i]) == Ok(Some(Meaning(ctx, sessionId, all[..i]).value))
    {
      if i < |log| {
        assert all[..i] == log[..i] && all[i] == log[i];
      } else {
        assert all[..i] == log;
      }
    }
  }
}
