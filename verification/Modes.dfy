/** The coordination step of crates/macp-modes/src/step.rs over an arbitrary mode.

    A mode is a record of the trait's methods; `Lawful` collects what the trait's
    documentation obliges an implementation to do. `Handoff.HandoffLawful` proves
    the laws of the one shipped mode that synthesizes envelopes. */
module Modes {
  import opened Sessions

  const MACP_VERSION := "1.0"
  const DEFAULT_POLICY_ID := "policy.default"

  datatype Envelope = Envelope(
    macpVersion: string, mode: string, messageType: string, messageId: string,
    sessionId: string, sender: string, timestamp: int, payload: Bytes)

  datatype Mode = Mode(
    onStart: (Session, Envelope) -> Result<ModeResponse>,
    onMessage: (Session, Envelope, int) -> Result<ModeResponse>,
    validateClient: (Session, Envelope) -> Result<()>,
    due: (Session, int) -> Option<Envelope>,
    authorize: (Session, Envelope) -> Result<()>)

  datatype Precheck = Duplicate | PastDeadline | Proceed

  datatype Synthetic = Synthetic(envelope: Envelope, response: ModeResponse)

  function CheckShape(env: Envelope): Result<()> {
    if env.macpVersion != MACP_VERSION then Err(InvalidMacpVersion)
    else if env.messageType == "" || env.messageId == "" || env.sender == "" then Err(InvalidEnvelope)
    else Ok(())
  }

  /** Shape, dedup, binding, deadline and the Open gate, in that order. */
  function CheckPreconditions(s: Session, env: Envelope, now: int): Result<Precheck> {
    if CheckShape(env).Err? then Err(CheckShape(env).error)
    else if env.messageId in s.seen then Ok(Duplicate)
    else if env.mode != s.bind.mode || env.sessionId != s.bind.sessionId then Err(InvalidEnvelope)
    else if s.DeadlinePassed(now) then Ok(PastDeadline)
    else if s.state != Open then Err(SessionNotOpen)
    else Ok(Proceed)
  }

  function Admit(mode: Mode, s: Session, env: Envelope): Result<()> {
    var authorized := mode.authorize(s, env);
    if authorized.Err? then authorized else mode.validateClient(s, env)
  }

  function NextSynthetic(mode: Mode, s: Session, now: int): Result<Option<Synthetic>> {
    if s.state != Open then Ok(None)
    else
      var due := mode.due(s, now);
      if due.None? || due.value.messageId in s.seen then Ok(None)
      else
        var authorized := mode.authorize(s, due.value);
        if authorized.Err? then Err(authorized.error)
        else
          var response := mode.onMessage(s, due.value, due.value.timestamp);
          if response.Err? then Err(response.error)
          else Ok(Some(Synthetic(due.value, response.value)))
  }

  /** The state half of `commit` and `commit_synthetic`. */
  function Commit(s: Session, env: Envelope, response: ModeResponse): Session {
    s.Take(env.messageId).ApplyResponse(response)
  }

  function CommitSynthetic(s: Session, syn: Synthetic): Session {
    Commit(s, syn.envelope, syn.response)
  }

  /** The envelope replay rebuilds when the recorded one carried no timestamp. */
  function FillTimestamp(env: Envelope, at: int): Envelope {
    if env.timestamp != 0 then env else env.(timestamp := at)
  }

  /** A mode's answer does not depend on a missing client timestamp. */
  ghost predicate TimestampBlind(mode: Mode, inv: Session -> bool) {
    && (forall s: Session, env: Envelope, at: int :: inv(s) ==>
          mode.onMessage(s, FillTimestamp(env, at), at) == mode.onMessage(s, env, at))
    && (forall s: Session, env: Envelope, at: int :: mode.authorize(s, FillTimestamp(env, at)) == mode.authorize(s, env))
    && (forall s: Session, env: Envelope, at: int :: mode.onStart(s, FillTimestamp(env, at)) == mode.onStart(s, env))
  }

  /** `env` is the mode's own envelope, dispatched at its own time. */
  ghost predicate IsSynthetic(mode: Mode, s: Session, env: Envelope, at: int) {
    at == env.timestamp && exists now :: mode.due(s, now) == Some(env)
  }

  /** A message that reaches an open session: a client's that passed validation, or the
      mode's own. */
  ghost predicate MayReach(mode: Mode, s: Session, env: Envelope, at: int, when: int -> bool) {
    (when(at) && mode.validateClient(s, env).Ok?) || IsSynthetic(mode, s, env, at)
  }

  /** `inv` holds of a session from its start; `when` says at which instants client
      messages, once validated, and suspensions and resumptions reach it. */
  ghost predicate KeepsInvariant(mode: Mode, inv: Session -> bool, when: int -> bool) {
    && (forall s: Session, env: Envelope, at: int ::
          inv(s) && s.state.Open? && mode.onMessage(s, env, at).Ok? && MayReach(mode, s, env, at, when) ==>
            inv(Commit(s, env, mode.onMessage(s, env, at).value)))
    && (forall s: Session, at: int :: inv(s) && when(at) ==> inv(s.Suspend(at).session) && inv(s.Resume(at).session))
    && (forall s: Session :: inv(s) ==> inv(s.Cancel().session) && inv(s.Expire().session) && inv(s.(state := Expired)))
  }

  /** An accepted start establishes the invariant. */
  ghost predicate EstablishesInvariant(mode: Mode, inv: Session -> bool) {
    forall s: Session, env: Envelope ::
      && s.state.Open? && s.bind.semanticsRev == CURRENT_SEMANTICS_REV
      && s.suspendedAt.None? && s.accumulated == 0 && s.intervals == [] && s.seen == {}
      && mode.onStart(s, env).Ok? && mode.validateClient(s, env).Ok? ==>
        inv(Commit(s, env, mode.onStart(s, env).value))
  }

  /** The obligations on a due synthetic envelope (crates/macp-modes/src/mode/mod.rs:86-148). */
  ghost predicate SynthesisLaws(mode: Mode, inv: Session -> bool) {
    forall s: Session, now: int :: inv(s) && s.state.Open? && mode.due(s, now).Some? ==> SynthesisLaw(mode, s, now)
  }

  ghost predicate SynthesisLaw(mode: Mode, s: Session, now: int)
    requires mode.due(s, now).Some?
  {
    var env := mode.due(s, now).value;
    // A well-formed envelope of this session.
    && CheckShape(env).Ok? && env.mode == s.bind.mode && env.sessionId == s.bind.sessionId
    && env.messageType != "SessionStart"
    // The same envelope whenever it is observed.
    && (forall later: int :: now <= later ==> mode.due(s, later) == Some(env))
    // In a namespace no client can use.
    && (forall other: Session, client: Envelope :: other.bind == s.bind && mode.validateClient(other, client).Ok? ==> client.messageId != env.messageId)
    && (mode.onMessage(s, env, env.timestamp).Ok? ==> SettlesQuietly(mode, s, env, mode.onMessage(s, env, env.timestamp).value))
  }

  /** Recording a synthetic does not end the session, leaves nothing else due and
      does not change who may speak. */
  ghost predicate SettlesQuietly(mode: Mode, s: Session, env: Envelope, response: ModeResponse) {
    var after := Commit(s, env, response);
    && !response.Resolves()
    && (forall later: int :: mode.due(after, later) == None)
    && (forall client: Envelope :: mode.authorize(after, client) == mode.authorize(s, client))
    && (forall client: Envelope :: mode.validateClient(after, client) == mode.validateClient(s, client))
  }

  ghost predicate Lawful(mode: Mode, inv: Session -> bool, when: int -> bool) {
    TimestampBlind(mode, inv) && KeepsInvariant(mode, inv, when) && SynthesisLaws(mode, inv)
  }

  /** What a synthetic that is about to be recorded satisfies. */
  lemma SyntheticFacts(mode: Mode, inv: Session -> bool, when: int -> bool, s: Session, now: int)
    requires Lawful(mode, inv, when) && inv(s)
    requires NextSynthetic(mode, s, now).Ok? && NextSynthetic(mode, s, now).value.Some?
    ensures
      var syn := NextSynthetic(mode, s, now).value.value;
      var after := CommitSynthetic(s, syn);
      && s.state == Open && after.state == Open
      && CheckShape(syn.envelope).Ok? && syn.envelope.mode == s.bind.mode
      && syn.envelope.sessionId == s.bind.sessionId
      && syn.envelope.messageId !in s.seen
      && mode.authorize(s, syn.envelope).Ok?
      && mode.onMessage(s, syn.envelope, syn.envelope.timestamp) == Ok(syn.response)
      && inv(after)
      && (forall client: Envelope :: mode.authorize(after, client) == mode.authorize(s, client))
      && (forall client: Envelope :: mode.validateClient(after, client) == mode.validateClient(s, client))
      && (forall later: int :: NextSynthetic(mode, after, later) == Ok(None))
  {
  }
}
