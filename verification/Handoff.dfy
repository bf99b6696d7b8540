/** The handoff mode (crates/macp-modes/src/mode/handoff.rs), the one shipped mode
    that synthesizes envelopes. It meets every law the kernel's theorems assume,
    and its implicit accept is recorded at the first instant at which the
    outstanding offer has waited its timeout in unsuspended time. */
module Handoff {
  import opened Sessions
  import opened Modes
  import opened Replay
  import opened Kernels
  import opened KernelProofs
  import opened KernelTheorems
  import D = Deadlines
  import S = Suspension

  const IMPLICIT_ACCEPT_PREFIX := "implicit-accept:"
  const IMPLICIT_ACCEPT_REASON := "implicit accept (timeout)"
  const DECLINED_TARGET_BAR_REV := 4

  datatype Disposition = Offered | Accepted | Declined

  datatype Offer = Offer(
    handoffId: string, target: string, scope: string, reason: string, offeredBy: string,
    disposition: Disposition, acceptedBy: Option<string>, declinedBy: Option<string>,
    outcomeReason: Option<string>, offeredAt: int, suspendedAtOffer: int)

  datatype ContextRecord = ContextRecord(contentType: string, context: Bytes, sender: string)

  datatype HandoffState = HandoffState(offers: map<string, Offer>, contexts: map<string, seq<ContextRecord>>)

  datatype OfferPayload = OfferPayload(handoffId: string, target: string, scope: string, reason: string)
  datatype ContextPayload = ContextPayload(handoffId: string, contentType: string, context: Bytes)
  datatype AcceptPayload = AcceptPayload(handoffId: string, acceptedBy: string, reason: string, isImplicit: bool)
  datatype DeclinePayload = DeclinePayload(handoffId: string, declinedBy: string, reason: string)

  /** The wire and state codecs, and what the bound policy answers. */
  datatype Codec = Codec(
    encodeState: HandoffState -> Bytes,
    decodeState: Bytes -> Option<HandoffState>,
    decodeOffer: Bytes -> Option<OfferPayload>,
    decodeContext: Bytes -> Option<ContextPayload>,
    decodeAccept: Bytes -> Option<AcceptPayload>,
    encodeAccept: AcceptPayload -> Bytes,
    decodeDecline: Bytes -> Option<DeclinePayload>,
    checkCommitment: (Bindings, Bytes) -> Result<bool>,
    mayCommit: (Bindings, string) -> bool,
    allows: (Bindings, bool) -> bool,
    timeoutBits: Bindings -> nat)
  {
    ghost predicate RoundTrips() {
      && (forall st :: decodeState(encodeState(st)) == Some(st) && encodeState(st) != [])
      && (forall p :: decodeAccept(encodeAccept(p)) == Some(p))
    }
  }

  const U64 := 0x1_0000_0000_0000_0000

  /** `as i64` of a `u64`. */
  function AsI64(bits: nat): int {
    var low := bits % U64;
    if low <= I64_MAX then low else low - U64
  }

  /** The bound policy's implicit accept timeout, 0 without a policy. */
  function Timeout(c: Codec, s: Session): int {
    if s.bind.policy.None? then 0 else AsI64(c.timeoutBits(s.bind))
  }

  function LoadState(c: Codec, s: Session): Result<HandoffState> {
    if s.modeState == [] then Ok(HandoffState(map[], map[]))
    else if c.decodeState(s.modeState).None? then Err(InvalidModeState)
    else Ok(c.decodeState(s.modeState).value)
  }

  predicate StartsWith(s: string, prefix: string) { prefix <= s }

  function Authorize(c: Codec, s: Session, env: Envelope): Result<()> {
    if env.messageType == "Commitment" then
      if c.mayCommit(s.bind, env.sender) then Ok(()) else Err(Forbidden)
    else if env.messageType == "HandoffOffer" then
      if env.sender == s.bind.initiator then Ok(()) else Err(Forbidden)
    else if env.sender in s.bind.participants then Ok(())
    else Err(Forbidden)
  }

  function ValidateClient(c: Codec, s: Session, env: Envelope): Result<()> {
    if s.bind.semanticsRev < 2 then Ok(())
    else if StartsWith(env.messageId, IMPLICIT_ACCEPT_PREFIX) then Err(InvalidEnvelope)
    else if env.messageType == "HandoffAccept" && c.decodeAccept(env.payload).Some? && c.decodeAccept(env.payload).value.isImplicit
      then Err(InvalidPayload)
    else Ok(())
  }

  function OnStart(c: Codec, s: Session, env: Envelope): Result<ModeResponse> {
    if |s.bind.participants| < 2 || s.bind.initiator !in s.bind.participants then Err(InvalidPayload)
    else Ok(PersistState(c.encodeState(HandoffState(map[], map[]))))
  }

  function HandleOffer(c: Codec, s: Session, env: Envelope, clock: int, st: HandoffState): Result<HandoffState> {
    var decoded := c.decodeOffer(env.payload);
    if decoded.None? then Err(InvalidPayload)
    else
      var p := decoded.value;
      if || p.handoffId == "" || p.target == "" || p.handoffId in st.offers
         || p.target !in s.bind.participants || p.target == env.sender
         || (exists h :: h in st.offers && st.offers[h].disposition == Offered)
         || (exists h :: h in st.offers && st.offers[h].disposition == Disposition.Accepted)
      then Err(InvalidPayload)
      else if s.bind.semanticsRev >= DECLINED_TARGET_BAR_REV
              && exists h :: h in st.offers && st.offers[h].disposition == Declined && st.offers[h].target == p.target
      then Err(InvalidPayload)
      else Ok(st.(offers := st.offers[p.handoffId := Offer(
        p.handoffId, p.target, p.scope, p.reason, env.sender, Offered, None, None, None,
        if s.bind.semanticsRev >= 1 then clock else env.timestamp, s.accumulated)]))
  }

  function HandleContext(c: Codec, env: Envelope, st: HandoffState): Result<HandoffState> {
    var decoded := c.decodeContext(env.payload);
    if decoded.None? || decoded.value.handoffId !in st.offers then Err(InvalidPayload)
    else
      var p := decoded.value;
      if st.offers[p.handoffId].offeredBy != env.sender then Err(Forbidden)
      else
        var earlier := if p.handoffId in st.contexts then st.contexts[p.handoffId] else [];
        Ok(st.(contexts := st.contexts[p.handoffId := earlier + [ContextRecord(p.contentType, p.context, env.sender)]]))
  }

  function HandleAccept(c: Codec, s: Session, env: Envelope, st: HandoffState): Result<HandoffState> {
    var decoded := c.decodeAccept(env.payload);
    if decoded.None? then Err(InvalidPayload)
    else
      var p := decoded.value;
      if p.isImplicit && s.bind.semanticsRev < 2 then Err(InvalidPayload)
      else if p.handoffId !in st.offers then Err(InvalidPayload)
      else
        var offer := st.offers[p.handoffId];
        if offer.target != env.sender then Err(Forbidden)
        else if p.isImplicit && p.acceptedBy != offer.target then Err(InvalidPayload)
        else if p.isImplicit && env.messageId != IMPLICIT_ACCEPT_PREFIX + offer.handoffId then Err(InvalidPayload)
        else if !p.isImplicit && p.acceptedBy != "" && p.acceptedBy != env.sender then Err(InvalidPayload)
        else if offer.disposition != Offered then Err(InvalidPayload)
        else Ok(st.(offers := st.offers[p.handoffId :=
          offer.(disposition := Disposition.Accepted, acceptedBy := Some(offer.target), outcomeReason := Some(p.reason))]))
  }

  function HandleDecline(c: Codec, env: Envelope, st: HandoffState): Result<HandoffState> {
    var decoded := c.decodeDecline(env.payload);
    if decoded.None? || decoded.value.handoffId !in st.offers then Err(InvalidPayload)
    else
      var p := decoded.value;
      var offer := st.offers[p.handoffId];
      if offer.target != env.sender then Err(Forbidden)
      else if p.declinedBy != "" && p.declinedBy != env.sender then Err(InvalidPayload)
      else if offer.disposition != Offered then Err(InvalidPayload)
      else Ok(st.(offers := st.offers[p.handoffId :=
        offer.(disposition := Declined, declinedBy := Some(env.sender), outcomeReason := Some(p.reason))]))
  }

  /** The elapsed time an offer's timeout is measured against. */
  function Elapsed(s: Session, offer: Offer, now: int): int {
    if s.bind.semanticsRev >= 2 then
      Sat(Sat(now - offer.offeredAt) - Max(Sat(s.accumulated - offer.suspendedAtOffer), 0))
    else now - offer.offeredAt
  }

  /** The inference revisions 0 and 1 make inside a Commitment. */
  function InferAccepts(s: Session, timeout: int, now: int, offers: map<string, Offer>): map<string, Offer> {
    map h | h in offers ::
      var offer := offers[h];
      if offer.disposition == Offered && offer.offeredAt > 0 && Elapsed(s, offer, now) >= timeout
      then offer.(disposition := Disposition.Accepted, acceptedBy := Some(offer.target), outcomeReason := Some(IMPLICIT_ACCEPT_REASON))
      else offer
  }

  function HandleCommitment(c: Codec, s: Session, env: Envelope, clock: int, st: HandoffState): Result<ModeResponse> {
    var checked := c.checkCommitment(s.bind, env.payload);
    if checked.Err? then Err(checked.error)
    else
      var offers :=
        if s.bind.policy.Some? && c.timeoutBits(s.bind) > 0 && s.bind.semanticsRev < 2
        then InferAccepts(s, Timeout(c, s), clock, st.offers) else st.offers;
      if !(exists h :: h in offers && offers[h].disposition != Offered) then Err(InvalidPayload)
      else if s.bind.policy.Some? && !c.allows(s.bind, checked.value) then Err(PolicyDenied)
      else Ok(PersistAndResolve(c.encodeState(st.(offers := offers)), env.payload))
  }

  function Persisted(c: Codec, r: Result<HandoffState>): Result<ModeResponse> {
    if r.Err? then Err(r.error) else Ok(PersistState(c.encodeState(r.value)))
  }

  function OnMessage(c: Codec, s: Session, env: Envelope, acceptedAt: int): Result<ModeResponse> {
    var clock := if s.bind.semanticsRev >= 1 then acceptedAt else env.timestamp;
    var loaded := LoadState(c, s);
    if loaded.Err? then Err(loaded.error)
    else
      var st := loaded.value;
      if env.messageType == "HandoffOffer" then Persisted(c, HandleOffer(c, s, env, clock, st))
      else if env.messageType == "HandoffContext" then Persisted(c, HandleContext(c, env, st))
      else if env.messageType == "HandoffAccept" then Persisted(c, HandleAccept(c, s, env, st))
      else if env.messageType == "HandoffDecline" then Persisted(c, HandleDecline(c, env, st))
      else if env.messageType == "Commitment" then HandleCommitment(c, s, env, clock, st)
      else Err(InvalidPayload)
  }

  /** The offer still waiting; `Sane` makes it unique. */
  ghost function Outstanding(st: HandoffState): Option<Offer> {
    if exists h :: h in st.offers && st.offers[h].disposition == Offered then
      var h :| h in st.offers && st.offers[h].disposition == Offered;
      Some(st.offers[h])
    else None
  }

  function Deadline(s: Session, offer: Offer, timeout: int): int {
    D.SaturatingWalk(offer.offeredAt, timeout, D.Since(s.intervals, offer.offeredAt))
  }

  function ImplicitAccept(c: Codec, s: Session, offer: Offer, timeout: int): Envelope {
    Envelope(MACP_VERSION, s.bind.mode, "HandoffAccept", IMPLICIT_ACCEPT_PREFIX + offer.handoffId, s.bind.sessionId,
             offer.target, Deadline(s, offer, timeout),
             c.encodeAccept(AcceptPayload(offer.handoffId, offer.target, IMPLICIT_ACCEPT_REASON, true)))
  }

  ghost function Due(c: Codec, s: Session, now: int): Option<Envelope> {
    var timeout := Timeout(c, s);
    if s.bind.semanticsRev < 2 || timeout <= 0 || s.modeState == [] || c.decodeState(s.modeState).None? then None
    else
      var offer := Outstanding(c.decodeState(s.modeState).value);
      if offer.None? || offer.value.offeredAt <= 0 || Elapsed(s, offer.value, now) < timeout then None
      else Some(ImplicitAccept(c, s, offer.value, timeout))
  }

  ghost function HandoffMode(c: Codec): Mode {
    Mode((s, env) => OnStart(c, s, env),
         (s, env, at) => OnMessage(c, s, env, at),
         (s, env) => ValidateClient(c, s, env),
         (s, now) => Due(c, s, now),
         (s, env) => Authorize(c, s, env))
  }

  // ---- The mode's invariant ------------------------------------------------

  /** An offer under its own id, from one participant to another, and answered, if at
      all, by the one it was made to. */
  predicate Honest(participants: seq<string>, h: string, o: Offer) {
    && o.handoffId == h && o.target != "" && o.target in participants && o.target != o.offeredBy
    && match o.disposition
       case Offered => o.acceptedBy.None? && o.declinedBy.None?
       case Accepted => o.acceptedBy == Some(o.target) && o.declinedBy.None?
       case Declined => o.declinedBy == Some(o.target) && o.acceptedBy.None?
  }

  /** Honest offers, all but one of them declined, from revision 4 on each to somebody
      else; context comes only from whoever made the offer. */
  ghost predicate Sane(s: Session, st: HandoffState) {
    && (forall h :: h in st.offers ==> Honest(s.bind.participants, h, st.offers[h]))
    && (forall h, h' :: h in st.offers && h' in st.offers && h != h' ==>
          && (st.offers[h].disposition == Declined || st.offers[h'].disposition == Declined)
          && (s.bind.semanticsRev >= DECLINED_TARGET_BAR_REV ==> st.offers[h].target != st.offers[h'].target))
    && (forall h :: h in st.contexts ==> h in st.offers && ContextFrom(st.contexts[h], st.offers[h].offeredBy))
  }

  predicate ContextFrom(records: seq<ContextRecord>, sender: string) {
    forall i :: 0 <= i < |records| ==> records[i].sender == sender
  }

  ghost predicate SaneInv(c: Codec, s: Session) {
    && s.bind.semanticsRev >= 1 && s.modeState != []
    && c.decodeState(s.modeState).Some? && Sane(s, c.decodeState(s.modeState).value)
  }

  ghost predicate HandoffInv(c: Codec, s: Session) {
    && SaneInv(c, s)
    && (s.bind.semanticsRev >= 2 ==> Unsquatted(s.seen, c.decodeState(s.modeState).value))
  }

  predicate Settled(st: HandoffState, h: string) { h in st.offers && st.offers[h].disposition != Offered }

  /** Nobody uses the id of an implicit accept before the offer it is for is settled. */
  ghost predicate Unsquatted(seen: set<string>, st: HandoffState) {
    forall id :: id in seen && StartsWith(id, IMPLICIT_ACCEPT_PREFIX) ==> Settled(st, id[|IMPLICIT_ACCEPT_PREFIX|..])
  }

  lemma SaneOffer(c: Codec, s: Session, env: Envelope, clock: int, st: HandoffState)
    requires Sane(s, st) && HandleOffer(c, s, env, clock, st).Ok?
    ensures Sane(s, HandleOffer(c, s, env, clock, st).value)
  {
  }

  /** Settling the outstanding offer leaves none outstanding. */
  lemma SettledOffer(s: Session, st: HandoffState, h: string, offer: Offer)
    requires Sane(s, st) && h in st.offers && st.offers[h].disposition == Offered
    requires Honest(s.bind.participants, h, offer) && offer.target == st.offers[h].target && offer.offeredBy == st.offers[h].offeredBy
    requires offer.disposition != Offered
    ensures Sane(s, st.(offers := st.offers[h := offer]))
    ensures Outstanding(st.(offers := st.offers[h := offer])) == None
  {
  }

  lemma SaneAccept(c: Codec, s: Session, env: Envelope, st: HandoffState)
    requires Sane(s, st) && HandleAccept(c, s, env, st).Ok?
    ensures Sane(s, HandleAccept(c, s, env, st).value) && Outstanding(HandleAccept(c, s, env, st).value) == None
  {
    var id := c.decodeAccept(env.payload).value.handoffId;
    SettledOffer(s, st, id, HandleAccept(c, s, env, st).value.offers[id]);
  }

  lemma SaneDecline(c: Codec, s: Session, env: Envelope, st: HandoffState)
    requires Sane(s, st) && HandleDecline(c, env, st).Ok?
    ensures Sane(s, HandleDecline(c, env, st).value) && Outstanding(HandleDecline(c, env, st).value) == None
  {
    var id := c.decodeDecline(env.payload).value.handoffId;
    SettledOffer(s, st, id, HandleDecline(c, env, st).value.offers[id]);
  }

  lemma SaneContext(c: Codec, s: Session, env: Envelope, st: HandoffState)
    requires Sane(s, st) && HandleContext(c, env, st).Ok?
    ensures Sane(s, HandleContext(c, env, st).value)
  {
  }

  /** The inference of revision 1 settles the outstanding offer, if anything. */
  lemma SaneInferred(s: Session, timeout: int, now: int, st: HandoffState)
    requires Sane(s, st)
    ensures Sane(s, st.(offers := InferAccepts(s, timeout, now, st.offers)))
  {
  }

  /** What a message leaves of the mode's state. */
  ghost predicate Becomes(c: Codec, s: Session, s': Session, st': HandoffState) {
    s'.bind == s.bind && s'.modeState == c.encodeState(st')
  }

  ghost predicate KeepsSettled(st: HandoffState, st': HandoffState) { forall h :: Settled(st, h) ==> Settled(st', h) }

  lemma {:induction false} HandlersKeepSettled(c: Codec, s: Session, env: Envelope, at: int, st: HandoffState)
    ensures HandleOffer(c, s, env, at, st).Ok? ==> KeepsSettled(st, HandleOffer(c, s, env, at, st).value)
    ensures HandleContext(c, env, st).Ok? ==> KeepsSettled(st, HandleContext(c, env, st).value)
    ensures HandleAccept(c, s, env, st).Ok? ==> KeepsSettled(st, HandleAccept(c, s, env, st).value)
    ensures HandleDecline(c, env, st).Ok? ==> KeepsSettled(st, HandleDecline(c, env, st).value)
  {
  }

  /** A settled offer stays settled. */
  lemma {:induction false} MessageKeepsSettled(c: Codec, s: Session, env: Envelope, at: int) returns (st': HandoffState)
    requires c.RoundTrips() && LoadState(c, s).Ok? && s.bind.semanticsRev >= 2 && OnMessage(c, s, env, at).Ok?
    ensures Becomes(c, s, Commit(s, env, OnMessage(c, s, env, at).value), st') && KeepsSettled(LoadState(c, s).value, st')
  {
    var st := LoadState(c, s).value;
    HandlersKeepSettled(c, s, env, at, st);
    st' :=
      if env.messageType == "HandoffOffer" then HandleOffer(c, s, env, at, st).value
      else if env.messageType == "HandoffContext" then HandleContext(c, env, st).value
      else if env.messageType == "HandoffAccept" then HandleAccept(c, s, env, st).value
      else if env.messageType == "HandoffDecline" then HandleDecline(c, env, st).value
      else st.(offers := st.offers);
  }

  lemma {:induction false} UnsquattedGrows(seen: set<string>, id: string, st: HandoffState, st': HandoffState)
    requires Unsquatted(seen, st) && KeepsSettled(st, st')
    requires StartsWith(id, IMPLICIT_ACCEPT_PREFIX) ==> Settled(st', id[|IMPLICIT_ACCEPT_PREFIX|..])
    ensures Unsquatted(seen + {id}, st')
  {
  }

  /** The mode's own envelope settles the offer its id is for. */
  lemma {:induction false} DueSettles(c: Codec, s: Session, now: int)
    requires c.RoundTrips() && SaneInv(c, s) && Due(c, s, now).Some?
    ensures
      var env := Due(c, s, now).value;
      && OnMessage(c, s, env, env.timestamp).Ok?
      && c.decodeState(Commit(s, env, OnMessage(c, s, env, env.timestamp).value).modeState).Some?
      && Settled(c.decodeState(Commit(s, env, OnMessage(c, s, env, env.timestamp).value).modeState).value, env.messageId[|IMPLICIT_ACCEPT_PREFIX|..])
  {
    var st := c.decodeState(s.modeState).value;
    var offer, env := Outstanding(st).value, Due(c, s, now).value;
    var h := offer.handoffId;
    assert h in st.offers && st.offers[h] == offer;
    assert env.messageId[|IMPLICIT_ACCEPT_PREFIX|..] == h;
    assert HandleAccept(c, s, env, st).Ok?;
  }

  lemma {:induction false} MessageKeepsSane(c: Codec, s: Session, env: Envelope, at: int)
    requires c.RoundTrips() && SaneInv(c, s) && OnMessage(c, s, env, at).Ok?
    ensures SaneInv(c, Commit(s, env, OnMessage(c, s, env, at).value))
  {
    var st := c.decodeState(s.modeState).value;
    if env.messageType == "HandoffOffer" { SaneOffer(c, s, env, at, st); }
    else if env.messageType == "HandoffContext" { SaneContext(c, s, env, st); }
    else if env.messageType == "HandoffAccept" { SaneAccept(c, s, env, st); }
    else if env.messageType == "HandoffDecline" { SaneDecline(c, s, env, st); }
    else {
      assert st.(offers := st.offers) == st;
      SaneInferred(s, Timeout(c, s), at, st);
    }
  }

  /** A validated client message does not take the id of an implicit accept, and the
      mode's own settles its offer. */
  lemma {:induction false} MessageKeepsInv(c: Codec, s: Session, env: Envelope, at: int)
    requires c.RoundTrips() && HandoffInv(c, s) && OnMessage(c, s, env, at).Ok?
    requires ValidateClient(c, s, env).Ok? || IsSynthetic(HandoffMode(c), s, env, at)
    ensures HandoffInv(c, Commit(s, env, OnMessage(c, s, env, at).value))
  {
    MessageKeepsSane(c, s, env, at);
    if s.bind.semanticsRev >= 2 {
      var st' := MessageKeepsSettled(c, s, env, at);
      if ValidateClient(c, s, env).Err? {
        var now :| Due(c, s, now) == Some(env);
        DueSettles(c, s, now);
      }
      UnsquattedGrows(s.seen, env.messageId, c.decodeState(s.modeState).value, st');
    }
  }

  /** An implicit accept that applies settles the offer and nothing else. */
  lemma {:induction false} ImplicitAcceptSettles(c: Codec, s: Session, now: int)
    requires c.RoundTrips() && HandoffInv(c, s) && Due(c, s, now).Some?
    ensures
      var env := Due(c, s, now).value;
      && OnMessage(c, s, env, env.timestamp).Ok?
      && !OnMessage(c, s, env, env.timestamp).value.Resolves()
      && forall later :: Due(c, Commit(s, env, OnMessage(c, s, env, env.timestamp).value), later) == None
  {
    var st := c.decodeState(s.modeState).value;
    var offer := Outstanding(st).value;
    var env := Due(c, s, now).value;
    var h := offer.handoffId;
    assert h in st.offers && st.offers[h] == offer;
    var settled := offer.(disposition := Disposition.Accepted, acceptedBy := Some(offer.target), outcomeReason := Some(IMPLICIT_ACCEPT_REASON));
    assert HandleAccept(c, s, env, st) == Ok(st.(offers := st.offers[h := settled]));
    SettledOffer(s, st, h, settled);
    var after := Commit(s, env, OnMessage(c, s, env, env.timestamp).value);
    assert c.decodeState(after.modeState) == Some(st.(offers := st.offers[h := settled]));
  }

  lemma DueStable(c: Codec, s: Session, now: int, later: int)
    requires Due(c, s, now).Some? && now <= later
    ensures Due(c, s, later) == Due(c, s, now)
  {
  }

  lemma {:induction false} HandoffSynthesis(c: Codec, s: Session, now: int)
    requires c.RoundTrips() && HandoffInv(c, s) && Due(c, s, now).Some?
    ensures SynthesisLaw(HandoffMode(c), s, now)
  {
    var mode, env := HandoffMode(c), Due(c, s, now).value;
    ImplicitAcceptSettles(c, s, now);
    forall later: int | now <= later ensures mode.due(s, later) == Some(env) { DueStable(c, s, now, later); }
    assert StartsWith(env.messageId, IMPLICIT_ACCEPT_PREFIX);
    assert SettlesQuietly(mode, s, env, mode.onMessage(s, env, env.timestamp).value);
  }

  lemma MessageBlind(c: Codec, s: Session, env: Envelope, at: int)
    requires s.bind.semanticsRev >= 1
    ensures OnMessage(c, s, FillTimestamp(env, at), at) == OnMessage(c, s, env, at)
  {
  }

  /** An offer without a timestamp is answered alike live and on replay exactly from
      revision 1 on: revision 0 stamps it with the client's timestamp. */
  lemma {:induction false} OfferBlindIff(c: Codec, s: Session, env: Envelope, at: int)
    requires c.RoundTrips() && env.messageType == "HandoffOffer" && OnMessage(c, s, env, at).Ok? && env.timestamp == 0 && at != 0
    ensures OnMessage(c, s, FillTimestamp(env, at), at) == OnMessage(c, s, env, at) <==> s.bind.semanticsRev >= 1
  {
    if s.bind.semanticsRev >= 1 {
      MessageBlind(c, s, env, at);
    } else {
      var st, h := LoadState(c, s).value, c.decodeOffer(env.payload).value.handoffId;
      var live, replayed := HandleOffer(c, s, env, 0, st).value, HandleOffer(c, s, FillTimestamp(env, at), at, st).value;
      assert live.offers[h].offeredAt == 0 && replayed.offers[h].offeredAt == at;
      assert c.decodeState(c.encodeState(live)) != c.decodeState(c.encodeState(replayed));
    }
  }

  lemma HandoffTimestampBlind(c: Codec, inv: Session -> bool)
    requires forall s :: inv(s) ==> s.bind.semanticsRev >= 1
    ensures TimestampBlind(HandoffMode(c), inv)
  {
    forall s: Session, env: Envelope, at: int | inv(s)
      ensures OnMessage(c, s, FillTimestamp(env, at), at) == OnMessage(c, s, env, at)
    {
      MessageBlind(c, s, env, at);
    }
  }

  /** Transitions that leave the mode state alone keep the invariant. */
  lemma QuietKeepsInv(c: Codec, s: Session, s': Session)
    requires HandoffInv(c, s) && s'.bind == s.bind && s'.modeState == s.modeState && s'.seen == s.seen
    ensures HandoffInv(c, s')
  {
  }

  lemma {:induction false} HandoffKeeps(c: Codec, when: int -> bool)
    requires c.RoundTrips()
    ensures KeepsInvariant(HandoffMode(c), s => HandoffInv(c, s), when)
  {
    var mode, inv := HandoffMode(c), (s: Session) => HandoffInv(c, s);
    forall s: Session, env: Envelope, at: int | inv(s) && mode.onMessage(s, env, at).Ok? && MayReach(mode, s, env, at, when)
      ensures inv(Commit(s, env, mode.onMessage(s, env, at).value))
    {
      MessageKeepsInv(c, s, env, at);
    }
    forall s: Session, at: int | inv(s) ensures inv(s.Suspend(at).session) && inv(s.Resume(at).session) {
      QuietKeepsInv(c, s, s.Suspend(at).session);
      QuietKeepsInv(c, s, s.Resume(at).session);
    }
    forall s: Session | inv(s) ensures inv(s.Cancel().session) && inv(s.Expire().session) && inv(s.(state := Expired)) {
      QuietKeepsInv(c, s, s.Cancel().session);
      QuietKeepsInv(c, s, s.Expire().session);
      QuietKeepsInv(c, s, s.(state := Expired));
    }
  }

  /** The shipped handoff mode meets every law the kernel theorems assume. */
  lemma {:induction false} HandoffLawful(c: Codec, when: int -> bool)
    requires c.RoundTrips()
    ensures Lawful(HandoffMode(c), s => HandoffInv(c, s), when)
  {
    HandoffTimestampBlind(c, s => HandoffInv(c, s));
    HandoffKeeps(c, when);
    forall s: Session, now: int | HandoffInv(c, s) && Due(c, s, now).Some? ensures SynthesisLaw(HandoffMode(c), s, now) {
      HandoffSynthesis(c, s, now);
    }
  }

  /** The id of a due implicit accept has not been taken, so deduplication never hides
      one. */
  lemma {:induction false} DueUnseen(c: Codec, s: Session, now: int)
    requires HandoffInv(c, s) && Due(c, s, now).Some?
    ensures Due(c, s, now).value.messageId !in s.seen
  {
    var offer := Outstanding(c.decodeState(s.modeState).value).value;
    assert Due(c, s, now).value.messageId[|IMPLICIT_ACCEPT_PREFIX|..] == offer.handoffId;
  }

  /** Its own synthetic envelope is never refused, so synthesis fails only when
      storage does. */
  lemma {:induction false} SyntheticNeverRefused(c: Codec, s: Session, now: int)
    requires c.RoundTrips() && HandoffInv(c, s)
    ensures NextSynthetic(HandoffMode(c), s, now).Ok?
  {
    if Due(c, s, now).Some? { ImplicitAcceptSettles(c, s, now); }
  }

  /** Over every run of a handoff session: responsibility is offered to at most one
      participant who has not declined it and, from revision 4 on, never twice to
      the same one; only that participant accepts or declines; and context comes
      only from whoever made the offer. */
  lemma {:induction false} OneHandoffAtATime(sc: Scope, c: Codec, k: Kernel, steps: seq<Step>)
    requires c.RoundTrips() && sc.mode == HandoffMode(c) && sc.inv == ((s: Session) => HandoffInv(c, s)) && Good(sc, k)
    requires forall i :: 0 <= i < |steps| ==> Ticks(sc, steps[i].world)
    ensures
      var s := Run(sc.ctx, sc.cfg, k, steps).session;
      && c.decodeState(s.modeState).Some?
      && var st := c.decodeState(s.modeState).value;
         && (forall h :: h in st.offers ==> Honest(s.bind.participants, h, st.offers[h]))
         && (forall h, h' :: h in st.offers && h' in st.offers && h != h' ==>
               && (st.offers[h].disposition == Declined || st.offers[h'].disposition == Declined)
               && (s.bind.semanticsRev >= DECLINED_TARGET_BAR_REV ==> st.offers[h].target != st.offers[h'].target))
         && (forall h :: h in st.contexts ==> h in st.offers && ContextFrom(st.contexts[h], st.offers[h].offeredBy))
  {
    HandoffLawful(c, sc.when);
    ReplayRefinesRun(sc, k, steps);
    var end := Run(sc.ctx, sc.cfg, k, steps);
    assert HandoffInv(c, Meaning(sc.ctx, sc.id, end.durable).value);
    QuietKeepsInv(c, Meaning(sc.ctx, sc.id, end.durable).value, end.session);
  }

  lemma {:induction false} HandoffStarts(c: Codec)
    requires c.RoundTrips()
    ensures EstablishesInvariant(HandoffMode(c), s => HandoffInv(c, s))
  {
    forall s: Session, env: Envelope |
        s.bind.semanticsRev == CURRENT_SEMANTICS_REV && s.seen == {} && OnStart(c, s, env).Ok? && ValidateClient(c, s, env).Ok?
      ensures HandoffInv(c, Commit(s, env, OnStart(c, s, env).value))
    {
    }
  }

  /** Without any law left to assume: every run of a handoff session, from its accepted
      start on, leaves a log that replays to the live session. */
  lemma {:induction false} HandoffRunsReplay(ctx: Context, cfg: Config, c: Codec, env: Envelope, now: int, steps: seq<Step>)
    requires c.RoundTrips() && ctx.modes(env.mode) == Some(HandoffMode(c)) && PrepareStart(ctx, env, now).Ok?
    requires forall i :: 0 <= i < |steps| ==> steps[i].world.clock(Commitment) != 0
    ensures
      var end := Run(ctx, cfg, StartedKernel(PrepareStart(ctx, env, now).value, env), steps);
      && end.memory == end.durable
      && Replayed(ctx, env.sessionId, end.durable).Ok?
      && Agree(Replayed(ctx, env.sessionId, end.durable).value, end.session)
  {
    var sc := Scope(ctx, cfg, env.sessionId, HandoffMode(c), (s: Session) => HandoffInv(c, s), S.Always);
    HandoffLawful(c, S.Always);
    HandoffStarts(c);
    EveryRunReplays(sc, env, now, steps);
  }
}
