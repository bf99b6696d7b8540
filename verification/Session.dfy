/** The session of crates/macp-core/src/session.rs: its immutable bindings, its
    life cycle (suspend, resume, cancel, expire) and the deadline arithmetic.

    The participant activity counters (`participant_message_counts`,
    `participant_last_seen`) are kept in `Activity`, beside the session: no mode
    reads them, no checkpoint carries them and replay never credits them. */
module Sessions {

  type Bytes = seq<bv8>

  const I64_MAX := 0x7FFF_FFFF_FFFF_FFFF
  const I64_MIN := -0x8000_0000_0000_0000
  const MAX_TTL_MS := 24 * 60 * 60 * 1000
  const MAX_SUSPEND_MS := 7 * 24 * 60 * 60 * 1000
  const MAX_SUSPENSION_CYCLES := 1024
  const CURRENT_SEMANTICS_REV := 4

  datatype Option<+T> = None | Some(value: T)

  datatype MacpError =
    | InvalidMacpVersion | InvalidEnvelope | InvalidPayload | InvalidTtl
    | InvalidSessionId | InvalidPolicyDefinition | UnknownPolicyVersion
    | UnknownMode | UnknownSession | SessionNotOpen | SessionAlreadyExists
    | TtlExpired | InvalidModeState | Forbidden | PolicyDenied | StorageFailed | RateLimited

  datatype Result<+T> = Ok(value: T) | Err(error: MacpError)

  /** `saturating_*` arithmetic on `i64`. */
  function Sat(x: int): int {
    if x > I64_MAX then I64_MAX else if x < I64_MIN then I64_MIN else x
  }

  function Max(x: int, y: int): int { if x < y then y else x }

  datatype SessionState = Open | Suspended | Resolved | Expired | Cancelled {
    predicate IsTerminal() { Resolved? || Expired? || Cancelled? }
  }

  datatype Root = Root(uri: string, name: string)

  datatype Policy = Policy(policyId: string, mode: string, rules: Bytes)

  /** What a session binds at SessionStart and never changes. */
  datatype Bindings = Bindings(
    sessionId: string, mode: string, initiator: string,
    participants: seq<string>, intent: string, modeVersion: string,
    configurationVersion: string, policyVersion: string, contextId: string,
    extensions: map<string, Bytes>, roots: seq<Root>, policy: Option<Policy>,
    ttlMs: int, startedAt: int, semanticsRev: nat, maxSuspend: int)

  /** A completed suspension, on the session timeline. */
  datatype Pause = Pause(from: int, to: int)

  datatype ModeResponse =
    | NoOp
    | PersistState(state: Bytes)
    | Resolve(resolution: Bytes)
    | PersistAndResolve(state: Bytes, resolution: Bytes)
  {
    predicate Resolves() { Resolve? || PersistAndResolve? }
  }

  datatype Activity = Activity(counts: map<string, nat>, lastSeen: map<string, int>) {
    function Credit(sender: string, now: int): Activity {
      Activity(counts[sender := (if sender in counts then counts[sender] else 0) + 1], lastSeen[sender := now])
    }
  }

  const NoActivity := Activity(map[], map[])

  /** A transition that may also report an error after changing the session. */
  datatype Moved = Moved(session: Session, error: Option<MacpError>)

  datatype Session = Session(
    bind: Bindings, state: SessionState, ttlExpiry: int,
    resolution: Option<Bytes>, modeState: Bytes, seen: set<string>,
    suspendedAt: Option<int>, accumulated: int, intervals: seq<Pause>)
  {
    function EffectiveMaxSuspend(): int {
      if bind.maxSuspend > 0 then bind.maxSuspend else MAX_SUSPEND_MS
    }

    function Suspend(now: int): Moved {
      if state != Open then Moved(this, Some(SessionNotOpen))
      else Moved(this.(state := Suspended, suspendedAt := Some(now)), None)
    }

    /** The suspension in flight at `now`, as `resume` banks it. */
    function Banked(now: int): int {
      Max(now - (if suspendedAt.Some? then suspendedAt.value else now), 0)
    }

    /** The session `resume` leaves before it checks either cap. */
    function Closed(now: int): Session {
      var from := if suspendedAt.Some? then suspendedAt.value else now;
      this.(
        accumulated := Sat(accumulated + Banked(now)),
        suspendedAt := None,
        intervals :=
          if bind.semanticsRev >= 2 || |intervals| < MAX_SUSPENSION_CYCLES
          then intervals + [Pause(from, now)] else intervals)
    }

    /** Past the duration cap (every revision) or the cycle cap (revision 2 on). */
    predicate OverCap() {
      || (bind.semanticsRev >= 2 && |intervals| > MAX_SUSPENSION_CYCLES)
      || accumulated > EffectiveMaxSuspend()
    }

    function Resume(now: int): Moved {
      if state != Suspended then Moved(this, Some(SessionNotOpen))
      else
        var closed := Closed(now);
        if closed.OverCap() then Moved(closed.(state := Expired), Some(TtlExpired))
        else Moved(closed.(ttlExpiry := Sat(ttlExpiry + Banked(now)), state := Open), None)
    }

    function Cancel(): Moved {
      if state.IsTerminal() then Moved(this, Some(SessionNotOpen))
      else Moved(this.(state := Cancelled, suspendedAt := None), None)
    }

    function Expire(): Moved {
      if state.IsTerminal() then Moved(this, Some(SessionNotOpen))
      else Moved(this.(state := Expired, suspendedAt := None), None)
    }

    predicate SuspendCapExceeded(now: int) {
      var inFlight := if suspendedAt.Some? then Max(now - suspendedAt.value, 0) else 0;
      Sat(accumulated + inFlight) > EffectiveMaxSuspend()
    }

    predicate DeadlinePassed(now: int) {
      match state
      case Open => now > ttlExpiry
      case Suspended => SuspendCapExceeded(now)
      case _ => false
    }

    function ApplyResponse(r: ModeResponse): Session {
      match r
      case NoOp => this
      case PersistState(st) => this.(modeState := st)
      case Resolve(res) => this.(state := Resolved, resolution := Some(res))
      case PersistAndResolve(st, res) =>
        this.(modeState := st, state := Resolved, resolution := Some(res))
    }

    function Take(messageId: string): Session { this.(seen := seen + {messageId}) }

    /** What holds of every session the kernel builds. */
    predicate WellFormed() {
      && bind.ttlMs > 0
      && bind.mode != ""
      && bind.policy.Some?
      && (state == Suspended ==> suspendedAt.Some?)
      && (state == Open || state == Cancelled || state == Resolved ==> suspendedAt.None?)
    }
  }
}
