/** The append-only session log of crates/macp-storage/src/log_store.rs and the
    entries src/runtime.rs writes to it. */
module Logs {
  import opened Sessions
  import opened Modes

  datatype EntryKind = Incoming | Internal | Checkpoint

  /** An entry's payload: wire bytes, or the serialized session of a checkpoint. */
  datatype Payload = Raw(bytes: Bytes) | Snapshot(session: Session)

  datatype LogEntry = LogEntry(
    messageId: string, receivedAt: int, sender: string, messageType: string,
    payload: Payload, kind: EntryKind, sessionId: string, mode: string,
    macpVersion: string, timestamp: int, boundModeVersion: Option<string>,
    semanticsRev: nat, boundMaxSuspend: Option<int>, compacted: nat)
  {
    predicate IsStart() { kind == Incoming && messageType == "SessionStart" }
  }

  type Log = seq<LogEntry>

  function IncomingEntry(env: Envelope, at: int): LogEntry {
    LogEntry(env.messageId, at, env.sender, env.messageType, Raw(env.payload), Incoming,
             env.sessionId, env.mode, env.macpVersion, env.timestamp, None, 0, None, 0)
  }

  function InternalEntry(messageType: string, payload: Bytes, s: Session, at: int): LogEntry {
    LogEntry("", at, "_runtime", messageType, Raw(payload), Internal,
             s.bind.sessionId, s.bind.mode, MACP_VERSION, at, None, 0, None, 0)
  }

  function CheckpointEntry(s: Session, at: int, compacted: nat): LogEntry {
    LogEntry("", at, "_runtime", "Checkpoint", Snapshot(s), Checkpoint,
             s.bind.sessionId, s.bind.mode, "", at, None, 0, None, compacted)
  }

  /** `Session::from(PersistedSession)`, then the forced session id. */
  function Restore(sessionId: string, s: Session): Session {
    var ttlMs := if s.bind.ttlMs > 0 then s.bind.ttlMs else Sat(s.ttlExpiry - s.bind.startedAt);
    s.(bind := s.bind.(sessionId := sessionId, ttlMs := ttlMs))
  }

  /** An accepted entry as a subscriber sees it. */
  function EnvelopeOf(e: LogEntry): Envelope {
    Envelope(if e.macpVersion == "" then MACP_VERSION else e.macpVersion, e.mode, e.messageType,
             e.messageId, e.sessionId, e.sender, if e.timestamp != 0 then e.timestamp else e.receivedAt,
             if e.payload.Raw? then e.payload.bytes else [])
  }

  // ---- Accepted ordinals ---------------------------------------------------

  function DropLast<T>(s: seq<T>): seq<T>
    requires s != []
  { s[..|s| - 1] }

  function Last<T>(s: seq<T>): T
    requires s != []
  { s[|s| - 1] }

  /** How many accepted ordinals compaction discarded. */
  function Base(log: Log): nat {
    if log == [] then 0
    else
      var base := Base(DropLast(log));
      if Last(log).kind == Checkpoint && Last(log).compacted > base then Last(log).compacted else base
  }

  /** The accepted entries still in the log, in order. */
  function Accepted(log: Log): Log {
    if log == [] then []
    else if Last(log).kind == Incoming then Accepted(DropLast(log)) + [Last(log)]
    else Accepted(DropLast(log))
  }

  function HighWater(log: Log): nat { Base(log) + |Accepted(log)| }

  datatype Ordinal = Ordinal(ordinal: nat, entry: LogEntry)
  datatype IncomingRead = Available(entries: seq<Ordinal>, highWater: nat) | BelowBase(base: nat)

  /** The read a subscriber makes: every accepted entry above `after`, with its
      ordinal, or a refusal when compaction discarded part of that range. */
  ghost predicate IsSnapshot(log: Log, after: nat, snap: IncomingRead) {
    match snap
    case BelowBase(base) => base == Base(log) && after < base
    case Available(entries, highWater) =>
      && Base(log) <= after
      && highWater == HighWater(log)
      && |entries| == (if after < highWater then highWater - after else 0)
      && forall i :: 0 <= i < |entries| ==>
           && entries[i].ordinal == after + 1 + i
           && entries[i].entry == Accepted(log)[after + i - Base(log)]
  }

  /** `LogStore::get_incoming_after_with_high_water`. */
  method GetIncomingAfterWithHighWater(log: Log, after: nat) returns (snap: IncomingRead)
    ensures IsSnapshot(log, after, snap)
  {
    var base := 0;
    var i := 0;
    while i < |log|
      invariant 0 <= i <= |log|
      invariant base == Base(log[..i])
    {
      assert DropLast(log[..i + 1]) == log[..i];
      if log[i].kind == Checkpoint && log[i].compacted > base { base := log[i].compacted; }
      i := i + 1;
    }
    assert log[..i] == log;
    if after < base { return BelowBase(base); }
    var highWater := base;
    var out: seq<Ordinal> := [];
    i := 0;
    while i < |log|
      invariant 0 <= i <= |log|
      invariant highWater == base + |Accepted(log[..i])|
      invariant |out| == (if after < highWater then highWater - after else 0)
      invariant forall j :: 0 <= j < |out| ==>
        && out[j].ordinal == after + 1 + j
        && out[j].entry == Accepted(log[..i])[after + j - base]
    {
      assert DropLast(log[..i + 1]) == log[..i];
      if log[i].kind == Incoming {
        highWater := highWater + 1;
        if highWater > after { out := out + [Ordinal(highWater, log[i])]; }
      }
      i := i + 1;
    }
    assert log[..i] == log;
    return Available(out, highWater);
  }

  lemma {:induction false} AcceptedAppend(a: Log, b: Log)
    ensures Accepted(a + b) == Accepted(a) + Accepted(b)
  {
    if b == [] {
      assert a + b == a;
    } else {
      assert DropLast(a + b) == a + DropLast(b);
      AcceptedAppend(a, DropLast(b));
    }
  }

  /** A log that opens with an accepted entry or a compacting checkpoint has a
      high-water mark. */
  lemma {:induction false} HighWaterPositive(log: Log)
    requires log != [] && (log[0].kind == Incoming || (log[0].kind == Checkpoint && log[0].compacted > 0))
    ensures HighWater(log) > 0
  {
    if |log| == 1 { assert DropLast(log) == []; } else { HighWaterPositive(DropLast(log)); }
  }
}
