/** `recorded_history` (src/replay.rs:412-449): the events what-if replay runs are
    those full replay applies, and each is reported under its accepted ordinal. */
module WhatIf {
  import opened Sessions
  import opened Modes
  import opened Logs
  import opened Replay

  /** The events after the start, and per event its 0-based position in the accepted
      history; runtime-internal events have none. */
  datatype History = History(startPos: nat, events: seq<ReplayEvent>, index: seq<Option<nat>>)

  function EventsOf(entries: Log, sessionId: string, mode: string): seq<ReplayEvent> {
    if entries == [] then []
    else
      var event := EventOf(Last(entries), sessionId, mode);
      EventsOf(DropLast(entries), sessionId, mode) + if event.Some? then [event.value] else []
  }

  function IndexOf(entries: Log, sessionId: string, mode: string): seq<Option<nat>> {
    if entries == [] then []
    else
      var front, last := DropLast(entries), Last(entries);
      IndexOf(front, sessionId, mode) +
      if EventOf(last, sessionId, mode).None? then []
      else if last.kind == Incoming then [Some(|Accepted(front)| + 1)] else [None]
  }

  predicate Compacted(log: Log) { exists i :: 0 <= i < |log| && log[i].kind == Checkpoint && log[i].compacted > 0 }

  function RecordedHistoryOf(ctx: Context, sessionId: string, mode: string, log: Log): Result<Option<History>> {
    var at := StartPosition(log);
    if Compacted(log) || at.None? then Ok(None)
    else if log[at.value].mode == "" then Err(InvalidPayload)
    else if ctx.modes(log[at.value].mode).None? then Err(UnknownMode)
    else
      var rest := log[at.value + 1..];
      Ok(Some(History(at.value, EventsOf(rest, sessionId, mode), IndexOf(rest, sessionId, mode))))
  }

  method RecordedHistory(ctx: Context, sessionId: string, mode: string, log: Log) returns (r: Result<Option<History>>)
    ensures r == RecordedHistoryOf(ctx, sessionId, mode, log)
  {
    var i := 0;
    while i < |log|
      invariant 0 <= i <= |log| && !Compacted(log[..i])
    {
      if log[i].kind == Checkpoint && log[i].compacted > 0 { return Ok(None); }
      assert log[..i + 1] == log[..i] + [log[i]];
      i := i + 1;
    }
    assert log[..i] == log;
    var at := StartPosition(log);
    if at.None? { return Ok(None); }
    if log[at.value].mode == "" { return Err(InvalidPayload); }
    if ctx.modes(log[at.value].mode).None? { return Err(UnknownMode); }
    var entries := log[at.value + 1..];
    var events: seq<ReplayEvent>, index: seq<Option<nat>>, next := [], [], 1;
    i := 0;
    while i < |entries|
      invariant 0 <= i <= |entries| && next == |Accepted(entries[..i])| + 1
      invariant events == EventsOf(entries[..i], sessionId, mode) && index == IndexOf(entries[..i], sessionId, mode)
    {
      assert DropLast(entries[..i + 1]) == entries[..i];
      var event := EventOf(entries[i], sessionId, mode);
      if event.Some? {
        if entries[i].kind == Incoming {
          index := index + [Some(next)];
          next := next + 1;
        } else {
          index := index + [None];
        }
        events := events + [event.value];
      }
      i := i + 1;
    }
    assert entries[..i] == entries;
    return Ok(Some(History(at.value, events, index)));
  }

  // ---- The events are the replayed ones ------------------------------------

  function ApplyEvents(mode: Mode, s: Session, events: seq<ReplayEvent>): Result<Session> {
    if events == [] then Ok(s)
    else
      var before := ApplyEvents(mode, s, DropLast(events));
      if before.Err? then before else ApplyEvent(mode, before.value, Last(events))
  }

  /** Applying a stretch of the log is applying its events. */
  lemma {:induction false} EntriesAreEvents(mode: Mode, sessionId: string, s: Session, entries: Log)
    ensures ApplyEntries(mode, sessionId, s, entries) == ApplyEvents(mode, s, EventsOf(entries, sessionId, s.bind.mode))
  {
    if entries != [] {
      var front, events := DropLast(entries), EventsOf(entries, sessionId, s.bind.mode);
      EntriesAreEvents(mode, sessionId, s, front);
      BindingsKept(mode, sessionId, s, front);
      if EventOf(Last(entries), sessionId, s.bind.mode).Some? {
        assert DropLast(events) == EventsOf(front, sessionId, s.bind.mode);
      } else {
        assert events == EventsOf(front, sessionId, s.bind.mode);
      }
    }
  }

  lemma {:induction false} CompactedIffBase(log: Log)
    ensures Compacted(log) <==> Base(log) > 0
  {
    if log != [] {
      var front := DropLast(log);
      CompactedIffBase(front);
      assert log == front + [Last(log)];
      if i :| 0 <= i < |front| && front[i].kind == Checkpoint && front[i].compacted > 0 { assert log[i] == front[i]; }
    }
  }

  lemma {:induction false} MeaningAfterStart(ctx: Context, sessionId: string, log: Log)
    requires Coherent(ctx, sessionId, log) && log[0].IsStart()
    ensures Head(ctx, sessionId, log[0]).Ok? && ctx.modes(log[0].mode).Some? && log[0].mode != ""
    ensures
      var start := Head(ctx, sessionId, log[0]).value;
      && start.bind == Meaning(ctx, sessionId, log).value.bind && start.bind.mode == log[0].mode
      && Meaning(ctx, sessionId, log) == ApplyEntries(ctx.modes(log[0].mode).value, sessionId, start, log[1..])
  {
    assert log[..1] == [log[0]];
    MeaningPrefix(ctx, sessionId, log, 1);
    MeaningSplit(ctx, sessionId, log, 1);
    StartBindsMode(ctx, sessionId, log[0]);
    BindingsKept(ctx.modes(log[0].mode).value, sessionId, Head(ctx, sessionId, log[0]).value, log[1..]);
  }

  /** What full replay computes, run from a recorded history. */
  ghost predicate RunsAsReplay(ctx: Context, sessionId: string, log: Log, h: History)
    requires log != []
  {
    && h.startPos == 0 && Head(ctx, sessionId, log[0]).Ok? && ctx.modes(log[0].mode).Some?
    && ApplyEvents(ctx.modes(log[0].mode).value, Head(ctx, sessionId, log[0]).value, h.events) == Replayed(ctx, sessionId, log)
  }

  /** The history is available exactly when nothing was compacted away, it starts at
      the head of the log, and running its events after the recorded start is full
      replay: one loop skips one entry, the other skips past the start, and they
      agree. */
  lemma {:induction false} HistoryIsReplay(ctx: Context, sessionId: string, log: Log)
    requires Coherent(ctx, sessionId, log)
    ensures
      var r := RecordedHistoryOf(ctx, sessionId, Meaning(ctx, sessionId, log).value.bind.mode, log);
      && r.Ok?
      && (r.value.Some? <==> Base(log) == 0)
      && (r.value.Some? ==> RunsAsReplay(ctx, sessionId, log, r.value.value))
  {
    CompactedIffBase(log);
    if !Compacted(log) {
      assert log[0].IsStart();
      MeaningAfterStart(ctx, sessionId, log);
      EntriesAreEvents(ctx.modes(log[0].mode).value, sessionId, Head(ctx, sessionId, log[0]).value, log[1..]);
      ReplayIsMeaning(ctx, sessionId, log);
    }
  }

  // ---- The indices are the ordinals ----------------------------------------

  function Numbered(index: seq<Option<nat>>): nat {
    if index == [] then 0 else Numbered(DropLast(index)) + if Last(index).Some? then 1 else 0
  }

  lemma {:induction false} NumberedCount(entries: Log, sessionId: string, mode: string)
    ensures Numbered(IndexOf(entries, sessionId, mode)) == |Accepted(entries)|
    ensures |IndexOf(entries, sessionId, mode)| == |EventsOf(entries, sessionId, mode)|
  {
    if entries != [] {
      var front, index := DropLast(entries), IndexOf(entries, sessionId, mode);
      NumberedCount(front, sessionId, mode);
      if EventOf(Last(entries), sessionId, mode).Some? {
        assert DropLast(index) == IndexOf(front, sessionId, mode);
      } else {
        assert index == IndexOf(front, sessionId, mode);
      }
    }
  }

  /** The indices of accepted entries are 1, 2, 3, ... without gaps, and messages are
      the events that have one. */
  lemma {:induction false} IndicesHaveNoGaps(entries: Log, sessionId: string, mode: string, k: nat)
    requires k < |IndexOf(entries, sessionId, mode)|
    ensures |IndexOf(entries, sessionId, mode)| == |EventsOf(entries, sessionId, mode)|
    ensures
      var index := IndexOf(entries, sessionId, mode);
      && (index[k].Some? <==> EventsOf(entries, sessionId, mode)[k].Message?)
      && (index[k].Some? ==> index[k].value == Numbered(index[..k]) + 1)
  {
    NumberedCount(entries, sessionId, mode);
    var front, index := DropLast(entries), IndexOf(entries, sessionId, mode);
    NumberedCount(front, sessionId, mode);
    var before := IndexOf(front, sessionId, mode);
    if k < |before| {
      IndicesHaveNoGaps(front, sessionId, mode, k);
      assert index[..k] == before[..k];
    } else {
      assert index[..k] == before;
    }
  }

  lemma {:induction false} LastIndex(entries: Log, sessionId: string, mode: string)
    requires entries != [] && Last(entries).kind == Incoming
    ensures
      var index, events := IndexOf(entries, sessionId, mode), EventsOf(entries, sessionId, mode);
      && index != [] && |index| == |events| && Last(index) == Some(|Accepted(entries)|)
      && Last(events) == Message(RecordedEnvelope(Last(entries), sessionId, mode), RecordedAt(Last(entries)))
  {
    NumberedCount(entries, sessionId, mode);
  }

  lemma {:induction false} StartIsFirst(log: Log, p: nat)
    requires p < |log| && log[0].IsStart()
    ensures |Accepted(log[..p + 1])| == |Accepted(log[1..p + 1])| + 1
  {
    assert log[..p + 1] == [log[0]] + log[1..p + 1];
    AcceptedAppend([log[0]], log[1..p + 1]);
    assert DropLast([log[0]]) == [];
  }

  /** Each accepted entry after the start is reported under its accepted ordinal
      minus one. */
  lemma {:induction false} IndexIsOrdinal(log: Log, sessionId: string, mode: string, p: nat)
    requires 0 < p < |log| && log[0].IsStart() && log[p].kind == Incoming
    ensures
      var index, events := IndexOf(log[1..], sessionId, mode), EventsOf(log[1..], sessionId, mode);
      && |index| == |events|
      && exists k :: 0 <= k < |index| && index[k] == Some(|Accepted(log[..p + 1])| - 1)
           && events[k] == Message(RecordedEnvelope(log[p], sessionId, mode), RecordedAt(log[p]))
  {
    var upTo := log[1..p + 1];
    StartIsFirst(log, p);
    LastIndex(upTo, sessionId, mode);
    NumberedCount(log[1..], sessionId, mode);
    assert log[1..][..p] == upTo;
    Grows(log[1..], p, sessionId, mode);
    var k := |IndexOf(upTo, sessionId, mode)| - 1;
    assert IndexOf(log[1..], sessionId, mode)[k] == Last(IndexOf(upTo, sessionId, mode));
    assert EventsOf(log[1..], sessionId, mode)[k] == Last(EventsOf(upTo, sessionId, mode));
  }

  lemma {:induction false} Grows(entries: Log, n: nat, sessionId: string, mode: string)
    requires n <= |entries|
    ensures IndexOf(entries[..n], sessionId, mode) <= IndexOf(entries, sessionId, mode)
    ensures EventsOf(entries[..n], sessionId, mode) <= EventsOf(entries, sessionId, mode)
  {
    if n == |entries| {
      assert entries[..n] == entries;
    } else {
      assert DropLast(entries)[..n] == entries[..n];
      Grows(DropLast(entries), n, sessionId, mode);
    }
  }
}
