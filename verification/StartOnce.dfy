/** One start per session id: what the durable log of an id holds through eviction and
    deletion, as long as the id is not taken again after them. */
module StartOnce {
  import opened Sessions
  import opened StartRaces

  /** The start of this call is durable or still on its way. */
  predicate Live(pc: Pc) { pc.Reserved? || pc.Created? || Durable(pc) }

  predicate Opening(pc: Pc) { pc.Prepared? || pc.Reserved? || pc.Created? || pc.Committed? }

  /** A session does not end before its start lets go of it. */
  predicate Unended(r: Race) {
    |r.objs| == |r.pcs| && forall t :: 0 <= t < |r.pcs| && Opening(r.pcs[t]) ==> !r.objs[t].terminal
  }

  predicate OneLive(r: Race) {
    forall t, u :: 0 <= t < |r.pcs| && 0 <= u < |r.pcs| && Live(r.pcs[t]) && Live(r.pcs[u]) ==> t == u
  }

  /** Every entry belongs to a session whose start is durable; none but the first is a
      start. */
  predicate Owned(r: Race) {
    && (forall i :: 0 <= i < |r.log| ==>
          r.log[i].o < |r.pcs| && Durable(r.pcs[r.log[i].o]) && (r.log[i].StartOf? ==> i == 0))
    && (r.log != [] ==> r.log[0].o < |r.pcs| && Durable(r.pcs[r.log[0].o]))
  }

  /** Without a rollback, what the keeper removed had ended. */
  predicate Quiesced(r: Race) {
    |r.objs| == |r.pcs| && (r.removed && !r.rolledBack ==>
      forall t :: 0 <= t < |r.pcs| && Live(r.pcs[t]) ==> r.pcs[t] == Done(Started) && r.objs[t].terminal)
  }

  predicate Headed(r: Race) { r.log != [] && (!r.rolledBack || !r.removed) ==> r.log[0].StartOf? }

  predicate Once(r: Race) { Unended(r) && OneLive(r) && Owned(r) && Quiesced(r) && Headed(r) }

  predicate Held(r: Race) { Invariant(r) && KeeperFine(r) && KeeperTarget(r) }

  // ---- Every event keeps it ------------------------------------------------

  lemma {:induction false} EventHeld(r: Race, e: Event)
    requires Held(r) && Enabled(r, e)
    ensures Held(Next(r, e))
  {
    EventKeeps(r, e);
    if OfStart(e) || OfAccess(e) { KeeperWaits(r, e); } else { KeeperActs(r, e); }
  }

  /** Whoever acts on an object that has not ended acts for a durable start. */
  lemma {:induction false} ActorIsDurable(r: Race, t: nat, ok: bool, ends: bool)
    requires Invariant(r) && Enabled(r, Act(t, ok, ends)) && !r.objs[r.pcs[t].o].terminal
    ensures r.pcs[t].o < |r.pcs| && r.pcs[r.pcs[t].o] == Done(Started)
  {
    assert CallFine(r, t);
    assert CallFine(r, r.pcs[t].o);
  }

  lemma {:induction false} StartUnended(r: Race, e: Event, u: nat)
    requires Unended(r) && OfStart(e) && Enabled(r, e) && u < |r.pcs| && Opening(Next(r, e).pcs[u])
    ensures !Next(r, e).objs[u].terminal
  {
    if u != e.t { assert Next(r, e).pcs[u] == r.pcs[u] && Next(r, e).objs[u] == r.objs[u]; }
  }

  lemma {:induction false} AccessUnended(r: Race, e: Event, u: nat)
    requires Unended(r) && OfAccess(e) && !e.Act? && Enabled(r, e) && u < |r.pcs| && Opening(Next(r, e).pcs[u])
    ensures !Next(r, e).objs[u].terminal
  {
    assert u != e.t && Next(r, e).pcs[u] == r.pcs[u] && Next(r, e).objs[u].terminal == r.objs[u].terminal;
  }

  lemma {:induction false} UnendedKeeps(r: Race, e: Event)
    requires Invariant(r) && Unended(r) && Enabled(r, e)
    ensures Unended(Next(r, e))
  {
    if e.Act? {
      if !r.objs[r.pcs[e.t].o].terminal { ActorIsDurable(r, e.t, e.ok, e.ends); }
    } else if OfStart(e) {
      forall u | 0 <= u < |r.pcs| && Opening(Next(r, e).pcs[u]) ensures !Next(r, e).objs[u].terminal { StartUnended(r, e, u); }
    } else if OfAccess(e) {
      forall u | 0 <= u < |r.pcs| && Opening(Next(r, e).pcs[u]) ensures !Next(r, e).objs[u].terminal { AccessUnended(r, e, u); }
    }
  }

  /** Nobody is live when an id is reserved, unless it was removed before. */
  lemma {:induction false} ReserveIsFirst(r: Race, t: nat)
    requires Invariant(r) && Enabled(r, Reserve(t)) && r.slot.None? && !r.removed && t < |r.pcs|
    ensures forall u :: 0 <= u < |r.pcs| ==> !Live(r.pcs[u])
  {
    forall u | 0 <= u < |r.pcs| ensures !Live(r.pcs[u]) { assert CallFine(r, u); }
  }

  lemma {:induction false} OneLiveKeeps(r: Race, e: Event)
    requires Invariant(r) && OneLive(r) && Enabled(r, e) && !Next(r, e).reused
    ensures OneLive(Next(r, e))
  {
    if e.Reserve? && r.slot.None? { ReserveIsFirst(r, e.t); }
    else { LiveOnlyByReserve(r, e); }
  }

  lemma {:induction false} LiveOnlyByReserve(r: Race, e: Event)
    requires |r.objs| == |r.pcs| && Enabled(r, e) && !(e.Reserve? && r.slot.None?)
    ensures forall u :: 0 <= u < |r.pcs| && Live(Next(r, e).pcs[u]) ==> Live(r.pcs[u])
  {
  }

  lemma {:induction false} DurableStays(r: Race, e: Event, o: nat)
    requires |r.objs| == |r.pcs| && Enabled(r, e) && o < |r.pcs| && Durable(r.pcs[o])
    ensures Durable(Next(r, e).pcs[o])
  {
  }

  /** A start on its way finds nothing in the log. */
  lemma {:induction false} StartIsFirst(r: Race, t: nat)
    requires OneLive(r) && Owned(r) && t < |r.pcs| && r.pcs[t].Created?
    ensures r.log == []
  {
    assert forall o :: 0 <= o < |r.pcs| && Live(r.pcs[o]) ==> o == t;
  }

  /** The log as it was, or emptied, or with one more entry of a durable start. */
  lemma {:induction false} OwnedGrows(r: Race, r': Race)
    requires Owned(r) && |r'.pcs| == |r.pcs| && forall o :: 0 <= o < |r.pcs| && Durable(r.pcs[o]) ==> Durable(r'.pcs[o])
    requires
      || r'.log == r.log
      || r'.log == []
      || (exists x: Item :: r'.log == r.log + [x] && x.o < |r.pcs| && Durable(r'.pcs[x.o]) && (x.StartOf? ==> r.log == []))
    ensures Owned(r')
  {
  }

  lemma {:induction false} OwnedKeeps(r: Race, e: Event)
    requires Invariant(r) && OneLive(r) && Owned(r) && Enabled(r, e)
    ensures Owned(Next(r, e))
  {
    forall o | 0 <= o < |r.pcs| && Durable(r.pcs[o]) ensures Durable(Next(r, e).pcs[o]) { DurableStays(r, e, o); }
    if e.Act? {
      if !r.objs[r.pcs[e.t].o].terminal { ActorIsDurable(r, e.t, e.ok, e.ends); }
    } else if e.AppendStart? && e.ok {
      StartIsFirst(r, e.t);
    }
    OwnedGrows(r, Next(r, e));
  }

  /** The keeper's removals, when nothing rolled back: the one live session had ended. */
  lemma {:induction false} RemovalQuiesces(r: Race, e: Event)
    requires Held(r) && Unended(r) && Quiesced(r) && Enabled(r, e) && Removal(e) && !r.rolledBack
    ensures Quiesced(Next(r, e))
  {
    if !r.removed {
      var o := Target(r.keeper).value;
      forall t | 0 <= t < |r.pcs| && Live(r.pcs[t]) ensures r.pcs[t] == Done(Started) && r.objs[t].terminal {
        assert CallFine(r, t);
        assert t == o;
      }
    }
  }

  lemma {:induction false} QuiescedKeeps(r: Race, e: Event)
    requires Held(r) && Unended(r) && Quiesced(r) && Enabled(r, e) && !Next(r, e).reused
    ensures Quiesced(Next(r, e))
  {
    if Removal(e) {
      if !r.rolledBack { RemovalQuiesces(r, e); }
    } else if r.removed && !r.rolledBack {
      LiveStaysEnded(r, e);
    }
  }

  lemma {:induction false} LiveStaysEnded(r: Race, e: Event)
    requires Invariant(r) && Quiesced(r) && Enabled(r, e) && !Next(r, e).reused && r.removed && !r.rolledBack
    ensures Quiesced(Next(r, e))
  {
    LiveOnlyByReserve(r, e);
    forall t | 0 <= t < |r.pcs| && Live(Next(r, e).pcs[t]) ensures Next(r, e).pcs[t] == Done(Started) && Next(r, e).objs[t].terminal {
      assert r.pcs[t] == Done(Started) && r.objs[t].terminal;
      TerminalStays(r, e, t);
    }
  }

  lemma {:induction false} HeadedKeeps(r: Race, e: Event)
    requires Invariant(r) && OneLive(r) && Owned(r) && Quiesced(r) && Headed(r) && Enabled(r, e)
    ensures Headed(Next(r, e))
  {
    if e.Act? && r.log == [] && !r.objs[r.pcs[e.t].o].terminal {
      ActorIsDurable(r, e.t, e.ok, e.ends);
    } else if e.AppendStart? && e.ok {
      StartIsFirst(r, e.t);
    }
  }

  lemma {:induction false} EventOnce(r: Race, e: Event)
    requires Held(r) && Once(r) && Enabled(r, e) && !Next(r, e).reused
    ensures Once(Next(r, e))
  {
    UnendedKeeps(r, e);
    OneLiveKeeps(r, e);
    OwnedKeeps(r, e);
    QuiescedKeeps(r, e);
    HeadedKeeps(r, e);
  }

  lemma {:induction false} ReuseStays(r: Race, events: seq<Event>, end: Race)
    requires Reaches(r, events, end) && r.reused
    ensures end.reused
    decreases |events|
  {
    if events != [] { ReuseStays(Next(r, events[0]), events[1..], end); }
  }

  lemma {:induction false} RunOnce(r: Race, events: seq<Event>, end: Race)
    requires Held(r) && Once(r) && Reaches(r, events, end) && !end.reused
    ensures Held(end) && Once(end)
    decreases |events|
  {
    if events != [] {
      var r' := Next(r, events[0]);
      if r'.reused { ReuseStays(r', events[1..], end); }
      EventHeld(r, events[0]);
      EventOnce(r, events[0]);
      RunOnce(r', events[1..], end);
    }
  }

  lemma {:induction false} ReuseNeedsRemoval(r: Race, events: seq<Event>, end: Race)
    requires Reaches(r, events, end) && (r.reused ==> r.removed)
    ensures end.reused ==> end.removed
    decreases |events|
  {
    if events != [] { ReuseNeedsRemoval(Next(r, events[0]), events[1..], end); }
  }

  // ---- The theorems --------------------------------------------------------

  /** Over every interleaving of starts, messages, storage failures, eviction and
      deletion, an id that is not taken again after a removal has one start: at most
      one call is answered Started, every entry of the log belongs to that session,
      no entry but the first is a start, and a log that is not empty begins with it
      unless a rollback and a removal came together. */
  lemma {:induction false} OneStartPerId(n: nat, events: seq<Event>, end: Race)
    requires Reaches(Fresh(n), events, end) && !end.reused
    ensures forall t, u :: 0 <= t < |end.pcs| && 0 <= u < |end.pcs| && Durable(end.pcs[t]) && Durable(end.pcs[u]) ==> t == u
    ensures forall i :: 0 <= i < |end.log| ==>
      && end.log[i].o == end.log[0].o < |end.pcs| && Durable(end.pcs[end.log[i].o])
      && (end.log[i].StartOf? ==> i == 0)
    ensures end.log != [] && (!end.rolledBack || !end.removed) ==> end.log[0].StartOf?
  {
    RunOnce(Fresh(n), events, end);
  }

  /** Start is atomic: while the id is not removed, the durable log is empty or
      begins with the one start that was ever appended, every other entry belongs
      to that session, a call answered Started is the one that appended it, and
      no entry belongs to a placeholder whose start rolled back. */
  lemma {:induction false} StartIsAtomic(n: nat, events: seq<Event>, end: Race)
    requires Reaches(Fresh(n), events, end) && !end.removed
    ensures end.log != [] ==> end.log[0].StartOf? && forall i :: 0 < i < |end.log| ==> end.log[i] == EntryOf(end.log[0].o)
    ensures forall t :: 0 <= t < |end.pcs| && end.pcs[t] == Done(Started) ==> end.log != [] && end.log[0] == StartOf(t)
    ensures forall i :: 0 <= i < |end.log| ==> end.log[i].o < |end.pcs| && !Failed(end.pcs[end.log[i].o])
  {
    ReuseNeedsRemoval(Fresh(n), events, end);
    OneStartPerId(n, events, end);
    RunKeeps(Fresh(n), events, end);
  }

  // ---- What a rollback does together with a removal ------------------------

  /** Call 0 rolled back while the keeper looked at its placeholder; call 2 then took
      the id, and call 1 is about to act on its session. */
  function Mistaken(): Race {
    Race(Some(2), [ENDED, FREE, Obj(false, Some(1))], [Done(RolledBack), Inside(2), Done(Started)], [StartOf(2)], Condemned(0), true, false, false)
  }

  function Condemning(): Race {
    Race(None, [ENDED, FREE, FREE], [Done(RolledBack), Idle, Idle], [], Condemned(0), true, false, false)
  }

  lemma {:induction false} ReachCondemning() returns (events: seq<Event>)
    ensures Reaches(Fresh(3), events, Condemning())
  {
    var r0 := Race(None, [FREE, FREE, FREE], [Idle, Idle, Idle], [], Resting, false, false, false);
    assert Fresh(3) == r0;
    var r1 := r0.(objs := [Obj(false, Some(0)), FREE, FREE], pcs := [Prepared, Idle, Idle]);
    var r2 := r1.(slot := Some(0), pcs := [Reserved, Idle, Idle]);
    var r3 := r2.(keeper := Looking(0));
    var r4 := r3.(objs := [Obj(true, Some(0)), FREE, FREE], pcs := [Rolling, Idle, Idle], rolledBack := true);
    var r5 := r4.(slot := None, pcs := [Unregistered, Idle, Idle]);
    var r6 := r5.(objs := [ENDED, FREE, FREE], pcs := [Done(RolledBack), Idle, Idle]);
    events := [CheckExisting(0), Reserve(0), KeeperLook, CreateStorage(0, false), Unregister(0), Release(0), KeeperCheck(true)];
    Chain([r0, r1, r2, r3, r4, r5, r6, Condemning()], events);
  }

  lemma {:induction false} ReachMistaken() returns (events: seq<Event>)
    ensures Reaches(Condemning(), events, Mistaken())
  {
    var d := Done(RolledBack);
    var held := [ENDED, FREE, Obj(false, Some(2))];
    var r1 := Condemning().(objs := held, pcs := [d, Idle, Prepared]);
    var r2 := r1.(slot := Some(2), pcs := [d, Idle, Reserved]);
    var r3 := r2.(pcs := [d, Idle, Created]);
    var r4 := r3.(pcs := [d, Idle, Committed], log := [StartOf(2)]);
    var r5 := r4.(objs := [ENDED, FREE, FREE], pcs := [d, Idle, Done(Started)]);
    var r6 := r5.(pcs := [d, Holding(2), Done(Started)]);
    events := [CheckExisting(2), Reserve(2), CreateStorage(2, true), AppendStart(2, true), Release(2), Look(1), Lock(1)];
    Chain([Condemning(), r1, r2, r3, r4, r5, r6, Mistaken()], events);
  }

  function Headless(): Race {
    Race(Some(2), [ENDED, FREE, Obj(false, Some(1))], [Done(RolledBack), Inside(2), Done(Started)], [EntryOf(2)], Deleted(Some(0)), true, true, false)
  }

  lemma {:induction false} ReachHeadless() returns (events: seq<Event>)
    ensures Reaches(Mistaken(), events, Headless())
  {
    var r1 := Headless().(log := []);
    events := [KeeperDelete(true), Act(1, true, false)];
    assert Moves(Mistaken(), KeeperDelete(true), r1);
    assert r1.objs[2 := Obj(false, Some(1))] == r1.objs && r1.log + [EntryOf(2)] == [EntryOf(2)];
    assert Moves(r1, Act(1, true, false), Headless());
    Chain([Mistaken(), r1, Headless()], events);
  }

  /** A deletion decided on a rolled-back placeholder deletes the log of the open session
      that took the id since, and its next entry begins a log without a start. */
  lemma {:induction false} DeletionLosesStart() returns (events: seq<Event>)
    ensures Reaches(Fresh(3), events, Headless())
    ensures !Headless().reused && Headless().log == [EntryOf(2)] && !Headless().objs[2].terminal
  {
    events := ReachCondemning();
    var more := ReachMistaken();
    events := Extend(events, Condemning(), more, Mistaken());
    more := ReachHeadless();
    events := Extend(events, Mistaken(), more, Headless());
  }
}
