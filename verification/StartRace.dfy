/** Everything that can race on one session id (src/runtime.rs:962-1147, 2133-2392):
    starts, messages and control operations, storage failures, and the
    maintenance loop that evicts sessions from memory and deletes them from disk.

    Call `t` may be a start; session object `t` is then the one it
    builds. `slot` is what the registry map holds under the id; a call reaches a
    session object only through it, and acts on it only under its mutex. */
module StartRaces {
  import opened Sessions

  datatype Obj = Obj(terminal: bool, lockedBy: Option<nat>)

  datatype Answer = Started | RolledBack | Duplicate(terminal: bool) | AlreadyExists | NotFound | Acted

  datatype Pc =
    | Idle
    | Prepared            // the session is built and locked, not yet registered
    | Reserved            // registered, storage not yet created
    | Created             // storage created, start not yet appended
    | Rolling             // storage failed: poisoned, still registered
    | Unregistered        // poisoned and removed, still locked
    | Committed           // the start is durable, still locked
    | Existing(o: nat)    // a start that found the id taken, waiting for its lock
    | Holding(o: nat)     // another operation that took the shared handle
    | Inside(o: nat)      // ... and locked it
    | Done(answer: Answer)

  datatype Item = StartOf(o: nat) | EntryOf(o: nat)

  /** The maintenance loop: it looks at an object under its lock, or at the stored
      snapshot, and acts on the id after releasing it. Eviction removes the id from
      the registry; deletion deletes it from storage first. */
  datatype Keeper =
    | Resting
    | Looking(o: nat)
    | Condemned(o: nat)
    | StoredOnly
    | Deleted(target: Option<nat>)   // deleted from storage, still registered

  /** `rolledBack`, `removed` and `reused` record whether a start ever rolled back,
      the keeper ever took the id out of the registry or storage, and a start ever
      reserved it after that. */
  datatype Race = Race(slot: Option<nat>, objs: seq<Obj>, pcs: seq<Pc>, log: seq<Item>, keeper: Keeper,
                       rolledBack: bool, removed: bool, reused: bool)

  datatype Event =
    | CheckExisting(t: nat)
    | Reserve(t: nat)
    | CreateStorage(t: nat, ok: bool)
    | AppendStart(t: nat, ok: bool)
    | Unregister(t: nat)
    | Release(t: nat)
    | AnswerExisting(t: nat, seen: bool)
    | Look(t: nat)
    | Lock(t: nat)
    | Act(t: nat, ok: bool, ends: bool)
    | Unlock(t: nat)
    | KeeperLook
    | KeeperCheck(stale: bool)
    | KeeperStored(eligible: bool)
    | KeeperEvict
    | KeeperDelete(ok: bool)
    | KeeperUnregister

  /** The call an event belongs to is at the point where it happens. */
  predicate Enabled(r: Race, e: Event) {
    |r.objs| == |r.pcs| &&
    match e
    case CheckExisting(t) => t < |r.pcs| && r.pcs[t] == Idle
    case Reserve(t) => t < |r.pcs| && r.pcs[t] == Prepared
    case CreateStorage(t, _) => t < |r.pcs| && r.pcs[t] == Reserved
    case AppendStart(t, _) => t < |r.pcs| && r.pcs[t] == Created
    case Unregister(t) => t < |r.pcs| && r.pcs[t] == Rolling
    case Release(t) => t < |r.pcs| && (r.pcs[t] == Committed || r.pcs[t] == Unregistered)
    case AnswerExisting(t, _) => t < |r.pcs| && r.pcs[t].Existing? && r.pcs[t].o < |r.objs| && r.objs[r.pcs[t].o].lockedBy.None?
    case Look(t) => t < |r.pcs| && r.pcs[t] == Idle
    case Lock(t) => t < |r.pcs| && r.pcs[t].Holding? && r.pcs[t].o < |r.objs| && r.objs[r.pcs[t].o].lockedBy.None?
    case Act(t, _, _) => t < |r.pcs| && r.pcs[t].Inside? && r.pcs[t].o < |r.objs|
    case Unlock(t) => t < |r.pcs| && r.pcs[t].Inside? && r.pcs[t].o < |r.objs|
    case KeeperLook => r.keeper.Resting? && r.slot.Some?
    case KeeperCheck(_) => r.keeper.Looking? && r.keeper.o < |r.objs| && r.objs[r.keeper.o].lockedBy.None?
    case KeeperStored(_) => r.keeper.Resting? && r.slot.None? && r.log != []
    case KeeperEvict => r.keeper.Condemned?
    case KeeperDelete(_) => r.keeper.Condemned? || r.keeper.StoredOnly?
    case KeeperUnregister => r.keeper.Deleted?
  }

  function Goto(r: Race, t: nat, pc: Pc): Race
    requires t < |r.pcs|
  {
    r.(pcs := r.pcs[t := pc])
  }

  function Poison(r: Race, t: nat): Race
    requires t < |r.pcs| && t < |r.objs|
  {
    Goto(r, t, Rolling).(objs := r.objs[t := r.objs[t].(terminal := true)], rolledBack := true)
  }

  function Next(r: Race, e: Event): Race
    requires Enabled(r, e)
  {
    match e
    case CheckExisting(t) =>
      if r.slot.Some? then Goto(r, t, Existing(r.slot.value))
      else Goto(r, t, Prepared).(objs := r.objs[t := Obj(false, Some(t))])
    case Reserve(t) =>
      if r.slot.Some? then Goto(r, t, Done(AlreadyExists))
      else Goto(r, t, Reserved).(slot := Some(t), reused := r.reused || r.removed)
    case CreateStorage(t, ok) => if ok then Goto(r, t, Created) else Poison(r, t)
    case AppendStart(t, ok) => if ok then Goto(r, t, Committed).(log := r.log + [StartOf(t)]) else Poison(r, t)
    case Unregister(t) => Goto(r, t, Unregistered).(slot := None)
    case Release(t) =>
      Goto(r, t, Done(if r.pcs[t] == Committed then Started else RolledBack)).(objs := r.objs[t := r.objs[t].(lockedBy := None)])
    case AnswerExisting(t, seen) =>
      Goto(r, t, Done(if seen then Duplicate(r.objs[r.pcs[t].o].terminal) else AlreadyExists))
    case Look(t) => Goto(r, t, if r.slot.Some? then Holding(r.slot.value) else Done(NotFound))
    case Lock(t) => Goto(r, t, Inside(r.pcs[t].o)).(objs := r.objs[r.pcs[t].o := r.objs[r.pcs[t].o].(lockedBy := Some(t))])
    case Act(t, ok, ends) =>
      var o := r.pcs[t].o;
      if r.objs[o].terminal || !ok then r
      else r.(log := r.log + [EntryOf(o)], objs := r.objs[o := r.objs[o].(terminal := ends)])
    case Unlock(t) => Goto(r, t, Done(Acted)).(objs := r.objs[r.pcs[t].o := r.objs[r.pcs[t].o].(lockedBy := None)])
    case KeeperLook => r.(keeper := Looking(r.slot.value))
    case KeeperCheck(stale) => r.(keeper := if stale && r.objs[r.keeper.o].terminal then Condemned(r.keeper.o) else Resting)
    case KeeperStored(eligible) => r.(keeper := if eligible then StoredOnly else Resting)
    case KeeperEvict => r.(slot := None, keeper := Resting, removed := true)
    case KeeperDelete(ok) =>
      if ok then r.(log := [], keeper := Deleted(if r.keeper.Condemned? then Some(r.keeper.o) else None), removed := true)
      else r.(keeper := Resting)
    case KeeperUnregister => r.(slot := None, keeper := Resting, removed := true)
  }

  predicate Reaches(r: Race, events: seq<Event>, end: Race)
    decreases |events|
  {
    if events == [] then end == r
    else Enabled(r, events[0]) && Reaches(Next(r, events[0]), events[1..], end)
  }

  /** `n` calls are about to race on an id nobody has used. */
  function Fresh(n: nat): Race {
    Race(None, seq(n, _ => Obj(false, None)), seq(n, _ => Idle), [], Resting, false, false, false)
  }

  // ---- The invariant -------------------------------------------------------

  /** The object of this call is, or was, in the map and can still be acted on. */
  predicate Registered(pc: Pc) { pc.Reserved? || pc.Created? || pc.Rolling? || pc.Committed? || pc == Done(Started) }

  predicate Durable(pc: Pc) { pc.Committed? || pc == Done(Started) }

  predicate Failed(pc: Pc) { pc.Rolling? || pc.Unregistered? || pc == Done(RolledBack) }

  predicate Starting(pc: Pc) { pc.Prepared? || pc.Reserved? || pc.Created? || pc.Rolling? || pc.Unregistered? || pc.Committed? }

  /** What is true of call `t` whatever the others do. */
  predicate CallFine(r: Race, t: nat)
    requires t < |r.pcs| == |r.objs|
  {
    var pc := r.pcs[t];
    && (Starting(pc) ==> r.objs[t].lockedBy == Some(t))
    && (Failed(pc) ==> r.objs[t].terminal && r.rolledBack)
    && (Registered(pc) ==> r.removed || r.slot == Some(t))
    && (pc.Existing? || pc.Holding? || pc.Inside? ==> pc.o < |r.pcs| && (Registered(r.pcs[pc.o]) || Failed(r.pcs[pc.o])))
    && (pc.Inside? ==> r.objs[pc.o].lockedBy == Some(t))
    && (pc == Done(Duplicate(false)) ==> r.removed || r.log != [])
  }

  predicate LogFine(r: Race) {
    if r.log == [] then forall t :: 0 <= t < |r.pcs| ==> !Durable(r.pcs[t])
    else
      && r.log[0].StartOf? && r.log[0].o < |r.pcs| && Durable(r.pcs[r.log[0].o])
      && forall i :: 0 < i < |r.log| ==> r.log[i] == EntryOf(r.log[0].o)
  }

  predicate Invariant(r: Race) {
    && |r.objs| == |r.pcs|
    && (forall t :: 0 <= t < |r.pcs| ==> CallFine(r, t))
    && (r.slot.Some? ==> r.slot.value < |r.pcs| && Registered(r.pcs[r.slot.value]))
    && (r.removed || LogFine(r))
  }

  // ---- Every event keeps it ------------------------------------------------

  predicate OfStart(e: Event) { e.CheckExisting? || e.Reserve? || e.CreateStorage? || e.AppendStart? || e.Unregister? || e.Release? }

  predicate OfAccess(e: Event) { e.AnswerExisting? || e.Look? || e.Lock? || e.Act? || e.Unlock? }

  /** The object a call refers to, besides its own. */
  predicate TargetFine(r: Race, t: nat)
    requires t < |r.pcs| == |r.objs|
  {
    var pc := r.pcs[t];
    pc.Existing? || pc.Holding? || pc.Inside? ==> pc.o < |r.pcs| && CallFine(r, pc.o)
  }

  lemma {:induction false} ReserveOwn(r: Race, e: Event)
    requires (e.CheckExisting? || e.Reserve?) && Enabled(r, e) && CallFine(r, e.t)
    requires r.slot.Some? ==> r.slot.value < |r.pcs| && Registered(r.pcs[r.slot.value])
    ensures CallFine(Next(r, e), e.t)
  {
  }

  lemma {:induction false} StartOwn(r: Race, e: Event)
    requires (e.CreateStorage? || e.AppendStart? || e.Unregister? || e.Release?) && Enabled(r, e) && CallFine(r, e.t)
    ensures CallFine(Next(r, e), e.t)
  {
  }

  /** The slot moves under a call only when it holds no registered object. */
  lemma {:induction false} SlotOther(r: Race, e: Event, t: nat)
    requires (e.Reserve? || e.Unregister?) && Enabled(r, e) && t < |r.pcs| == |r.objs| && t != e.t
    requires CallFine(r, t) && CallFine(r, e.t)
    ensures CallFine(Next(r, e), t)
  {
  }

  lemma {:induction false} CreateOther(r: Race, s: nat, ok: bool, t: nat)
    requires Enabled(r, CreateStorage(s, ok)) && t < |r.pcs| == |r.objs| && t != s
    requires CallFine(r, t)
    ensures CallFine(Next(r, CreateStorage(s, ok)), t)
  {
  }

  lemma {:induction false} AppendOther(r: Race, s: nat, ok: bool, t: nat)
    requires Enabled(r, AppendStart(s, ok)) && t < |r.pcs| == |r.objs| && t != s
    requires CallFine(r, t)
    ensures CallFine(Next(r, AppendStart(s, ok)), t)
  {
  }

  lemma {:induction false} CheckOrReleaseOther(r: Race, e: Event, t: nat)
    requires (e.CheckExisting? || e.Release?) && Enabled(r, e) && t < |r.pcs| == |r.objs| && t != e.t
    requires CallFine(r, t) && CallFine(r, e.t)
    ensures CallFine(Next(r, e), t)
  {
  }

  lemma {:induction false} AnswerOwn(r: Race, t: nat, seen: bool)
    requires Enabled(r, AnswerExisting(t, seen)) && CallFine(r, t) && TargetFine(r, t) && (r.removed || LogFine(r))
    ensures CallFine(Next(r, AnswerExisting(t, seen)), t)
  {
  }

  lemma {:induction false} AccessOwn(r: Race, e: Event)
    requires (e.Look? || e.Lock? || e.Act? || e.Unlock?) && Enabled(r, e) && CallFine(r, e.t)
    requires r.slot.Some? ==> r.slot.value < |r.pcs| && Registered(r.pcs[r.slot.value])
    ensures CallFine(Next(r, e), e.t)
  {
  }

  lemma {:induction false} AccessOther(r: Race, e: Event, t: nat)
    requires OfAccess(e) && Enabled(r, e) && t < |r.pcs| == |r.objs| && t != e.t
    requires CallFine(r, t) && CallFine(r, e.t)
    ensures CallFine(Next(r, e), t)
  {
  }

  lemma {:induction false} KeeperSparesCall(r: Race, e: Event, t: nat)
    requires !OfStart(e) && !OfAccess(e) && Enabled(r, e) && t < |r.pcs| == |r.objs|
    requires CallFine(r, t)
    ensures CallFine(Next(r, e), t)
  {
  }

  /** The only call that can make a start durable owns the registered object, so
      nothing was appended before it. */
  lemma {:induction false} LogStart(r: Race, t: nat)
    requires Invariant(r) && Enabled(r, AppendStart(t, true)) && !r.removed
    ensures LogFine(Next(r, AppendStart(t, true)))
  {
    assert CallFine(r, t);
    forall o | 0 <= o < |r.pcs| ensures Durable(r.pcs[o]) ==> o == t { assert CallFine(r, o); }
  }

  /** Only an object whose start is durable is open and not locked by its start. */
  lemma {:induction false} LogAct(r: Race, t: nat, ok: bool, ends: bool)
    requires Invariant(r) && Enabled(r, Act(t, ok, ends)) && !r.removed
    ensures LogFine(Next(r, Act(t, ok, ends)))
  {
    assert CallFine(r, t);
    assert CallFine(r, r.pcs[t].o);
    if r.log != [] { assert CallFine(r, r.log[0].o); }
  }

  lemma {:induction false} LogQuiet(r: Race, e: Event)
    requires LogFine(r) && |r.objs| == |r.pcs| && Enabled(r, e) && !Next(r, e).removed && !e.Act? && !(e.AppendStart? && e.ok)
    ensures LogFine(Next(r, e))
  {
  }

  lemma {:induction false} LogKeeps(r: Race, e: Event)
    requires Invariant(r) && Enabled(r, e) && !Next(r, e).removed
    ensures LogFine(Next(r, e))
  {
    if e.Act? { LogAct(r, e.t, e.ok, e.ends); }
    else if e.AppendStart? && e.ok { LogStart(r, e.t); }
    else { LogQuiet(r, e); }
  }

  lemma {:induction false} CallKeepsFine(r: Race, e: Event, t: nat)
    requires Invariant(r) && Enabled(r, e) && t < |r.pcs|
    ensures CallFine(Next(r, e), t)
  {
    assert CallFine(r, t);
    if OfStart(e) {
      assert CallFine(r, e.t);
      if t == e.t { if e.CheckExisting? || e.Reserve? { ReserveOwn(r, e); } else { StartOwn(r, e); } }
      else if e.Reserve? || e.Unregister? { SlotOther(r, e, t); }
      else if e.CreateStorage? { CreateOther(r, e.t, e.ok, t); }
      else if e.AppendStart? { AppendOther(r, e.t, e.ok, t); }
      else { CheckOrReleaseOther(r, e, t); }
    } else if OfAccess(e) {
      assert CallFine(r, e.t) && TargetFine(r, e.t);
      if t != e.t { AccessOther(r, e, t); }
      else if e.AnswerExisting? { AnswerOwn(r, t, e.seen); }
      else { AccessOwn(r, e); }
    } else { KeeperSparesCall(r, e, t); }
  }

  /** An object stays registered until its id leaves the map. */
  lemma {:induction false} SharedSlot(r: Race, e: Event, o: nat)
    requires |r.objs| == |r.pcs| && Enabled(r, e) && o < |r.pcs| && Registered(r.pcs[o]) && r.slot == Some(o)
    ensures Next(r, e).slot == Some(o) ==> Registered(Next(r, e).pcs[o])
  {
    if OfStart(e) { assert e.t != o ==> Next(r, e).pcs[o] == r.pcs[o]; }
    else if OfAccess(e) { assert e.t != o; }
  }

  lemma {:induction false} SlotKeeps(r: Race, e: Event)
    requires Invariant(r) && Enabled(r, e)
    ensures
      var r' := Next(r, e);
      r'.slot.Some? ==> r'.slot.value < |r'.pcs| && Registered(r'.pcs[r'.slot.value])
  {
    if r.slot.Some? { SharedSlot(r, e, r.slot.value); }
  }

  lemma {:induction false} EventKeeps(r: Race, e: Event)
    requires Invariant(r) && Enabled(r, e)
    ensures Invariant(Next(r, e))
  {
    forall t | 0 <= t < |r.pcs| ensures CallFine(Next(r, e), t) { CallKeepsFine(r, e, t); }
    SlotKeeps(r, e);
    if !Next(r, e).removed { LogKeeps(r, e); }
  }

  lemma {:induction false} RunKeeps(r: Race, events: seq<Event>, end: Race)
    requires Invariant(r) && Reaches(r, events, end)
    ensures Invariant(end)
    decreases |events|
  {
    if events != [] {
      EventKeeps(r, events[0]);
      RunKeeps(Next(r, events[0]), events[1..], end);
    }
  }

  // ---- What races on one id leave behind -----------------------------------

  /** A start answered `duplicate` for an open session can rely on that session being
      durable; one answered `duplicate` for an ended session cannot. */
  lemma {:induction false} OpenDuplicateIsDurable(n: nat, events: seq<Event>, end: Race, t: nat)
    requires Reaches(Fresh(n), events, end) && !end.removed && t < |end.pcs| && end.pcs[t] == Done(Duplicate(false))
    ensures end.log != []
  {
    RunKeeps(Fresh(n), events, end);
    assert CallFine(end, t);
  }

  // ---- Check-then-act removal ----------------------------------------------

  /** What the keeper may rely on while it holds no lock. */
  predicate KeeperFine(r: Race) {
    match r.keeper
    case Resting => true
    case Looking(o) => o < |r.objs| && (r.rolledBack || r.slot == Some(o))
    case Condemned(o) => o < |r.objs| && r.objs[o].terminal && (r.rolledBack || r.slot == Some(o))
    case StoredOnly => r.removed && (r.reused || r.slot == None)
    case Deleted(None) => r.removed && (r.reused || r.slot == None)
    case Deleted(Some(o)) => r.removed && o < |r.objs| && r.objs[o].terminal && (r.rolledBack || r.slot == Some(o))
  }

  /** The object the keeper looks at or decided on. */
  function Target(keeper: Keeper): Option<nat> {
    match keeper
    case Looking(o) => Some(o)
    case Condemned(o) => Some(o)
    case Deleted(target) => target
    case _ => None
  }

  /** An ended session stays ended: objects are reset only before they are shared. */
  lemma {:induction false} TerminalStays(r: Race, e: Event, o: nat)
    requires Invariant(r) && Enabled(r, e) && o < |r.objs| && (Registered(r.pcs[o]) || Failed(r.pcs[o])) && r.objs[o].terminal
    ensures Next(r, e).objs[o].terminal
  {
  }

  lemma {:induction false} SharedStays(r: Race, e: Event, o: nat)
    requires |r.objs| == |r.pcs| && Enabled(r, e) && o < |r.pcs| && (Registered(r.pcs[o]) || Failed(r.pcs[o]))
    ensures Registered(Next(r, e).pcs[o]) || Failed(Next(r, e).pcs[o])
  {
    if OfStart(e) { assert e.t != o ==> Next(r, e).pcs[o] == r.pcs[o]; }
    else if OfAccess(e) { assert e.t != o; }
  }

  predicate KeeperTarget(r: Race) {
    var target := Target(r.keeper);
    target.Some? ==> target.value < |r.pcs| && (Registered(r.pcs[target.value]) || Failed(r.pcs[target.value]))
  }

  /** While the keeper has decided, only a rollback frees the id under it. */
  lemma {:induction false} SlotUnderKeeper(r: Race, e: Event, o: nat)
    requires Invariant(r) && Enabled(r, e) && r.slot == Some(o) && (OfStart(e) || OfAccess(e)) && !Next(r, e).rolledBack
    ensures Next(r, e).slot == Some(o)
  {
    assert e.Unregister? ==> CallFine(r, e.t);
  }

  lemma {:induction false} StoredMeansRemoved(r: Race)
    requires Invariant(r) && r.slot.None? && r.log != []
    ensures r.removed
  {
    assert LogFine(r) ==> CallFine(r, r.log[0].o);
  }

  lemma {:induction false} KeeperActs(r: Race, e: Event)
    requires Invariant(r) && KeeperFine(r) && KeeperTarget(r) && Enabled(r, e) && !OfStart(e) && !OfAccess(e)
    ensures KeeperFine(Next(r, e)) && KeeperTarget(Next(r, e))
  {
    if e.KeeperStored? { StoredMeansRemoved(r); }
  }

  lemma {:induction false} KeeperUntouched(r: Race, e: Event)
    requires |r.objs| == |r.pcs| && Enabled(r, e) && (OfStart(e) || OfAccess(e))
    ensures Next(r, e).keeper == r.keeper && |Next(r, e).objs| == |r.objs| && Next(r, e).removed == r.removed
    ensures (r.rolledBack ==> Next(r, e).rolledBack) && (r.reused ==> Next(r, e).reused)
    ensures r.removed && r.slot == None && !Next(r, e).reused ==> Next(r, e).slot == None
  {
  }

  lemma {:induction false} KeeperWaits(r: Race, e: Event)
    requires Invariant(r) && KeeperFine(r) && KeeperTarget(r) && Enabled(r, e) && (OfStart(e) || OfAccess(e))
    ensures KeeperFine(Next(r, e)) && KeeperTarget(Next(r, e))
  {
    KeeperUntouched(r, e);
    if Target(r.keeper).Some? {
      var o := Target(r.keeper).value;
      SharedStays(r, e, o);
      if r.objs[o].terminal { TerminalStays(r, e, o); }
      if r.slot == Some(o) && !Next(r, e).rolledBack { SlotUnderKeeper(r, e, o); }
    }
  }

  lemma {:induction false} RunKeepsKeeper(r: Race, events: seq<Event>, end: Race)
    requires Invariant(r) && KeeperFine(r) && KeeperTarget(r) && Reaches(r, events, end)
    ensures Invariant(end) && KeeperFine(end)
    decreases |events|
  {
    if events != [] {
      EventKeeps(r, events[0]);
      if OfStart(events[0]) || OfAccess(events[0]) { KeeperWaits(r, events[0]); } else { KeeperActs(r, events[0]); }
      RunKeepsKeeper(Next(r, events[0]), events[1..], end);
    }
  }

  /** The steps that take the id out of the registry or out of storage. */
  predicate Removal(e: Event) { e.KeeperEvict? || e == KeeperDelete(true) || e.KeeperUnregister? }

  /** Eviction and deletion act on an id after releasing the lock they checked under.
      Each of their steps still hits an ended session only, provided no start of that
      id rolled back and, for a session only storage holds, the id was not taken again
      after an eviction. */
  lemma {:induction false} RemovesEndedSessionsOnly(n: nat, events: seq<Event>, r: Race, e: Event)
    requires Reaches(Fresh(n), events, r) && Enabled(r, e) && Removal(e) && r.slot.Some?
    requires if Target(r.keeper).Some? then !r.rolledBack || r.slot == Target(r.keeper) else !r.reused
    ensures r.slot.value < |r.objs| && r.objs[r.slot.value].terminal
  {
    RunKeepsKeeper(Fresh(n), events, r);
  }

  // ---- What the hypotheses exclude -----------------------------------------

  predicate Moves(r: Race, e: Event, r': Race) { Enabled(r, e) && Next(r, e) == r' }

  lemma {:induction false} Chain(states: seq<Race>, events: seq<Event>)
    requires |states| == |events| + 1
    requires forall i :: 0 <= i < |events| ==> Moves(states[i], events[i], states[i + 1])
    ensures Reaches(states[0], events, states[|events|])
    decreases |events|
  {
    if events != [] {
      assert Moves(states[0], events[0], states[1]);
      forall i | 0 <= i < |events[1..]| ensures Moves(states[1..][i], events[1..][i], states[1..][i + 1]) {
        assert Moves(states[i + 1], events[i + 1], states[i + 2]);
      }
      Chain(states[1..], events[1..]);
    }
  }

  lemma {:induction false} Join(r: Race, first: seq<Event>, mid: Race, second: seq<Event>, end: Race)
    requires Reaches(r, first, mid) && Reaches(mid, second, end)
    ensures Reaches(r, first + second, end)
    decreases |first|
  {
    if first == [] {
      assert first + second == second;
    } else {
      assert (first + second)[1..] == first[1..] + second;
      Join(Next(r, first[0]), first[1..], mid, second, end);
    }
  }

  const FREE := Obj(false, None)
  const ENDED := Obj(true, None)

  /** Call 0 reserves the id; meanwhile the keeper looks at its placeholder and
      call 1 finds the id taken. */
  function Contended(): Race {
    Race(Some(0), [Obj(false, Some(0)), FREE, FREE], [Reserved, Existing(0), Idle], [], Looking(0), false, false, false)
  }

  lemma {:induction false} ReachContended() returns (events: seq<Event>)
    ensures Reaches(Fresh(3), events, Contended())
  {
    var r0 := Race(None, [FREE, FREE, FREE], [Idle, Idle, Idle], [], Resting, false, false, false);
    assert Fresh(3) == r0;
    var r1 := r0.(objs := [Obj(false, Some(0)), FREE, FREE], pcs := [Prepared, Idle, Idle]);
    var r2 := r1.(slot := Some(0), pcs := [Reserved, Idle, Idle]);
    var r3 := r2.(pcs := [Reserved, Existing(0), Idle]);
    Chain([r0, r1, r2, r3, Contended()], [CheckExisting(0), Reserve(0), CheckExisting(1), KeeperLook]);
    events := [CheckExisting(0), Reserve(0), CheckExisting(1), KeeperLook];
  }

  /** Its storage fails and it rolls back. */
  function Collapsed(): Race {
    Race(None, [ENDED, FREE, FREE], [Done(RolledBack), Done(Duplicate(true)), Idle], [], Looking(0), true, false, false)
  }

  /** A start that waited on a placeholder is answered `duplicate` although the
      placeholder's start rolled back and nothing was ever written. */
  lemma {:induction false} DuplicateOfRolledBack() returns (events: seq<Event>)
    ensures Reaches(Fresh(3), events, Collapsed()) && Collapsed().log == [] && Collapsed().pcs[1] == Done(Duplicate(true))
  {
    var r1 := Contended().(objs := [Obj(true, Some(0)), FREE, FREE], pcs := [Rolling, Existing(0), Idle], rolledBack := true);
    var r2 := r1.(slot := None, pcs := [Unregistered, Existing(0), Idle]);
    var r3 := r2.(objs := [ENDED, FREE, FREE], pcs := [Done(RolledBack), Existing(0), Idle]);
    Chain([Contended(), r1, r2, r3, Collapsed()], [CreateStorage(0, false), Unregister(0), Release(0), AnswerExisting(1, true)]);
    events := ReachContended();
    events := Extend(events, Contended(), [CreateStorage(0, false), Unregister(0), Release(0), AnswerExisting(1, true)], Collapsed());
  }

  function Evicted(): Race {
    Race(None, [ENDED, FREE, FREE], [Done(RolledBack), Done(Duplicate(true)), Done(Started)], [StartOf(2)], Resting, true, true, false)
  }

  function Overtaken(): Race {
    Race(Some(2), [ENDED, FREE, Obj(false, Some(2))], [Done(RolledBack), Done(Duplicate(true)), Created], [], Condemned(0), true, false, false)
  }

  lemma {:induction false} ReachOvertaken() returns (events: seq<Event>)
    ensures Reaches(Collapsed(), events, Overtaken())
  {
    var d0, d1 := Done(RolledBack), Done(Duplicate(true));
    var r1 := Collapsed().(keeper := Condemned(0));
    var r2 := r1.(objs := [ENDED, FREE, Obj(false, Some(2))], pcs := [d0, d1, Prepared]);
    var r3 := r2.(slot := Some(2), pcs := [d0, d1, Reserved]);
    events := [KeeperCheck(true), CheckExisting(2), Reserve(2), CreateStorage(2, true)];
    Chain([Collapsed(), r1, r2, r3, Overtaken()], events);
  }

  /** After a rollback the keeper's verdict is about an object the registry no longer
      holds, and it evicts the open session that took the id since. */
  lemma {:induction false} EvictsOpenSession() returns (events: seq<Event>)
    ensures Reaches(Fresh(3), events, Evicted()) && Evicted().slot == None
    ensures Evicted().pcs[2] == Done(Started) && !Evicted().objs[2].terminal
  {
    events := DuplicateOfRolledBack();
    var more := ReachOvertaken();
    events := Extend(events, Collapsed(), more, Overtaken());
    more := FinishEviction();
    events := Extend(events, Overtaken(), more, Evicted());
  }

  lemma {:induction false} FinishEviction() returns (events: seq<Event>)
    ensures Reaches(Overtaken(), events, Evicted())
  {
    var d0, d1 := Done(RolledBack), Done(Duplicate(true));
    var r1 := Overtaken().(log := [StartOf(2)], pcs := [d0, d1, Committed]);
    var r2 := r1.(objs := [ENDED, FREE, FREE], pcs := [d0, d1, Done(Started)]);
    events := [AppendStart(2, true), Release(2), KeeperEvict];
    Chain([Overtaken(), r1, r2, Evicted()], events);
  }

  // Reusing an evicted id.

  function StartedOnce(): Race {
    Race(Some(0), [Obj(false, Some(0)), FREE, FREE], [Committed, Idle, Idle], [StartOf(0)], Resting, false, false, false)
  }

  function EndedOnce(): Race {
    Race(Some(0), [Obj(true, Some(1)), FREE, FREE], [Done(Started), Inside(0), Idle], [StartOf(0), EntryOf(0)], Resting, false, false, false)
  }

  function EvictedOnce(): Race {
    Race(None, [ENDED, FREE, FREE], [Done(Started), Done(Acted), Idle], [StartOf(0), EntryOf(0)], Resting, false, true, false)
  }

  function Reserving(): Race {
    Race(Some(2), [ENDED, FREE, Obj(false, Some(2))], [Done(Started), Done(Acted), Created], [StartOf(0), EntryOf(0)], StoredOnly, false, true, true)
  }

  function StartedTwice(): Race {
    Race(Some(2), [ENDED, FREE, FREE], [Done(Started), Done(Acted), Done(Started)], [StartOf(0), EntryOf(0), StartOf(2)], StoredOnly, false, true, true)
  }

  lemma {:induction false} ReachStartedOnce() returns (events: seq<Event>)
    ensures Reaches(Fresh(3), events, StartedOnce())
  {
    var r0 := Race(None, [FREE, FREE, FREE], [Idle, Idle, Idle], [], Resting, false, false, false);
    assert Fresh(3) == r0;
    var r1 := r0.(objs := [Obj(false, Some(0)), FREE, FREE], pcs := [Prepared, Idle, Idle]);
    var r2 := r1.(slot := Some(0), pcs := [Reserved, Idle, Idle]);
    var r3 := r2.(pcs := [Created, Idle, Idle]);
    events := [CheckExisting(0), Reserve(0), CreateStorage(0, true), AppendStart(0, true)];
    Chain([r0, r1, r2, r3, StartedOnce()], events);
  }

  lemma {:induction false} ReachEndedOnce() returns (events: seq<Event>)
    ensures Reaches(StartedOnce(), events, EndedOnce())
  {
    var r1 := StartedOnce().(objs := [FREE, FREE, FREE], pcs := [Done(Started), Idle, Idle]);
    var r2 := r1.(pcs := [Done(Started), Holding(0), Idle]);
    var r3 := r2.(objs := [Obj(false, Some(1)), FREE, FREE], pcs := [Done(Started), Inside(0), Idle]);
    events := [Release(0), Look(1), Lock(1), Act(1, true, true)];
    Chain([StartedOnce(), r1, r2, r3, EndedOnce()], events);
  }

  lemma {:induction false} ReachEvictedOnce() returns (events: seq<Event>)
    ensures Reaches(EndedOnce(), events, EvictedOnce())
  {
    var r1 := EndedOnce().(objs := [ENDED, FREE, FREE], pcs := [Done(Started), Done(Acted), Idle]);
    var r2 := r1.(keeper := Looking(0));
    var r3 := r2.(keeper := Condemned(0));
    events := [Unlock(1), KeeperLook, KeeperCheck(true), KeeperEvict];
    Chain([EndedOnce(), r1, r2, r3, EvictedOnce()], events);
  }

  lemma {:induction false} ReachReserving() returns (events: seq<Event>)
    ensures Reaches(EvictedOnce(), events, Reserving())
  {
    var r1 := EvictedOnce().(keeper := StoredOnly);
    var r2 := r1.(objs := [ENDED, FREE, Obj(false, Some(2))], pcs := [Done(Started), Done(Acted), Prepared]);
    var r3 := r2.(slot := Some(2), pcs := [Done(Started), Done(Acted), Reserved], reused := true);
    events := [KeeperStored(true), CheckExisting(2), Reserve(2), CreateStorage(2, true)];
    Chain([EvictedOnce(), r1, r2, r3, Reserving()], events);
  }

  lemma {:induction false} ReachStartedTwice() returns (events: seq<Event>)
    ensures Reaches(Reserving(), events, StartedTwice())
  {
    var r1 := Reserving().(log := [StartOf(0), EntryOf(0), StartOf(2)], pcs := [Done(Started), Done(Acted), Committed]);
    events := [AppendStart(2, true), Release(2)];
    Chain([Reserving(), r1, StartedTwice()], events);
  }

  lemma {:induction false} Extend(events: seq<Event>, mid: Race, more: seq<Event>, end: Race) returns (all: seq<Event>)
    requires Reaches(Fresh(3), events, mid) && Reaches(mid, more, end)
    ensures Reaches(Fresh(3), all, end)
  {
    Join(Fresh(3), events, mid, more, end);
    all := events + more;
  }

  /** An id taken again after its eviction gets a second start in its log, and a
      deletion decided on the old snapshot then deletes the open session. */
  lemma {:induction false} ReuseBreaksStart() returns (events: seq<Event>)
    ensures Reaches(Fresh(3), events, StartedTwice()) && StartedTwice().log == [StartOf(0), EntryOf(0), StartOf(2)]
    ensures Enabled(StartedTwice(), KeeperDelete(true)) && !StartedTwice().objs[StartedTwice().slot.value].terminal
  {
    events := ReachStartedOnce();
    var more := ReachEndedOnce();
    events := Extend(events, StartedOnce(), more, EndedOnce());
    more := ReachEvictedOnce();
    events := Extend(events, EndedOnce(), more, EvictedOnce());
    more := ReachReserving();
    events := Extend(events, EvictedOnce(), more, Reserving());
    more := ReachStartedTwice();
    events := Extend(events, Reserving(), more, StartedTwice());
  }
}
