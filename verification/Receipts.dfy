/** Decision receipts (section 13 of RFC-MACP-0013): every caller of
    `decision_receipt` (src/runtime.rs:1557-1636) over one resolved session, the
    issuer's cache (src/receipts.rs:176-252), first-writer-wins storage that others
    may write too, the maintenance loop that evicts and deletes the session, and
    operations that write the session's snapshot through a handle they took while
    it was resident (src/runtime.rs:1683-1697). Each event below is what happens
    between two suspension points. */
module Receipts {
  import opened Sessions

  datatype Response = Served(bytes: Bytes) | Refused

  /** Where a call stands. From `Rechecking` to `Finishing` it holds the stripe. */
  datatype Pc =
    | Arriving                               // about to read the unpersisted copy
    | FastCache                              // about to read the cached copy
    | Wanting                                // waiting for the stripe
    | Rechecking
    | RecheckCache
    | Locked                                 // about to ask the registry
    | Reading(inMemory: bool)                // about to read the session
    | Loading(inMemory: bool)                // about to load a stored receipt
    | Building(inMemory: bool)
    | Storing(inMemory: bool, bytes: Bytes)
    | Keeping(inMemory: bool, bytes: Bytes)  // about to cache a stored receipt
    | KeepingOnly(bytes: Bytes)              // about to keep one that cannot be stored
    | Finishing(response: Response)
    | Done(response: Response)

  datatype Keeper = Resting | Evicting | EvictHeld | EvictDropped | GcHeld | GcDeleted | GcUnregistered

  datatype Holder = Caller(t: nat) | Maintenance

  /** `handles` counts the operations that hold the session itself; `value` records
      the first bytes that were stored or kept; `swept` that an eviction or
      deletion completed; `exposed` that the value was lost with the session still,
      or again, in storage. */
  datatype Shared = Shared(
    resident: bool, snapshot: bool, supports: bool, stored: Option<Bytes>,
    cache: Option<Bytes>, unpersisted: Option<Bytes>, stripe: Option<Holder>,
    keeper: Keeper, handles: nat, value: Option<Bytes>, swept: bool, exposed: bool)

  datatype Ledger = Ledger(shared: Shared, pcs: seq<Pc>)

  datatype Event =
    | Call(t: nat, ok: bool, bytes: Bytes)   // one step of a call, with what storage or the build answers
    | Keep(gc: bool, ok: bool)               // one step of the maintenance loop
    | Elsewhere(bytes: Bytes)                // another process stores a receipt
    | TakeHandle                             // an operation finds the session in the registry
    | DropHandle
    | Resave                                 // one that still holds it writes its snapshot

  /** No place a caller looks has the value any more. */
  predicate Lost(s: Shared) { s.value.Some? && if s.supports then s.stored != s.value else s.unpersisted.None? }

  predicate Readable(s: Shared) { s.resident || s.snapshot }

  function Mark(s: Shared): Shared { s.(exposed := s.exposed || (Lost(s) && s.snapshot)) }

  datatype Stepped = Stepped(shared: Shared, pc: Pc)

  function Note(s: Shared, bytes: Bytes): Shared { if s.value.None? then s.(value := Some(bytes)) else s }

  predicate Outside(pc: Pc) { pc.Arriving? || pc.FastCache? || pc.Wanting? || pc.Done? }

  /** Before the stripe: the double-checked read. */
  function StepOutside(s: Shared, t: nat, pc: Pc): Stepped
    requires Outside(pc)
  {
    match pc
    case Arriving => Stepped(s, if s.unpersisted.Some? then Done(Served(s.unpersisted.value)) else FastCache)
    case FastCache => Stepped(s, if s.cache.Some? then Done(Served(s.cache.value)) else Wanting)
    case Wanting => Stepped(s.(stripe := Some(Caller(t))), Rechecking)
    case Done(_) => Stepped(s, pc)
  }

  predicate Checking(pc: Pc) { pc.Rechecking? || pc.RecheckCache? || pc.Locked? || pc.Reading? }

  function StepChecking(s: Shared, pc: Pc, ok: bool): Stepped
    requires Checking(pc)
  {
    match pc
    case Rechecking => Stepped(s, if s.unpersisted.Some? then Finishing(Served(s.unpersisted.value)) else RecheckCache)
    case RecheckCache => Stepped(s, if s.cache.Some? then Finishing(Served(s.cache.value)) else Locked)
    case Locked => Stepped(s, Reading(s.resident))
    case Reading(m) => Stepped(s, if s.resident || (s.snapshot && ok) then Loading(m) else Finishing(Refused))
  }

  predicate Writing(pc: Pc) { pc.Loading? || pc.Building? || pc.Storing? }

  function StepWriting(s: Shared, pc: Pc, ok: bool, bytes: Bytes): Stepped
    requires Writing(pc)
  {
    match pc
    case Loading(m) =>
      Stepped(s, if !ok then Finishing(Refused) else if s.stored.Some? then Keeping(m, s.stored.value) else Building(m))
    case Building(m) => Stepped(s, if ok then Storing(m, bytes) else Finishing(Refused))
    case Storing(m, b) =>
      if !s.supports then Stepped(s, KeepingOnly(b))
      else if !ok then Stepped(s, Finishing(Refused))
      else if s.stored.Some? then Stepped(s, Keeping(m, s.stored.value))
      else Stepped(Note(s.(stored := Some(b)), b), Keeping(m, b))
  }

  predicate Closing(pc: Pc) { pc.Keeping? || pc.KeepingOnly? || pc.Finishing? }

  function StepClosing(s: Shared, pc: Pc): Stepped
    requires Closing(pc)
  {
    match pc
    case Keeping(m, b) => Stepped(s.(cache := if m then Some(b) else s.cache), Finishing(Served(b)))
    case KeepingOnly(b) => Stepped(Note(s.(unpersisted := Some(b)), b), Finishing(Served(b)))
    case Finishing(r) => Stepped(s.(stripe := None), Done(r))
  }

  function StepCall(s: Shared, t: nat, pc: Pc, ok: bool, bytes: Bytes): Stepped {
    if Outside(pc) then StepOutside(s, t, pc)
    else if Checking(pc) then StepChecking(s, pc, ok)
    else if Writing(pc) then StepWriting(s, pc, ok, bytes)
    else StepClosing(s, pc)
  }

  function StepKeeper(s: Shared, gc: bool, ok: bool): Shared {
    match s.keeper
    case Resting => if gc then s.(keeper := GcHeld, stripe := Some(Maintenance)) else s.(keeper := Evicting, resident := false)
    case Evicting => s.(keeper := EvictHeld, stripe := Some(Maintenance))
    case EvictHeld => s.(keeper := EvictDropped, cache := None)
    case EvictDropped =>
      var forgets := s.unpersisted.Some? && !(s.snapshot && ok);
      s.(keeper := Resting, stripe := None, swept := true, unpersisted := if forgets then None else s.unpersisted)
    case GcHeld => if ok then s.(keeper := GcDeleted, snapshot := false, stored := None) else s.(keeper := Resting, stripe := None)
    case GcDeleted => s.(keeper := GcUnregistered, resident := false)
    case GcUnregistered => s.(keeper := Resting, stripe := None, cache := None, unpersisted := None, swept := true)
  }

  predicate Enabled(l: Ledger, e: Event) {
    match e
    case Call(t, _, _) => t < |l.pcs| && !l.pcs[t].Done? && (l.pcs[t].Wanting? ==> l.shared.stripe.None?)
    case Keep(gc, _) => KeeperReady(l.shared, gc)
    case Elsewhere(_) => l.shared.supports && l.shared.stored.None?
    case TakeHandle => l.shared.resident
    case DropHandle => 0 < l.shared.handles
    case Resave => 0 < l.shared.handles
  }

  predicate KeeperReady(s: Shared, gc: bool) { (s.keeper.Resting? && gc) || s.keeper.Evicting? ==> s.stripe.None? }

  function Next(l: Ledger, e: Event): Ledger
    requires Enabled(l, e)
  {
    match e
    case Call(t, ok, bytes) =>
      var stepped := StepCall(l.shared, t, l.pcs[t], ok, bytes);
      Ledger(stepped.shared, l.pcs[t := stepped.pc])
    case Keep(gc, ok) => l.(shared := Mark(StepKeeper(l.shared, gc, ok)))
    case Elsewhere(bytes) => l.(shared := Note(l.shared.(stored := Some(bytes)), bytes))
    case TakeHandle => l.(shared := l.shared.(handles := l.shared.handles + 1))
    case DropHandle => l.(shared := l.shared.(handles := l.shared.handles - 1))
    case Resave => l.(shared := Mark(l.shared.(snapshot := true)))
  }

  predicate Reaches(l: Ledger, events: seq<Event>, end: Ledger)
    decreases |events|
  {
    if events == [] then end == l
    else Enabled(l, events[0]) && Reaches(Next(l, events[0]), events[1..], end)
  }

  /** `n` callers of a session nobody has a receipt for. */
  function Fresh(n: nat, resident: bool, snapshot: bool, supports: bool): Ledger {
    Ledger(Shared(resident, snapshot, supports, None, None, None, None, Resting, 0, None, false, false), seq(n, _ => Arriving))
  }

  // ---- The invariant -------------------------------------------------------

  predicate WillCache(pc: Pc) { (pc.Reading? || Writing(pc) || pc.Keeping?) && pc.inMemory }

  predicate KeeperHolds(k: Keeper) { !(k.Resting? || k.Evicting?) }

  /** Who holds the stripe, and what an eviction leaves behind. */
  predicate LocksFine(s: Shared) {
    && (KeeperHolds(s.keeper) <==> s.stripe == Some(Maintenance))
    && (s.keeper.Evicting? || s.keeper.EvictHeld? || s.keeper.EvictDropped? || s.keeper.GcUnregistered? ==> !s.resident)
    && (s.keeper.EvictDropped? ==> s.cache.None?)
    && (s.swept ==> !s.resident && s.cache.None?)
  }

  predicate CallLocked(s: Shared, t: nat, pc: Pc) {
    (!Outside(pc) ==> s.stripe == Some(Caller(t))) && (WillCache(pc) ==> !s.swept)
  }

  predicate OfGc(k: Keeper) { k.GcHeld? || k.GcDeleted? || k.GcUnregistered? }

  /** Every copy is a copy of the value, and only maintenance loses it. */
  predicate CopiesFine(s: Shared) {
    && (s.cache.Some? ==> s.cache == s.value)
    && (s.unpersisted.Some? ==> s.unpersisted == s.value && !s.supports)
    && (s.stored.Some? ==> s.value.Some? && s.supports)
    && (Lost(s) ==> (!s.resident || s.keeper.GcDeleted?) && (s.swept || s.keeper.GcDeleted? || s.keeper.GcUnregistered?))
  }

  predicate Sheltered(s: Shared) { CopiesFine(s) && !(Lost(s) && s.snapshot) }

  /** Past the re-check and not yet kept: no unpersisted copy exists. */
  predicate Issuing(pc: Pc) { pc.RecheckCache? || pc.Locked? || pc.Reading? || PastRead(pc) }

  /** The session was read under the stripe. */
  predicate PastRead(pc: Pc) { Writing(pc) || pc.KeepingOnly? }

  predicate Known(s: Shared, pc: Pc) {
    match pc
    case Keeping(_, b) => s.value == Some(b)
    case Finishing(Served(b)) => s.value == Some(b)
    case Done(Served(b)) => s.value == Some(b)
    case _ => true
  }

  /** What a call was told, or may rely on. */
  predicate CallKnows(s: Shared, pc: Pc) {
    && Known(s, pc)
    && (Issuing(pc) ==> s.unpersisted.None?)
    && (PastRead(pc) ==> s.stored == s.value && (!s.supports ==> s.value.None?))
    && (pc.Keeping? ==> s.supports) && (pc.KeepingOnly? ==> !s.supports)
  }

  predicate Locks(l: Ledger) {
    LocksFine(l.shared) && forall t :: 0 <= t < |l.pcs| ==> CallLocked(l.shared, t, l.pcs[t])
  }

  predicate Knows(l: Ledger) { forall t :: 0 <= t < |l.pcs| ==> CallKnows(l.shared, l.pcs[t]) }

  predicate Invariant(l: Ledger) { Locks(l) && Sheltered(l.shared) && Knows(l) }

  // ---- The stripe ----------------------------------------------------------

  lemma {:induction false} CallLocks(s: Shared, t: nat, pc: Pc, ok: bool, bytes: Bytes)
    requires LocksFine(s) && CallLocked(s, t, pc) && (pc.Wanting? ==> s.stripe.None?)
    ensures
      var r := StepCall(s, t, pc, ok, bytes);
      LocksFine(r.shared) && CallLocked(r.shared, t, r.pc)
  {
  }

  lemma {:induction false} CallSparesLock(s: Shared, t: nat, pc: Pc, ok: bool, bytes: Bytes, u: nat, other: Pc)
    requires CallLocked(s, t, pc) && CallLocked(s, u, other) && t != u && (pc.Wanting? ==> s.stripe.None?)
    ensures CallLocked(StepCall(s, t, pc, ok, bytes).shared, u, other)
  {
  }

  lemma {:induction false} KeeperLocks(s: Shared, gc: bool, ok: bool)
    requires LocksFine(s) && KeeperReady(s, gc)
    ensures LocksFine(StepKeeper(s, gc, ok))
  {
  }

  lemma {:induction false} KeeperSparesLock(s: Shared, gc: bool, ok: bool, u: nat, other: Pc)
    requires LocksFine(s) && KeeperReady(s, gc) && CallLocked(s, u, other)
    ensures CallLocked(StepKeeper(s, gc, ok), u, other)
  {
  }

  lemma {:induction false} EventLocks(l: Ledger, e: Event)
    requires Locks(l) && Enabled(l, e)
    ensures Locks(Next(l, e))
  {
    var l' := Next(l, e);
    match e
    case Call(t, ok, bytes) =>
      CallLocks(l.shared, t, l.pcs[t], ok, bytes);
      forall u | 0 <= u < |l.pcs| ensures CallLocked(l'.shared, u, l'.pcs[u]) {
        if u != t { CallSparesLock(l.shared, t, l.pcs[t], ok, bytes, u, l.pcs[u]); }
      }
    case Keep(gc, ok) =>
      KeeperLocks(l.shared, gc, ok);
      forall u | 0 <= u < |l.pcs| ensures CallLocked(l'.shared, u, l'.pcs[u]) { KeeperSparesLock(l.shared, gc, ok, u, l.pcs[u]); }
    case _ =>
      forall u | 0 <= u < |l.pcs| ensures CallLocked(l'.shared, u, l'.pcs[u]) { assert CallLocked(l.shared, u, l.pcs[u]); }
  }

  lemma {:induction false} RunLocks(l: Ledger, events: seq<Event>, end: Ledger)
    requires Locks(l) && Reaches(l, events, end)
    ensures Locks(end)
    decreases |events|
  {
    if events != [] {
      EventLocks(l, events[0]);
      RunLocks(Next(l, events[0]), events[1..], end);
    }
  }

  /** No cached copy survives a completed eviction or deletion, even while calls that
      began before it are still running. */
  lemma {:induction false} EvictionBoundsCache(n: nat, resident: bool, snapshot: bool, supports: bool, events: seq<Event>, end: Ledger)
    requires Reaches(Fresh(n, resident, snapshot, supports), events, end) && end.shared.swept
    ensures end.shared.cache.None?
  {
    RunLocks(Fresh(n, resident, snapshot, supports), events, end);
  }

  // ---- The value -----------------------------------------------------------

  lemma {:induction false} OutsideKeeps(s: Shared, t: nat, pc: Pc)
    requires Outside(pc) && Sheltered(s) && CallKnows(s, pc)
    ensures Sheltered(StepOutside(s, t, pc).shared) && CallKnows(StepOutside(s, t, pc).shared, StepOutside(s, t, pc).pc)
  {
  }

  /** A session that can be read under the stripe has not lost its value. */
  lemma {:induction false} CheckingKeeps(s: Shared, t: nat, pc: Pc, ok: bool)
    requires Checking(pc) && Sheltered(s) && LocksFine(s) && s.stripe == Some(Caller(t)) && CallKnows(s, pc)
    ensures StepChecking(s, pc, ok).shared == s && CallKnows(s, StepChecking(s, pc, ok).pc)
  {
  }

  lemma {:induction false} WritingKeeps(s: Shared, pc: Pc, ok: bool, bytes: Bytes)
    requires Writing(pc) && Sheltered(s) && CallKnows(s, pc)
    ensures
      var r := StepWriting(s, pc, ok, bytes);
      Sheltered(r.shared) && CallKnows(r.shared, r.pc)
  {
  }

  lemma {:induction false} ClosingKeeps(s: Shared, pc: Pc)
    requires Closing(pc) && Sheltered(s) && CallKnows(s, pc)
    ensures Sheltered(StepClosing(s, pc).shared) && CallKnows(StepClosing(s, pc).shared, StepClosing(s, pc).pc)
  {
  }

  lemma {:induction false} CallKeeps(s: Shared, t: nat, pc: Pc, ok: bool, bytes: Bytes)
    requires Sheltered(s) && LocksFine(s) && CallLocked(s, t, pc) && CallKnows(s, pc)
    ensures
      var r := StepCall(s, t, pc, ok, bytes);
      Sheltered(r.shared) && CallKnows(r.shared, r.pc)
  {
    if Outside(pc) { OutsideKeeps(s, t, pc); }
    else if Checking(pc) { CheckingKeeps(s, t, pc, ok); }
    else if Writing(pc) { WritingKeeps(s, pc, ok, bytes); }
    else { ClosingKeeps(s, pc); }
  }

  /** Whatever a call changes, it changes under the stripe or leaves other calls'
      facts alone. */
  lemma {:induction false} CallSpares(s: Shared, t: nat, pc: Pc, ok: bool, bytes: Bytes, u: nat, other: Pc)
    requires CallLocked(s, t, pc) && CallLocked(s, u, other) && t != u
    requires CallKnows(s, pc) && CallKnows(s, other)
    ensures CallKnows(StepCall(s, t, pc, ok, bytes).shared, other)
  {
  }

  lemma {:induction false} EvictCopies(s: Shared, gc: bool, ok: bool)
    requires CopiesFine(s) && LocksFine(s) && !OfGc(s.keeper)
    ensures CopiesFine(Mark(StepKeeper(s, gc, ok)))
  {
  }

  lemma {:induction false} GcCopies(s: Shared, gc: bool, ok: bool)
    requires CopiesFine(s) && LocksFine(s) && OfGc(s.keeper)
    ensures CopiesFine(Mark(StepKeeper(s, gc, ok)))
  {
  }

  lemma {:induction false} KeeperSpares(s: Shared, gc: bool, ok: bool, u: nat, other: Pc)
    requires CallLocked(s, u, other) && CallKnows(s, other) && LocksFine(s) && KeeperReady(s, gc)
    ensures CallKnows(Mark(StepKeeper(s, gc, ok)), other)
  {
  }

  lemma {:induction false} ElsewhereKeeps(s: Shared, bytes: Bytes, other: Pc)
    requires Sheltered(s) && s.supports && s.stored.None?
    ensures Sheltered(Note(s.(stored := Some(bytes)), bytes))
    ensures CallKnows(s, other) ==> CallKnows(Note(s.(stored := Some(bytes)), bytes), other)
  {
  }

  lemma {:induction false} CallEventKeeps(l: Ledger, t: nat, ok: bool, bytes: Bytes)
    requires Invariant(l) && Enabled(l, Call(t, ok, bytes))
    ensures Sheltered(Next(l, Call(t, ok, bytes)).shared) && Knows(Next(l, Call(t, ok, bytes)))
  {
    var l' := Next(l, Call(t, ok, bytes));
    CallKeeps(l.shared, t, l.pcs[t], ok, bytes);
    forall u | 0 <= u < |l.pcs| ensures CallKnows(l'.shared, l'.pcs[u]) {
      if u != t { CallSpares(l.shared, t, l.pcs[t], ok, bytes, u, l.pcs[u]); }
    }
  }

  lemma {:induction false} KeeperEventKeeps(l: Ledger, gc: bool, ok: bool)
    requires Invariant(l) && Enabled(l, Keep(gc, ok))
    ensures CopiesFine(Next(l, Keep(gc, ok)).shared) && Knows(Next(l, Keep(gc, ok)))
  {
    var l' := Next(l, Keep(gc, ok));
    if OfGc(l.shared.keeper) { GcCopies(l.shared, gc, ok); } else { EvictCopies(l.shared, gc, ok); }
    forall u | 0 <= u < |l.pcs| ensures CallKnows(l'.shared, l'.pcs[u]) { KeeperSpares(l.shared, gc, ok, u, l.pcs[u]); }
  }

  lemma {:induction false} ValueKept(s: Shared, gc: bool, ok: bool)
    ensures var s' := StepKeeper(s, gc, ok); s'.value == s.value && s'.exposed == s.exposed
  {
    match s.keeper
    case Resting =>
    case Evicting =>
    case EvictHeld =>
    case EvictDropped =>
    case GcHeld =>
    case GcDeleted =>
    case GcUnregistered =>
  }

  /** Every event keeps the copies and what calls know; only a step that exposes the
      value loses its shelter. */
  lemma {:induction false} EventKeeps(l: Ledger, e: Event)
    requires Invariant(l) && Enabled(l, e)
    ensures
      var l' := Next(l, e);
      && Locks(l') && CopiesFine(l'.shared) && Knows(l')
      && (Sheltered(l'.shared) || (l'.shared.exposed && l'.pcs == l.pcs && l'.shared.value == l.shared.value))
  {
    var l' := Next(l, e);
    EventLocks(l, e);
    match e
    case Call(t, ok, bytes) => CallEventKeeps(l, t, ok, bytes);
    case Keep(gc, ok) =>
      KeeperEventKeeps(l, gc, ok);
      ValueKept(l.shared, gc, ok);
    case Elsewhere(bytes) =>
      ElsewhereKeeps(l.shared, bytes, Arriving);
      forall u | 0 <= u < |l.pcs| ensures CallKnows(l'.shared, l'.pcs[u]) { ElsewhereKeeps(l.shared, bytes, l.pcs[u]); }
    case _ =>
      forall u | 0 <= u < |l.pcs| ensures CallKnows(l'.shared, l'.pcs[u]) { assert CallKnows(l.shared, l.pcs[u]); }
  }

  lemma {:induction false} CallKeepsMark(s: Shared, t: nat, pc: Pc, ok: bool, bytes: Bytes)
    ensures StepCall(s, t, pc, ok, bytes).shared.exposed == s.exposed
  {
  }

  lemma {:induction false} ExposureKept(l: Ledger, e: Event)
    requires Enabled(l, e)
    ensures l.shared.exposed ==> Next(l, e).shared.exposed
    ensures e.Call? ==> Next(l, e).shared.exposed == l.shared.exposed
  {
    if e.Call? { CallKeepsMark(l.shared, e.t, l.pcs[e.t], e.ok, e.bytes); }
    else if e.Keep? { ValueKept(l.shared, e.gc, e.ok); }
  }

  lemma {:induction false} ExposureStays(l: Ledger, events: seq<Event>, end: Ledger)
    requires l.shared.exposed && Reaches(l, events, end)
    ensures end.shared.exposed
    decreases |events|
  {
    if events != [] {
      ExposureKept(l, events[0]);
      ExposureStays(Next(l, events[0]), events[1..], end);
    }
  }

  lemma {:induction false} RunKeeps(l: Ledger, events: seq<Event>, end: Ledger)
    requires Invariant(l) && Reaches(l, events, end) && !end.shared.exposed
    ensures Invariant(end)
    decreases |events|
  {
    if events != [] {
      var l' := Next(l, events[0]);
      EventKeeps(l, events[0]);
      if l'.shared.exposed { ExposureStays(l', events[1..], end); }
      RunKeeps(l', events[1..], end);
    }
  }

  // ---- One receipt ---------------------------------------------------------

  predicate WasServed(pc: Pc) { pc.Done? && pc.response.Served? }

  predicate Agreed(l: Ledger) {
    forall t, u :: 0 <= t < |l.pcs| && 0 <= u < |l.pcs| && WasServed(l.pcs[t]) && WasServed(l.pcs[u]) ==> l.pcs[t].response == l.pcs[u].response
  }

  lemma {:induction false} KnownAgree(l: Ledger)
    requires Knows(l)
    ensures Agreed(l)
  {
    forall t, u | 0 <= t < |l.pcs| && 0 <= u < |l.pcs| && WasServed(l.pcs[t]) && WasServed(l.pcs[u]) ensures l.pcs[t].response == l.pcs[u].response {
      assert CallKnows(l.shared, l.pcs[t]) && CallKnows(l.shared, l.pcs[u]);
    }
  }

  /** Forgetting a copy: an eviction after its reload, a deletion at its end. */
  predicate Forgets(s: Shared, e: Event) {
    e.Keep? && s.unpersisted.Some? && ((s.keeper.EvictDropped? && !(s.snapshot && e.ok)) || s.keeper.GcUnregistered?)
  }

  lemma {:induction false} CallExposesNothing(l: Ledger, e: Event)
    requires Enabled(l, e) && !e.Keep? && !e.Resave? && !l.shared.exposed
    ensures !Next(l, e).shared.exposed
  {
    if e.Call? { ExposureKept(l, e); }
  }

  lemma {:induction false} KeeperExposes(s: Shared, gc: bool, ok: bool)
    requires Sheltered(s) && LocksFine(s) && !s.exposed
    ensures Mark(StepKeeper(s, gc, ok)).exposed <==> Forgets(s, Keep(gc, ok)) && s.snapshot
  {
  }

  /** The steps that lose the value with the session in storage: an eviction that
      could not reload a stored session drops the only copy, a deletion drops it
      although the snapshot was written back, or the snapshot is written back after
      no copy was left. */
  predicate Exposing(s: Shared, e: Event) { (Forgets(s, e) && s.snapshot) || (e.Resave? && Lost(s)) }

  /** Nothing else does. */
  lemma {:induction false} ExposedOnlyBy(l: Ledger, e: Event)
    requires Invariant(l) && !l.shared.exposed && Enabled(l, e)
    ensures Next(l, e).shared.exposed <==> Exposing(l.shared, e)
    ensures Forgets(l.shared, e) && l.shared.snapshot && l.shared.keeper.EvictDropped? ==> !e.ok
  {
    if e.Keep? { KeeperExposes(l.shared, e.gc, e.ok); }
    else if !e.Resave? { CallExposesNothing(l, e); }
  }

  /** Some step of the run does. */
  predicate Exposes(l: Ledger, events: seq<Event>)
    decreases |events|
  {
    events != [] && Enabled(l, events[0]) && (Exposing(l.shared, events[0]) || Exposes(Next(l, events[0]), events[1..]))
  }

  lemma {:induction false} ExposedIff(l: Ledger, events: seq<Event>, end: Ledger)
    requires Invariant(l) && !l.shared.exposed && Reaches(l, events, end)
    ensures end.shared.exposed <==> Exposes(l, events)
    decreases |events|
  {
    if events != [] {
      var l' := Next(l, events[0]);
      ExposedOnlyBy(l, events[0]);
      if l'.shared.exposed {
        ExposureStays(l', events[1..], end);
      } else {
        EventKeeps(l, events[0]);
        ExposedIff(l', events[1..], end);
      }
    }
  }

  /** All callers are served the same bytes, under every interleaving of calls, other
      writers, snapshot writes, eviction and deletion, unless a step lost the value
      with the session in storage. */
  lemma {:induction false} OneReceiptPerSession(n: nat, resident: bool, snapshot: bool, supports: bool, events: seq<Event>, end: Ledger)
    requires Reaches(Fresh(n, resident, snapshot, supports), events, end) && !Exposes(Fresh(n, resident, snapshot, supports), events)
    ensures Agreed(end)
  {
    ExposedIff(Fresh(n, resident, snapshot, supports), events, end);
    RunKeeps(Fresh(n, resident, snapshot, supports), events, end);
    KnownAgree(end);
  }

  // ---- When all continuations agree ----------------------------------------

  predicate CallsOnly(events: seq<Event>) { forall i :: 0 <= i < |events| ==> events[i].Call? }

  /** Whoever is still to be served will be served what everybody was. */
  ghost predicate AlwaysOne(l: Ledger) {
    forall events, end :: CallsOnly(events) && Reaches(l, events, end) ==> Agreed(end)
  }

  /** Nobody is inside the stripe and no maintenance is under way. */
  predicate Settled(s: Shared) { s.stripe.None? && s.keeper.Resting? }

  lemma {:induction false} CallsNeverExpose(l: Ledger, events: seq<Event>, end: Ledger)
    requires CallsOnly(events) && Reaches(l, events, end)
    ensures end.shared.exposed == l.shared.exposed
    decreases |events|
  {
    if events != [] {
      ExposureKept(l, events[0]);
      CallsNeverExpose(Next(l, events[0]), events[1..], end);
    }
  }

  predicate Moves(l: Ledger, e: Event, l': Ledger) { Enabled(l, e) && Next(l, e) == l' }

  lemma {:induction false} Chain(states: seq<Ledger>, events: seq<Event>)
    requires |states| == |events| + 1
    requires forall i :: 0 <= i < |events| ==> Moves(states[i], events[i], states[i + 1])
    ensures Reaches(states[0], events, states[|events|])
    decreases |events|
  {
    if events != [] {
      assert Moves(states[0], events[0], states[1]);
      forall i | 0 <= i < |events[1..]| ensures Moves(states[1..][i], events[1..][i], states[1..][i + 1]) {
        assert Moves(states[i + 1], events[i + 1], states[i + 2]);
      }
      Chain(states[1..], events[1..]);
    }
  }

  lemma {:induction false} Join(l: Ledger, first: seq<Event>, mid: Ledger, second: seq<Event>, end: Ledger)
    requires Reaches(l, first, mid) && Reaches(mid, second, end)
    ensures Reaches(l, first + second, end)
    decreases |first|
  {
    if first == [] {
      assert first + second == second;
    } else {
      assert (first + second)[1..] == first[1..] + second;
      Join(Next(l, first[0]), first[1..], mid, second, end);
    }
  }

  /** No copy is at hand, but the session can be read. */
  predicate Unissued(s: Shared) { s.stripe.None? && s.unpersisted.None? && s.cache.None? && Readable(s) }

  lemma {:induction false} Find(l: Ledger, t: nat, bytes: Bytes) returns (events: seq<Event>)
    requires t < |l.pcs| && l.pcs[t].Arriving? && Unissued(l.shared)
    ensures CallsOnly(events) && Reaches(l, events, Ledger(l.shared.(stripe := Some(Caller(t))), l.pcs[t := Locked]))
  {
    var c, held := Call(t, true, bytes), l.shared.(stripe := Some(Caller(t)));
    events := [c, c, c, c, c];
    Chain([l, l.(pcs := l.pcs[t := FastCache]), l.(pcs := l.pcs[t := Wanting]), Ledger(held, l.pcs[t := Rechecking]),
           Ledger(held, l.pcs[t := RecheckCache]), Ledger(held, l.pcs[t := Locked])], events);
  }

  lemma {:induction false} Read(l: Ledger, t: nat, bytes: Bytes) returns (events: seq<Event>)
    requires t < |l.pcs| && l.pcs[t].Locked? && Readable(l.shared)
    ensures CallsOnly(events) && Reaches(l, events, l.(pcs := l.pcs[t := Loading(l.shared.resident)]))
  {
    var c, m := Call(t, true, bytes), l.shared.resident;
    events := [c, c];
    Chain([l, l.(pcs := l.pcs[t := Reading(m)]), l.(pcs := l.pcs[t := Loading(m)])], events);
  }

  /** What the call serves from there: a stored receipt, or a new one. */
  function Fresher(s: Shared, bytes: Bytes): Bytes { if s.stored.Some? then s.stored.value else bytes }

  function Kept(s: Shared, m: bool, bytes: Bytes): Shared {
    var b := Fresher(s, bytes);
    var released := s.(stripe := None);
    if s.stored.Some? then released.(cache := if m then Some(b) else s.cache)
    else if s.supports then Note(released.(stored := Some(b), cache := if m then Some(b) else s.cache), b)
    else Note(released.(unpersisted := Some(b)), b)
  }

  /** A stored receipt is cached if the session was resident, and served. */
  lemma {:induction false} Close(l: Ledger, t: nat, bytes: Bytes) returns (events: seq<Event>)
    requires t < |l.pcs| && l.pcs[t].Keeping?
    ensures CallsOnly(events)
    ensures
      var m, b := l.pcs[t].inMemory, l.pcs[t].bytes;
      Reaches(l, events, Ledger(l.shared.(stripe := None, cache := if m then Some(b) else l.shared.cache), l.pcs[t := Done(Served(b))]))
  {
    var c, m, b := Call(t, true, bytes), l.pcs[t].inMemory, l.pcs[t].bytes;
    var cached := l.shared.(cache := if m then Some(b) else l.shared.cache);
    events := [c, c];
    Chain([l, Ledger(cached, l.pcs[t := Finishing(Served(b))]), Ledger(cached.(stripe := None), l.pcs[t := Done(Served(b))])], events);
  }

  lemma {:induction false} One(l: Ledger, e: Event, l': Ledger)
    requires Moves(l, e, l')
    ensures Reaches(l, [e], l')
  {
    assert [e][1..] == [];
  }

  lemma {:induction false} ServeStored(l: Ledger, t: nat, bytes: Bytes) returns (events: seq<Event>)
    requires t < |l.pcs| && l.pcs[t].Loading? && l.shared.stored.Some?
    ensures CallsOnly(events)
    ensures Reaches(l, events, Ledger(Kept(l.shared, l.pcs[t].inMemory, bytes), l.pcs[t := Done(Served(Fresher(l.shared, bytes)))]))
  {
    var c, m, b := Call(t, true, bytes), l.pcs[t].inMemory, l.shared.stored.value;
    var keeping := l.(pcs := l.pcs[t := Keeping(m, b)]);
    One(l, c, keeping);
    var more := Close(keeping, t, bytes);
    assert keeping.pcs[t := Done(Served(b))] == l.pcs[t := Done(Served(b))];
    Join(l, [c], keeping, more, Ledger(Kept(l.shared, m, bytes), l.pcs[t := Done(Served(b))]));
    events := [c] + more;
  }

  lemma {:induction false} Prepare(l: Ledger, t: nat, bytes: Bytes) returns (events: seq<Event>)
    requires t < |l.pcs| && l.pcs[t].Loading? && l.shared.stored.None?
    ensures CallsOnly(events) && Reaches(l, events, l.(pcs := l.pcs[t := Storing(l.pcs[t].inMemory, bytes)]))
  {
    var c, m := Call(t, true, bytes), l.pcs[t].inMemory;
    events := [c, c];
    Chain([l, l.(pcs := l.pcs[t := Building(m)]), l.(pcs := l.pcs[t := Storing(m, bytes)])], events);
  }

  lemma {:induction false} Store(l: Ledger, t: nat) returns (events: seq<Event>)
    requires t < |l.pcs| && l.pcs[t].Storing? && l.shared.stored.None? && l.shared.supports
    ensures CallsOnly(events)
    ensures Reaches(l, events, Ledger(Kept(l.shared, l.pcs[t].inMemory, l.pcs[t].bytes), l.pcs[t := Done(Served(l.pcs[t].bytes))]))
  {
    var m, b := l.pcs[t].inMemory, l.pcs[t].bytes;
    var c := Call(t, true, b);
    var keeping := Ledger(Note(l.shared.(stored := Some(b)), b), l.pcs[t := Keeping(m, b)]);
    One(l, c, keeping);
    var more := Close(keeping, t, b);
    assert keeping.pcs[t := Done(Served(b))] == l.pcs[t := Done(Served(b))];
    Join(l, [c], keeping, more, Ledger(Kept(l.shared, m, b), l.pcs[t := Done(Served(b))]));
    events := [c] + more;
  }

  lemma {:induction false} KeepOnly(l: Ledger, t: nat) returns (events: seq<Event>)
    requires t < |l.pcs| && l.pcs[t].Storing? && l.shared.stored.None? && !l.shared.supports
    ensures CallsOnly(events)
    ensures Reaches(l, events, Ledger(Kept(l.shared, l.pcs[t].inMemory, l.pcs[t].bytes), l.pcs[t := Done(Served(l.pcs[t].bytes))]))
  {
    var m, b := l.pcs[t].inMemory, l.pcs[t].bytes;
    var c, kept := Call(t, true, b), Note(l.shared.(unpersisted := Some(b)), b);
    events := [c, c, c];
    Chain([l, l.(pcs := l.pcs[t := KeepingOnly(b)]), Ledger(kept, l.pcs[t := Finishing(Served(b))]),
           Ledger(kept.(stripe := None), l.pcs[t := Done(Served(b))])], events);
  }

  lemma {:induction false} ServeNew(l: Ledger, t: nat, bytes: Bytes) returns (events: seq<Event>)
    requires t < |l.pcs| && l.pcs[t].Loading? && l.shared.stored.None?
    ensures CallsOnly(events)
    ensures Reaches(l, events, Ledger(Kept(l.shared, l.pcs[t].inMemory, bytes), l.pcs[t := Done(Served(Fresher(l.shared, bytes)))]))
  {
    var storing := l.(pcs := l.pcs[t := Storing(l.pcs[t].inMemory, bytes)]);
    var more;
    events := Prepare(l, t, bytes);
    if l.shared.supports { more := Store(storing, t); } else { more := KeepOnly(storing, t); }
    assert storing.pcs[t := Done(Served(bytes))] == l.pcs[t := Done(Served(bytes))];
    Join(l, events, storing, more, Ledger(Kept(l.shared, l.pcs[t].inMemory, bytes), l.pcs[t := Done(Served(bytes))]));
    events := events + more;
  }

  /** A caller that finds no copy is served the stored receipt, or any new one. */
  lemma {:induction false} Serve(l: Ledger, t: nat, bytes: Bytes) returns (events: seq<Event>, end: Ledger)
    requires t < |l.pcs| && l.pcs[t].Arriving? && Unissued(l.shared)
    ensures CallsOnly(events) && Reaches(l, events, end)
    ensures end == Ledger(Kept(l.shared, l.shared.resident, bytes), l.pcs[t := Done(Served(Fresher(l.shared, bytes)))])
  {
    var mid := Ledger(l.shared.(stripe := Some(Caller(t))), l.pcs[t := Locked]);
    var late := mid.(pcs := mid.pcs[t := Loading(l.shared.resident)]);
    events := Find(l, t, bytes);
    var more := Read(mid, t, bytes);
    Join(l, events, mid, more, late);
    events := events + more;
    if l.shared.stored.Some? { more := ServeStored(late, t, bytes); }
    else { more := ServeNew(late, t, bytes); }
    end := Ledger(Kept(late.shared, l.shared.resident, bytes), late.pcs[t := Done(Served(Fresher(l.shared, bytes)))]);
    Join(l, events, late, more, end);
    events := events + more;
    assert late.pcs[t := Done(Served(Fresher(l.shared, bytes)))] == l.pcs[t := Done(Served(Fresher(l.shared, bytes)))];
  }

  /** With a value served and none left to find, a new caller can be served another. */
  lemma {:induction false} Forks(l: Ledger, t: nat, u: nat)
    requires CopiesFine(l.shared) && LocksFine(l.shared) && Knows(l) && Settled(l.shared)
    requires t < |l.pcs| && l.pcs[t].Arriving? && u < |l.pcs| && WasServed(l.pcs[u])
    requires Lost(l.shared) && Readable(l.shared)
    ensures !AlwaysOne(l)
  {
    var v := l.pcs[u].response.bytes;
    assert CallKnows(l.shared, l.pcs[u]);
    var events, end := Serve(l, t, v + [0]);
    assert end.pcs[u] == l.pcs[u] && WasServed(end.pcs[t]) && end.pcs[t].response != end.pcs[u].response;
  }

  lemma {:induction false} StaysOne(l: Ledger)
    requires Invariant(l) && !l.shared.exposed
    ensures AlwaysOne(l)
  {
    forall more, end | CallsOnly(more) && Reaches(l, more, end) ensures Agreed(end) {
      CallsNeverExpose(l, more, end);
      RunKeeps(l, more, end);
      KnownAgree(end);
    }
  }

  /** After any run that has not exposed the value, and one more event: with a caller
      still to arrive and a value served, every way the calls can go on serves that
      value, if and only if it is not lost with the session readable. */
  lemma {:induction false} OneReceiptIff(n: nat, resident: bool, snapshot: bool, supports: bool, events: seq<Event>, l: Ledger, e: Event, t: nat, u: nat)
    requires Reaches(Fresh(n, resident, snapshot, supports), events, l) && !l.shared.exposed && Enabled(l, e)
    requires
      var l' := Next(l, e);
      && Settled(l'.shared) && t < |l'.pcs| && l'.pcs[t].Arriving? && u < |l'.pcs| && WasServed(l'.pcs[u])
    ensures AlwaysOne(Next(l, e)) <==> !(Lost(Next(l, e).shared) && Readable(Next(l, e).shared))
  {
    var l' := Next(l, e);
    RunKeeps(Fresh(n, resident, snapshot, supports), events, l);
    EventKeeps(l, e);
    if Lost(l'.shared) && Readable(l'.shared) {
      Forks(l', t, u);
    } else {
      ExposedOnlyBy(l, e);
      StaysOne(l');
    }
  }

  // ---- The two ways to lose it ---------------------------------------------

  lemma {:induction false} EvictBlindly(l: Ledger) returns (events: seq<Event>, end: Ledger)
    requires Settled(l.shared) && l.shared.unpersisted.Some? && l.shared.snapshot
    ensures Reaches(l, events, end) && end.pcs == l.pcs && Unissued(end.shared) && end.shared.supports == l.shared.supports && end.shared.stored == l.shared.stored
  {
    var s1 := l.shared.(keeper := Evicting, resident := false);
    var s2 := s1.(keeper := EvictHeld, stripe := Some(Maintenance));
    var s3 := s2.(keeper := EvictDropped, cache := None);
    var l1, l2, l3 := l.(shared := Mark(s1)), l.(shared := Mark(s2.(exposed := Mark(s1).exposed))), l.(shared := Mark(s3.(exposed := Mark(s1).exposed)));
    end := Next(l3, Keep(false, false));
    events := [Keep(false, true), Keep(false, true), Keep(false, true), Keep(false, false)];
    Chain([l, l1, l2, l3, end], events);
  }

  /** If storage cannot keep receipts and the reload fails once during an eviction,
      the only copy is dropped although the session can be read again, and the
      next caller may be served other bytes. */
  lemma {:induction false} FailedReloadForksReceipt(first: Bytes, second: Bytes) returns (events: seq<Event>, end: Ledger)
    ensures Reaches(Fresh(2, true, true, false), events, end) && end.pcs == [Done(Served(first)), Done(Served(second))]
  {
    var l0 := Fresh(2, true, true, false);
    var l1, l2, more;
    events, l1 := Serve(l0, 0, first);
    more, l2 := EvictBlindly(l1);
    Join(l0, events, l1, more, l2);
    events := events + more;
    more, end := Serve(l2, 1, second);
    Join(l0, events, l2, more, end);
    events := events + more;
  }

  lemma {:induction false} Delete(l: Ledger) returns (events: seq<Event>, end: Ledger)
    requires Settled(l.shared) && l.shared.supports
    ensures Reaches(l, events, end) && end.pcs == l.pcs && end.shared.handles == l.shared.handles && end.shared.supports
    ensures Settled(end.shared) && end.shared.cache.None? && end.shared.unpersisted.None? && end.shared.stored.None?
  {
    var l1 := Next(l, Keep(true, true));
    var l2 := Next(l1, Keep(true, true));
    var l3 := Next(l2, Keep(true, true));
    end := Next(l3, Keep(true, true));
    events := [Keep(true, true), Keep(true, true), Keep(true, true), Keep(true, true)];
    Chain([l, l1, l2, l3, end], events);
  }

  /** Deletion with a handle taken before it, and the snapshot it writes after. */
  lemma {:induction false} DeleteAndResave(l: Ledger) returns (events: seq<Event>, end: Ledger)
    requires Settled(l.shared) && l.shared.resident && l.shared.supports
    ensures Reaches(l, events, end) && end.pcs == l.pcs && Unissued(end.shared) && end.shared.supports && end.shared.stored.None?
  {
    var held := Next(l, TakeHandle);
    One(l, TakeHandle, held);
    var more, gone := Delete(held);
    Join(l, [TakeHandle], held, more, gone);
    end := Next(gone, Resave);
    One(gone, Resave, end);
    Join(l, [TakeHandle] + more, gone, [Resave], end);
    events := [TakeHandle] + more + [Resave];
  }

  /** A cancellation that took its handle before a deletion writes the snapshot back
      after it, and the next caller may be served other bytes, with no failure
      anywhere. */
  lemma {:induction false} ResaveForksReceipt(first: Bytes, second: Bytes) returns (events: seq<Event>, end: Ledger)
    ensures Reaches(Fresh(2, true, true, true), events, end) && end.pcs == [Done(Served(first)), Done(Served(second))]
  {
    var l0 := Fresh(2, true, true, true);
    var l1, l2, more;
    events, l1 := Serve(l0, 0, first);
    more, l2 := DeleteAndResave(l1);
    Join(l0, events, l1, more, l2);
    events := events + more;
    more, end := Serve(l2, 1, second);
    Join(l0, events, l2, more, end);
    events := events + more;
  }
}
