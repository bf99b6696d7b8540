/** `ReceiptIssuer` (src/receipts.rs:176-252) and an uncontended `decision_receipt`
    (src/runtime.rs:1557-1636). What happens between two of its suspension points
    when calls do contend is the subject of module `Receipts`. */
module ReceiptIssuers {
  import opened Sessions
  import R = Receipts

  /** First-writer-wins receipt storage (crates/macp-storage/src/storage/mod.rs:83-110). */
  class ReceiptStorage {
    var receipts: map<string, Bytes>
    const supported: bool

    constructor (supported: bool)
      ensures receipts == map[] && this.supported == supported
    {
      receipts := map[];
      this.supported := supported;
    }

    method StoreIfAbsent(id: string, bytes: Bytes) returns (now: Bytes)
      requires supported
      modifies this
      ensures receipts == if id in old(receipts) then old(receipts) else old(receipts)[id := bytes]
      ensures id in receipts && now == receipts[id]
    {
      if id !in receipts { receipts := receipts[id := bytes]; }
      now := receipts[id];
    }
  }

  /** What the outside answers during one call. */
  datatype Answers = Answers(resident: bool, snapshot: bool, loads: bool, builds: bool, stores: bool, bytes: Bytes)

  class ReceiptIssuer {
    var cache: map<string, Bytes>
    var unpersisted: map<string, Bytes>

    constructor ()
      ensures cache == map[] && unpersisted == map[]
    {
      cache, unpersisted := map[], map[];
    }

    function Cached(id: string): Option<Bytes>
      reads this
    {
      if id in unpersisted then Some(unpersisted[id]) else if id in cache then Some(cache[id]) else None
    }

    method Evict(id: string)
      modifies this`cache
      ensures cache == old(cache) - {id}
    {
      cache := cache - {id};
    }

    method Forget(id: string)
      modifies this
      ensures cache == old(cache) - {id} && unpersisted == old(unpersisted) - {id} && Cached(id) == None
    {
      cache, unpersisted := cache - {id}, unpersisted - {id};
    }

    /** This issuer's view of one session, as the interleaved model has it. */
    ghost function View(storage: ReceiptStorage, id: string, a: Answers): R.Shared
      reads this, storage
    {
      R.Shared(a.resident, a.snapshot, storage.supported,
               if id in storage.receipts then Some(storage.receipts[id]) else None,
               if id in cache then Some(cache[id]) else None,
               if id in unpersisted then Some(unpersisted[id]) else None,
               None, R.Resting, 0, None, false, false)
    }

    /** The body, step by step; `ensures` ties it to the call of the interleaved model
        run on its own, and says what one call may change. */
    method DecisionReceipt(storage: ReceiptStorage, id: string, a: Answers) returns (response: R.Response)
      requires !storage.supported ==> id !in storage.receipts
      modifies this, storage
      ensures response == Solo(old(View(storage, id, a)), a).response
      ensures View(storage, id, a) == Solo(old(View(storage, id, a)), a).shared
      ensures cache - {id} == old(cache) - {id} && unpersisted - {id} == old(unpersisted) - {id}
      ensures storage.receipts - {id} == old(storage.receipts) - {id}
      ensures id in old(storage.receipts) ==> storage.receipts == old(storage.receipts)
    {
      SoloOutcome(View(storage, id, a), a);
      var cached := Cached(id);
      if cached.Some? { return R.Served(cached.value); }
      if !a.resident && !a.snapshot { return R.Refused; }
      if !a.loads { return R.Refused; }
      var bytes;
      if id in storage.receipts {
        bytes := storage.receipts[id];
      } else {
        if !a.builds { return R.Refused; }
        if !storage.supported {
          unpersisted := unpersisted[id := a.bytes];
          return R.Served(a.bytes);
        }
        if !a.stores { return R.Refused; }
        bytes := storage.StoreIfAbsent(id, a.bytes);
      }
      if a.resident { cache := cache[id := bytes]; }
      return R.Served(bytes);
    }
  }

  datatype Ended = Ended(shared: R.Shared, response: R.Response)

  /** One call of the interleaved model with nobody else running, `value` aside. */
  function Solo(s: R.Shared, a: Answers): Ended { Finish(s, R.Arriving, a) }

  /** How many steps a call still has at most. */
  function Rank(pc: R.Pc): nat {
    match pc
    case Arriving => 12
    case FastCache => 11
    case Wanting => 10
    case Rechecking => 9
    case RecheckCache => 8
    case Locked => 7
    case Reading(_) => 6
    case Loading(_) => 5
    case Building(_) => 4
    case Storing(_, _) => 3
    case Keeping(_, _) => 2
    case KeepingOnly(_) => 2
    case Finishing(_) => 1
    case Done(_) => 0
  }

  /** What the outside answers at a step. */
  predicate StepOk(pc: R.Pc, a: Answers) {
    match pc
    case Reading(_) => true
    case Loading(_) => a.loads
    case Building(_) => a.builds
    case _ => a.stores
  }

  function Step(s: R.Shared, pc: R.Pc, a: Answers): (r: R.Stepped)
    ensures !pc.Done? ==> Rank(r.pc) < Rank(pc)
  {
    R.StepCall(s, 0, pc, StepOk(pc, a), a.bytes)
  }

  function Finish(s: R.Shared, pc: R.Pc, a: Answers): Ended
    decreases Rank(pc)
  {
    if pc.Done? then Ended(s.(value := None), pc.response)
    else Finish(Step(s, pc, a).shared, Step(s, pc, a).pc, a)
  }

  predicate BeforeStripe(pc: R.Pc) { pc.Arriving? || pc.FastCache? || pc.Wanting? }

  lemma {:induction false} FinishIsRun(s: R.Shared, pc: R.Pc, a: Answers) returns (events: seq<R.Event>, end: R.Ledger)
    requires BeforeStripe(pc) ==> s.stripe.None?
    ensures R.CallsOnly(events) && R.Reaches(R.Ledger(s, [pc]), events, end)
    ensures |end.pcs| == 1 && end.pcs[0].Done? && Finish(s, pc, a) == Ended(end.shared.(value := None), end.pcs[0].response)
    decreases Rank(pc)
  {
    var l := R.Ledger(s, [pc]);
    if pc.Done? {
      events, end := [], l;
    } else {
      var next := Step(s, pc, a);
      var e := R.Call(0, StepOk(pc, a), a.bytes);
      assert R.Next(l, e) == R.Ledger(next.shared, [next.pc]);
      var rest;
      rest, end := FinishIsRun(next.shared, next.pc, a);
      events := [e] + rest;
      assert events[1..] == rest;
    }
  }

  /** An uncontended call is a run of the interleaved model, by its calls alone. */
  lemma {:induction false} SoloIsRun(s: R.Shared, a: Answers) returns (events: seq<R.Event>, end: R.Ledger)
    requires s.stripe.None?
    ensures R.CallsOnly(events) && R.Reaches(R.Ledger(s, [R.Arriving]), events, end)
    ensures |end.pcs| == 1 && end.pcs[0].Done? && Solo(s, a) == Ended(end.shared.(value := None), end.pcs[0].response)
  {
    events, end := FinishIsRun(s, R.Arriving, a);
  }

  lemma {:induction false} SoloFinds(s: R.Shared, a: Answers)
    ensures s.unpersisted.Some? ==> Solo(s, a) == Ended(s.(value := None), R.Served(s.unpersisted.value))
    ensures s.unpersisted.None? && s.cache.Some? ==> Solo(s, a) == Ended(s.(value := None), R.Served(s.cache.value))
    ensures s.unpersisted.None? && s.cache.None? ==> Solo(s, a) == Finish(s.(stripe := Some(R.Caller(0))), R.Locked, a)
  {
    if s.unpersisted.None? {
      assert Finish(s, R.Arriving, a) == Finish(s, R.FastCache, a);
      if s.cache.None? {
        var held := s.(stripe := Some(R.Caller(0)));
        assert Finish(s, R.FastCache, a) == Finish(s, R.Wanting, a) == Finish(held, R.Rechecking, a);
        assert Finish(held, R.Rechecking, a) == Finish(held, R.RecheckCache, a) == Finish(held, R.Locked, a);
      }
    }
  }

  lemma {:induction false} SoloReads(s: R.Shared, a: Answers)
    ensures !s.resident && !s.snapshot ==> Finish(s, R.Locked, a) == Ended(s.(stripe := None, value := None), R.Refused)
    ensures s.resident || s.snapshot ==> Finish(s, R.Locked, a) == Finish(s, R.Loading(s.resident), a)
  {
    assert Finish(s, R.Locked, a) == Finish(s, R.Reading(s.resident), a);
    if !s.resident && !s.snapshot {
      assert Finish(s, R.Reading(false), a) == Finish(s, R.Finishing(R.Refused), a);
    }
  }

  lemma {:induction false} SoloEnds(s: R.Shared, a: Answers, response: R.Response)
    ensures Finish(s, R.Finishing(response), a) == Ended(s.(stripe := None, value := None), response)
  {
    assert Finish(s, R.Finishing(response), a) == Finish(s.(stripe := None), R.Done(response), a);
  }

  lemma {:induction false} SoloKeeps(s: R.Shared, a: Answers, m: bool, bytes: Bytes)
    ensures Finish(s, R.Keeping(m, bytes), a) == Ended(s.(cache := if m then Some(bytes) else s.cache, stripe := None, value := None), R.Served(bytes))
    ensures Finish(s, R.KeepingOnly(bytes), a) == Ended(s.(unpersisted := Some(bytes), stripe := None, value := None), R.Served(bytes))
  {
    var kept, only := s.(cache := if m then Some(bytes) else s.cache), R.Note(s.(unpersisted := Some(bytes)), bytes);
    assert Finish(s, R.Keeping(m, bytes), a) == Finish(kept, R.Finishing(R.Served(bytes)), a);
    assert Finish(s, R.KeepingOnly(bytes), a) == Finish(only, R.Finishing(R.Served(bytes)), a);
    SoloEnds(kept, a, R.Served(bytes));
    SoloEnds(only, a, R.Served(bytes));
  }

  lemma {:induction false} SoloIssues(s: R.Shared, a: Answers, m: bool)
    requires !s.supports ==> s.stored.None?
    ensures
      Finish(s, R.Loading(m), a) ==
        if !a.loads then Finish(s, R.Finishing(R.Refused), a)
        else if s.stored.Some? then Finish(s, R.Keeping(m, s.stored.value), a)
        else if !a.builds then Finish(s, R.Finishing(R.Refused), a)
        else if !s.supports then Finish(s, R.KeepingOnly(a.bytes), a)
        else if !a.stores then Finish(s, R.Finishing(R.Refused), a)
        else Finish(R.Note(s.(stored := Some(a.bytes)), a.bytes), R.Keeping(m, a.bytes), a)
  {
    if a.loads && s.stored.None? {
      assert Finish(s, R.Loading(m), a) == Finish(s, R.Building(m), a);
      if a.builds { assert Finish(s, R.Building(m), a) == Finish(s, R.Storing(m, a.bytes), a); }
    }
  }

  /** What an uncontended call amounts to. */
  function Outcome(s: R.Shared, a: Answers): Ended {
    if s.unpersisted.Some? then Ended(s, R.Served(s.unpersisted.value))
    else if s.cache.Some? then Ended(s, R.Served(s.cache.value))
    else if (!s.resident && !s.snapshot) || !a.loads then Ended(s, R.Refused)
    else if s.stored.Some? then Ended(s.(cache := if s.resident then s.stored else None), R.Served(s.stored.value))
    else if !a.builds then Ended(s, R.Refused)
    else if !s.supports then Ended(s.(unpersisted := Some(a.bytes)), R.Served(a.bytes))
    else if !a.stores then Ended(s, R.Refused)
    else Ended(s.(stored := Some(a.bytes), cache := if s.resident then Some(a.bytes) else None), R.Served(a.bytes))
  }

  lemma {:induction false} SoloOutcome(s: R.Shared, a: Answers)
    requires s.stripe.None? && s.value.None? && (!s.supports ==> s.stored.None?)
    ensures Solo(s, a) == Outcome(s, a)
  {
    SoloFinds(s, a);
    if s.unpersisted.None? && s.cache.None? {
      var held := s.(stripe := Some(R.Caller(0)));
      SoloReads(held, a);
      if s.resident || s.snapshot {
        SoloIssues(held, a, s.resident);
        SoloEnds(held, a, R.Refused);
        if s.stored.Some? { SoloKeeps(held, a, s.resident, s.stored.value); }
        else if s.supports { SoloKeeps(R.Note(held.(stored := Some(a.bytes)), a.bytes), a, s.resident, a.bytes); }
        else { SoloKeeps(held, a, s.resident, a.bytes); }
      }
    }
  }
}
