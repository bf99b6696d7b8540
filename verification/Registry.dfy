/** The reservation a start makes in the session registry (src/runtime.rs:1006-1044):
    the id is taken and the sender's open sessions are counted under one write
    lock, without ever waiting for a session's own mutex. */
module Registries {
  import opened Sessions

  /** A resident session as the count sees it; `locked` hides its state. */
  datatype Resident = Resident(initiator: string, state: SessionState, ttlExpiry: int, locked: bool) {
    predicate OpenFor(sender: string, now: int) { initiator == sender && state == Open && now <= ttlExpiry }

    /** `try_lock`: a locked session counts for everybody. */
    predicate CountsFor(sender: string, now: int) { locked || OpenFor(sender, now) }
  }

  function OpenIds(sessions: map<string, Resident>, sender: string, now: int): set<string> {
    set id | id in sessions && sessions[id].OpenFor(sender, now)
  }

  function CountedIds(sessions: map<string, Resident>, sender: string, now: int): set<string> {
    set id | id in sessions && sessions[id].CountsFor(sender, now)
  }

  class SessionRegistry {
    var sessions: map<string, Resident>

    method CountOpen(sender: string, now: int) returns (count: nat)
      ensures count == |CountedIds(sessions, sender, now)|
    {
      count := 0;
      var left := sessions.Keys;
      ghost var done: set<string> := {};
      while left != {}
        invariant done + left == sessions.Keys && done !! left
        invariant count == |set id | id in done && sessions[id].CountsFor(sender, now)|
        decreases |left|
      {
        var id :| id in left;
        ghost var counted := set i | i in done && sessions[i].CountsFor(sender, now);
        ghost var counted' := set i | i in done + {id} && sessions[i].CountsFor(sender, now);
        if sessions[id].CountsFor(sender, now) {
          count := count + 1;
          assert counted' == counted + {id};
        } else {
          assert counted' == counted;
        }
        left := left - {id};
        done := done + {id};
      }
      assert CountedIds(sessions, sender, now) == set id | id in done && sessions[id].CountsFor(sender, now);
    }

    /** An admitted start leaves its sender with at most `maxOpen` open sessions,
        whatever was locked while they were counted. */
    method Reserve(id: string, session: Resident, maxOpen: Option<nat>, now: int) returns (r: Result<()>)
      modifies this
      ensures r.Ok? <==> id !in old(sessions) && (maxOpen.Some? ==> |CountedIds(old(sessions), session.initiator, now)| < maxOpen.value)
      ensures sessions == if r.Ok? then old(sessions)[id := session] else old(sessions)
      ensures r.Ok? && maxOpen.Some? ==> |OpenIds(sessions, session.initiator, now)| <= maxOpen.value
      ensures r.Err? ==> r.error == if id in old(sessions) then SessionAlreadyExists else RateLimited
    {
      if id in sessions { return Err(SessionAlreadyExists); }
      if maxOpen.Some? {
        var count := CountOpen(session.initiator, now);
        if count >= maxOpen.value { return Err(RateLimited); }
        NeverUndercounts(sessions, id, session, now);
      }
      sessions := sessions[id := session];
      return Ok(());
    }
  }

  /** Counting locked sessions for everybody can only overcount. */
  lemma NeverUndercounts(sessions: map<string, Resident>, id: string, session: Resident, now: int)
    requires id !in sessions
    ensures |OpenIds(sessions[id := session], session.initiator, now)| <= |CountedIds(sessions, session.initiator, now)| + 1
  {
    var open, counted := OpenIds(sessions[id := session], session.initiator, now), CountedIds(sessions, session.initiator, now);
    assert open <= counted + {id};
    Subset(open, counted + {id});
  }

  lemma {:induction false} Subset(a: set<string>, b: set<string>)
    requires a <= b
    ensures |a| <= |b|
    decreases |a|
  {
    if a != {} {
      var x :| x in a;
      Subset(a - {x}, b - {x});
    }
  }
}
