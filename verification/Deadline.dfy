/** `Session::unsuspended_deadline` (crates/macp-core/src/session.rs:419-512): the
    walk over completed pauses finds the first instant at which the given amount
    of unsuspended time has passed. */
module Deadlines {
  import opened Sessions

  function Min(x: int, y: int): int { if x < y then x else y }

  /** The time `p` takes out of `[lo, t]`. */
  function Overlap(p: Pause, lo: int, t: int): int { Max(Min(p.to, t) - Max(p.from, lo), 0) }

  /** Suspended time inside `[lo, t]`. */
  function PausedIn(pauses: seq<Pause>, lo: int, t: int): int {
    if pauses == [] then 0 else Overlap(pauses[0], lo, t) + PausedIn(pauses[1..], lo, t)
  }

  /** Unsuspended time from `lo` to `t`. */
  function ActiveIn(pauses: seq<Pause>, lo: int, t: int): int { (t - lo) - PausedIn(pauses, lo, t) }

  /** Pauses in order, disjoint, none beginning before `lo`. */
  predicate OrderedFrom(pauses: seq<Pause>, lo: int) {
    && (forall i :: 0 <= i < |pauses| ==> lo <= pauses[i].from <= pauses[i].to)
    && (forall i, j :: 0 <= i < j < |pauses| ==> pauses[i].to <= pauses[j].from)
  }

  /** The walk without saturation. */
  function Walk(cur: int, remaining: int, pauses: seq<Pause>): int
    decreases |pauses|
  {
    if pauses == [] || Max(pauses[0].from - cur, 0) >= remaining then cur + remaining
    else Walk(Max(Max(pauses[0].to, pauses[0].from), cur), remaining - Max(pauses[0].from - cur, 0), pauses[1..])
  }

  lemma {:induction false} PausedBounds(pauses: seq<Pause>, lo: int, t: int)
    requires OrderedFrom(pauses, lo)
    ensures 0 <= PausedIn(pauses, lo, t) <= Max(t - lo, 0)
    ensures pauses != [] && t <= pauses[0].from ==> PausedIn(pauses, lo, t) == 0
  {
    if pauses != [] {
      var p, rest := pauses[0], pauses[1..];
      assert forall i :: 0 <= i < |rest| ==> rest[i] == pauses[i + 1];
      RebaseLow(rest, lo, p.to, t);
      PausedBounds(rest, p.to, t);
    }
  }

  /** Only the part of the window after the pauses begin matters. */
  lemma {:induction false} RebaseLow(pauses: seq<Pause>, lo: int, hi: int, t: int)
    requires OrderedFrom(pauses, hi) && lo <= hi
    ensures PausedIn(pauses, lo, t) == PausedIn(pauses, hi, t)
  {
    if pauses != [] {
      assert forall i :: 0 <= i < |pauses[1..]| ==> pauses[1..][i] == pauses[i + 1];
      RebaseLow(pauses[1..], lo, hi, t);
    }
  }

  /** The walk ends at the earliest instant with `remaining` unsuspended time: at it
      and after it there is at least that much, before it there is less. */
  lemma {:induction false} WalkIsEarliest(pauses: seq<Pause>, cur: int, remaining: int, t: int)
    requires OrderedFrom(pauses, cur) && 0 <= remaining && cur <= t
    ensures cur <= Walk(cur, remaining, pauses)
    ensures Walk(cur, remaining, pauses) <= t <==> remaining <= ActiveIn(pauses, cur, t)
    ensures t == Walk(cur, remaining, pauses) ==> ActiveIn(pauses, cur, t) == remaining
  {
    if pauses == [] {
    } else {
      var p, rest := pauses[0], pauses[1..];
      assert forall i :: 0 <= i < |rest| ==> rest[i] == pauses[i + 1];
      var run := p.from - cur;
      RebaseLow(rest, cur, p.to, t);
      PausedBounds(rest, p.to, t);
      if run >= remaining {
        PausedBounds(pauses, cur, t);
        RebaseLow(pauses, cur, p.from, t);
        PausedBounds(pauses, p.from, t);
      } else if t <= p.to {
        WalkIsEarliest(rest, p.to, remaining - run, p.to);
        PausedNone(rest, p.to, t);
      } else {
        WalkIsEarliest(rest, p.to, remaining - run, t);
      }
    }
  }

  lemma {:induction false} PausedNone(pauses: seq<Pause>, lo: int, t: int)
    requires OrderedFrom(pauses, lo) && t <= lo
    ensures PausedIn(pauses, lo, t) == 0
  {
    if pauses != [] {
      assert forall i :: 0 <= i < |pauses[1..]| ==> pauses[1..][i] == pauses[i + 1];
      PausedNone(pauses[1..], lo, t);
    }
  }

  /** A pause that begins at or after the deadline does not move it, so the recorded
      instant does not depend on when it is observed. */
  lemma {:induction false} LaterPauseIrrelevant(pauses: seq<Pause>, cur: int, remaining: int, late: Pause)
    requires 0 <= remaining && Walk(cur, remaining, pauses) <= late.from
    ensures Walk(cur, remaining, pauses + [late]) == Walk(cur, remaining, pauses)
  {
    if pauses != [] && !(Max(pauses[0].from - cur, 0) >= remaining) {
      assert (pauses + [late])[1..] == pauses[1..] + [late];
      LaterPauseIrrelevant(pauses[1..], Max(Max(pauses[0].to, pauses[0].from), cur), remaining - Max(pauses[0].from - cur, 0), late);
    }
  }

  // ---- The method ----------------------------------------------------------

  predicate InRange(x: int) { 0 <= x <= I64_MAX }

  /** The pauses the walk looks at. */
  function Since(pauses: seq<Pause>, from: int): seq<Pause> {
    if pauses == [] then []
    else if pauses[0].from >= from then [pauses[0]] + Since(pauses[1..], from)
    else Since(pauses[1..], from)
  }

  /** The walk in `i64` arithmetic, on whatever intervals it is given. */
  function SaturatingWalk(cur: int, remaining: int, pauses: seq<Pause>): int
    decreases |pauses|
  {
    if pauses == [] then Sat(cur + remaining)
    else
      var run := Max(Sat(pauses[0].from - cur), 0);
      if run >= remaining then Sat(cur + remaining)
      else SaturatingWalk(Max(Max(pauses[0].to, pauses[0].from), cur), Sat(remaining - run), pauses[1..])
  }

  method UnsuspendedDeadline(intervals: seq<Pause>, from: int, duration: int) returns (deadline: int)
    ensures deadline == SaturatingWalk(from, duration, Since(intervals, from))
  {
    var cur, remaining := from, duration;
    var i := 0;
    while i < |intervals|
      invariant 0 <= i <= |intervals|
      invariant SaturatingWalk(from, duration, Since(intervals, from)) == SaturatingWalk(cur, remaining, Since(intervals[i..], from))
    {
      assert intervals[i..][1..] == intervals[i + 1..];
      var p := intervals[i];
      i := i + 1;
      if p.from < from { continue; }
      assert Since(intervals[i - 1..], from)[1..] == Since(intervals[i..], from);
      var run := Max(Sat(p.from - cur), 0);
      if run >= remaining { return Sat(cur + remaining); }
      remaining := Sat(remaining - run);
      cur := Max(Max(p.to, p.from), cur);
    }
    return Sat(cur + remaining);
  }

  /** On non-negative clocks only the final addition can saturate. */
  lemma {:induction false} SaturationOnlyAtTheEnd(cur: int, remaining: int, pauses: seq<Pause>)
    requires InRange(cur) && InRange(remaining)
    requires forall i :: 0 <= i < |pauses| ==> InRange(pauses[i].from) && InRange(pauses[i].to)
    ensures SaturatingWalk(cur, remaining, pauses) == Min(I64_MAX, Walk(cur, remaining, pauses))
    decreases |pauses|
  {
    if pauses != [] {
      var run := Max(pauses[0].from - cur, 0);
      assert forall i :: 0 <= i < |pauses[1..]| ==> pauses[1..][i] == pauses[i + 1];
      if run < remaining { SaturationOnlyAtTheEnd(Max(Max(pauses[0].to, pauses[0].from), cur), remaining - run, pauses[1..]); }
    }
  }

  // ---- Decision and timestamp agree ----------------------------------------

  /** The pauses from `from` on, added up. */
  function Banked(pauses: seq<Pause>): int {
    if pauses == [] then 0 else Max(pauses[0].to - pauses[0].from, 0) + Banked(pauses[1..])
  }

  lemma {:induction false} AllInsideWindow(pauses: seq<Pause>, from: int, now: int)
    requires OrderedFrom(pauses, from) && forall i :: 0 <= i < |pauses| ==> pauses[i].to <= now
    ensures PausedIn(pauses, from, now) == Banked(pauses)
  {
    if pauses != [] {
      assert forall i :: 0 <= i < |pauses[1..]| ==> pauses[1..][i] == pauses[i + 1];
      AllInsideWindow(pauses[1..], from, now);
    }
  }

  /** The scalar test "elapsed minus everything banked since `from`" and the interval
      walk decide alike at every observation, although only the walk yields an
      instant that does not move with later pauses. */
  lemma {:induction false} ScalarTestIsExact(pauses: seq<Pause>, from: int, duration: int, now: int)
    requires OrderedFrom(pauses, from) && 0 <= duration && from <= now
    requires forall i :: 0 <= i < |pauses| ==> pauses[i].to <= now
    ensures now - from - Banked(pauses) >= duration <==> Walk(from, duration, pauses) <= now
  {
    AllInsideWindow(pauses, from, now);
    WalkIsEarliest(pauses, from, duration, now);
  }
}
