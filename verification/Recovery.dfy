/** `recover_sessions` (src/recovery.rs:28-117): every stored session is rebuilt from
    its log before the runtime serves; a session that cannot be is skipped, or in
    strict mode ends recovery. */
module Recoveries {
  import opened Sessions
  import opened Logs
  import opened Replay
  import opened Kernels
  import opened KernelProofs

  /** What storage answers for one session id. */
  datatype Stored = Stored(loads: bool, log: Log, saves: bool)

  type Disk = map<string, Stored>

  predicate Recoverable(ctx: Context, id: string, d: Stored) { d.loads && d.log != [] && Replayed(ctx, id, d.log).Ok? }

  /** What strict recovery refuses; an empty log is never a failure. */
  predicate Fails(ctx: Context, id: string, d: Stored) {
    !d.loads || (d.log != [] && (Replayed(ctx, id, d.log).Err? || !d.saves))
  }

  function RecoveredIds(ctx: Context, disk: Disk, ids: seq<string>): set<string> {
    set id | id in ids && id in disk && Recoverable(ctx, id, disk[id])
  }

  /** The registry and the log store hold exactly these ids, each with the session
      its log replays to and that log itself. */
  predicate Restored(ctx: Context, disk: Disk, ids: set<string>, sessions: map<string, Session>, logs: map<string, Log>) {
    && sessions.Keys == ids && logs.Keys == ids && ids <= disk.Keys
    && forall id :: id in ids ==> Replayed(ctx, id, disk[id].log) == Ok(sessions[id]) && logs[id] == disk[id].log
  }

  lemma RestoredNext(ctx: Context, disk: Disk, ids: set<string>, sessions: map<string, Session>, logs: map<string, Log>, id: string, s: Session)
    requires Restored(ctx, disk, ids, sessions, logs) && id in disk && Replayed(ctx, id, disk[id].log) == Ok(s)
    ensures Restored(ctx, disk, ids + {id}, sessions[id := s], logs[id := disk[id].log])
  {
    var sessions', logs' := sessions[id := s], logs[id := disk[id].log];
    assert sessions'.Keys == ids + {id} && logs'.Keys == ids + {id};
    forall i | i in ids + {id} ensures Replayed(ctx, i, disk[i].log) == Ok(sessions'[i]) && logs'[i] == disk[i].log {
      if i != id { assert i in ids && sessions'[i] == sessions[i] && logs'[i] == logs[i]; }
    }
  }

  datatype Progress = Progress(sessions: map<string, Session>, logs: map<string, Log>, recovered: nat)

  /** One session's recovery. */
  function After(ctx: Context, id: string, d: Stored, p: Progress): Progress {
    if Recoverable(ctx, id, d)
    then Progress(p.sessions[id := Replayed(ctx, id, d.log).value], p.logs[id := d.log], p.recovered + 1)
    else p
  }

  predicate Fine(ctx: Context, disk: Disk, ids: seq<string>, p: Progress) {
    var done := RecoveredIds(ctx, disk, ids);
    Restored(ctx, disk, done, p.sessions, p.logs) && p.recovered == |done|
  }

  lemma FineNext(ctx: Context, disk: Disk, ids: seq<string>, id: string, p: Progress)
    requires Fine(ctx, disk, ids, p) && id in disk && id !in ids
    ensures Fine(ctx, disk, ids + [id], After(ctx, id, disk[id], p))
  {
    RecoveredNext(ctx, disk, ids, id);
    if Recoverable(ctx, id, disk[id]) {
      RestoredNext(ctx, disk, RecoveredIds(ctx, disk, ids), p.sessions, p.logs, id, Replayed(ctx, id, disk[id].log).value);
    }
  }

  /** All of them, in order. */
  function Fold(ctx: Context, disk: Disk, ids: seq<string>): Progress {
    if ids == [] then Progress(map[], map[], 0)
    else
      var before := Fold(ctx, disk, DropLast(ids));
      if Last(ids) in disk then After(ctx, Last(ids), disk[Last(ids)], before) else before
  }

  predicate Listed(disk: Disk, ids: seq<string>) {
    (forall i :: 0 <= i < |ids| ==> ids[i] in disk) && forall i, j :: 0 <= i < j < |ids| ==> ids[i] != ids[j]
  }

  lemma ListedNext(disk: Disk, ids: seq<string>)
    requires Listed(disk, ids) && ids != []
    ensures Listed(disk, DropLast(ids)) && Last(ids) !in DropLast(ids) && Last(ids) in disk && ids == DropLast(ids) + [Last(ids)]
  {
  }

  lemma FineEmpty(ctx: Context, disk: Disk)
    ensures Fine(ctx, disk, [], Progress(map[], map[], 0))
  {
    assert RecoveredIds(ctx, disk, []) == {};
  }

  lemma {:induction false} FoldFine(ctx: Context, disk: Disk, ids: seq<string>)
    requires Listed(disk, ids)
    ensures Fine(ctx, disk, ids, Fold(ctx, disk, ids))
  {
    if ids == [] {
      FineEmpty(ctx, disk);
    } else {
      ListedNext(disk, ids);
      FoldFine(ctx, disk, DropLast(ids));
      FineNext(ctx, disk, DropLast(ids), Last(ids), Fold(ctx, disk, DropLast(ids)));
    }
  }

  predicate AnyFails(ctx: Context, disk: Disk, ids: seq<string>) {
    exists i :: 0 <= i < |ids| && ids[i] in disk && Fails(ctx, ids[i], disk[ids[i]])
  }

  class RecoveredState {
    var sessions: map<string, Session>
    var logs: map<string, Log>
    var recovered: nat

    constructor ()
      ensures View() == Progress(map[], map[], 0)
    {
      sessions, logs, recovered := map[], map[], 0;
    }

    function View(): Progress reads this { Progress(sessions, logs, recovered) }

    method RecoverOne(ctx: Context, id: string, d: Stored, strict: bool) returns (ok: bool)
      modifies this
      ensures ok <==> !(strict && Fails(ctx, id, d))
      ensures ok ==> View() == old(After(ctx, id, d, View()))
    {
      if !d.loads { return !strict; }
      if d.log == [] { return true; }
      var replayed := ReplaySession(ctx, id, d.log);
      if replayed.Err? { return !strict; }
      if !d.saves && strict { return false; }
      logs := logs[id := d.log];
      sessions := sessions[id := replayed.value];
      recovered := recovered + 1;
      return true;
    }

    /** Recovery refuses exactly when strict and some session fails; otherwise the
        registry and the log store hold every recoverable session and no other. */
    method RecoverSessions(ctx: Context, disk: Disk, ids: seq<string>, strict: bool) returns (ok: bool)
      requires View() == Progress(map[], map[], 0) && Listed(disk, ids)
      modifies this
      ensures ok <==> !(strict && AnyFails(ctx, disk, ids))
      ensures ok ==> Fine(ctx, disk, ids, View())
    {
      var n := 0;
      while n < |ids|
        invariant 0 <= n <= |ids| && View() == Fold(ctx, disk, ids[..n])
        invariant strict ==> forall i :: 0 <= i < n ==> !Fails(ctx, ids[i], disk[ids[i]])
      {
        var id := ids[n];
        assert DropLast(ids[..n + 1]) == ids[..n];
        ok := RecoverOne(ctx, id, disk[id], strict);
        if !ok { return; }
        n := n + 1;
      }
      assert ids[..n] == ids;
      FoldFine(ctx, disk, ids);
      return true;
    }
  }

  lemma RecoveredNext(ctx: Context, disk: Disk, ids: seq<string>, id: string)
    requires id in disk
    ensures RecoveredIds(ctx, disk, ids + [id]) == RecoveredIds(ctx, disk, ids) + if Recoverable(ctx, id, disk[id]) then {id} else {}
  {
  }

  /** Every log a kernel leaves on disk, at any durable point of any run, is
      recoverable and gives back the session that log means: strict recovery never
      refuses it, and no session is lost. */
  lemma {:induction false} KernelLogsRecover(sc: Scope, k: Kernel, steps: seq<Step>, saves: bool)
    requires sc.Lawful() && Good(sc, k)
    requires forall i :: 0 <= i < |steps| ==> Ticks(sc, steps[i].world)
    ensures
      var end := Run(sc.ctx, sc.cfg, k, steps);
      && Recoverable(sc.ctx, sc.id, Stored(true, end.durable, saves))
      && (Fails(sc.ctx, sc.id, Stored(true, end.durable, saves)) <==> !saves)
      && Agree(Replayed(sc.ctx, sc.id, end.durable).value, end.session)
  {
    ReplayRefinesRun(sc, k, steps);
  }
}
