/** The protocol of module Idempotency as the code runs it: a table updated in place, and
    `run_idempotent` with whatever the other requests do at each of its await points. */
module IdempotencyService {
  import opened Wrappers
  import opened Idempotency
  import opened Replay

  /** The moves of every request but `p`. */
  predicate Others(env: seq<Action>, p: Pid) {
    forall i :: 0 <= i < |env| ==> env[i].Tick? || env[i].pid != p
  }

  /** The guard of an action of one request. */
  predicate Enabled(procs: seq<Proc>, now: int, a: Action)
    requires !a.Tick?
  {
    a.pid < |procs| &&
    var pc := procs[a.pid].pc;
    match a
    case Reserve(_, createdAt) => (pc.Start? || pc.Retry?) && createdAt <= now
    case Read(_) => pc.Collided?
    case Judge(_) => pc.Seen?
    case Reclaim(_) => pc.Reclaiming?
    case Commit(_, _) => pc.Holding?
    case Fail(_) => pc.Holding?
    case Cleanup(_) => pc.Failed?
    case Crash(_) => !pc.Done?
  }

  lemma DisabledStutters(s: State, a: Action)
    requires !a.Tick? && !Enabled(s.procs, s.now, a)
    ensures Step(s, a) == s
  {
  }

  /** An action moves one request: its key and request hash stay, and so do the other requests. */
  ghost predicate OnlyProc(s: State, t: State, p: Pid) {
    && |t.procs| == |s.procs| && t.now == s.now && p < |s.procs|
    && t.procs[p].slot == s.procs[p].slot && t.procs[p].hash == s.procs[p].hash
    && forall q :: 0 <= q < |s.procs| && q != p ==> t.procs[q] == s.procs[q]
  }

  lemma ReturnedIsLogged(s: State, p: Pid)
    requires Inv(s) && p < |s.procs| && s.procs[p].pc.Done? && s.procs[p].pc.outcome.Returned?
    ensures Logged(s.log, s.procs[p].slot, s.procs[p].hash, s.procs[p].pc.outcome.body)
  {
    assert ProcOk(s, s.procs[p]);
  }

  /** What a reclaim does to the table, the call and the history. */
  lemma ReclaimEffect(s: State, p: Pid)
    requires p < |s.procs| && s.procs[p].pc.Reclaiming?
    ensures var id, t := s.procs[p].pc.id, Step(s, Reclaim(p));
            t == s.(rows := if id in s.rows then s.rows - {id} else s.rows,
                    procs := s.procs[p := s.procs[p].(pc := Retry)],
                    reclaims := t.reclaims, lateReclaims := t.lateReclaims)
  {
  }

  /** What a commit does to them. */
  lemma CommitEffect(s: State, p: Pid, body: Json)
    requires p < |s.procs| && s.procs[p].pc.Holding?
    ensures var id, t := s.procs[p].pc.id, Step(s, Commit(p, body));
            t == s.(rows := if id !in s.rows then s.rows
                            else s.rows[id := s.rows[id].(status := Completed, body := Some(body))],
                    procs := s.procs[p := s.procs[p].(pc := Done(Returned(body)))],
                    log := t.log, orphans := t.orphans)
  {
  }

  /** What `_resolve_existing` makes of these rows, its clock showing `later`: a conflict, the stored
      body, a refusal, or another try at the reservation. */
  ghost predicate Resolved(rows: map<RowId, Row>, slot: Slot, hash: string, later: int, pc: Pc, again: bool) {
    && (!Taken(rows, slot) ==> again)
    && forall id :: id in rows && rows[id].slot == slot ==>
         && (rows[id].hash != hash ==> !again && pc == Done(KeyConflict))
         && (rows[id].hash == hash && rows[id].status.Completed? ==>
               !again && rows[id].body.Some? && pc == Done(Returned(rows[id].body.value)))
         && (rows[id].hash == hash && rows[id].status.Pending? ==>
               (again <==> later - rows[id].createdAt > PENDING_RECLAIM) && (again || pc == Done(InProgress)))
  }

  lemma ResolvedAgain(rows: map<RowId, Row>, slot: Slot, hash: string, later: int, before: Pc, after: Pc)
    requires Resolved(rows, slot, hash, later, before, true)
    ensures Resolved(rows, slot, hash, later, after, true)
  {
  }

  /** The clock when the row that was read is judged. */
  ghost function AtJudgement(s: State, p: Pid, beforeClock: seq<Action>): int {
    Run(Step(s, Read(p)), beforeClock).now
  }

  /** What becomes of work that is run. */
  function Worked(work: Option<Json>): Outcome {
    if work.Some? then Returned(work.value) else WorkFailed
  }

  lemma RunEmpty(s: State)
    ensures Run(s, []) == s
  {
  }

  /** What the first reservation of a call finds. */
  ghost function AtInsert(s: State, env: seq<seq<Action>>): State
    requires |env| >= 2
  {
    Run(Run(s, env[0]), env[1])
  }

  /** What the SELECT of a collided call finds. */
  ghost function AtSelect(s: State, p: Pid, env: seq<seq<Action>>): State
    requires |env| >= 3
  {
    Run(Step(AtInsert(s, env), Reserve(p, Run(s, env[0]).now)), env[2])
  }

  /** A completed row that is there when a call starts and when it reads was there all the time. */
  lemma {:induction false} StillThere(s: State, p: Pid, env: seq<seq<Action>>, id: RowId)
    requires Inv(s) && |env| >= 3 && id in s.rows && s.rows[id].status.Completed?
    ensures id in AtSelect(s, p, env).rows ==>
              AtSelect(s, p, env).rows[id] == s.rows[id] && Taken(AtInsert(s, env).rows, s.rows[id].slot)
  {
    hide Run, Step, Balanced;
    var a, createdAt := Run(s, env[0]), Run(s, env[0]).now;
    RunRow(s, env[0], id);
    RunRow(a, env[1], id);
    var b := Step(Run(a, env[1]), Reserve(p, createdAt));
    StepKeeps(Run(a, env[1]), Reserve(p, createdAt));
    StepRow(Run(a, env[1]), Reserve(p, createdAt), id);
    RunRow(b, env[2], id);
  }

  /** Requests running in one deployment, on one database. */
  class Deployment {
    var now: int
    var nextId: RowId
    var rows: map<RowId, Row>
    var procs: seq<Proc>
    ghost var born: map<RowId, int>
    ghost var log: seq<Execution>
    ghost var inserts: multiset<Slot>
    ghost var cleanups: multiset<Slot>
    ghost var reclaims: multiset<Slot>
    ghost var lateReclaims: multiset<Slot>
    ghost var orphans: multiset<Slot>

    ghost function View(): State
      reads this
    {
      State(now, nextId, rows, procs, born, log, inserts, cleanups, reclaims, lateReclaims, orphans)
    }

    ghost predicate Valid()
      reads this
    {
      Inv(View())
    }

    constructor (calls: seq<(Slot, string)>)
      ensures Valid() && Init(View())
      ensures |procs| == |calls|
      ensures forall p :: 0 <= p < |calls| ==> procs[p] == Proc(calls[p].0, calls[p].1, Start)
    {
      now, nextId, rows := 0, 0, map[];
      procs := seq(|calls|, i requires 0 <= i < |calls| => Proc(calls[i].0, calls[i].1, Start));
      born, log := map[], [];
      inserts, cleanups, reclaims, lateReclaims, orphans :=
        multiset{}, multiset{}, multiset{}, multiset{}, multiset{};
      new;
      RunKeeps(View(), []);
    }

    /** The row a SELECT by (user_id, key) returns. */
    method Lookup(slot: Slot) returns (id: Option<RowId>)
      requires Valid()
      ensures id.Some? <==> Taken(rows, slot)
      ensures id.Some? ==> id.value == Find(rows, slot)
    {
      var candidates := rows.Keys;
      id := None;
      while candidates != {}
        invariant candidates <= rows.Keys
        invariant id.None? && forall i :: i in rows && rows[i].slot == slot ==> i in candidates
        decreases candidates
      {
        var i :| i in candidates;
        if rows[i].slot == slot {
          assert Find(rows, slot) == i;
          return Some(i);
        }
        candidates := candidates - {i};
      }
    }

    method InsertPending(p: Pid, createdAt: int)
      requires Valid() && p < |procs| && !Taken(rows, procs[p].slot)
      requires (procs[p].pc.Start? || procs[p].pc.Retry?) && createdAt <= now
      modifies this
      ensures Valid() && View() == Step(old(View()), Reserve(p, createdAt))
      ensures OnlyProc(old(View()), View(), p)
      ensures procs[p].pc == Holding(old(nextId)) && old(nextId) !in old(rows)
      ensures rows == old(rows)[old(nextId) := Row(procs[p].slot, procs[p].hash, Pending, None, createdAt)]
    {
      hide ProcsOk, Balanced;
      StepKeeps(View(), Reserve(p, createdAt));
      var proc := procs[p];
      rows := rows[nextId := Row(proc.slot, proc.hash, Pending, None, createdAt)];
      procs := procs[p := proc.(pc := Holding(nextId))];
      born := born[nextId := createdAt];
      inserts := inserts + multiset{proc.slot};
      nextId := nextId + 1;
    }

    method RefuseReservation(p: Pid, createdAt: int)
      requires Valid() && p < |procs| && Taken(rows, procs[p].slot)
      requires (procs[p].pc.Start? || procs[p].pc.Retry?) && createdAt <= now
      modifies this
      ensures Valid() && View() == Step(old(View()), Reserve(p, createdAt))
      ensures OnlyProc(old(View()), View(), p)
      ensures procs[p].pc == (if old(procs[p].pc).Start? then Collided else Done(InProgress)) && rows == old(rows)
    {
      hide Inv;
      StepKeeps(View(), Reserve(p, createdAt));
      var proc := procs[p];
      procs := procs[p := proc.(pc := if proc.pc.Start? then Collided else Done(InProgress))];
    }

    /** INSERT of a pending row, committed at once; None on the UNIQUE violation. */
    method TryReserve(p: Pid, createdAt: int) returns (rowId: Option<RowId>)
      requires Valid() && p < |procs|
      requires (procs[p].pc.Start? || procs[p].pc.Retry?) && createdAt <= now
      modifies this
      ensures Valid() && View() == Step(old(View()), Reserve(p, createdAt))
      ensures OnlyProc(old(View()), View(), p)
      ensures rowId.None? <==> Taken(old(rows), procs[p].slot)
      ensures match rowId
              case Some(id) =>
                && procs[p].pc == Holding(id)
                && id !in old(rows)
                && rows == old(rows)[id := Row(procs[p].slot, procs[p].hash, Pending, None, createdAt)]
              case None =>
                && procs[p].pc == (if old(procs[p].pc).Start? then Collided else Done(InProgress))
                && rows == old(rows)
    {
      hide Inv, Step;
      var existing := Lookup(procs[p].slot);
      if existing.Some? {
        RefuseReservation(p, createdAt);
        rowId := None;
      } else {
        rowId := Some(nextId);
        InsertPending(p, createdAt);
      }
    }

    /** The SELECT of `_resolve_existing`, and what its row decides. */
    method ReadExisting(p: Pid)
      requires Valid() && p < |procs| && procs[p].pc.Collided?
      modifies this
      ensures Valid() && View() == Step(old(View()), Read(p))
      ensures OnlyProc(old(View()), View(), p)
      ensures Decides(old(rows), procs[p].slot, procs[p].hash, now, procs[p].pc)
      ensures procs[p].pc.Retry? || procs[p].pc.Seen? || (procs[p].pc.Done? && !procs[p].pc.outcome.WorkFailed?)
    {
      hide Inv, Decides;
      StepKeeps(View(), Read(p));
      Replay.ReadDecides(View(), p);
      var proc := procs[p];
      var existing := Lookup(proc.slot);
      var next := Retry;
      if existing.Some? {
        var row := rows[existing.value];
        if row.hash != proc.hash {
          next := Done(KeyConflict);
        } else if row.status.Completed? {
          next := Done(Returned(Cached(row)));
        } else {
          next := Seen(existing.value, row.createdAt, now);
        }
      }
      procs := procs[p := proc.(pc := next)];
    }

    /** The age of the row that was read, by the clock as it is now. */
    method JudgeExisting(p: Pid)
      requires Valid() && p < |procs| && procs[p].pc.Seen?
      modifies this
      ensures Valid() && View() == Step(old(View()), Judge(p))
      ensures OnlyProc(old(View()), View(), p)
      ensures var seen := old(procs[p].pc);
              procs[p].pc == if now - seen.createdAt > PENDING_RECLAIM then Reclaiming(seen.id) else Done(InProgress)
    {
      hide Inv;
      StepKeeps(View(), Judge(p));
      var pc := procs[p].pc;
      var stuck := now - pc.createdAt > PENDING_RECLAIM;
      procs := procs[p := procs[p].(pc := if stuck then Reclaiming(pc.id) else Done(InProgress))];
    }

    method ReclaimRow(p: Pid)
      requires Valid() && p < |procs| && procs[p].pc.Reclaiming?
      modifies this
      ensures Valid() && View() == Step(old(View()), Reclaim(p))
      ensures OnlyProc(old(View()), View(), p)
      ensures procs[p].pc == Retry && rows == old(rows) - {old(procs[p].pc.id)}
    {
      hide Inv, Step;
      StepKeeps(View(), Reclaim(p));
      ghost var next := Step(View(), Reclaim(p));
      ReclaimEffect(View(), p);
      var id := procs[p].pc.id;
      if id in rows {
        rows := rows - {id};
      }
      procs := procs[p := procs[p].(pc := Retry)];
      reclaims, lateReclaims := next.reclaims, next.lateReclaims;
    }

    /** `work`, `mark_completed` and the commit of their transaction. */
    method CommitWork(p: Pid, body: Json)
      requires Valid() && p < |procs| && procs[p].pc.Holding?
      modifies this
      ensures Valid() && View() == Step(old(View()), Commit(p, body))
      ensures OnlyProc(old(View()), View(), p)
      ensures procs[p].pc == Done(Returned(body))
    {
      hide Inv, Step;
      StepKeeps(View(), Commit(p, body));
      ghost var next := Step(View(), Commit(p, body));
      CommitEffect(View(), p, body);
      var id := procs[p].pc.id;
      if id in rows {
        rows := rows[id := rows[id].(status := Completed, body := Some(body))];
      }
      procs := procs[p := procs[p].(pc := Done(Returned(body)))];
      log, orphans := next.log, next.orphans;
    }

    method FailWork(p: Pid)
      requires Valid() && p < |procs| && procs[p].pc.Holding?
      modifies this
      ensures Valid() && View() == Step(old(View()), Fail(p))
      ensures OnlyProc(old(View()), View(), p)
      ensures procs[p].pc == Failed(old(procs[p].pc.id))
    {
      hide Inv;
      StepKeeps(View(), Fail(p));
      procs := procs[p := procs[p].(pc := Failed(procs[p].pc.id))];
    }

    method DeleteReservation(p: Pid)
      requires Valid() && p < |procs| && procs[p].pc.Failed?
      modifies this
      ensures Valid() && View() == Step(old(View()), Cleanup(p))
      ensures OnlyProc(old(View()), View(), p)
      ensures procs[p].pc == Done(WorkFailed) && rows == old(rows) - {old(procs[p].pc.id)}
    {
      hide Inv;
      StepKeeps(View(), Cleanup(p));
      var id := procs[p].pc.id;
      if id in rows {
        cleanups := cleanups + multiset{rows[id].slot};
        rows := rows - {id};
      }
      procs := procs[p := procs[p].(pc := Done(WorkFailed))];
    }

    method CrashCall(p: Pid)
      requires Valid() && p < |procs| && !procs[p].pc.Done?
      modifies this
      ensures Valid() && View() == Step(old(View()), Crash(p))
      ensures OnlyProc(old(View()), View(), p)
      ensures procs[p].pc == Crashed && rows == old(rows)
    {
      hide Inv;
      StepKeeps(View(), Crash(p));
      procs := procs[p := procs[p].(pc := Crashed)];
    }

    method AdvanceClock(to: int)
      requires Valid()
      modifies this
      ensures Valid() && View() == Step(old(View()), Tick(to))
      ensures procs == old(procs) && now >= old(now)
    {
      StepKeeps(View(), Tick(to));
      now := if to > now then to else now;
    }

    /** One action of any request, or the clock. */
    method Act(a: Action)
      requires Valid()
      modifies this
      ensures Valid() && View() == Step(old(View()), a)
      ensures |procs| == old(|procs|) && now >= old(now)
      ensures forall p :: 0 <= p < |procs| && (a.Tick? || a.pid != p) ==> procs[p] == old(procs[p])
    {
      hide Inv, Step;
      if a.Tick? {
        AdvanceClock(a.to);
      } else if !Enabled(procs, now, a) {
        DisabledStutters(View(), a);
      } else {
        match a
        case Reserve(p, createdAt) => var _ := TryReserve(p, createdAt);
        case Read(p) => ReadExisting(p);
        case Judge(p) => JudgeExisting(p);
        case Reclaim(p) => ReclaimRow(p);
        case Commit(p, body) => CommitWork(p, body);
        case Fail(p) => FailWork(p);
        case Cleanup(p) => DeleteReservation(p);
        case Crash(p) => CrashCall(p);
      }
    }

    /** What the other requests do while this one waits. */
    method Interfere(env: seq<Action>, p: Pid)
      requires Valid() && p < |procs| && Others(env, p)
      modifies this
      ensures Valid() && View() == Run(old(View()), env)
      ensures |procs| == old(|procs|) && procs[p] == old(procs[p]) && now >= old(now)
    {
      hide Inv, Step;
      for i := 0 to |env|
        invariant Valid() && View() == Run(old(View()), env[..i])
        invariant |procs| == old(|procs|) && procs[p] == old(procs[p]) && now >= old(now)
      {
        assert env[..i + 1][..i] == env[..i];
        Act(env[i]);
      }
      assert env[..|env|] == env;
    }

    /** `_resolve_existing`; the call ends here when the process is Done afterwards.  The others move
        while the SELECT is awaited, and again before the DELETE takes effect. */
    method ResolveExisting(p: Pid, beforeClock: seq<Action>, beforeDelete: seq<Action>)
      returns (ghost trace: seq<Action>)
      requires Valid() && p < |procs| && procs[p].pc.Collided? && Others(beforeClock, p) && Others(beforeDelete, p)
      modifies this
      ensures Valid() && View() == Run(old(View()), trace)
      ensures |procs| == old(|procs|)
      ensures procs[p].pc.Retry? || (procs[p].pc.Done? && !procs[p].pc.outcome.WorkFailed?)
      ensures procs[p].slot == old(procs[p].slot) && procs[p].hash == old(procs[p].hash)
      ensures now >= old(now)
      ensures Resolved(old(rows), procs[p].slot, procs[p].hash, AtJudgement(old(View()), p, beforeClock), procs[p].pc,
                       procs[p].pc.Retry?)
    {
      hide Inv, Step, Run;
      ghost var start := View();
      RunEmpty(start);
      ReadExisting(p);
      RunSnoc(start, [], Read(p));
      trace := [] + [Read(p)];
      if procs[p].pc.Seen? {
        Interfere(beforeClock, p);
        RunConcat(start, trace, beforeClock);
        trace := trace + beforeClock;
        JudgeExisting(p);
        RunSnoc(start, trace, Judge(p));
        trace := trace + [Judge(p)];
      }
      if procs[p].pc.Reclaiming? {
        Interfere(beforeDelete, p);
        RunConcat(start, trace, beforeDelete);
        trace := trace + beforeDelete;
        ReclaimRow(p);
        RunSnoc(start, trace, Reclaim(p));
        trace := trace + [Reclaim(p)];
      }
    }

    /** `_try_reserve`: the row is created as of the beginning of its transaction. */
    method Attempt(p: Pid, env: seq<Action>) returns (rowId: Option<RowId>, ghost trace: seq<Action>)
      requires Valid() && p < |procs| && (procs[p].pc.Start? || procs[p].pc.Retry?) && Others(env, p)
      modifies this
      ensures Valid() && View() == Run(old(View()), trace) && |procs| == old(|procs|)
      ensures View() == Step(Run(old(View()), env), Reserve(p, old(now)))
      ensures procs[p].slot == old(procs[p].slot) && procs[p].hash == old(procs[p].hash)
      ensures rowId.None? <==> Taken(Run(old(View()), env).rows, procs[p].slot)
      ensures match rowId
              case Some(id) => procs[p].pc == Holding(id)
              case None => procs[p].pc == if old(procs[p].pc).Start? then Collided else Done(InProgress)
    {
      hide Inv, Step, Run, Taken;
      ghost var start := View();
      var createdAt := now;
      Interfere(env, p);
      rowId := TryReserve(p, createdAt);
      RunSnoc(start, env, Reserve(p, createdAt));
      trace := env + [Reserve(p, createdAt)];
    }

    /** The first half of `run_idempotent`: the process ends up holding a reservation, or done. */
    method Claim(p: Pid, env: seq<seq<Action>>) returns (ghost trace: seq<Action>, ghost again: bool)
      requires Valid() && p < |procs| && procs[p].pc == Start
      requires |env| == 9 && forall i :: 0 <= i < 9 ==> Others(env[i], p)
      modifies this
      ensures Valid() && View() == Run(old(View()), trace)
      ensures |procs| == old(|procs|) && (procs[p].pc.Holding? || procs[p].pc.Done?)
      ensures procs[p].slot == old(procs[p].slot) && procs[p].hash == old(procs[p].hash)
      ensures procs[p].pc.Done? ==> !procs[p].pc.outcome.WorkFailed?
      ensures if Taken(AtInsert(old(View()), env).rows, procs[p].slot)
              then var found := AtSelect(old(View()), p, env);
                   && Resolved(found.rows, procs[p].slot, procs[p].hash, AtJudgement(found, p, env[3]),
                               procs[p].pc, again)
                   && (again ==> procs[p].pc.Holding? || procs[p].pc == Done(InProgress))
              else procs[p].pc.Holding?
    {
      hide Inv, Step, Run, Taken, Resolved;
      ghost var start := View();
      again := false;
      Interfere(env[0], p);
      trace := env[0];
      ghost var more;
      var rowId;
      rowId, more := Attempt(p, env[1]);
      RunConcat(start, trace, more);
      trace := trace + more;
      if rowId.None? {
        Interfere(env[2], p);
        RunConcat(start, trace, env[2]);
        trace := trace + env[2];
        more := ResolveExisting(p, env[3], env[4]);
        RunConcat(start, trace, more);
        trace := trace + more;
        again := procs[p].pc.Retry?;
        if procs[p].pc.Retry? {
          Interfere(env[5], p);
          RunConcat(start, trace, env[5]);
          trace := trace + env[5];
          ghost var found := AtSelect(start, p, env);
          ghost var later := AtJudgement(found, p, env[3]);
          rowId, more := Attempt(p, env[6]);
          ResolvedAgain(found.rows, procs[p].slot, procs[p].hash, later, Retry, procs[p].pc);
          RunConcat(start, trace, more);
          trace := trace + more;
        }
      }
    }

    /** The second half: work and completion in one transaction, or rollback and cleanup. */
    method Execute(p: Pid, work: Option<Json>, env: seq<Action>) returns (ghost trace: seq<Action>)
      requires Valid() && p < |procs| && procs[p].pc.Holding? && Others(env, p)
      modifies this
      ensures Valid() && View() == Run(old(View()), trace)
      ensures |procs| == old(|procs|)
      ensures procs[p].slot == old(procs[p].slot) && procs[p].pc == Done(Worked(work))
    {
      hide Inv, Step;
      ghost var start := View();
      trace := [];
      if work.Some? {
        CommitWork(p, work.value);
        RunSnoc(start, trace, Commit(p, work.value));
        trace := trace + [Commit(p, work.value)];
      } else {
        FailWork(p);
        RunSnoc(start, trace, Fail(p));
        trace := trace + [Fail(p)];
        Interfere(env, p);
        RunConcat(start, trace, env);
        trace := trace + env;
        DeleteReservation(p);
        RunSnoc(start, trace, Cleanup(p));
        trace := trace + [Cleanup(p)];
      }
    }

    /** `run_idempotent`.  `work` is the response body, or None when it raises; env[i] is what
        the other requests do at the i-th await point.  The call is a run of the protocol. */
    method RunIdempotent(p: Pid, work: Option<Json>, env: seq<seq<Action>>)
      returns (outcome: Outcome, ghost trace: seq<Action>, ghost again: bool)
      requires Valid() && p < |procs| && procs[p].pc == Start
      requires |env| == 9 && forall i :: 0 <= i < 9 ==> Others(env[i], p)
      modifies this
      ensures Valid() && View() == Run(old(View()), trace)
      ensures |procs| == old(|procs|) && procs[p].pc == Done(outcome)
      ensures outcome.Returned? ==> Logged(log, procs[p].slot, procs[p].hash, outcome.body)
      ensures if Taken(AtInsert(old(View()), env).rows, old(procs[p].slot))
              then var found := AtSelect(old(View()), p, env);
                   && Resolved(found.rows, old(procs[p].slot), old(procs[p].hash), AtJudgement(found, p, env[3]),
                               Done(outcome), again)
                   && (again ==> outcome == Worked(work) || outcome == InProgress)
              else outcome == Worked(work)
      ensures forall id, b ::
                && id in old(rows) && Answered(old(rows)[id], old(procs[p].slot), old(procs[p].hash), b)
                && id in AtSelect(old(View()), p, env).rows ==>
                  outcome == Returned(b)
    {
      hide Inv, Step, Run, Taken, AtInsert, AtSelect, AtJudgement;
      ghost var start := View();
      trace, again := Claim(p, env);
      if procs[p].pc.Holding? {
        Interfere(env[7], p);
        RunConcat(start, trace, env[7]);
        trace := trace + env[7];
        ghost var executed := Execute(p, work, env[8]);
        RunConcat(start, trace, executed);
        trace := trace + executed;
      }
      outcome := procs[p].pc.outcome;
      if outcome.Returned? {
        ReturnedIsLogged(View(), p);
      }
      forall id | id in start.rows && id in AtSelect(start, p, env).rows && start.rows[id].status.Completed?
        ensures AtSelect(start, p, env).rows[id] == start.rows[id]
        ensures Taken(AtInsert(start, env).rows, start.rows[id].slot)
      {
        StillThere(start, p, env, id);
      }
    }
  }
}
