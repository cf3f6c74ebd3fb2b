/** The claim/execute/reconcile protocol behind the Idempotency-Key header.

    A request is a process that runs up to three independent transactions
    against the `idempotency_keys` table.  Every transaction below is one atomic
    action; any number of requests, on any keys, interleave their actions
    arbitrarily and may die between two of them.
 */
module Idempotency {
  import opened Wrappers

  type Json = map<string, string>
  type RowId = nat
  type Pid = nat

  /** What UNIQUE(user_id, key) ranges over. */
  datatype Slot = Slot(user: nat, key: string)

  datatype Status = Pending | Completed

  datatype Row = Row(slot: Slot, hash: string, status: Status, body: Option<Json>, createdAt: int)

  /** How a call ends: a response body, or one of the exceptions. */
  datatype Outcome = Returned(body: Json) | KeyConflict | InProgress | WorkFailed

  datatype Pc =
    | Start                  // about to try the first reservation
    | Collided               // the first reservation hit the UNIQUE constraint
    | Seen(id: RowId, createdAt: int, at: int)  // read a pending row at `at`, about to look at the clock
    | Reclaiming(id: RowId)  // judged a row stuck, about to delete it by id
    | Retry                  // about to try the second and last reservation
    | Holding(id: RowId)     // reservation won, work not yet committed
    | Failed(id: RowId)      // work rolled back, own row about to be deleted
    | Done(outcome: Outcome)
    | Crashed

  datatype Proc = Proc(slot: Slot, hash: string, pc: Pc)

  /** One committed run of `work`.  `stored` tells whether the row it marked was still there. */
  datatype Execution = Execution(slot: Slot, hash: string, body: Json, stored: bool)

  /** Times are microseconds on one clock shared by the service and the database.
      `born`, `log`, the five multisets and the `at` of a reader are history: no action reads them. */
  datatype State = State(
    now: int,
    nextId: RowId,
    rows: map<RowId, Row>,
    procs: seq<Proc>,
    born: map<RowId, int>,
    log: seq<Execution>,
    inserts: multiset<Slot>,
    cleanups: multiset<Slot>,
    reclaims: multiset<Slot>,
    lateReclaims: multiset<Slot>,
    orphans: multiset<Slot>)

  datatype Action =
    | Tick(to: int)
    | Reserve(pid: Pid, createdAt: int)
    | Read(pid: Pid)
    | Judge(pid: Pid)
    | Reclaim(pid: Pid)
    | Commit(pid: Pid, body: Json)
    | Fail(pid: Pid)
    | Cleanup(pid: Pid)
    | Crash(pid: Pid)

  /** PENDING_RECLAIM_SECONDS. */
  const PENDING_RECLAIM: int := 30_000_000

  const EMPTY_BODY: Json := map[]

  // ---------------------------------------------------------------- the steps

  ghost predicate Taken(rows: map<RowId, Row>, slot: Slot) {
    exists id :: id in rows && rows[id].slot == slot
  }

  /** The row the query by (user_id, key) finds; unique whenever the constraint holds. */
  ghost function Find(rows: map<RowId, Row>, slot: Slot): (id: RowId)
    requires Taken(rows, slot)
    ensures id in rows && rows[id].slot == slot
  {
    var id :| id in rows && rows[id].slot == slot;
    id
  }

  ghost function Goto(s: State, p: Pid, pc: Pc): State
    requires p < |s.procs|
  {
    s.(procs := s.procs[p := s.procs[p].(pc := pc)])
  }

  ghost function StepReserve(s: State, p: Pid, createdAt: int): State
    requires p < |s.procs|
  {
    var proc := s.procs[p];
    if !(proc.pc.Start? || proc.pc.Retry?) || createdAt > s.now then s
    else if Taken(s.rows, proc.slot) then
      Goto(s, p, if proc.pc.Start? then Collided else Done(InProgress))
    else
      Goto(s, p, Holding(s.nextId)).(
        nextId := s.nextId + 1,
        rows := s.rows[s.nextId := Row(proc.slot, proc.hash, Pending, None, createdAt)],
        born := s.born[s.nextId := createdAt],
        inserts := s.inserts + multiset{proc.slot})
  }

  /** `existing.response_body or {}`. */
  function Cached(row: Row): Json {
    match row.body
    case Some(body) => body
    case None => EMPTY_BODY
  }

  ghost function StepRead(s: State, p: Pid): State
    requires p < |s.procs|
  {
    var proc := s.procs[p];
    if !proc.pc.Collided? then s
    else if !Taken(s.rows, proc.slot) then Goto(s, p, Retry)
    else
      var id := Find(s.rows, proc.slot);
      var row := s.rows[id];
      Goto(s, p,
           if row.hash != proc.hash then Done(KeyConflict)
           else if row.status.Completed? then Done(Returned(Cached(row)))
           else Seen(id, row.createdAt, s.now))
  }

  /** The clock is read after the SELECT has returned; the row may have changed since. */
  ghost function StepJudge(s: State, p: Pid): State
    requires p < |s.procs|
  {
    var pc := s.procs[p].pc;
    if !pc.Seen? then s
    else Goto(s, p, if s.now - pc.createdAt > PENDING_RECLAIM then Reclaiming(pc.id) else Done(InProgress))
  }

  /** DELETE ... WHERE id = :id looks at nothing but the id. */
  ghost function StepReclaim(s: State, p: Pid): State
    requires p < |s.procs|
  {
    var proc := s.procs[p];
    if !proc.pc.Reclaiming? then s
    else
      var id := proc.pc.id;
      var next := Goto(s, p, Retry);
      if id !in s.rows then next
      else
        var slot := s.rows[id].slot;
        next.(rows := s.rows - {id},
              reclaims := s.reclaims + multiset{slot},
              lateReclaims := if s.rows[id].status.Completed?
                              then s.lateReclaims + multiset{slot} else s.lateReclaims)
  }

  /** `work` and `mark_completed` commit together; the UPDATE goes by id and may hit nothing. */
  ghost function StepCommit(s: State, p: Pid, body: Json): State
    requires p < |s.procs|
  {
    var proc := s.procs[p];
    if !proc.pc.Holding? then s
    else
      var id := proc.pc.id;
      var next := Goto(s, p, Done(Returned(body))).(
        log := s.log + [Execution(proc.slot, proc.hash, body, id in s.rows)]);
      if id in s.rows
      then next.(rows := s.rows[id := s.rows[id].(status := Completed, body := Some(body))])
      else next.(orphans := s.orphans + multiset{proc.slot})
  }

  ghost function StepFail(s: State, p: Pid): State
    requires p < |s.procs|
  {
    if s.procs[p].pc.Holding? then Goto(s, p, Failed(s.procs[p].pc.id)) else s
  }

  ghost function StepCleanup(s: State, p: Pid): State
    requires p < |s.procs|
  {
    var proc := s.procs[p];
    if !proc.pc.Failed? then s
    else
      var id := proc.pc.id;
      var next := Goto(s, p, Done(WorkFailed));
      if id in s.rows
      then next.(rows := s.rows - {id}, cleanups := s.cleanups + multiset{s.rows[id].slot})
      else next
  }

  ghost function StepCrash(s: State, p: Pid): State
    requires p < |s.procs|
  {
    if s.procs[p].pc.Done? then s else Goto(s, p, Crashed)
  }

  /** An action that is not enabled leaves the state alone. */
  ghost function Step(s: State, a: Action): State {
    if a.Tick? then s.(now := if a.to > s.now then a.to else s.now)
    else if a.pid >= |s.procs| then s
    else
      match a
      case Reserve(p, createdAt) => StepReserve(s, p, createdAt)
      case Read(p) => StepRead(s, p)
      case Judge(p) => StepJudge(s, p)
      case Reclaim(p) => StepReclaim(s, p)
      case Commit(p, body) => StepCommit(s, p, body)
      case Fail(p) => StepFail(s, p)
      case Cleanup(p) => StepCleanup(s, p)
      case Crash(p) => StepCrash(s, p)
  }

  ghost function Run(s: State, actions: seq<Action>): State
    decreases |actions|
  {
    if actions == [] then s
    else Step(Run(s, actions[..|actions| - 1]), actions[|actions| - 1])
  }

  /** No rows, and any number of requests about to start. */
  ghost predicate Init(s: State) {
    && s.rows == map[] && s.born == map[] && s.log == [] && s.nextId == 0
    && s.inserts == s.cleanups == s.reclaims == s.lateReclaims == s.orphans == multiset{}
    && forall p :: 0 <= p < |s.procs| ==> s.procs[p].pc == Start
  }

  /** How many times `work` was committed for this slot. */
  ghost function Executions(log: seq<Execution>, slot: Slot): nat {
    if log == [] then 0
    else Executions(log[..|log| - 1], slot) + if log[|log| - 1].slot == slot then 1 else 0
  }

  // ------------------------------------------------------------ the invariant

  ghost predicate IsOwner(proc: Proc) {
    proc.pc.Holding? || proc.pc.Failed?
  }

  /** Requests on `slot` that hold a reservation they have not settled yet. */
  ghost function Owners(procs: seq<Proc>, slot: Slot): nat {
    if procs == [] then 0
    else Owners(procs[..|procs| - 1], slot)
         + if IsOwner(procs[|procs| - 1]) && procs[|procs| - 1].slot == slot then 1 else 0
  }

  ghost predicate UniqueSlots(rows: map<RowId, Row>) {
    forall i, j :: i in rows && j in rows && rows[i].slot == rows[j].slot ==> i == j
  }

  ghost function Present(rows: map<RowId, Row>, slot: Slot): nat {
    if Taken(rows, slot) then 1 else 0
  }

  ghost predicate CompletedTaken(rows: map<RowId, Row>, slot: Slot) {
    exists id :: id in rows && rows[id].slot == slot && rows[id].status.Completed?
  }

  ghost function CompletedPresent(rows: map<RowId, Row>, slot: Slot): nat {
    if CompletedTaken(rows, slot) then 1 else 0
  }

  ghost predicate Logged(log: seq<Execution>, slot: Slot, hash: string, body: Json) {
    exists i :: 0 <= i < |log| && log[i].slot == slot && log[i].hash == hash && log[i].body == body
  }

  ghost predicate TableOk(s: State) {
    && UniqueSlots(s.rows)
    && (forall id :: id in s.born ==> id < s.nextId)
    && forall id :: id in s.rows ==>
         && id in s.born && s.rows[id].createdAt == s.born[id] <= s.now
         && (s.rows[id].status.Completed? ==>
               && s.rows[id].body.Some?
               && Logged(s.log, s.rows[id].slot, s.rows[id].hash, s.rows[id].body.value))
  }

  ghost predicate ProcOk(s: State, proc: Proc) {
    match proc.pc
    case Holding(id) =>
      && id in s.born
      && (id in s.rows ==> s.rows[id].slot == proc.slot && s.rows[id].hash == proc.hash && s.rows[id].status.Pending?)
    case Failed(id) =>
      && id in s.born
      && (id in s.rows ==> s.rows[id].slot == proc.slot && s.rows[id].hash == proc.hash && s.rows[id].status.Pending?)
    case Seen(id, createdAt, at) =>
      id in s.born && createdAt == s.born[id] && at <= s.now && (id in s.rows ==> s.rows[id].slot == proc.slot)
    case Reclaiming(id) => id in s.born && (id in s.rows ==> s.rows[id].slot == proc.slot)
    case Done(Returned(body)) => Logged(s.log, proc.slot, proc.hash, body)
    case _ => true
  }

  ghost predicate ProcsOk(s: State) {
    && (forall p :: 0 <= p < |s.procs| ==> ProcOk(s, s.procs[p]))
    && forall p, q :: 0 <= p < q < |s.procs| && IsOwner(s.procs[p]) && IsOwner(s.procs[q]) ==>
         s.procs[p].pc.id != s.procs[q].pc.id
  }

  /** The bookkeeping of one slot: every row ever inserted is still there, was reclaimed, or was
      cleaned up; every reservation is used for at most one of a commit and a cleanup; and
      every execution left a completed row that is still there, or was reclaimed, or left none. */
  ghost predicate Balanced(s: State, slot: Slot) {
    && s.inserts[slot] == s.reclaims[slot] + s.cleanups[slot] + Present(s.rows, slot)
    && Executions(s.log, slot) + s.cleanups[slot] + Owners(s.procs, slot) <= s.inserts[slot]
    && Executions(s.log, slot) == CompletedPresent(s.rows, slot) + s.lateReclaims[slot] + s.orphans[slot]
  }

  ghost predicate Inv(s: State) {
    TableOk(s) && ProcsOk(s) && forall slot :: Balanced(s, slot)
  }

  // ------------------------------------------------------------ counting

  lemma {:induction false} OwnersUpdate(procs: seq<Proc>, p: Pid, pc: Pc, slot: Slot)
    requires p < |procs|
    ensures var after := procs[p].(pc := pc);
            Owners(procs[p := after], slot)
            == Owners(procs, slot)
               - (if IsOwner(procs[p]) && procs[p].slot == slot then 1 else 0)
               + (if IsOwner(after) && procs[p].slot == slot then 1 else 0)
  {
    var n := |procs| - 1;
    var updated := procs[p := procs[p].(pc := pc)];
    if p < n {
      OwnersUpdate(procs[..n], p, pc, slot);
      assert updated[..n] == procs[..n][p := procs[p].(pc := pc)];
    } else {
      assert updated[..n] == procs[..n];
    }
  }

  lemma {:induction false} NoOwners(procs: seq<Proc>, slot: Slot)
    requires forall p :: 0 <= p < |procs| ==> procs[p].pc == Start
    ensures Owners(procs, slot) == 0
  {
    if procs != [] {
      NoOwners(procs[..|procs| - 1], slot);
    }
  }

  lemma {:induction false} ExecutionsAppend(log: seq<Execution>, e: Execution, slot: Slot)
    ensures Executions(log + [e], slot) == Executions(log, slot) + if e.slot == slot then 1 else 0
  {
    assert (log + [e])[..|log|] == log;
  }

  lemma {:induction false} ExecutionsAtLeast(log: seq<Execution>, i: nat, slot: Slot)
    requires i < |log| && log[i].slot == slot
    ensures Executions(log, slot) >= 1
  {
    if i < |log| - 1 {
      ExecutionsAtLeast(log[..|log| - 1], i, slot);
    }
  }

  /** At most one execution means at most one log entry, whatever it carries. */
  lemma {:induction false} SingleExecution(log: seq<Execution>, i: nat, j: nat, slot: Slot)
    requires i < |log| && j < |log| && log[i].slot == slot && log[j].slot == slot
    requires Executions(log, slot) <= 1
    ensures i == j
  {
    var n := |log| - 1;
    if i < n && j < n {
      SingleExecution(log[..n], i, j, slot);
    } else if i < n {
      ExecutionsAtLeast(log[..n], i, slot);
    } else if j < n {
      ExecutionsAtLeast(log[..n], j, slot);
    }
  }

  // ------------------------------------------------------------ every action keeps the invariant

  lemma LoggedGrows(log: seq<Execution>, e: Execution, slot: Slot, hash: string, body: Json)
    requires Logged(log, slot, hash, body)
    ensures Logged(log + [e], slot, hash, body)
  {
    var i :| 0 <= i < |log| && log[i].slot == slot && log[i].hash == hash && log[i].body == body;
    assert (log + [e])[i] == log[i];
  }

  lemma GotoKeeps(s: State, p: Pid, pc: Pc)
    requires Inv(s) && p < |s.procs|
    requires ProcOk(s, s.procs[p].(pc := pc))
    requires pc.Holding? || pc.Failed? ==> IsOwner(s.procs[p]) && s.procs[p].pc.id == pc.id
    ensures Inv(Goto(s, p, pc))
  {
    var s' := Goto(s, p, pc);
    forall q | 0 <= q < |s'.procs| ensures ProcOk(s', s'.procs[q]) {
      assert ProcOk(s, s.procs[q]);
    }
    forall slot ensures Balanced(s', slot) {
      assert Balanced(s, slot);
      OwnersUpdate(s.procs, p, pc, slot);
    }
  }

  ghost predicate Reserves(s: State, p: Pid, createdAt: int) {
    && p < |s.procs|
    && (s.procs[p].pc.Start? || s.procs[p].pc.Retry?)
    && createdAt <= s.now
    && !Taken(s.rows, s.procs[p].slot)
  }

  lemma ReserveTable(s: State, p: Pid, createdAt: int)
    requires Inv(s) && Reserves(s, p, createdAt)
    ensures TableOk(StepReserve(s, p, createdAt))
  {
  }

  lemma ReserveProcs(s: State, p: Pid, createdAt: int)
    requires Inv(s) && Reserves(s, p, createdAt)
    ensures ProcsOk(StepReserve(s, p, createdAt))
  {
    var s' := StepReserve(s, p, createdAt);
    forall q | 0 <= q < |s'.procs| ensures ProcOk(s', s'.procs[q]) {
      assert ProcOk(s, s.procs[q]);
    }
    forall q | 0 <= q < |s.procs| && q != p && IsOwner(s'.procs[q])
      ensures s'.procs[q].pc.id < s.nextId
    {
      assert ProcOk(s, s.procs[q]);
    }
  }

  lemma ReserveBalanced(s: State, p: Pid, createdAt: int, slot: Slot)
    requires Inv(s) && Reserves(s, p, createdAt)
    ensures Balanced(StepReserve(s, p, createdAt), slot)
  {
    var s' := StepReserve(s, p, createdAt);
    assert Balanced(s, slot);
    OwnersUpdate(s.procs, p, Holding(s.nextId), slot);
    if slot == s.procs[p].slot {
      assert s'.rows[s.nextId].slot == slot;
      assert !CompletedTaken(s.rows, slot) && !CompletedTaken(s'.rows, slot);
    } else {
      TakenElsewhere(s.rows, s'.rows, s.nextId, slot);
    }
  }

  lemma ReserveKeeps(s: State, p: Pid, createdAt: int)
    requires Inv(s) && p < |s.procs|
    ensures Inv(StepReserve(s, p, createdAt))
  {
    if Reserves(s, p, createdAt) {
      ReserveTable(s, p, createdAt);
      ReserveProcs(s, p, createdAt);
      forall slot ensures Balanced(StepReserve(s, p, createdAt), slot) {
        ReserveBalanced(s, p, createdAt, slot);
      }
    } else if (s.procs[p].pc.Start? || s.procs[p].pc.Retry?) && createdAt <= s.now {
      GotoKeeps(s, p, if s.procs[p].pc.Start? then Collided else Done(InProgress));
    }
  }

  /** Changing the row of one id does not change what other slots see. */
  lemma TakenElsewhere(before: map<RowId, Row>, after: map<RowId, Row>, id: RowId, slot: Slot)
    requires forall i :: i != id ==> (i in before <==> i in after) && (i in before ==> before[i] == after[i])
    requires id in before ==> before[id].slot != slot
    requires id in after ==> after[id].slot != slot
    ensures Taken(before, slot) <==> Taken(after, slot)
    ensures CompletedTaken(before, slot) <==> CompletedTaken(after, slot)
  {
    if Taken(before, slot) {
      var i :| i in before && before[i].slot == slot;
      assert i in after && after[i].slot == slot;
    }
    if Taken(after, slot) {
      var i :| i in after && after[i].slot == slot;
      assert i in before && before[i].slot == slot;
    }
    if CompletedTaken(before, slot) {
      var i :| i in before && before[i].slot == slot && before[i].status.Completed?;
      assert i in after && after[i].slot == slot;
    }
    if CompletedTaken(after, slot) {
      var i :| i in after && after[i].slot == slot && after[i].status.Completed?;
      assert i in before && before[i].slot == slot;
    }
  }

  lemma ReadKeeps(s: State, p: Pid)
    requires Inv(s) && p < |s.procs|
    ensures Inv(StepRead(s, p))
  {
    var proc := s.procs[p];
    if proc.pc.Collided? {
      if !Taken(s.rows, proc.slot) {
        GotoKeeps(s, p, Retry);
      } else {
        var id := Find(s.rows, proc.slot);
        GotoKeeps(s, p, StepRead(s, p).procs[p].pc);
      }
    }
  }

  /** Deleting a row by id, whoever does it, keeps the table and the other requests in order. */
  lemma DeleteKeeps(s: State, s': State, id: RowId)
    requires TableOk(s) && ProcsOk(s)
    requires s'.rows == s.rows - {id} && s'.born == s.born && s'.log == s.log
    requires s'.nextId == s.nextId && s'.now == s.now && s'.procs == s.procs
    ensures TableOk(s') && ProcsOk(s')
  {
    forall q | 0 <= q < |s'.procs| ensures ProcOk(s', s'.procs[q]) {
      assert ProcOk(s, s.procs[q]);
    }
  }

  lemma DeletedSlot(rows: map<RowId, Row>, id: RowId)
    requires UniqueSlots(rows) && id in rows
    ensures !Taken(rows - {id}, rows[id].slot)
    ensures CompletedTaken(rows, rows[id].slot) <==> rows[id].status.Completed?
  {
  }

  lemma ReclaimBalanced(s: State, p: Pid, slot: Slot)
    requires Inv(s) && p < |s.procs| && s.procs[p].pc.Reclaiming? && s.procs[p].pc.id in s.rows
    ensures Balanced(StepReclaim(s, p), slot)
  {
    var id := s.procs[p].pc.id;
    assert Balanced(s, slot);
    OwnersUpdate(s.procs, p, Retry, slot);
    DeletedSlot(s.rows, id);
    if slot != s.rows[id].slot {
      TakenElsewhere(s.rows, s.rows - {id}, id, slot);
    }
  }

  lemma ReclaimKeeps(s: State, p: Pid)
    requires Inv(s) && p < |s.procs|
    ensures Inv(StepReclaim(s, p))
  {
    if s.procs[p].pc.Reclaiming? {
      var id := s.procs[p].pc.id;
      GotoKeeps(s, p, Retry);
      if id in s.rows {
        var s' := StepReclaim(s, p);
        DeleteKeeps(Goto(s, p, Retry), s', id);
        forall slot ensures Balanced(s', slot) {
          ReclaimBalanced(s, p, slot);
        }
      }
    }
  }

  lemma CleanupBalanced(s: State, p: Pid, slot: Slot)
    requires Inv(s) && p < |s.procs| && s.procs[p].pc.Failed? && s.procs[p].pc.id in s.rows
    ensures Balanced(StepCleanup(s, p), slot)
  {
    var id := s.procs[p].pc.id;
    assert Balanced(s, slot) && ProcOk(s, s.procs[p]);
    DeletedSlot(s.rows, id);
    OwnersUpdate(s.procs, p, Done(WorkFailed), slot);
    if slot != s.rows[id].slot {
      TakenElsewhere(s.rows, StepCleanup(s, p).rows, id, slot);
    }
  }

  lemma CleanupKeeps(s: State, p: Pid)
    requires Inv(s) && p < |s.procs|
    ensures Inv(StepCleanup(s, p))
  {
    var proc := s.procs[p];
    if proc.pc.Failed? {
      var id := proc.pc.id;
      var next := Goto(s, p, Done(WorkFailed));
      assert ProcOk(s, proc);
      GotoKeeps(s, p, Done(WorkFailed));
      if id in s.rows {
        var s' := StepCleanup(s, p);
        DeleteKeeps(next, s', id);
        forall slot ensures Balanced(s', slot) {
          CleanupBalanced(s, p, slot);
        }
      }
    }
  }

  lemma CommitTable(s: State, p: Pid, body: Json)
    requires Inv(s) && p < |s.procs| && s.procs[p].pc.Holding?
    ensures TableOk(StepCommit(s, p, body))
  {
    var proc := s.procs[p];
    var s' := StepCommit(s, p, body);
    var e := Execution(proc.slot, proc.hash, body, proc.pc.id in s.rows);
    assert ProcOk(s, proc);
    assert s'.log == s.log + [e] && s'.log[|s.log|] == e;
    forall i | i in s'.rows && s'.rows[i].status.Completed?
      ensures s'.rows[i].body.Some?
              && Logged(s'.log, s'.rows[i].slot, s'.rows[i].hash, s'.rows[i].body.value)
    {
      if i != proc.pc.id {
        LoggedGrows(s.log, e, s.rows[i].slot, s.rows[i].hash, s.rows[i].body.value);
      }
    }
  }

  lemma CommitBalanced(s: State, p: Pid, body: Json, slot: Slot)
    requires Inv(s) && p < |s.procs| && s.procs[p].pc.Holding?
    ensures Balanced(StepCommit(s, p, body), slot)
  {
    var proc := s.procs[p];
    assert Balanced(s, slot);
    OwnersUpdate(s.procs, p, Done(Returned(body)), slot);
    ExecutionsAppend(s.log, Execution(proc.slot, proc.hash, body, proc.pc.id in s.rows), slot);
    CommitPresence(s, p, body, slot);
  }

  lemma CommitKeeps(s: State, p: Pid, body: Json)
    requires Inv(s) && p < |s.procs|
    ensures Inv(StepCommit(s, p, body))
  {
    if s.procs[p].pc.Holding? {
      CommitTable(s, p, body);
      CommitProcs(s, p, body);
      forall slot ensures Balanced(StepCommit(s, p, body), slot) {
        CommitBalanced(s, p, body, slot);
      }
    }
  }

  lemma CommitProcs(s: State, p: Pid, body: Json)
    requires Inv(s) && p < |s.procs| && s.procs[p].pc.Holding?
    ensures ProcsOk(StepCommit(s, p, body))
  {
    var proc := s.procs[p];
    var s' := StepCommit(s, p, body);
    var e := Execution(proc.slot, proc.hash, body, proc.pc.id in s.rows);
    assert s'.log == s.log + [e] && s'.log[|s.log|] == e;
    forall q | 0 <= q < |s'.procs| ensures ProcOk(s', s'.procs[q]) {
      assert ProcOk(s, s.procs[q]);
      if q != p {
        match s.procs[q].pc {
          case Done(Returned(b)) => LoggedGrows(s.log, e, s.procs[q].slot, s.procs[q].hash, b);
          case _ =>
        }
      }
    }
  }

  lemma CommitPresence(s: State, p: Pid, body: Json, slot: Slot)
    requires Inv(s) && p < |s.procs| && s.procs[p].pc.Holding?
    ensures var s' := StepCommit(s, p, body);
            var hit := s.procs[p].pc.id in s.rows && slot == s.procs[p].slot;
            && Present(s'.rows, slot) == Present(s.rows, slot)
            && CompletedPresent(s'.rows, slot) == CompletedPresent(s.rows, slot) + if hit then 1 else 0
  {
    var s' := StepCommit(s, p, body);
    var id := s.procs[p].pc.id;
    assert ProcOk(s, s.procs[p]);
    if id in s.rows {
      if slot == s.procs[p].slot {
        DeletedSlot(s.rows, id);
        assert s'.rows[id].slot == slot;
        assert s.rows[id].slot == slot;
      } else {
        TakenElsewhere(s.rows, s'.rows, id, slot);
      }
    }
  }

  lemma StepKeeps(s: State, a: Action)
    requires Inv(s)
    ensures Inv(Step(s, a))
  {
    if a.Tick? {
      var s' := Step(s, a);
      forall q | 0 <= q < |s'.procs| ensures ProcOk(s', s'.procs[q]) {
        assert ProcOk(s, s.procs[q]);
      }
      forall slot ensures Balanced(s', slot) {
        assert Balanced(s, slot);
      }
    } else if a.pid < |s.procs| {
      match a
      case Reserve(p, createdAt) => ReserveKeeps(s, p, createdAt);
      case Read(p) => ReadKeeps(s, p);
      case Judge(p) =>
        if s.procs[p].pc.Seen? {
          assert ProcOk(s, s.procs[p]);
          GotoKeeps(s, p, StepJudge(s, p).procs[p].pc);
        }
      case Reclaim(p) => ReclaimKeeps(s, p);
      case Commit(p, body) => CommitKeeps(s, p, body);
      case Fail(p) =>
        if s.procs[p].pc.Holding? {
          assert ProcOk(s, s.procs[p]);
          GotoKeeps(s, p, Failed(s.procs[p].pc.id));
        }
      case Cleanup(p) => CleanupKeeps(s, p);
      case Crash(p) =>
        if !s.procs[p].pc.Done? {
          GotoKeeps(s, p, Crashed);
        }
    }
  }

  lemma {:induction false} RunKeeps(s: State, actions: seq<Action>)
    requires Init(s)
    ensures Inv(Run(s, actions))
  {
    if actions == [] {
      forall slot ensures Balanced(s, slot) {
        NoOwners(s.procs, slot);
      }
    } else {
      RunKeeps(s, actions[..|actions| - 1]);
      StepKeeps(Run(s, actions[..|actions| - 1]), actions[|actions| - 1]);
    }
  }

  lemma {:induction false} RunConcat(s: State, a: seq<Action>, b: seq<Action>)
    ensures Run(s, a + b) == Run(Run(s, a), b)
  {
    hide Step;
    if b == [] {
      assert a + b == a;
    } else {
      var n := |b| - 1;
      RunConcat(s, a, b[..n]);
      assert (a + b)[..|a + b| - 1] == a + b[..n];
    }
  }

  lemma RunSnoc(s: State, actions: seq<Action>, a: Action)
    ensures Run(s, actions + [a]) == Step(Run(s, actions), a)
  {
    hide Step;
    assert (actions + [a])[..|actions|] == actions;
  }

  /** The others leave a request alone. */
  lemma {:induction false} OthersKeep(s: State, actions: seq<Action>, p: Pid)
    requires p < |s.procs| && forall i :: 0 <= i < |actions| ==> actions[i].Tick? || actions[i].pid != p
    ensures |Run(s, actions).procs| == |s.procs| && Run(s, actions).procs[p] == s.procs[p]
  {
    if actions != [] {
      var n := |actions| - 1;
      OthersKeep(s, actions[..n], p);
      hide Run, Taken, Find;
      OtherKeeps(Run(s, actions[..n]), actions[n], p);
    }
  }

  lemma OtherKeeps(s: State, a: Action, p: Pid)
    requires p < |s.procs| && (a.Tick? || a.pid != p)
    ensures |Step(s, a).procs| == |s.procs| && Step(s, a).procs[p] == s.procs[p]
  {
    hide Taken, Find;
  }

  // ------------------------------------------------------------ what every run guarantees

  /** In every interleaving, crashes included: `work` commits at most once more than the number
      of rows reclaim-deletes removed, and exactly as often as the rows it completed are accounted
      for (still there, reclaimed after completion, or gone before the commit). */
  lemma {:induction false} ExecutionsBounded(s: State, actions: seq<Action>, slot: Slot)
    requires Init(s)
    ensures var t := Run(s, actions);
            && Executions(t.log, slot) <= 1 + t.reclaims[slot]
            && Executions(t.log, slot) == CompletedPresent(t.rows, slot) + t.lateReclaims[slot] + t.orphans[slot]
  {
    RunKeeps(s, actions);
    assert Balanced(Run(s, actions), slot);
  }

  /** Whatever a call returns, some committed execution of the same key with the same request
      hash produced it: no body is made up, and none crosses keys or request bodies. */
  lemma {:induction false} ReturnsAreExecutions(s: State, actions: seq<Action>, p: Pid, body: Json)
    requires Init(s) && p < |Run(s, actions).procs|
    requires Run(s, actions).procs[p].pc == Done(Returned(body))
    ensures var t := Run(s, actions); Logged(t.log, t.procs[p].slot, t.procs[p].hash, body)
  {
    RunKeeps(s, actions);
    assert ProcOk(Run(s, actions), Run(s, actions).procs[p]);
  }

  /** A failed owner's cleanup removes nothing but its own reservation: the row it deletes, if it
      is still there, is on its own key and pending, and every other owner's row stays. */
  lemma {:induction false} CleanupIsOwn(s: State, actions: seq<Action>, p: Pid)
    requires Init(s) && p < |Run(s, actions).procs|
    ensures var t := Run(s, actions);
            var t' := Step(t, Cleanup(p));
            && (forall id :: id in t.rows && id !in t'.rows ==>
                  && t.procs[p].pc == Failed(id)
                  && t.rows[id].slot == t.procs[p].slot && t.rows[id].status.Pending?)
            && (forall id :: id in t'.rows ==> id in t.rows && t'.rows[id] == t.rows[id])
            && forall q :: 0 <= q < |t.procs| && q != p && IsOwner(t.procs[q]) && t.procs[q].pc.id in t.rows ==>
                 t.procs[q].pc.id in t'.rows
  {
    RunKeeps(s, actions);
    assert ProcOk(Run(s, actions), Run(s, actions).procs[p]);
  }

  /** A call that finds its key taken collides, and if the row it reads after whatever the others did
      meanwhile carries another request hash, it ends in a conflict: it does not get to run `work`,
      and it changes no row on the way. */
  lemma {:induction false} OtherHashConflicts(s: State, actions: seq<Action>, p: Pid, createdAt: int,
                                              between: seq<Action>)
    requires Init(s) && p < |Run(s, actions).procs|
    requires var t := Run(s, actions); t.procs[p].pc == Start && createdAt <= t.now && Taken(t.rows, t.procs[p].slot)
    requires forall i :: 0 <= i < |between| ==> between[i].Tick? || between[i].pid != p
    requires HasOtherHash(Run(Step(Run(s, actions), Reserve(p, createdAt)), between).rows,
                          Run(s, actions).procs[p].slot, Run(s, actions).procs[p].hash)
    ensures var t := Run(s, actions);
            var collided := Step(t, Reserve(p, createdAt));
            var u := Run(collided, between);
            && collided.rows == t.rows && collided.log == t.log
            && p < |u.procs| && u.procs[p] == t.procs[p].(pc := Collided)
            && Step(u, Read(p)) == Goto(u, p, Done(KeyConflict))
  {
    hide Inv, Init;
    var t := Run(s, actions);
    var collided := Step(t, Reserve(p, createdAt));
    assert collided == Goto(t, p, Collided);
    OthersKeep(collided, between, p);
    RunSnoc(s, actions, Reserve(p, createdAt));
    RunConcat(s, actions + [Reserve(p, createdAt)], between);
    RunKeeps(s, actions + [Reserve(p, createdAt)] + between);
    hide Run;
    ReadsOtherHash(Run(collided, between), p);
  }

  ghost predicate HasOtherHash(rows: map<RowId, Row>, slot: Slot, hash: string) {
    exists id :: id in rows && rows[id].slot == slot && rows[id].hash != hash
  }

  lemma ReadsOtherHash(s: State, p: Pid)
    requires Inv(s) && p < |s.procs| && s.procs[p].pc.Collided?
    requires HasOtherHash(s.rows, s.procs[p].slot, s.procs[p].hash)
    ensures Step(s, Read(p)) == Goto(s, p, Done(KeyConflict))
  {
    hide Balanced, ProcsOk;
    var id :| id in s.rows && s.rows[id].slot == s.procs[p].slot && s.rows[id].hash != s.procs[p].hash;
    assert Find(s.rows, s.procs[p].slot) == id;
  }

  // ------------------------------------------------------------ exactly when it is at most once

  /** A commit happens at most `limit` after its reservation was created, and the age of a row is
      judged at most `d` after the row was read. */
  ghost predicate Timely(s: State, a: Action, limit: nat, d: nat) {
    && (a.Commit? && a.pid < |s.procs| && s.procs[a.pid].pc.Holding? && s.procs[a.pid].pc.id in s.born ==>
          s.now - s.born[s.procs[a.pid].pc.id] <= limit)
    && (a.Judge? && a.pid < |s.procs| && s.procs[a.pid].pc.Seen? ==> s.now - s.procs[a.pid].pc.at <= d)
  }

  ghost predicate TimelyRun(s: State, actions: seq<Action>, limit: nat, d: nat)
    decreases |actions|
  {
    actions == [] ||
    (var n := |actions| - 1;
     TimelyRun(s, actions[..n], limit, d) && Timely(Run(s, actions[..n]), actions[n], limit, d))
  }

  /** Nobody is about to delete a row that was or still can be completed. */
  ghost predicate TimelyInv(s: State, limit: nat) {
    && (forall slot :: s.lateReclaims[slot] == 0 && s.orphans[slot] == 0)
    && forall p :: 0 <= p < |s.procs| ==> TimelyProc(s, s.procs[p], limit)
  }

  ghost predicate TimelyProc(s: State, proc: Proc, limit: nat) {
    match proc.pc
    case Seen(id, _, at) =>
      id in s.born && (id in s.rows && s.rows[id].status.Completed? ==> at - s.born[id] <= limit)
    case Reclaiming(id) =>
      id in s.born && s.now - s.born[id] > PENDING_RECLAIM && (id in s.rows ==> s.rows[id].status.Pending?)
    case Holding(id) =>
      id in s.born && (id !in s.rows ==> s.now - s.born[id] > PENDING_RECLAIM)
    case _ => true
  }

  /** Actions of one process that leave the other rows and processes alone. */
  lemma TimelyFrame(s: State, s': State, p: Pid, id: RowId, limit: nat)
    requires Inv(s) && TimelyInv(s, limit) && p < |s.procs| && limit <= PENDING_RECLAIM
    requires s'.now == s.now && |s'.procs| == |s.procs|
    requires forall q :: 0 <= q < |s.procs| && q != p ==> s'.procs[q] == s.procs[q]
    requires forall q :: 0 <= q < |s.procs| && q != p && IsOwner(s.procs[q]) ==> s.procs[q].pc.id != id
    requires forall i :: i in s.born ==> i in s'.born && s'.born[i] == s.born[i]
    requires forall i :: i in s.born && i != id ==>
               (i in s.rows <==> i in s'.rows) && (i in s.rows ==> s'.rows[i] == s.rows[i])
    requires id in s.born && id in s'.rows ==> s'.rows[id].status.Pending? || s.now - s.born[id] <= limit
    ensures forall q :: 0 <= q < |s.procs| && q != p ==> TimelyProc(s', s'.procs[q], limit)
  {
    hide Balanced;
    forall q | 0 <= q < |s.procs| && q != p ensures TimelyProc(s', s'.procs[q], limit) {
      assert TimelyProc(s, s.procs[q], limit) && ProcOk(s, s.procs[q]);
    }
  }

  lemma TimelyReserve(s: State, p: Pid, createdAt: int, limit: nat)
    requires Inv(s) && TimelyInv(s, limit) && p < |s.procs| && limit <= PENDING_RECLAIM
    ensures TimelyInv(StepReserve(s, p, createdAt), limit)
  {
    hide Balanced;
    forall q | 0 <= q < |s.procs| && IsOwner(s.procs[q]) ensures s.procs[q].pc.id < s.nextId {
      assert ProcOk(s, s.procs[q]);
    }
    TimelyFrame(s, StepReserve(s, p, createdAt), p, s.nextId, limit);
  }

  lemma TimelyRead(s: State, p: Pid, limit: nat)
    requires Inv(s) && TimelyInv(s, limit) && p < |s.procs| && limit <= PENDING_RECLAIM
    ensures TimelyInv(StepRead(s, p), limit)
  {
    hide Balanced;
    forall q | 0 <= q < |s.procs| && IsOwner(s.procs[q]) ensures s.procs[q].pc.id < s.nextId {
      assert ProcOk(s, s.procs[q]);
    }
    TimelyFrame(s, StepRead(s, p), p, s.nextId, limit);
    assert TimelyProc(s, s.procs[p], limit);
  }

  /** A row judged stuck was not completed in time, and so is still pending. */
  lemma TimelyJudge(s: State, p: Pid, limit: nat, d: nat)
    requires Inv(s) && TimelyInv(s, limit) && p < |s.procs|
    requires Timely(s, Judge(p), limit, d) && limit + d <= PENDING_RECLAIM
    ensures TimelyInv(StepJudge(s, p), limit)
  {
    hide Balanced;
    var s' := StepJudge(s, p);
    assert TimelyProc(s, s.procs[p], limit) && ProcOk(s, s.procs[p]);
    forall q | 0 <= q < |s.procs| ensures TimelyProc(s', s'.procs[q], limit) {
      assert TimelyProc(s, s.procs[q], limit);
    }
  }

  lemma TimelyReclaim(s: State, p: Pid, limit: nat)
    requires Inv(s) && TimelyInv(s, limit) && p < |s.procs|
    ensures TimelyInv(StepReclaim(s, p), limit)
  {
    hide Balanced;
    var s' := StepReclaim(s, p);
    assert TimelyProc(s, s.procs[p], limit);
    forall q | 0 <= q < |s.procs| ensures TimelyProc(s', s'.procs[q], limit) {
      assert TimelyProc(s, s.procs[q], limit) && ProcOk(s, s.procs[q]);
    }
  }

  lemma TimelyCommit(s: State, p: Pid, body: Json, limit: nat, d: nat)
    requires Inv(s) && TimelyInv(s, limit) && p < |s.procs|
    requires Timely(s, Commit(p, body), limit, d) && limit <= PENDING_RECLAIM
    ensures TimelyInv(StepCommit(s, p, body), limit)
    ensures s.procs[p].pc.Holding? ==> s.procs[p].pc.id in s.rows
  {
    hide Balanced;
    assert TimelyProc(s, s.procs[p], limit) && ProcOk(s, s.procs[p]);
    if s.procs[p].pc.Holding? {
      forall q | 0 <= q < |s.procs| && q != p && IsOwner(s.procs[q])
        ensures s.procs[q].pc.id != s.procs[p].pc.id
      {
      }
      TimelyFrame(s, StepCommit(s, p, body), p, s.procs[p].pc.id, limit);
    }
  }

  lemma TimelyCleanup(s: State, p: Pid, limit: nat)
    requires Inv(s) && TimelyInv(s, limit) && p < |s.procs| && limit <= PENDING_RECLAIM
    ensures TimelyInv(StepCleanup(s, p), limit)
  {
    hide Balanced;
    if s.procs[p].pc.Failed? {
      TimelyFrame(s, StepCleanup(s, p), p, s.procs[p].pc.id, limit);
    }
  }

  /** Neither failing nor crashing touches a row. */
  lemma TimelyPark(s: State, p: Pid, limit: nat)
    requires TimelyInv(s, limit) && p < |s.procs|
    ensures TimelyInv(StepFail(s, p), limit) && TimelyInv(StepCrash(s, p), limit)
  {
    forall q | 0 <= q < |s.procs|
      ensures TimelyProc(StepFail(s, p), StepFail(s, p).procs[q], limit)
      ensures TimelyProc(StepCrash(s, p), StepCrash(s, p).procs[q], limit)
    {
      assert TimelyProc(s, s.procs[q], limit);
    }
  }

  lemma TimelyTick(s: State, to: int, limit: nat)
    requires TimelyInv(s, limit)
    ensures TimelyInv(Step(s, Tick(to)), limit)
  {
    forall q | 0 <= q < |s.procs| ensures TimelyProc(Step(s, Tick(to)), s.procs[q], limit) {
      assert TimelyProc(s, s.procs[q], limit);
    }
  }

  lemma {:induction false} TimelyStep(s: State, a: Action, limit: nat, d: nat)
    requires Inv(s) && TimelyInv(s, limit) && Timely(s, a, limit, d) && limit + d <= PENDING_RECLAIM
    ensures TimelyInv(Step(s, a), limit)
  {
    hide Inv, TimelyInv, Timely, StepReserve, StepRead, StepJudge, StepReclaim, StepCommit, StepFail, StepCleanup,
         StepCrash;
    if a.Tick? {
      TimelyTick(s, a.to, limit);
    } else if a.pid < |s.procs| {
      match a
      case Reserve(p, createdAt) => TimelyReserve(s, p, createdAt, limit);
      case Read(p) => TimelyRead(s, p, limit);
      case Judge(p) => TimelyJudge(s, p, limit, d);
      case Reclaim(p) => TimelyReclaim(s, p, limit);
      case Commit(p, body) => TimelyCommit(s, p, body, limit, d);
      case Fail(p) => TimelyPark(s, p, limit);
      case Cleanup(p) => TimelyCleanup(s, p, limit);
      case Crash(p) => TimelyPark(s, p, limit);
    }
  }

  lemma {:induction false} TimelyRunKeeps(s: State, actions: seq<Action>, limit: nat, d: nat)
    requires Init(s) && TimelyRun(s, actions, limit, d) && limit + d <= PENDING_RECLAIM
    ensures TimelyInv(Run(s, actions), limit)
  {
    hide Inv, Step, Timely;
    if actions != [] {
      var n := |actions| - 1;
      TimelyRunKeeps(s, actions[..n], limit, d);
      RunKeeps(s, actions[..n]);
      TimelyStep(Run(s, actions[..n]), actions[n], limit, d);
    }
  }

  /** The module's promise, for owners that never take longer than `limit` and readers that never
      take longer than `d`. */
  ghost predicate AtMostOnceWithin(limit: nat, d: nat) {
    forall s, actions, slot ::
      Init(s) && TimelyRun(s, actions, limit, d) ==> Executions(Run(s, actions).log, slot) <= 1
  }

  lemma TimelyAtMostOnce(s: State, actions: seq<Action>, limit: nat, d: nat, slot: Slot)
    requires Init(s) && TimelyRun(s, actions, limit, d) && limit + d <= PENDING_RECLAIM
    ensures Executions(Run(s, actions).log, slot) <= 1
  {
    TimelyRunKeeps(s, actions, limit, d);
    ExecutionsBounded(s, actions, slot);
  }

  // ------------------------------------------------------------ the run that breaks it beyond

  const DOUBLE_SLOT: Slot := Slot(1, "key")

  /** Two calls with one key: how long the first takes to commit, how long the second takes to look
      at the clock, and what their work returns. */
  datatype Race = Race(limit: nat, d: nat, first: Json, second: Json)

  /** A state the two calls pass through. */
  function TwoCalls(now: int, rows: map<RowId, Row>, first: Pc, second: Pc, born: map<RowId, int>,
                    log: seq<Execution>, lateReclaims: nat): State
  {
    State(now, |born|, rows, [Proc(DOUBLE_SLOT, "hash", first), Proc(DOUBLE_SLOT, "hash", second)],
          born, log, multiset{}[DOUBLE_SLOT := |born|], multiset{}, multiset{}[DOUBLE_SLOT := lateReclaims],
          multiset{}[DOUBLE_SLOT := lateReclaims], multiset{})
  }

  function PendingRow(createdAt: int): Row {
    Row(DOUBLE_SLOT, "hash", Pending, None, createdAt)
  }

  function CompletedRow(createdAt: int, body: Json): Row {
    Row(DOUBLE_SLOT, "hash", Completed, Some(body), createdAt)
  }

  function Executed(body: Json): Execution {
    Execution(DOUBLE_SLOT, "hash", body, true)
  }

  /** The second call reads the row just before the first commits, and judges it stuck just after. */
  function SlowAction(w: Race, k: nat): Action {
    if k == 0 then Reserve(0, 0)
    else if k == 1 then Tick(w.limit)
    else if k == 2 then Reserve(1, 0)
    else if k == 3 then Read(1)
    else if k == 4 then Commit(0, w.first)
    else if k == 5 then Tick(w.limit + w.d)
    else if k == 6 then Judge(1)
    else if k == 7 then Reclaim(1)
    else if k == 8 then Reserve(1, w.limit + w.d)
    else Commit(1, w.second)
  }

  /** The second call holds the id of a row that has been completed since. */
  function JudgedState(w: Race): State {
    TwoCalls(w.limit + w.d, map[0 := CompletedRow(0, w.first)], Done(Returned(w.first)), Reclaiming(0),
             map[0 := 0], [Executed(w.first)], 0)
  }

  function ReclaimedState(w: Race): State {
    TwoCalls(w.limit + w.d, map[], Done(Returned(w.first)), Retry, map[0 := 0], [Executed(w.first)], 1)
  }

  function ReservedState(w: Race): State {
    TwoCalls(w.limit + w.d, map[1 := PendingRow(w.limit + w.d)], Done(Returned(w.first)), Holding(1),
             map[0 := 0, 1 := w.limit + w.d], [Executed(w.first)], 1)
  }

  function TwiceState(w: Race): State {
    TwoCalls(w.limit + w.d, map[1 := CompletedRow(w.limit + w.d, w.second)], Done(Returned(w.first)),
             Done(Returned(w.second)), map[0 := 0, 1 := w.limit + w.d],
             [Executed(w.first), Executed(w.second)], 1)
  }

  function SlowState(w: Race, k: nat): State {
    var pending, completed := map[0 := PendingRow(0)], map[0 := CompletedRow(0, w.first)];
    var born, one := map[0 := 0], [Executed(w.first)];
    var done := Done(Returned(w.first));
    if k == 0 then TwoCalls(0, map[], Start, Start, map[], [], 0)
    else if k == 1 then TwoCalls(0, pending, Holding(0), Start, born, [], 0)
    else if k == 2 then TwoCalls(w.limit, pending, Holding(0), Start, born, [], 0)
    else if k == 3 then TwoCalls(w.limit, pending, Holding(0), Collided, born, [], 0)
    else if k == 4 then TwoCalls(w.limit, pending, Holding(0), Seen(0, 0, w.limit), born, [], 0)
    else if k == 5 then TwoCalls(w.limit, completed, done, Seen(0, 0, w.limit), born, one, 0)
    else if k == 6 then TwoCalls(w.limit + w.d, completed, done, Seen(0, 0, w.limit), born, one, 0)
    else if k == 7 then JudgedState(w)
    else if k == 8 then ReclaimedState(w)
    else if k == 9 then ReservedState(w)
    else TwiceState(w)
  }

  function SlowActions(w: Race, n: nat): seq<Action> {
    if n == 0 then [] else SlowActions(w, n - 1) + [SlowAction(w, n - 1)]
  }

  ghost predicate SlowFollows(w: Race, k: nat) {
    && Step(SlowState(w, k), SlowAction(w, k)) == SlowState(w, k + 1)
    && Timely(SlowState(w, k), SlowAction(w, k), w.limit, w.d)
  }

  lemma SlowBegins(w: Race)
    ensures SlowFollows(w, 0) && SlowFollows(w, 1)
  {
  }

  lemma SlowCollides(w: Race)
    ensures SlowFollows(w, 2) && SlowFollows(w, 3)
  {
    var rows := SlowState(w, 3).rows;
    assert rows[0].slot == DOUBLE_SLOT && Find(rows, DOUBLE_SLOT) == 0;
  }

  lemma SlowCommits(w: Race)
    ensures SlowFollows(w, 4)
  {
    var s, next := SlowState(w, 4), SlowState(w, 5);
    var t := StepCommit(s, 0, w.first);
    assert t.log == next.log;
    assert t.procs == next.procs;
    assert t.rows == next.rows;
  }

  lemma SlowJudges(w: Race)
    requires w.limit + w.d > PENDING_RECLAIM
    ensures SlowFollows(w, 5) && SlowFollows(w, 6)
  {
    var s, next := SlowState(w, 6), SlowState(w, 7);
    assert StepJudge(s, 1).procs == next.procs;
  }

  lemma SlowReclaims(w: Race)
    ensures Step(JudgedState(w), Reclaim(1)) == ReclaimedState(w)
  {
    var t, next := StepReclaim(JudgedState(w), 1), ReclaimedState(w);
    assert t.rows == next.rows;
    assert t.procs == next.procs;
    assert t.reclaims == next.reclaims && t.lateReclaims == next.lateReclaims;
  }

  lemma SlowReserves(w: Race)
    ensures Step(ReclaimedState(w), Reserve(1, w.limit + w.d)) == ReservedState(w)
  {
    var s, next := ReclaimedState(w), ReservedState(w);
    assert !Taken(s.rows, DOUBLE_SLOT);
    var t := StepReserve(s, 1, w.limit + w.d);
    assert t.rows == next.rows;
    assert t.born == next.born;
    assert t.procs == next.procs;
    assert t.inserts == next.inserts;
  }

  lemma SlowCommitsAgain(w: Race)
    ensures Step(ReservedState(w), Commit(1, w.second)) == TwiceState(w)
    ensures Timely(ReservedState(w), Commit(1, w.second), w.limit, w.d)
  {
    var t, next := StepCommit(ReservedState(w), 1, w.second), TwiceState(w);
    assert t.log == next.log;
    assert t.procs == next.procs;
    assert t.rows == next.rows;
  }

  lemma SlowEnding(w: Race)
    ensures SlowFollows(w, 7) && SlowFollows(w, 8) && SlowFollows(w, 9)
  {
    hide JudgedState, ReclaimedState, ReservedState, TwiceState, Step;
    SlowReclaims(w);
    SlowReserves(w);
    SlowCommitsAgain(w);
  }

  lemma SlowStep(w: Race, k: nat)
    requires w.limit + w.d > PENDING_RECLAIM && k < 10
    ensures SlowFollows(w, k)
  {
    hide SlowFollows;
    SlowEnding(w);
    SlowBegins(w);
    SlowCollides(w);
    SlowCommits(w);
    SlowJudges(w);
  }

  lemma {:induction false} SlowRun(w: Race, n: nat)
    requires w.limit + w.d > PENDING_RECLAIM && n <= 10
    ensures Run(SlowState(w, 0), SlowActions(w, n)) == SlowState(w, n)
    ensures TimelyRun(SlowState(w, 0), SlowActions(w, n), w.limit, w.d)
  {
    hide SlowState, SlowAction, Step, Timely;
    if n > 0 {
      SlowRun(w, n - 1);
      SlowStep(w, n - 1);
      var actions := SlowActions(w, n);
      assert actions[..|actions| - 1] == SlowActions(w, n - 1);
    }
  }

  lemma LogsTwice(first: Json, second: Json)
    ensures Executions([Executed(first), Executed(second)], DOUBLE_SLOT) == 2
  {
    ExecutionsAppend([], Executed(first), DOUBLE_SLOT);
    ExecutionsAppend([] + [Executed(first)], Executed(second), DOUBLE_SLOT);
    assert [] + [Executed(first)] + [Executed(second)] == [Executed(first), Executed(second)];
  }

  lemma SlowEnds(w: Race)
    ensures Init(SlowState(w, 0)) && Executions(SlowState(w, 10).log, DOUBLE_SLOT) == 2
  {
    hide Executions;
    LogsTwice(w.first, w.second);
  }

  /** Executed literally: reserve, collide and read, commit, judge, reclaim, reserve, commit. */
  lemma SlowOwnerRunsTwice(w: Race)
    requires w.limit + w.d > PENDING_RECLAIM
    ensures var s, actions := SlowState(w, 0), SlowActions(w, 10);
            && Init(s) && TimelyRun(s, actions, w.limit, w.d)
            && Executions(Run(s, actions).log, DOUBLE_SLOT) == 2
  {
    hide SlowState, SlowActions, Run, TimelyRun, Init, Executions;
    SlowRun(w, 10);
    SlowEnds(w);
  }

  /** "At most once per key" holds exactly when an owner and the reader of its row cannot together
      outlive the reclaim threshold. */
  lemma {:induction false} AtMostOnceExactly(limit: nat, d: nat)
    ensures AtMostOnceWithin(limit, d) <==> limit + d <= PENDING_RECLAIM
  {
    hide SlowState, SlowActions, Run, TimelyRun, Init, Executions;
    if limit + d <= PENDING_RECLAIM {
      forall s, actions, slot | Init(s) && TimelyRun(s, actions, limit, d)
        ensures Executions(Run(s, actions).log, slot) <= 1
      {
        TimelyAtMostOnce(s, actions, limit, d, slot);
      }
    } else {
      SlowOwnerRunsTwice(Race(limit, d, EMPTY_BODY, EMPTY_BODY));
    }
  }

  /** A log that holds at most one execution of a slot holds one body and one hash for it. */
  lemma OneBody(log: seq<Execution>, slot: Slot, hash: string, b: Json, hash': string, c: Json)
    requires Executions(log, slot) <= 1 && Logged(log, slot, hash, b) && Logged(log, slot, hash', c)
    ensures b == c && hash == hash' && Executions(log, slot) == 1
  {
    var i :| 0 <= i < |log| && log[i].slot == slot && log[i].hash == hash && log[i].body == b;
    var j :| 0 <= j < |log| && log[j].slot == slot && log[j].hash == hash' && log[j].body == c;
    SingleExecution(log, i, j, slot);
    ExecutionsAtLeast(log, i, slot);
  }

  /** With timely owners every successful call on a key, first or replayed, returns the body of
      the one committed execution, and all of them sent the same request. */
  lemma {:induction false} ReplayAgreement(s: State, actions: seq<Action>, limit: nat, d: nat,
                                           p: Pid, q: Pid, b: Json, c: Json)
    requires Init(s) && TimelyRun(s, actions, limit, d) && limit + d <= PENDING_RECLAIM
    requires var t := Run(s, actions);
             && p < |t.procs| && q < |t.procs| && t.procs[p].slot == t.procs[q].slot
             && t.procs[p].pc == Done(Returned(b)) && t.procs[q].pc == Done(Returned(c))
    ensures var t := Run(s, actions);
            && b == c && t.procs[p].hash == t.procs[q].hash
            && Executions(t.log, t.procs[p].slot) == 1
  {
    var t := Run(s, actions);
    TimelyAtMostOnce(s, actions, limit, d, t.procs[p].slot);
    ReturnsAreExecutions(s, actions, p, b);
    ReturnsAreExecutions(s, actions, q, c);
    OneBody(t.log, t.procs[p].slot, t.procs[p].hash, b, t.procs[q].hash, c);
  }

  /** With timely owners a commit always finds its own reservation in the table, so no other
      request, and no other request hash, holds the key while `work` takes effect. */
  lemma {:induction false} CommitHoldsReservation(s: State, actions: seq<Action>, limit: nat, d: nat,
                                                  p: Pid, body: Json)
    requires Init(s) && TimelyRun(s, actions, limit, d) && limit + d <= PENDING_RECLAIM
    requires var t := Run(s, actions);
             p < |t.procs| && t.procs[p].pc.Holding? && Timely(t, Commit(p, body), limit, d)
    ensures var t := Run(s, actions);
            && t.procs[p].pc.id in t.rows
            && forall id :: id in t.rows && t.rows[id].slot == t.procs[p].slot ==>
                 id == t.procs[p].pc.id && t.rows[id].hash == t.procs[p].hash
  {
    TimelyRunKeeps(s, actions, limit, d);
    RunKeeps(s, actions);
    var t := Run(s, actions);
    TimelyCommit(t, p, body, limit, d);
    assert ProcOk(t, t.procs[p]);
  }

  // ------------------------------------------------------------ reclaims of ended owners only

  /** A reclaim that removes a row finds it pending, and its owner no longer at work. */
  ghost predicate CleanStep(s: State, a: Action) {
    a.Reclaim? && a.pid < |s.procs| && s.procs[a.pid].pc.Reclaiming? && s.procs[a.pid].pc.id in s.rows ==>
      var id := s.procs[a.pid].pc.id;
      s.rows[id].status.Pending? && forall q :: 0 <= q < |s.procs| ==> s.procs[q].pc != Holding(id)
  }

  ghost predicate CleanRun(s: State, actions: seq<Action>)
    decreases |actions|
  {
    actions == [] ||
    (var n := |actions| - 1;
     CleanRun(s, actions[..n]) && CleanStep(Run(s, actions[..n]), actions[n]))
  }

  ghost predicate CleanInv(s: State) {
    && (forall slot :: s.lateReclaims[slot] == 0 && s.orphans[slot] == 0)
    && forall p :: 0 <= p < |s.procs| && s.procs[p].pc.Holding? ==> s.procs[p].pc.id in s.rows
  }

  lemma CleanCleanup(s: State, p: Pid)
    requires Inv(s) && CleanInv(s) && p < |s.procs|
    ensures CleanInv(StepCleanup(s, p))
  {
    hide Balanced;
    if s.procs[p].pc.Failed? {
      forall q | 0 <= q < |s.procs| && s.procs[q].pc.Holding? ensures s.procs[q].pc.id != s.procs[p].pc.id {
        assert IsOwner(s.procs[p]) && IsOwner(s.procs[q]);
      }
    }
  }

  lemma CleanReclaim(s: State, p: Pid)
    requires CleanInv(s) && p < |s.procs| && CleanStep(s, Reclaim(p))
    ensures CleanInv(StepReclaim(s, p))
  {
  }

  lemma CleanCommit(s: State, p: Pid, body: Json)
    requires CleanInv(s) && p < |s.procs|
    ensures CleanInv(StepCommit(s, p, body))
  {
  }

  lemma CleanReserve(s: State, p: Pid, createdAt: int)
    requires CleanInv(s) && p < |s.procs|
    ensures CleanInv(StepReserve(s, p, createdAt))
  {
    hide Taken;
  }

  lemma CleanRead(s: State, p: Pid)
    requires CleanInv(s) && p < |s.procs|
    ensures CleanInv(StepRead(s, p))
  {
    hide Taken;
  }

  lemma CleanStop(s: State, p: Pid)
    requires CleanInv(s) && p < |s.procs|
    ensures CleanInv(StepFail(s, p)) && CleanInv(StepCrash(s, p)) && CleanInv(StepJudge(s, p))
  {
  }

  lemma {:induction false} CleanStepKeeps(s: State, a: Action)
    requires Inv(s) && CleanInv(s) && CleanStep(s, a)
    ensures CleanInv(Step(s, a))
  {
    hide Inv, StepReserve, StepRead, StepJudge, StepCleanup, StepReclaim, StepCommit, StepFail, StepCrash, CleanStep;
    if !a.Tick? && a.pid < |s.procs| {
      match a
      case Reserve(p, createdAt) => CleanReserve(s, p, createdAt);
      case Read(p) => CleanRead(s, p);
      case Judge(p) => CleanStop(s, p);
      case Reclaim(p) => CleanReclaim(s, p);
      case Commit(p, body) => CleanCommit(s, p, body);
      case Fail(p) => CleanStop(s, p);
      case Cleanup(p) => CleanCleanup(s, p);
      case Crash(p) => CleanStop(s, p);
    }
  }

  lemma {:induction false} CleanRunKeeps(s: State, actions: seq<Action>)
    requires Init(s) && CleanRun(s, actions)
    ensures CleanInv(Run(s, actions))
  {
    hide Inv, Step;
    if actions != [] {
      var n := |actions| - 1;
      CleanRunKeeps(s, actions[..n]);
      RunKeeps(s, actions[..n]);
      CleanStepKeeps(Run(s, actions[..n]), actions[n]);
    }
  }

  /** When reclaims only ever hit the rows of owners that ended without committing, `work` commits
      at most once, and every success on the key carries that one body. */
  lemma {:induction false} CleanAtMostOnce(s: State, actions: seq<Action>, slot: Slot)
    requires Init(s) && CleanRun(s, actions)
    ensures Executions(Run(s, actions).log, slot) <= 1
  {
    hide Inv, CleanRun;
    CleanRunKeeps(s, actions);
    ExecutionsBounded(s, actions, slot);
  }

  lemma {:induction false} CleanReplayAgreement(s: State, actions: seq<Action>, p: Pid, q: Pid, b: Json, c: Json)
    requires Init(s) && CleanRun(s, actions)
    requires var t := Run(s, actions);
             && p < |t.procs| && q < |t.procs| && t.procs[p].slot == t.procs[q].slot
             && t.procs[p].pc == Done(Returned(b)) && t.procs[q].pc == Done(Returned(c))
    ensures b == c && Run(s, actions).procs[p].hash == Run(s, actions).procs[q].hash
    ensures Executions(Run(s, actions).log, Run(s, actions).procs[p].slot) == 1
  {
    hide CleanRun, Inv, Init, Run, Executions;
    var t := Run(s, actions);
    CleanAtMostOnce(s, actions, t.procs[p].slot);
    ReturnsAreExecutions(s, actions, p, b);
    ReturnsAreExecutions(s, actions, q, c);
    OneBody(t.log, t.procs[p].slot, t.procs[p].hash, b, t.procs[q].hash, c);
  }

  /** Under the same condition, whoever may still commit holds the one row of its key, under its own
      request hash: no other request hash runs `work` while a row is there. */
  lemma {:induction false} CleanHoldsReservation(s: State, actions: seq<Action>, p: Pid)
    requires Init(s) && CleanRun(s, actions)
    requires p < |Run(s, actions).procs| && Run(s, actions).procs[p].pc.Holding?
    ensures var t := Run(s, actions);
            && t.procs[p].pc.id in t.rows
            && forall id :: id in t.rows && t.rows[id].slot == t.procs[p].slot ==>
                 id == t.procs[p].pc.id && t.rows[id].hash == t.procs[p].hash
  {
    hide Run, CleanRun, Init, Balanced;
    CleanRunKeeps(s, actions);
    RunKeeps(s, actions);
    var t := Run(s, actions);
    assert ProcOk(t, t.procs[p]);
  }
}
