/** What a call is told: finished keys are replayed, running ones are refused, failed ones are free
    again, and what a call was told once is final. */
module Replay {
  import opened Wrappers
  import opened Idempotency

  /** Where a collided call of this key and request hash goes when it finds these rows. */
  ghost predicate Decides(rows: map<RowId, Row>, slot: Slot, hash: string, now: int, pc: Pc) {
    && (!Taken(rows, slot) ==> pc == Retry)
    && forall id :: id in rows && rows[id].slot == slot ==>
         && (rows[id].hash != hash ==> pc == Done(KeyConflict))
         && (rows[id].hash == hash && rows[id].status.Completed? ==>
               rows[id].body.Some? && pc == Done(Returned(rows[id].body.value)))
         && (rows[id].hash == hash && rows[id].status.Pending? ==> pc == Seen(id, rows[id].createdAt, now))
  }

  lemma {:induction false} ReadDecides(s: State, p: Pid)
    requires Inv(s) && p < |s.procs| && s.procs[p].pc.Collided?
    ensures var t := Step(s, Read(p));
            && t == s.(procs := t.procs) && |t.procs| == |s.procs|
            && Decides(s.rows, s.procs[p].slot, s.procs[p].hash, s.now, t.procs[p].pc)
  {
    hide Balanced, ProcsOk;
    forall id | id in s.rows && s.rows[id].slot == s.procs[p].slot ensures Find(s.rows, s.procs[p].slot) == id {
    }
  }

  /** A call that finds its key completed by the same request is given the stored body, in every
      reachable state; a read never gives it any other body; and reading changes no row and runs no
      work. */
  lemma {:induction false} CompletedIsReplayed(s: State, actions: seq<Action>, p: Pid, b: Json)
    requires Init(s) && p < |Run(s, actions).procs| && Run(s, actions).procs[p].pc.Collided?
    ensures var t := Run(s, actions);
            var u := Step(t, Read(p));
            && u.rows == t.rows && u.log == t.log && |u.procs| == |t.procs|
            && (u.procs[p].pc == Done(Returned(b)) <==>
                  exists id :: id in t.rows && Answered(t.rows[id], t.procs[p].slot, t.procs[p].hash, b))
  {
    hide Run, Init, Inv, Step;
    RunKeeps(s, actions);
    var t := Run(s, actions);
    ReadDecides(t, p);
    if id :| id in t.rows && t.rows[id].slot == t.procs[p].slot {
      assert Taken(t.rows, t.procs[p].slot);
      assert Step(t, Read(p)).procs[p].pc == Done(Returned(b)) ==>
          Answered(t.rows[id], t.procs[p].slot, t.procs[p].hash, b);
    }
  }

  /** The row of a finished request. */
  predicate Answered(row: Row, slot: Slot, hash: string, b: Json) {
    row.slot == slot && row.hash == hash && row.status.Completed? && row.body == Some(b)
  }

  // ------------------------------------------------------------ what becomes of a row

  /** Ids are never used again, and a completed row is final until it goes. */
  ghost predicate RowEvolves(s: State, t: State, id: RowId) {
    && (id in s.born ==> id in t.born)
    && (id in s.born && id in t.rows ==>
          && id in s.rows && t.rows[id].slot == s.rows[id].slot && t.rows[id].hash == s.rows[id].hash
          && (s.rows[id].status.Completed? ==> t.rows[id] == s.rows[id]))
  }

  lemma CommitRow(s: State, p: Pid, body: Json, id: RowId)
    requires Inv(s) && p < |s.procs|
    ensures RowEvolves(s, StepCommit(s, p, body), id)
  {
    hide Balanced, TableOk;
    assert ProcOk(s, s.procs[p]);
  }

  /** Nothing but a commit changes a row that stays. */
  lemma OtherRow(s: State, a: Action, id: RowId)
    requires TableOk(s) && !a.Commit?
    ensures RowEvolves(s, Step(s, a), id)
  {
    hide Taken, UniqueSlots, StepCommit, Logged;
  }

  lemma StepRow(s: State, a: Action, id: RowId)
    requires Inv(s)
    ensures RowEvolves(s, Step(s, a), id)
  {
    if a.Commit? {
      if a.pid < |s.procs| {
        CommitRow(s, a.pid, a.body, id);
      }
      hide Inv, StepCommit;
    } else {
      OtherRow(s, a, id);
      hide *;
    }
  }

  lemma {:induction false} RunRow(s: State, actions: seq<Action>, id: RowId)
    requires Inv(s)
    ensures Inv(Run(s, actions)) && RowEvolves(s, Run(s, actions), id)
  {
    hide Inv, Step;
    if actions != [] {
      var n := |actions| - 1;
      RunRow(s, actions[..n], id);
      StepKeeps(Run(s, actions[..n]), actions[n]);
      StepRow(Run(s, actions[..n]), actions[n], id);
    }
  }

  // ------------------------------------------------------------ a success is final

  /** No completed row was ever reclaimed, and no work committed without its row. */
  ghost predicate NothingStray(s: State, slot: Slot) {
    s.lateReclaims[slot] == 0 && s.orphans[slot] == 0
  }

  /** When a call has succeeded, the key's one row holds its body. */
  lemma {:induction false} SuccessIsStored(s: State, q: Pid, b: Json)
    requires Inv(s) && q < |s.procs| && s.procs[q].pc == Done(Returned(b)) && NothingStray(s, s.procs[q].slot)
    ensures exists id :: id in s.rows && Answered(s.rows[id], s.procs[q].slot, s.procs[q].hash, b)
  {
    var slot, hash := s.procs[q].slot, s.procs[q].hash;
    assert ProcOk(s, s.procs[q]) && Balanced(s, slot);
    var i :| 0 <= i < |s.log| && s.log[i].slot == slot && s.log[i].hash == hash && s.log[i].body == b;
    ExecutionsAtLeast(s.log, i, slot);
    var id :| id in s.rows && s.rows[id].slot == slot && s.rows[id].status.Completed?;
    OneBody(s.log, slot, hash, b, s.rows[id].hash, s.rows[id].body.value);
  }

  /** Whoever comes later with the key collides, and once it reads it is told the first answer, or a
      conflict when its request differs. */
  ghost predicate Replays(s: State, p: Pid, slot: Slot, hash: string, b: Json) {
    p < |s.procs| && s.procs[p].slot == slot ==>
      && (forall createdAt :: createdAt <= s.now && s.procs[p].pc.Start? ==>
            Step(s, Reserve(p, createdAt)) == Goto(s, p, Collided))
      && (s.procs[p].pc.Collided? ==>
            Step(s, Read(p)) == Goto(s, p, Done(if s.procs[p].hash == hash then Returned(b) else KeyConflict)))
  }

  lemma {:induction false} StoredReplays(s: State, p: Pid, id: RowId, slot: Slot, hash: string, b: Json)
    requires Inv(s) && id in s.rows && Answered(s.rows[id], slot, hash, b)
    ensures Replays(s, p, slot, hash, b)
  {
    hide Balanced, ProcsOk;
    assert Taken(s.rows, slot) && Find(s.rows, slot) == id;
  }

  lemma {:induction false} SuccessReplays(s: State, p: Pid, q: Pid, b: Json)
    requires Inv(s) && q < |s.procs| && s.procs[q].pc == Done(Returned(b)) && NothingStray(s, s.procs[q].slot)
    ensures Replays(s, p, s.procs[q].slot, s.procs[q].hash, b)
  {
    hide Inv, Replays, Answered;
    SuccessIsStored(s, q, b);
    var id :| id in s.rows && Answered(s.rows[id], s.procs[q].slot, s.procs[q].hash, b);
    StoredReplays(s, p, id, s.procs[q].slot, s.procs[q].hash, b);
  }

  /** With timely owners and readers a success is final: in every state after it, every other call on
      the key is answered from it. */
  lemma {:induction false} TimelyReplays(s: State, actions: seq<Action>, limit: nat, d: nat, p: Pid, q: Pid, b: Json)
    requires Init(s) && TimelyRun(s, actions, limit, d) && limit + d <= PENDING_RECLAIM
    requires q < |Run(s, actions).procs| && Run(s, actions).procs[q].pc == Done(Returned(b))
    ensures var t := Run(s, actions); Replays(t, p, t.procs[q].slot, t.procs[q].hash, b)
  {
    hide Run, TimelyRun, Init, Inv, Replays, TimelyProc;
    RunKeeps(s, actions);
    TimelyRunKeeps(s, actions, limit, d);
    SuccessReplays(Run(s, actions), p, q, b);
  }

  /** The same without any timing, when reclaims only remove the rows of owners that ended without
      committing. */
  lemma {:induction false} CleanReplays(s: State, actions: seq<Action>, p: Pid, q: Pid, b: Json)
    requires Init(s) && CleanRun(s, actions)
    requires q < |Run(s, actions).procs| && Run(s, actions).procs[q].pc == Done(Returned(b))
    ensures var t := Run(s, actions); Replays(t, p, t.procs[q].slot, t.procs[q].hash, b)
  {
    hide Run, CleanRun, Init, Inv, Replays;
    RunKeeps(s, actions);
    CleanRunKeeps(s, actions);
    SuccessReplays(Run(s, actions), p, q, b);
  }

  // ------------------------------------------------------------ a failure frees the key

  /** After the cleanup of a failed call its row is gone; if nobody had taken it before, the key is
      free, and the next call on it gets to run `work`. */
  lemma {:induction false} FailureFreesKey(s: State, actions: seq<Action>, p: Pid, q: Pid, createdAt: int)
    requires Init(s) && p < |Run(s, actions).procs| && Run(s, actions).procs[p].pc.Failed?
    requires q < |Run(s, actions).procs| && createdAt <= Run(s, actions).now
    ensures var t := Run(s, actions);
            var id, u := t.procs[p].pc.id, Step(t, Cleanup(p));
            && id !in u.rows && |u.procs| == |t.procs| && u.procs[p].pc == Done(WorkFailed)
            && (id in t.rows ==> !Taken(u.rows, t.procs[p].slot))
            && (id in t.rows && q != p && t.procs[q].slot == t.procs[p].slot && t.procs[q].pc.Start? ==>
                  var v := Step(u, Reserve(q, createdAt));
                  && |v.procs| == |t.procs| && v.procs[q].pc == Holding(u.nextId)
                  && u.nextId in v.rows
                  && v.rows[u.nextId] == Row(t.procs[q].slot, t.procs[q].hash, Pending, None, createdAt))
  {
    hide Run, Init, Balanced;
    RunKeeps(s, actions);
    var t := Run(s, actions);
    assert ProcOk(t, t.procs[p]);
  }

  // ------------------------------------------------------------ what a call was told is final

  lemma EndedIsDisabled(s: State, a: Action, p: Pid)
    requires p < |s.procs| && (s.procs[p].pc.Done? || s.procs[p].pc.Crashed?) && !a.Tick? && a.pid == p
    ensures |Step(s, a).procs| == |s.procs| && Step(s, a).procs[p] == s.procs[p]
  {
    hide Taken, Find;
    if a.Crash? && s.procs[p].pc.Crashed? {
      assert Step(s, a) == Goto(s, p, Crashed);
    } else {
      assert Step(s, a) == s;
    }
  }

  lemma EndedStays(s: State, a: Action, p: Pid)
    requires p < |s.procs| && (s.procs[p].pc.Done? || s.procs[p].pc.Crashed?)
    ensures |Step(s, a).procs| == |s.procs| && Step(s, a).procs[p] == s.procs[p]
  {
    hide *;
    if !a.Tick? && a.pid == p {
      EndedIsDisabled(s, a, p);
    } else {
      OtherKeeps(s, a, p);
    }
  }

  /** A call that has ended, or whose process has died, does nothing any more, whatever happens. */
  lemma {:induction false} EndedForever(s: State, actions: seq<Action>, p: Pid)
    requires p < |s.procs| && (s.procs[p].pc.Done? || s.procs[p].pc.Crashed?)
    ensures |Run(s, actions).procs| == |s.procs| && Run(s, actions).procs[p] == s.procs[p]
  {
    hide Step;
    if actions != [] {
      var n := |actions| - 1;
      EndedForever(s, actions[..n], p);
      EndedStays(Run(s, actions[..n]), actions[n], p);
    }
  }
}
