/** The relay as the code runs it: `relay_once` over rows updated in place, with whatever other
    sessions do at each of its await points, and the busy branch of `relay_loop`. */
module OutboxService {
  import opened Outbox
  import opened Wrappers

  /** Moves of the clock, of committing requests, of other relays and of the purge. */
  predicate Others(env: seq<Action>, r: nat) {
    forall i :: 0 <= i < |env| ==> OtherAction(env[i], r)
  }

  predicate OtherAction(a: Action, r: nat) {
    match a
    case Lock(q, _, _, _) => q != r
    case Send(q, _) => q != r
    case CommitBatch(q) => q != r
    case AbortBatch(q) => q != r
    case _ => true
  }

  predicate TicksBy(trace: seq<Action>, horizon: int) {
    forall i :: 0 <= i < |trace| ==> trace[i].Tick? ==> trace[i].to <= horizon
  }

  predicate AllSmooth(trace: seq<Action>) {
    forall i :: 0 <= i < |trace| ==> Smooth(trace[i])
  }

  predicate NoNews(trace: seq<Action>) {
    forall i :: 0 <= i < |trace| ==> !trace[i].Enqueue?
  }

  predicate AllDelivered(results: seq<SendResult>) {
    forall i :: 0 <= i < |results| ==> results[i].Delivered?
  }

  /** A move of relay `r` itself, with one of these send results (Delivered when they run out). */
  predicate OwnMove(a: Action, r: nat, results: seq<SendResult>) {
    match a
    case Lock(q, _, _, _) => q == r
    case Send(q, result) => q == r && (result.Delivered? || result in results)
    case CommitBatch(q) => q == r
    case _ => false
  }

  ghost predicate InSome(a: Action, env: seq<seq<Action>>) {
    exists j :: 0 <= j < |env| && a in env[j]
  }

  /** The trace consists of relay r's own moves and of moves of the others. */
  ghost predicate Within(trace: seq<Action>, env: seq<seq<Action>>, results: seq<SendResult>, r: nat) {
    forall i :: 0 <= i < |trace| ==> OwnMove(trace[i], r, results) || InSome(trace[i], env)
  }

  lemma WithinConcat(a: seq<Action>, b: seq<Action>, env: seq<seq<Action>>, results: seq<SendResult>, r: nat)
    requires Within(a, env, results, r) && Within(b, env, results, r)
    ensures Within(a + b, env, results, r)
  {
  }

  lemma WithinEnv(env: seq<seq<Action>>, i: nat, results: seq<SendResult>, r: nat)
    ensures Within(At(env, i, []), env, results, r)
  {
    var others := At(env, i, []);
    forall k | 0 <= k < |others| ensures InSome(others[k], env) {
      assert others[k] in env[i];
    }
  }

  lemma WithinOwn(a: Action, env: seq<seq<Action>>, results: seq<SendResult>, r: nat)
    requires OwnMove(a, r, results)
    ensures Within([a], env, results, r)
  {
  }

  /** What holds of every move of the others, and of the relay's own, holds of the whole trace. */
  lemma WithinMeans(trace: seq<Action>, env: seq<seq<Action>>, results: seq<SendResult>, r: nat, horizon: int)
    requires Within(trace, env, results, r)
    ensures (forall j :: 0 <= j < |env| ==> TicksBy(env[j], horizon)) ==> TicksBy(trace, horizon)
    ensures (forall j :: 0 <= j < |env| ==> NoNews(env[j])) ==> NoNews(trace)
    ensures (forall j :: 0 <= j < |env| ==> AllSmooth(env[j])) && AllDelivered(results) ==> AllSmooth(trace)
  {
    forall i | 0 <= i < |trace|
      ensures OwnMove(trace[i], r, results)
              || exists j, k :: 0 <= j < |env| && 0 <= k < |env[j]| && env[j][k] == trace[i]
    {
      if InSome(trace[i], env) {
        var j :| 0 <= j < |env| && trace[i] in env[j];
        var k :| 0 <= k < |env[j]| && env[j][k] == trace[i];
      }
    }
  }

  lemma {:induction false} NoNewsNoArrivals(trace: seq<Action>)
    requires NoNews(trace)
    ensures Arrivals(trace) == 0
  {
    if trace != [] {
      NoNewsNoArrivals(trace[..|trace| - 1]);
    }
  }

  /** While the clock stays within the horizon, the rows due by then grow by arrivals only. */
  lemma {:induction false} RunWaits(s: State, trace: seq<Action>, horizon: int)
    requires Inv(s) && HeldDue(s) && s.now <= horizon && TicksBy(trace, horizon)
    ensures var t := Run(s, trace);
            && Inv(t) && HeldDue(t) && s.now <= t.now <= horizon
            && |Waiting(t.rows, horizon)| <= |Waiting(s.rows, horizon)| + Arrivals(trace)
  {
    hide Inv, HeldDue, Step;
    if trace != [] {
      var n := |trace| - 1;
      RunWaits(s, trace[..n], horizon);
      var t := Run(s, trace[..n]);
      StepKeeps(t, trace[n]);
      HeldDueStep(t, trace[n]);
      WaitingStep(t, trace[n], horizon);
      StepTime(t, trace[n]);
    }
  }

  lemma StepTime(s: State, a: Action)
    ensures Step(s, a).now == if a.Tick? && a.to > s.now then a.to else s.now
  {
  }

  lemma {:induction false} RunClears(s: State, trace: seq<Action>, bound: int)
    requires Inv(s) && Clear(s, bound) && AllSmooth(trace)
    ensures Inv(Run(s, trace)) && Clear(Run(s, trace), bound)
  {
    hide Inv, Step, Clear;
    if trace != [] {
      var n := |trace| - 1;
      RunClears(s, trace[..n], bound);
      InvParts(Run(s, trace[..n]));
      StepKeeps(Run(s, trace[..n]), trace[n]);
      ClearStep(Run(s, trace[..n]), trace[n], bound);
    }
  }

  lemma InvParts(s: State)
    requires Inv(s)
    ensures RelaysOk(s) && RowsOk(s)
  {
  }

  /** When no row due at `at` can be taken and every retry is due by then, every row is published or
      held by a relay. */
  lemma NothingLeft(s: State, bound: int, at: int)
    requires Clear(s, bound) && bound <= at && forall id :: id in s.rows ==> !Available(s, id, at)
    ensures forall id :: id in s.rows ==> s.rows[id].publishedAt.Some? || Locked(s.relays, id)
  {
    forall id | id in s.rows ensures s.rows[id].publishedAt.Some? || Locked(s.relays, id) {
      assert RowBy(s.rows[id], bound);
    }
  }

  function At<T>(xs: seq<T>, i: nat, default: T): T {
    if i < |xs| then xs[i] else default
  }

  lemma RunSnoc(s: State, actions: seq<Action>, a: Action)
    ensures Run(s, actions + [a]) == Step(Run(s, actions), a)
  {
    assert (actions + [a])[..|actions|] == actions;
  }

  lemma {:induction false} RunConcat(s: State, a: seq<Action>, b: seq<Action>)
    ensures Run(s, a + b) == Run(Run(s, a), b)
  {
    hide Step;
    if b == [] {
      assert a + b == a;
    } else {
      var n := |b| - 1;
      RunConcat(s, a, b[..n]);
      assert (a + b)[..|a + b| - 1] == a + b[..n];
    }
  }

  lemma OtherStepKeepsRelay(s: State, a: Action, r: nat)
    requires r < |s.relays| && OtherAction(a, r)
    ensures |Step(s, a).relays| == |s.relays| && Step(s, a).relays[r] == s.relays[r]
    ensures Step(s, a).now >= s.now
  {
  }

  lemma {:induction false} OtherRunKeepsRelay(s: State, env: seq<Action>, r: nat)
    requires r < |s.relays| && Others(env, r)
    ensures |Run(s, env).relays| == |s.relays| && Run(s, env).relays[r] == s.relays[r]
    ensures Run(s, env).now >= s.now
  {
    hide Step, OtherAction;
    if env != [] {
      var n := |env| - 1;
      OtherRunKeepsRelay(s, env[..n], r);
      OtherStepKeepsRelay(Run(s, env[..n]), env[n], r);
    }
  }

  /** The outbox table, the broker and the relays that share them. */
  class Relays {
    var now: int
    var rows: map<EventId, Row>
    var broker: seq<Event>
    var relays: seq<Relay>
    var issued: seq<Event>
    var published: set<EventId>
    var failures: multiset<EventId>
    var reached: multiset<EventId>
    var aborted: multiset<EventId>

    function View(): State
      reads this
    {
      State(now, rows, broker, relays, issued, published, failures, reached, aborted)
    }

    ghost predicate Valid()
      reads this
    {
      Inv(View()) && HeldDue(View())
    }

    constructor (workers: nat)
      ensures Valid() && Init(View()) && |relays| == workers
    {
      now, rows, broker := 0, map[], [];
      relays := seq(workers, i => Idle);
      issued, published := [], {};
      failures, reached, aborted := multiset{}, multiset{}, multiset{};
      new;
      InitInv(View());
    }

    /** The SELECT: repeatedly the oldest row that was due at `at` and is not locked. */
    method SelectBatch(limit: nat, at: int) returns (ids: seq<EventId>)
      requires Valid()
      ensures IsBatch(View(), ids, limit, at)
      ensures forall i, j :: 0 <= i < j < |ids| ==> rows[ids[i]].createdAt <= rows[ids[j]].createdAt
      ensures forall id :: id in rows && Available(View(), id, at) && id !in ids ==>
                |ids| == limit && forall i :: 0 <= i < |ids| ==> rows[ids[i]].createdAt <= rows[id].createdAt
    {
      hide Inv;
      var candidates := set id | id in rows && Eligible(rows[id], at) && !Locked(relays, id);
      ids := [];
      while |ids| < limit && candidates != {}
        invariant |ids| <= limit && Distinct(ids)
        invariant forall i :: 0 <= i < |ids| ==> Available(View(), ids[i], at) && ids[i] !in candidates
        invariant forall id :: id in candidates <==> id in rows && Available(View(), id, at) && id !in ids
        invariant forall i, j :: 0 <= i < j < |ids| ==> rows[ids[i]].createdAt <= rows[ids[j]].createdAt
        invariant forall i, id :: 0 <= i < |ids| && id in candidates ==> rows[ids[i]].createdAt <= rows[id].createdAt
        decreases candidates
      {
        OldestExists(rows, candidates);
        var next :| next in candidates && forall id :: id in candidates ==> rows[next].createdAt <= rows[id].createdAt;
        ids := ids + [next];
        candidates := candidates - {next};
      }
    }

    /** `lock_unpublished_batch` from its SELECT on; the clock was read at `at`. */
    method LockBatch(r: nat, limit: nat, at: int) returns (ids: seq<EventId>)
      requires Valid() && r < |relays| && relays[r].Idle? && at <= now
      modifies this
      ensures Valid() && View() == Step(old(View()), Lock(r, ids, limit, at))
      ensures |relays| == old(|relays|) && relays[r] == Batch(ids, []) && rows == old(rows) && now == old(now)
      ensures IsBatch(old(View()), ids, limit, at)
    {
      ids := SelectBatch(limit, at);
      LockKeeps(View(), r, ids, limit, at);
      HeldDueStep(View(), Lock(r, ids, limit, at));
      relays := relays[r := Batch(ids, [])];
    }

    /** `send_and_wait` on the next row, then `mark_published` or `mark_failed`. */
    method SendNext(r: nat, result: SendResult) returns (mark: Mark)
      requires Valid() && r < |relays| && relays[r].Batch? && |relays[r].marks| < |relays[r].ids|
      modifies this
      ensures Valid() && View() == Step(old(View()), Send(r, result))
      ensures rows == old(rows) && now == old(now)
      ensures relays == old(relays)[r := old(relays[r]).(marks := old(relays[r].marks) + [mark])]
      ensures var row := rows[relays[r].ids[|old(relays[r].marks)|]];
              && broker == old(broker) + (if result.Delivered? || result.reached then [row.event] else [])
              && mark == if result.Delivered? then Sent(now)
                         else Failed(row.attempts + 1, now + Backoff(row.attempts + 1) * SECOND)
      ensures mark.Failed? ==> now + 4 * SECOND <= mark.retryAt <= now + MAX_BACKOFF_SECONDS * SECOND
    {
      hide Inv, HeldDue, Step, RelayOk, Backoff;
      SendKeeps(View(), r, result);
      HeldDueSend(View(), r, result);
      HeldRows(View(), r);
      SendIs(View(), r, result);
      var relay := relays[r];
      var id := relay.ids[|relay.marks|];
      var row := rows[id];
      BackoffBounds(row.attempts + 1);
      match result
      case Delivered =>
        broker := broker + [row.event];
        mark := Sent(now);
        relays := relays[r := relay.(marks := relay.marks + [mark])];
      case Raised(arrived) =>
        broker := if arrived then broker + [row.event] else broker;
        reached := if arrived then reached + multiset{id} else reached;
        failures := failures + multiset{id};
        mark := Failed(row.attempts + 1, now + Backoff(row.attempts + 1) * SECOND);
        relays := relays[r := relay.(marks := relay.marks + [mark])];
    }

    method CommitMarks(r: nat)
      requires Valid() && r < |relays| && relays[r].Batch? && |relays[r].marks| == |relays[r].ids|
      modifies this
      ensures Valid() && View() == Step(old(View()), CommitBatch(r))
      ensures |relays| == old(|relays|) && relays[r].Idle? && now == old(now)
      ensures rows == ApplyMarks(old(rows), old(relays[r].ids), old(relays[r].marks))
      ensures Recorded(old(rows), rows, old(relays[r].ids), old(relays[r].marks))
    {
      HeldRows(View(), r);
      CommitRecords(rows, relays[r].ids, relays[r].marks);
      hide Recorded;
      CommitKeeps(View(), r);
      HeldDueCommit(View(), r);
      var relay := relays[r];
      rows := ApplyMarks(rows, relay.ids, relay.marks);
      published := published + SentIds(relay.ids, relay.marks);
      relays := relays[r := Idle];
    }

    /** `purge_once`: the published rows older than the retention go, and no other row.  The cutoff is
        taken before the DELETE; others move in between. */
    method PurgeOnce(retention: int, env: seq<Action>) returns (deleted: nat)
      requires Valid()
      modifies this
      ensures Valid() && View() == Step(Run(old(View()), env), Purge(old(now) - retention))
      ensures deleted == |Run(old(View()), env).rows| - |rows|
      ensures var before := Run(old(View()), env).rows;
              && rows.Keys <= before.Keys
              && forall id :: id in before ==>
                   && (id in rows <==> before[id].publishedAt.None?
                                       || before[id].publishedAt.value >= old(now) - retention)
                   && (id in rows ==> rows[id] == before[id])
      ensures forall id :: id in Run(old(View()), env).rows && id !in rows ==> id in published
    {
      hide Inv, HeldDue, Step, StepPurge, Run;
      var cutoff := now - retention;
      Happen(env);
      ghost var before := View();
      HeldDueStep(before, Purge(cutoff));
      PurgeIs(before, cutoff);
      var expired := Expired(rows, cutoff);
      deleted := |expired|;
      rows := rows - expired;
    }

    /** One action of another session. */
    method Act(a: Action)
      requires Valid()
      modifies this
      ensures Valid() && View() == Step(old(View()), a)
    {
      StepKeeps(View(), a);
      HeldDueStep(View(), a);
      var next := Step(View(), a);
      now, rows, broker, relays := next.now, next.rows, next.broker, next.relays;
      issued, published := next.issued, next.published;
      failures, reached, aborted := next.failures, next.reached, next.aborted;
    }

    /** What other sessions do at an await point. */
    method Happen(env: seq<Action>)
      requires Valid()
      modifies this
      ensures Valid() && View() == Run(old(View()), env)
    {
      hide Inv, HeldDue, Step, Run;
      ghost var start := View();
      RunEmpty(start);
      assert env[..0] == [];
      for i := 0 to |env|
        invariant Valid() && View() == Run(start, env[..i])
      {
        RunSnoc(start, env[..i], env[i]);
        assert env[..i + 1] == env[..i] + [env[i]];
        Act(env[i]);
      }
      assert env[..|env|] == env;
    }

    /** The same while relay `r` waits; the rows it holds stay as they are. */
    method Interfere(env: seq<Action>, r: nat)
      requires Valid() && r < |relays| && Others(env, r)
      modifies this
      ensures Valid() && View() == Run(old(View()), env)
      ensures |relays| == old(|relays|) && relays[r] == old(relays[r]) && now >= old(now)
    {
      hide Inv, HeldDue, Run;
      OtherRunKeepsRelay(View(), env, r);
      Happen(env);
    }

    /** The loop over the locked rows. */
    method SendAll(r: nat, results: seq<SendResult>, env: seq<seq<Action>>) returns (ghost trace: seq<Action>)
      requires Valid() && r < |relays| && relays[r].Batch? && relays[r].marks == []
      requires forall i :: 0 <= i < |env| ==> Others(env[i], r)
      modifies this
      ensures Valid() && View() == Run(old(View()), trace) && Within(trace, env, results, r)
      ensures |relays| == old(|relays|) && now >= old(now)
      ensures relays[r].Batch? && relays[r].ids == old(relays[r].ids) && |relays[r].marks| == |relays[r].ids|
      ensures forall k :: 0 <= k < |relays[r].marks| ==>
                && MarkOk(relays[r].marks[k], old(now), AllDelivered(results))
                && (relays[r].marks[k].Sent? <==> At(results, k, Delivered).Delivered?)
    {
      hide Inv, HeldDue, Step, Run, RelayOk, Within, Others, AllDelivered;
      ghost var start := View();
      RunEmpty(start);
      NothingWithin(env, results, r);
      trace := [];
      var ids := relays[r].ids;
      for i := 0 to |ids|
        invariant Valid() && View() == Run(start, trace) && Within(trace, env, results, r)
        invariant |relays| == |start.relays| && relays[r].Batch? && relays[r].ids == ids && |relays[r].marks| == i
        invariant now >= start.now
        invariant forall k :: 0 <= k < i ==>
                    && MarkOk(relays[r].marks[k], start.now, AllDelivered(results))
                    && (relays[r].marks[k].Sent? <==> At(results, k, Delivered).Delivered?)
      {
        var others, result := At(env, i, []), At(results, i, Delivered);
        OthersAt(env, i, r);
        Interfere(others, r);
        RunConcat(start, trace, others);
        WithinEnv(env, i, results, r);
        WithinConcat(trace, others, env, results, r);
        trace := trace + others;
        var mark := SendNext(r, result);
        RunSnoc(start, trace, Send(r, result));
        ResultAt(results, i);
        WithinOwn(Send(r, result), env, results, r);
        WithinConcat(trace, [Send(r, result)], env, results, r);
        trace := trace + [Send(r, result)];
      }
      var last := At(env, |ids|, []);
      OthersAt(env, |ids|, r);
      Interfere(last, r);
      RunConcat(start, trace, last);
      WithinEnv(env, |ids|, results, r);
      WithinConcat(trace, last, env, results, r);
      trace := trace + last;
    }

    /** `relay_once`.  Whatever the other sessions do, from the reading of the clock on, the call is a
        run of the outbox machine.  If the clock moves by less than the smallest backoff, or no send
        fails, then the rows due by the horizon shrink by the batch: other relays and the purge can
        only shrink them further, and rows inserted meanwhile are counted apart. */
    method RelayOnce(r: nat, limit: nat, results: seq<SendResult>, env: seq<seq<Action>>, ghost horizon: int)
      returns (count: nat, ghost trace: seq<Action>, ghost ids: seq<EventId>)
      requires Valid() && r < |relays| && relays[r].Idle?
      requires forall i :: 0 <= i < |env| ==> Others(env[i], r)
      modifies this
      ensures Valid() && View() == Run(old(View()), trace) && Within(trace, env, results, r)
      ensures |relays| == old(|relays|) && relays[r].Idle? && count <= limit && now >= old(now)
      ensures count == |ids| && IsBatch(Run(old(View()), At(env, 0, [])), ids, limit, old(now))
      ensures forall k :: 0 <= k < |ids| ==> ids[k] in rows && Tried(rows[ids[k]], At(results, k, Delivered), old(now))
      ensures count == 0 ==> View() == Run(old(View()), At(env, 0, []))
      ensures count == 0 && limit > 0 ==> forall id :: id in rows ==> !Available(View(), id, old(now))
      ensures TicksBy(trace, horizon) && old(now) <= horizon
              && (horizon < old(now) + 4 * SECOND || AllDelivered(results)) ==>
                && now <= horizon
                && |Waiting(rows, horizon)| + count <= |Waiting(old(rows), horizon)| + Arrivals(trace)
    {
      hide Inv, HeldDue, Step, Run, RelayOk, Within, AllDelivered, Arrivals, Others, IsBatch;
      ghost var start := View();
      var at := now;
      OthersAt(env, 0, r);
      Interfere(At(env, 0, []), r);
      WithinEnv(env, 0, results, r);
      trace := At(env, 0, []);
      ghost var found := View();
      var batch := LockBatch(r, limit, at);
      ids := batch;
      RunSnoc(start, trace, Lock(r, batch, limit, at));
      WithinOwn(Lock(r, batch, limit, at), env, results, r);
      WithinConcat(trace, [Lock(r, batch, limit, at)], env, results, r);
      trace := trace + [Lock(r, batch, limit, at)];
      count := |batch|;
      if count > 0 {
        var rest := Rest(env);
        ghost var sends := SendAll(r, results, rest);
        RunConcat(start, trace, sends);
        WithinRest(sends, env, results, r);
        WithinConcat(trace, sends, env, results, r);
        trace := trace + sends;
      }
      ghost var full, before := trace, View();
      HeldRows(before, r);
      CommitMarks(r);
      forall k | 0 <= k < |ids| ensures ids[k] in rows && Tried(rows[ids[k]], At(results, k, Delivered), start.now) {
        assert ids[k] in before.rows && before.rows[ids[k]].publishedAt.None?;
      }
      RunSnoc(start, trace, CommitBatch(r));
      WithinOwn(CommitBatch(r), env, results, r);
      WithinConcat(trace, [CommitBatch(r)], env, results, r);
      trace := trace + [CommitBatch(r)];
      if TicksBy(trace, horizon) && start.now <= horizon
         && (horizon < start.now + 4 * SECOND || AllDelivered(results)) {
        TicksPrefix(full, CommitBatch(r), horizon);
        BatchLeaves(start, full, r, horizon, AllDelivered(results));
      }
      if count == 0 {
        EmptyBatch(found, r, ids, limit, at);
      }
    }

    /** The branch of `relay_loop` that does not sleep: batch after batch until one is empty.  Any
        other relays, the purge and the clock may move; it ends as long as the clock moves by less
        than the smallest backoff, whatever sends fail, or for as long as it likes when none does.
        Then every row that was due when the clock was last read is held by another relay; and when
        the sends of all relays succeed and no retry was ahead, nothing is left but published rows
        and rows another relay holds. */
    method RelayBurst(r: nat, limit: nat, results: seq<seq<SendResult>>, env: seq<seq<seq<Action>>>, ghost horizon: int)
      returns (ghost trace: seq<Action>, checked: int)
      requires Valid() && r < |relays| && relays[r].Idle? && limit > 0
      requires forall c, i :: 0 <= c < |env| && 0 <= i < |env[c]| ==>
                 Others(env[c][i], r) && NoNews(env[c][i]) && TicksBy(env[c][i], horizon)
      requires now <= horizon
      requires horizon < now + 4 * SECOND || forall c :: 0 <= c < |results| ==> AllDelivered(results[c])
      modifies this
      ensures Valid() && View() == Run(old(View()), trace) && NoNews(trace)
      ensures |relays| == old(|relays|) && relays[r].Idle? && old(now) <= checked <= now <= horizon
      ensures forall id :: id in rows && Eligible(rows[id], checked) ==> Locked(relays, id)
      ensures && Clear(old(View()), old(now)) && (forall c :: 0 <= c < |results| ==> AllDelivered(results[c]))
              && (forall c, i :: 0 <= c < |env| && 0 <= i < |env[c]| ==> AllSmooth(env[c][i])) ==>
                forall id :: id in rows ==> rows[id].publishedAt.Some? || Locked(relays, id)
    {
      hide Inv, HeldDue, Step, Run, Within, Others, NoNews, TicksBy, AllSmooth, AllDelivered, Clear, Arrivals;
      ghost var start := View();
      RunEmpty(start);
      NoNewsEmpty(horizon);
      ghost var smooth := && (forall c :: 0 <= c < |results| ==> AllDelivered(results[c]))
                          && (forall c, i :: 0 <= c < |env| && 0 <= i < |env[c]| ==> AllSmooth(env[c][i]));
      trace, checked := [], now;
      var cycle, published := 0, 1;
      while published != 0
        invariant Valid() && |relays| == |start.relays| && relays[r].Idle?
        invariant View() == Run(start, trace) && NoNews(trace) && TicksBy(trace, horizon)
        invariant smooth ==> AllSmooth(trace)
        invariant start.now <= checked <= now <= horizon
        invariant published == 0 ==> forall id :: id in rows ==> !Available(View(), id, checked)
        decreases |Waiting(rows, horizon)| + published
      {
        ghost var was := View();
        var others, sends := At(env, cycle, []), At(results, cycle, []);
        DeliveredAt(results, cycle);
        checked := now;
        ghost var more;
        ghost var batch;
        published, more, batch := RelayOnce(r, limit, sends, others, horizon);
        WithinMeans(more, others, sends, r, horizon);
        NoNewsNoArrivals(more);
        RunConcat(start, trace, more);
        JoinTraces(trace, more, horizon);
        RunWaits(was, more, horizon);
        trace := trace + more;
        cycle := cycle + 1;
      }
      if Clear(start, start.now) && smooth {
        RunClears(start, trace, start.now);
        NothingLeft(View(), start.now, checked);
      }
    }
  }

  /** A failed send is retried no earlier than the smallest backoff after `start`. */
  predicate MarkOk(mark: Mark, start: int, delivered: bool) {
    mark.Failed? ==> !delivered && mark.retryAt >= start + 4 * SECOND
  }

  /** A row after its send was committed: published exactly when the send went through, and otherwise to
      be retried no earlier than the smallest backoff. */
  predicate Tried(row: Row, result: SendResult, start: int) {
    && (row.publishedAt.Some? <==> result.Delivered?)
    && (!result.Delivered? ==> row.nextAttemptAt.Some? && row.nextAttemptAt.value >= start + 4 * SECOND)
  }

  lemma NothingWithin(env: seq<seq<Action>>, results: seq<SendResult>, r: nat)
    ensures Within([], env, results, r)
  {
  }

  /** What is left of the moves once the first of them have happened. */
  function Rest(env: seq<seq<Action>>): seq<seq<Action>> {
    if env == [] then [] else env[1..]
  }

  lemma WithinRest(trace: seq<Action>, env: seq<seq<Action>>, results: seq<SendResult>, r: nat)
    requires Within(trace, Rest(env), results, r)
    ensures Within(trace, env, results, r)
  {
    forall i | 0 <= i < |trace| && InSome(trace[i], Rest(env)) ensures InSome(trace[i], env) {
      var j :| 0 <= j < |Rest(env)| && trace[i] in Rest(env)[j];
      assert trace[i] in env[j + 1];
    }
  }

  lemma OthersAt(env: seq<seq<Action>>, i: nat, r: nat)
    requires forall j :: 0 <= j < |env| ==> Others(env[j], r)
    ensures Others(At(env, i, []), r)
  {
  }

  lemma ResultAt(results: seq<SendResult>, i: nat)
    ensures At(results, i, Delivered).Delivered? || At(results, i, Delivered) in results
    ensures AllDelivered(results) ==> At(results, i, Delivered).Delivered?
  {
  }

  lemma DeliveredAt(results: seq<seq<SendResult>>, c: nat)
    ensures (forall d :: 0 <= d < |results| ==> AllDelivered(results[d])) ==> AllDelivered(At(results, c, []))
  {
  }

  lemma NoNewsEmpty(horizon: int)
    ensures NoNews([]) && TicksBy([], horizon) && AllSmooth([])
  {
  }

  lemma JoinTraces(a: seq<Action>, b: seq<Action>, horizon: int)
    ensures NoNews(a) && NoNews(b) ==> NoNews(a + b)
    ensures TicksBy(a, horizon) && TicksBy(b, horizon) ==> TicksBy(a + b, horizon)
    ensures AllSmooth(a) && AllSmooth(b) ==> AllSmooth(a + b)
  {
  }

  lemma TicksPrefix(trace: seq<Action>, a: Action, horizon: int)
    requires TicksBy(trace + [a], horizon) && !a.Tick? && !a.Enqueue?
    ensures TicksBy(trace, horizon)
    ensures Arrivals(trace + [a]) == Arrivals(trace)
  {
    assert (trace + [a])[..|trace|] == trace;
    forall i | 0 <= i < |trace| ensures trace[i].Tick? ==> trace[i].to <= horizon {
      assert (trace + [a])[i] == trace[i];
    }
  }

  /** Committing a batch takes its rows out of those due by the horizon. */
  lemma BatchLeaves(start: State, trace: seq<Action>, r: nat, horizon: int, delivered: bool)
    requires Inv(start) && HeldDue(start) && start.now <= horizon && TicksBy(trace, horizon)
    requires delivered || horizon < start.now + 4 * SECOND
    requires var s := Run(start, trace);
             && r < |s.relays| && s.relays[r].Batch? && |s.relays[r].marks| == |s.relays[r].ids|
             && forall k :: 0 <= k < |s.relays[r].marks| ==> MarkOk(s.relays[r].marks[k], start.now, delivered)
    ensures var s := Run(start, trace);
            && s.now <= horizon
            && |Waiting(ApplyMarks(s.rows, s.relays[r].ids, s.relays[r].marks), horizon)| + |s.relays[r].ids|
               <= |Waiting(start.rows, horizon)| + Arrivals(trace)
  {
    hide Inv, HeldDue, Run, TicksBy, Arrivals;
    RunWaits(start, trace, horizon);
    var s := Run(start, trace);
    var relay := s.relays[r];
    HeldRows(s, r);
    HeldAreWaiting(s, r, horizon);
    CommitDrains(s.rows, relay.ids, relay.marks, horizon);
    DistinctSize(relay.ids);
    SubsetSize(Waiting(s.rows, horizon), IdSet(relay.ids));
  }

  lemma HeldAreWaiting(s: State, r: nat, horizon: int)
    requires HeldDue(s) && s.now <= horizon && r < |s.relays| && s.relays[r].Batch?
    ensures IdSet(s.relays[r].ids) <= Waiting(s.rows, horizon)
  {
    assert HoldsDue(s.rows, s.now, s.relays[r]);
  }

  /** An empty batch leaves everything as it was. */
  lemma EmptyBatch(s: State, r: nat, ids: seq<EventId>, limit: nat, at: int)
    requires r < |s.relays| && s.relays[r].Idle? && IsBatch(s, ids, limit, at) && |ids| == 0
    ensures Step(Step(s, Lock(r, ids, limit, at)), CommitBatch(r)) == s
    ensures limit > 0 ==> forall id :: id in s.rows ==> !Available(s, id, at)
  {
    var t := Step(Step(s, Lock(r, ids, limit, at)), CommitBatch(r));
    assert SentIds(ids, []) == {};
    assert t.relays == s.relays;
  }

  function Expired(rows: map<EventId, Row>, olderThan: int): set<EventId> {
    set id | id in rows && rows[id].publishedAt.Some? && rows[id].publishedAt.value < olderThan
  }

  lemma {:induction false} PurgeIs(s: State, olderThan: int)
    requires Inv(s)
    ensures var gone := Expired(s.rows, olderThan);
            && Step(s, Purge(olderThan)) == s.(rows := s.rows - gone) && Inv(Step(s, Purge(olderThan)))
            && |s.rows - gone| == |s.rows| - |gone|
            && forall id :: id in gone ==> id in s.published
  {
    hide Inv, StepPurge, Expired;
    PurgeKeeps(s, olderThan);
    PurgedWerePublished(s, olderThan);
    PurgedRows(s, olderThan);
    assert Step(s, Purge(olderThan)) == StepPurge(s, olderThan);
    RemoveSize(s.rows, Expired(s.rows, olderThan));
  }

  lemma PurgedRows(s: State, olderThan: int)
    ensures Expired(s.rows, olderThan) <= s.rows.Keys
    ensures StepPurge(s, olderThan) == s.(rows := s.rows - Expired(s.rows, olderThan))
  {
    assert StepPurge(s, olderThan).rows == s.rows - Expired(s.rows, olderThan);
  }

  lemma PurgedWerePublished(s: State, olderThan: int)
    requires Inv(s)
    ensures forall id :: id in Expired(s.rows, olderThan) ==> id in s.published
  {
  }

  lemma RemoveSize(rows: map<EventId, Row>, gone: set<EventId>)
    requires gone <= rows.Keys
    ensures |rows - gone| == |rows| - |gone|
  {
    assert (rows - gone).Keys == rows.Keys - gone;
    assert |rows - gone| == |(rows - gone).Keys| && |rows| == |rows.Keys|;
    SubsetSize(rows.Keys, gone);
  }

  lemma SubsetSize(all: set<EventId>, part: set<EventId>)
    requires part <= all
    ensures |all - part| == |all| - |part|
  {
    assert all == part + (all - part);
  }

  lemma SendIs(s: State, r: nat, result: SendResult)
    requires r < |s.relays|
    ensures Step(s, Send(r, result)) == StepSend(s, r, result)
  {
    hide StepSend;
  }

  lemma HeldRows(s: State, r: nat)
    requires Inv(s) && r < |s.relays|
    ensures s.relays[r].Batch? ==>
              && |s.relays[r].marks| <= |s.relays[r].ids| && Distinct(s.relays[r].ids)
              && forall id :: id in s.relays[r].ids ==> id in s.rows && s.rows[id].publishedAt.None?
  {
    assert RelayOk(s.rows, s.relays[r]);
  }

  lemma {:induction false} DistinctSize(ids: seq<EventId>)
    requires Distinct(ids)
    ensures |IdSet(ids)| == |ids|
  {
    if ids == [] {
      assert IdSet(ids) == {};
    } else {
      var n := |ids| - 1;
      DistinctSize(ids[..n]);
      assert IdSet(ids) == IdSet(ids[..n]) + {ids[n]};
    }
  }

  lemma RunEmpty(s: State)
    ensures Run(s, []) == s
  {
  }

  lemma {:induction false} OldestExists(rows: map<EventId, Row>, candidates: set<EventId>)
    requires candidates != {} && forall id :: id in candidates ==> id in rows
    ensures exists next ::
              next in candidates && forall id :: id in candidates ==> rows[next].createdAt <= rows[id].createdAt
  {
    var id :| id in candidates;
    if candidates - {id} == {} {
      assert candidates == {id};
    } else {
      OldestExists(rows, candidates - {id});
      var rest := candidates - {id};
      var next :| next in rest && forall x :: x in rest ==> rows[next].createdAt <= rows[x].createdAt;
      var best := if rows[id].createdAt < rows[next].createdAt then id else next;
      assert forall x :: x in candidates ==> x == id || x in candidates - {id};
      assert forall x :: x in candidates ==> rows[best].createdAt <= rows[x].createdAt;
    }
  }
}
