/** The transactional outbox: rows inserted by committed transactions, relays that publish them in
    batches, a broker log, retries with backoff, purging, and crashes. */
module Outbox {
  import opened Bets
  import opened Wrappers

  type EventId = nat

  datatype Kind = DepositKind | BetStake | BetPayout

  /** What an event says; one WalletTransaction per ledger entry. */
  datatype Data =
    | BetPlaced(roundId: nat, user: nat, bet: PlacedBet)
    | RoundSettled(roundId: nat, user: nat, pairId: nat, nonce: nat, outcome: nat, bets: seq<ResolvedBet>,
                   totalStake: int, totalPayout: int, net: int)
    | WalletTransaction(transactionId: nat, user: nat, kind: Kind, amount: int, balanceAfter: int, refId: Option<nat>)

  /** The envelope.  One fresh number stands for both the event id and the id of its outbox row. */
  datatype Event = Event(eventId: EventId, idempotencyKey: string, data: Data)

  datatype Row = Row(event: Event, createdAt: int, publishedAt: Option<int>, attempts: nat, nextAttemptAt: Option<int>)

  /** An uncommitted `mark_published` or `mark_failed`. */
  datatype Mark = Sent(at: int) | Failed(attempts: nat, retryAt: int)

  /** A relay transaction: the rows it locked, and the marks made on a prefix of them. */
  datatype Relay = Idle | Batch(ids: seq<EventId>, marks: seq<Mark>)

  /** A send that raises may or may not have reached the broker. */
  datatype SendResult = Delivered | Raised(reached: bool)

  /** `issued`, `published` and the three multisets are history: no action reads them. */
  datatype State = State(
    now: int,
    rows: map<EventId, Row>,
    broker: seq<Event>,
    relays: seq<Relay>,
    issued: seq<Event>,
    published: set<EventId>,
    failures: multiset<EventId>,
    reached: multiset<EventId>,
    aborted: multiset<EventId>)

  datatype Action =
    | Tick(to: int)
    | Enqueue(events: seq<Event>)
    | Lock(relay: nat, ids: seq<EventId>, limit: nat, at: int)  // the clock was read at `at`
    | Send(relay: nat, result: SendResult)
    | CommitBatch(relay: nat)
    | AbortBatch(relay: nat)
    | Purge(olderThan: int)

  const SECOND: int := 1_000_000
  const BASE_BACKOFF_SECONDS: int := 2
  const MAX_BACKOFF_SECONDS: int := 60

  function Pow2(n: nat): nat {
    if n == 0 then 1 else 2 * Pow2(n - 1)
  }

  /** `min(BASE * 2**attempts, MAX)`. */
  function Backoff(attempts: nat): int {
    var seconds := BASE_BACKOFF_SECONDS * Pow2(attempts);
    if seconds < MAX_BACKOFF_SECONDS then seconds else MAX_BACKOFF_SECONDS
  }

  // ------------------------------------------------------------ the steps

  predicate Eligible(row: Row, now: int) {
    row.publishedAt.None? && (row.nextAttemptAt.None? || row.nextAttemptAt.value <= now)
  }

  predicate Locked(relays: seq<Relay>, id: EventId) {
    exists r :: 0 <= r < |relays| && relays[r].Batch? && id in relays[r].ids
  }

  predicate Distinct(ids: seq<EventId>) {
    forall i, j :: 0 <= i < j < |ids| ==> ids[i] != ids[j]
  }

  /** Due at this reading of the clock, and free. */
  predicate Available(s: State, id: EventId, at: int) {
    id in s.rows && Eligible(s.rows[id], at) && !Locked(s.relays, id)
  }

  /** SELECT ... WHERE eligible ORDER BY created_at LIMIT n FOR UPDATE SKIP LOCKED.  Due means due at
      `at`, which the caller read before the SELECT ran. */
  predicate IsBatch(s: State, ids: seq<EventId>, limit: nat, at: int) {
    && |ids| <= limit && Distinct(ids)
    && (forall i :: 0 <= i < |ids| ==> Available(s, ids[i], at))
    && (forall i, j :: 0 <= i < j < |ids| ==> s.rows[ids[i]].createdAt <= s.rows[ids[j]].createdAt)
    && forall id :: id in s.rows && Available(s, id, at) && id !in ids ==>
         |ids| == limit && forall i :: 0 <= i < |ids| ==> s.rows[ids[i]].createdAt <= s.rows[id].createdAt
  }

  function MarkRow(row: Row, mark: Mark): Row {
    match mark
    case Sent(at) => row.(publishedAt := Some(at))
    case Failed(attempts, retryAt) => row.(attempts := attempts, nextAttemptAt := Some(retryAt))
  }

  function ApplyMarks(rows: map<EventId, Row>, ids: seq<EventId>, marks: seq<Mark>): map<EventId, Row>
    requires |marks| <= |ids|
    decreases |marks|
  {
    if marks == [] then rows
    else
      var n := |marks| - 1;
      var before := ApplyMarks(rows, ids, marks[..n]);
      if ids[n] in before then before[ids[n] := MarkRow(before[ids[n]], marks[n])] else before
  }

  function SentIds(ids: seq<EventId>, marks: seq<Mark>): set<EventId>
    requires |marks| <= |ids|
  {
    set k | 0 <= k < |marks| && marks[k].Sent? :: ids[k]
  }

  /** New ids, none of them used before. */
  predicate FreshEvents(issued: seq<Event>, events: seq<Event>) {
    && (forall i, j :: 0 <= i < j < |events| ==> events[i].eventId != events[j].eventId)
    && forall i, j :: 0 <= i < |issued| && 0 <= j < |events| ==> issued[i].eventId != events[j].eventId
  }

  function InsertRows(rows: map<EventId, Row>, events: seq<Event>, now: int): map<EventId, Row> {
    if events == [] then rows
    else
      var last := events[|events| - 1];
      InsertRows(rows, events[..|events| - 1], now)[last.eventId := Row(last, now, None, 0, None)]
  }

  function StepSend(s: State, r: nat, result: SendResult): State
    requires r < |s.relays|
  {
    var relay := s.relays[r];
    if !relay.Batch? || |relay.marks| >= |relay.ids| || relay.ids[|relay.marks|] !in s.rows then s
    else
      var id := relay.ids[|relay.marks|];
      var row := s.rows[id];
      match result
      case Delivered =>
        s.(broker := s.broker + [row.event],
           relays := s.relays[r := relay.(marks := relay.marks + [Sent(s.now)])])
      case Raised(reached) =>
        var mark := Failed(row.attempts + 1, s.now + Backoff(row.attempts + 1) * SECOND);
        s.(broker := if reached then s.broker + [row.event] else s.broker,
           failures := s.failures + multiset{id},
           reached := if reached then s.reached + multiset{id} else s.reached,
           relays := s.relays[r := relay.(marks := relay.marks + [mark])])
  }

  function StepCommit(s: State, r: nat): State
    requires r < |s.relays|
  {
    var relay := s.relays[r];
    if !relay.Batch? || |relay.marks| != |relay.ids| then s
    else
      s.(rows := ApplyMarks(s.rows, relay.ids, relay.marks),
         published := s.published + SentIds(relay.ids, relay.marks),
         relays := s.relays[r := Idle])
  }

  /** A rollback or a crash: the marks are lost, what was sent stays sent. */
  function StepAbort(s: State, r: nat): State
    requires r < |s.relays|
  {
    var relay := s.relays[r];
    if !relay.Batch? || |relay.marks| > |relay.ids| then s
    else
      s.(aborted := s.aborted + multiset(SentIds(relay.ids, relay.marks)),
         relays := s.relays[r := Idle])
  }

  function StepPurge(s: State, olderThan: int): State {
    s.(rows := map id | id in s.rows
                        && !(s.rows[id].publishedAt.Some? && s.rows[id].publishedAt.value < olderThan) :: s.rows[id])
  }

  /** An action that is not enabled leaves the state alone. */
  function Step(s: State, a: Action): State {
    match a
    case Tick(to) => s.(now := if to > s.now then to else s.now)
    case Enqueue(events) =>
      if FreshEvents(s.issued, events)
      then s.(rows := InsertRows(s.rows, events, s.now), issued := s.issued + events) else s
    case Lock(r, ids, limit, at) =>
      if r < |s.relays| && s.relays[r].Idle? && at <= s.now && IsBatch(s, ids, limit, at)
      then s.(relays := s.relays[r := Batch(ids, [])]) else s
    case Send(r, result) => if r < |s.relays| then StepSend(s, r, result) else s
    case CommitBatch(r) => if r < |s.relays| then StepCommit(s, r) else s
    case AbortBatch(r) => if r < |s.relays| then StepAbort(s, r) else s
    case Purge(olderThan) => StepPurge(s, olderThan)
  }

  predicate Init(s: State) {
    && s.rows == map[] && s.broker == [] && s.issued == [] && s.published == {}
    && s.failures == s.reached == s.aborted == multiset{}
    && forall r :: 0 <= r < |s.relays| ==> s.relays[r].Idle?
  }

  // ------------------------------------------------------------ the invariant

  /** How many copies of an event the broker holds. */
  function Deliveries(broker: seq<Event>, id: EventId): nat {
    if broker == [] then 0
    else Deliveries(broker[..|broker| - 1], id) + if broker[|broker| - 1].eventId == id then 1 else 0
  }

  predicate Carries(relay: Relay, id: EventId) {
    relay.Batch? && |relay.marks| <= |relay.ids| && id in SentIds(relay.ids, relay.marks)
  }

  /** Some open relay transaction has sent this event and not committed that yet. */
  ghost predicate InFlight(relays: seq<Relay>, id: EventId) {
    exists r :: 0 <= r < |relays| && Carries(relays[r], id)
  }

  ghost predicate RowsOk(s: State) {
    && (forall i, j :: 0 <= i < j < |s.issued| ==> s.issued[i].eventId != s.issued[j].eventId)
    && (forall id :: id in s.rows ==> s.rows[id].event.eventId == id && s.rows[id].event in s.issued)
    && (forall id :: id in s.rows ==> (s.rows[id].publishedAt.Some? <==> id in s.published))
    && (forall i :: 0 <= i < |s.issued| ==> s.issued[i].eventId in s.rows || s.issued[i].eventId in s.published)
    && (forall id :: id in s.published ==> exists i :: 0 <= i < |s.issued| && s.issued[i].eventId == id)
    && forall i :: 0 <= i < |s.broker| ==> s.broker[i] in s.issued
  }

  ghost predicate RelayOk(rows: map<EventId, Row>, relay: Relay) {
    relay.Batch? ==>
      && |relay.marks| <= |relay.ids| && Distinct(relay.ids)
      && forall id :: id in relay.ids ==> id in rows && rows[id].publishedAt.None?
  }

  /** No two relay transactions hold the same row. */
  ghost predicate Disjoint(a: Relay, b: Relay) {
    a.Batch? && b.Batch? ==> forall id :: id in a.ids ==> id !in b.ids
  }

  ghost predicate RelaysOk(s: State) {
    && (forall r :: 0 <= r < |s.relays| ==> RelayOk(s.rows, s.relays[r]))
    && forall q, r :: 0 <= q < r < |s.relays| ==> Disjoint(s.relays[q], s.relays[r])
  }

  /** Where the copies of one event come from. */
  ghost predicate Counted(s: State, id: EventId) {
    && Deliveries(s.broker, id)
       == (if id in s.published then 1 else 0) + (if InFlight(s.relays, id) then 1 else 0)
          + s.reached[id] + s.aborted[id]
    && s.reached[id] <= s.failures[id]
  }

  ghost predicate Inv(s: State) {
    RowsOk(s) && RelaysOk(s) && forall id :: Counted(s, id)
  }

  // ------------------------------------------------------------ each action keeps it

  lemma InFlightIsLocked(s: State, id: EventId)
    requires RelaysOk(s) && InFlight(s.relays, id)
    ensures Locked(s.relays, id) && id in s.rows && s.rows[id].publishedAt.None?
  {
    var r :| 0 <= r < |s.relays| && Carries(s.relays[r], id);
    assert RelayOk(s.rows, s.relays[r]);
  }

  lemma {:induction false} InsertRowsFacts(rows: map<EventId, Row>, events: seq<Event>, now: int)
    requires forall i, j :: 0 <= i < j < |events| ==> events[i].eventId != events[j].eventId
    requires forall i :: 0 <= i < |events| ==> events[i].eventId !in rows
    ensures var after := InsertRows(rows, events, now);
            && (forall i :: 0 <= i < |events| ==>
                  events[i].eventId in after && after[events[i].eventId] == Row(events[i], now, None, 0, None))
            && (forall id :: id in rows ==> id in after && after[id] == rows[id])
            && forall id :: id in after ==> id in rows || exists i :: 0 <= i < |events| && events[i].eventId == id
  {
    if events != [] {
      InsertRowsFacts(rows, events[..|events| - 1], now);
    }
  }

  lemma KnownIds(s: State, id: EventId)
    requires RowsOk(s) && (id in s.rows || id in s.published)
    ensures exists i :: 0 <= i < |s.issued| && s.issued[i].eventId == id
  {
    if id in s.rows {
      var i :| 0 <= i < |s.issued| && s.issued[i] == s.rows[id].event;
    }
  }

  lemma FreshIds(s: State, events: seq<Event>)
    requires RowsOk(s) && FreshEvents(s.issued, events)
    ensures forall i :: 0 <= i < |events| ==> events[i].eventId !in s.rows && events[i].eventId !in s.published
  {
    forall id | id in s.rows || id in s.published
      ensures exists i :: 0 <= i < |s.issued| && s.issued[i].eventId == id
    {
      KnownIds(s, id);
    }
  }

  lemma EnqueueKeeps(s: State, events: seq<Event>)
    requires Inv(s) && FreshEvents(s.issued, events)
    ensures Inv(Step(s, Enqueue(events)))
  {
    var s' := Step(s, Enqueue(events));
    FreshIds(s, events);
    InsertRowsFacts(s.rows, events, s.now);
    EnqueueRows(s, events);
    forall r | 0 <= r < |s'.relays| ensures RelayOk(s'.rows, s'.relays[r]) {
      assert RelayOk(s.rows, s.relays[r]);
    }
    forall id ensures Counted(s', id) {
      assert Counted(s, id);
    }
  }

  lemma EnqueueTable(s: State, events: seq<Event>)
    requires Inv(s) && FreshEvents(s.issued, events)
    ensures var s' := Step(s, Enqueue(events));
            forall id :: id in s'.rows ==>
              && s'.rows[id].event.eventId == id && s'.rows[id].event in s'.issued
              && (s'.rows[id].publishedAt.Some? <==> id in s'.published)
  {
    var s' := Step(s, Enqueue(events));
    FreshIds(s, events);
    InsertRowsFacts(s.rows, events, s.now);
    forall id | id in s'.rows
      ensures s'.rows[id].event.eventId == id && s'.rows[id].event in s'.issued
      ensures s'.rows[id].publishedAt.Some? <==> id in s'.published
    {
      if id in s.rows {
        assert s.rows[id].event in s.issued;
      } else {
        var i :| 0 <= i < |events| && events[i].eventId == id;
        assert s'.issued[|s.issued| + i] == events[i];
      }
    }
  }

  lemma EnqueueIssued(s: State, events: seq<Event>)
    requires Inv(s) && FreshEvents(s.issued, events)
    ensures var s' := Step(s, Enqueue(events));
            && (forall i, j :: 0 <= i < j < |s'.issued| ==> s'.issued[i].eventId != s'.issued[j].eventId)
            && (forall i :: 0 <= i < |s'.issued| ==>
                  s'.issued[i].eventId in s'.rows || s'.issued[i].eventId in s'.published)
            && forall id :: id in s'.published ==> exists i :: 0 <= i < |s'.issued| && s'.issued[i].eventId == id
  {
    var s' := Step(s, Enqueue(events));
    FreshIds(s, events);
    InsertRowsFacts(s.rows, events, s.now);
    forall id | id in s'.published ensures exists i :: 0 <= i < |s'.issued| && s'.issued[i].eventId == id {
      var k :| 0 <= k < |s.issued| && s.issued[k].eventId == id;
      assert s'.issued[k].eventId == id;
    }
    forall i | 0 <= i < |s'.issued|
      ensures s'.issued[i].eventId in s'.rows || s'.issued[i].eventId in s'.published
    {
      if i < |s.issued| {
        assert s'.issued[i] == s.issued[i];
      } else {
        assert s'.issued[i] == events[i - |s.issued|];
      }
    }
  }

  lemma EnqueueRows(s: State, events: seq<Event>)
    requires Inv(s) && FreshEvents(s.issued, events)
    ensures RowsOk(Step(s, Enqueue(events)))
  {
    EnqueueTable(s, events);
    EnqueueIssued(s, events);
  }

  lemma LockKeeps(s: State, r: nat, ids: seq<EventId>, limit: nat, at: int)
    requires Inv(s) && r < |s.relays| && s.relays[r].Idle? && at <= s.now && IsBatch(s, ids, limit, at)
    ensures Inv(Step(s, Lock(r, ids, limit, at)))
  {
    var s' := Step(s, Lock(r, ids, limit, at));
    forall q | 0 <= q < |s'.relays| ensures RelayOk(s'.rows, s'.relays[q]) {
      assert RelayOk(s.rows, s.relays[q]);
    }
    forall q, id | 0 <= q < |s.relays| && s.relays[q].Batch? && id in s.relays[q].ids
      ensures id !in ids
    {
      assert Locked(s.relays, id);
    }
    forall id ensures Counted(s', id) {
      assert Counted(s, id);
      SameInFlight(s.relays, s'.relays, r, id);
    }
  }

  /** Replacing a relay that carries nothing by one that carries nothing. */
  lemma SameInFlight(before: seq<Relay>, after: seq<Relay>, r: nat, id: EventId)
    requires |before| == |after| && r < |before| && after == before[r := after[r]]
    requires Carries(before[r], id) <==> Carries(after[r], id)
    ensures InFlight(before, id) <==> InFlight(after, id)
  {
    if InFlight(before, id) {
      var q :| 0 <= q < |before| && Carries(before[q], id);
      assert Carries(after[q], id);
    }
    if InFlight(after, id) {
      var q :| 0 <= q < |after| && Carries(after[q], id);
      assert Carries(before[q], id);
    }
  }

  lemma DeliveriesAppend(broker: seq<Event>, e: Event, id: EventId)
    ensures Deliveries(broker + [e], id) == Deliveries(broker, id) + if e.eventId == id then 1 else 0
  {
    assert (broker + [e])[..|broker|] == broker;
  }

  lemma SentIdsAppend(ids: seq<EventId>, marks: seq<Mark>, mark: Mark)
    requires |marks| < |ids|
    ensures SentIds(ids, marks + [mark]) == SentIds(ids, marks) + if mark.Sent? then {ids[|marks|]} else {}
  {
    var after := marks + [mark];
    forall id ensures id in SentIds(ids, after) <==>
                      id in SentIds(ids, marks) || (mark.Sent? && id == ids[|marks|])
    {
      if k :| 0 <= k < |after| && after[k].Sent? && ids[k] == id {
        if k < |marks| {
          assert marks[k].Sent?;
        }
      }
      if k :| 0 <= k < |marks| && marks[k].Sent? && ids[k] == id {
        assert after[k].Sent?;
      }
      assert after[|marks|] == mark;
    }
  }

  lemma CarriedIsHeld(relay: Relay, id: EventId)
    requires Carries(relay, id)
    ensures id in relay.ids
  {
    var k :| 0 <= k < |relay.marks| && relay.marks[k].Sent? && relay.ids[k] == id;
  }

  lemma DueIsNotSent(relay: Relay)
    requires relay.Batch? && |relay.marks| < |relay.ids| && Distinct(relay.ids)
    ensures relay.ids[|relay.marks|] !in SentIds(relay.ids, relay.marks)
  {
  }

  /** A row whose send is due has not been sent by any open transaction. */
  lemma DueIsNotInFlight(s: State, r: nat)
    requires RelaysOk(s) && r < |s.relays| && s.relays[r].Batch? && |s.relays[r].marks| < |s.relays[r].ids|
    ensures !InFlight(s.relays, s.relays[r].ids[|s.relays[r].marks|])
  {
    var relay := s.relays[r];
    var id := relay.ids[|relay.marks|];
    forall q | 0 <= q < |s.relays| ensures !Carries(s.relays[q], id) {
      assert RelayOk(s.rows, s.relays[q]) && RelayOk(s.rows, relay);
      DueIsNotSent(relay);
      if Carries(s.relays[q], id) {
        CarriedIsHeld(s.relays[q], id);
      }
      if q < r {
        assert Disjoint(s.relays[q], relay);
      } else if q > r {
        assert Disjoint(relay, s.relays[q]);
      }
    }
  }

  lemma SendRelays(s: State, r: nat, result: SendResult)
    requires Inv(s) && r < |s.relays|
    ensures RelaysOk(StepSend(s, r, result)) && RowsOk(StepSend(s, r, result))
  {
    var s' := StepSend(s, r, result);
    var relay := s.relays[r];
    assert RelayOk(s.rows, relay);
    if s' != s {
      forall q | 0 <= q < |s'.relays| ensures RelayOk(s'.rows, s'.relays[q]) {
        assert RelayOk(s.rows, s.relays[q]);
      }
      forall q, t | 0 <= q < t < |s'.relays| ensures Disjoint(s'.relays[q], s'.relays[t]) {
        assert Disjoint(s.relays[q], s.relays[t]);
      }
    }
  }

  lemma SendCounted(s: State, r: nat, result: SendResult, id: EventId)
    requires Inv(s) && r < |s.relays|
    ensures Counted(StepSend(s, r, result), id)
  {
    var s' := StepSend(s, r, result);
    var relay := s.relays[r];
    assert Counted(s, id) && RelayOk(s.rows, relay);
    if s' != s {
      var due := relay.ids[|relay.marks|];
      var e := s.rows[due].event;
      DeliveriesAppend(s.broker, e, id);
      var mark := s'.relays[r].marks[|relay.marks|];
      SentIdsAppend(relay.ids, relay.marks, mark);
      assert s'.relays[r].marks == relay.marks + [mark];
      DueIsNotInFlight(s, r);
      if id == due {
        assert due !in s.published;
        SendInFlight(s.relays, s'.relays, r, id, mark.Sent?);
      } else {
        SameInFlight(s.relays, s'.relays, r, id);
      }
    }
  }

  lemma SendInFlight(before: seq<Relay>, after: seq<Relay>, r: nat, id: EventId, sent: bool)
    requires |before| == |after| && r < |before| && after == before[r := after[r]]
    requires !InFlight(before, id) && (Carries(after[r], id) <==> sent)
    ensures InFlight(after, id) <==> sent
  {
    forall q | 0 <= q < |after| && q != r ensures !Carries(after[q], id) {
      assert after[q] == before[q];
    }
  }

  lemma SendKeeps(s: State, r: nat, result: SendResult)
    requires Inv(s) && r < |s.relays|
    ensures Inv(StepSend(s, r, result))
  {
    SendRelays(s, r, result);
    forall id ensures Counted(StepSend(s, r, result), id) {
      SendCounted(s, r, result, id);
    }
  }

  lemma {:induction false} ApplyMarksFacts(rows: map<EventId, Row>, ids: seq<EventId>, marks: seq<Mark>)
    requires |marks| <= |ids| && Distinct(ids)
    requires forall id :: id in ids ==> id in rows
    ensures var after := ApplyMarks(rows, ids, marks);
            && after.Keys == rows.Keys
            && (forall k :: 0 <= k < |marks| ==> after[ids[k]] == MarkRow(rows[ids[k]], marks[k]))
            && forall id :: id in rows && id !in ids[..|marks|] ==> after[id] == rows[id]
  {
    if marks != [] {
      var n := |marks| - 1;
      ApplyMarksFacts(rows, ids, marks[..n]);
      assert ids[..n] + [ids[n]] == ids[..|marks|];
      assert ids[n] !in ids[..n];
    }
  }

  /** What a committed batch leaves on its rows: the time of the send, or the number of failures and the
      next attempt; other rows are not touched. */
  ghost predicate Recorded(before: map<EventId, Row>, after: map<EventId, Row>, ids: seq<EventId>, marks: seq<Mark>)
    requires |marks| == |ids|
  {
    && after.Keys == before.Keys
    && (forall id :: id in before && id !in ids ==> after[id] == before[id])
    && forall k :: 0 <= k < |ids| && ids[k] in before ==>
         var row, now := before[ids[k]], after[ids[k]];
         && now.event == row.event && now.createdAt == row.createdAt
         && match marks[k]
            case Sent(at) =>
              now.publishedAt == Some(at) && now.attempts == row.attempts && now.nextAttemptAt == row.nextAttemptAt
            case Failed(attempts, retryAt) =>
              now.publishedAt == row.publishedAt && now.attempts == attempts && now.nextAttemptAt == Some(retryAt)
  }

  lemma {:induction false} CommitRecords(rows: map<EventId, Row>, ids: seq<EventId>, marks: seq<Mark>)
    requires |marks| == |ids| && Distinct(ids) && forall id :: id in ids ==> id in rows
    ensures Recorded(rows, ApplyMarks(rows, ids, marks), ids, marks)
  {
    ApplyMarksFacts(rows, ids, marks);
    assert ids[..|marks|] == ids;
    hide ApplyMarks;
  }

  lemma SentIdsMembers(ids: seq<EventId>, marks: seq<Mark>, k: nat)
    requires |marks| <= |ids| && Distinct(ids) && k < |marks|
    ensures ids[k] in SentIds(ids, marks) <==> marks[k].Sent?
  {
  }

  lemma CommitRow(s: State, r: nat, id: EventId)
    requires Inv(s) && r < |s.relays| && s.relays[r].Batch? && |s.relays[r].marks| == |s.relays[r].ids|
    requires id in s.rows
    ensures var s' := StepCommit(s, r);
            && s'.rows.Keys == s.rows.Keys && s'.rows[id].event == s.rows[id].event
            && (s'.rows[id].publishedAt.Some? <==> id in s'.published)
            && (id !in s.relays[r].ids ==> s'.rows[id] == s.rows[id])
  {
    var relay := s.relays[r];
    assert RelayOk(s.rows, relay);
    ApplyMarksFacts(s.rows, relay.ids, relay.marks);
    assert relay.ids[..|relay.marks|] == relay.ids;
    if id in relay.ids {
      var k :| 0 <= k < |relay.ids| && relay.ids[k] == id;
      SentIdsMembers(relay.ids, relay.marks, k);
    }
  }

  lemma CommitRows(s: State, r: nat)
    requires Inv(s) && r < |s.relays| && s.relays[r].Batch? && |s.relays[r].marks| == |s.relays[r].ids|
    ensures RowsOk(StepCommit(s, r)) && RelaysOk(StepCommit(s, r))
  {
    var s' := StepCommit(s, r);
    var relay := s.relays[r];
    assert RelayOk(s.rows, relay);
    ApplyMarksFacts(s.rows, relay.ids, relay.marks);
    forall id | id in s.rows
      ensures s'.rows[id].event == s.rows[id].event
      ensures s'.rows[id].publishedAt.Some? <==> id in s'.published
    {
      CommitRow(s, r, id);
    }
    forall id | id in s'.published ensures exists i :: 0 <= i < |s'.issued| && s'.issued[i].eventId == id {
      KnownIds(s, id);
    }
    CommitRelays(s, r);
  }

  lemma CommitRelays(s: State, r: nat)
    requires Inv(s) && r < |s.relays| && s.relays[r].Batch? && |s.relays[r].marks| == |s.relays[r].ids|
    ensures RelaysOk(StepCommit(s, r))
  {
    var s' := StepCommit(s, r);
    forall q | 0 <= q < |s'.relays| ensures RelayOk(s'.rows, s'.relays[q]) {
      assert RelayOk(s.rows, s.relays[q]);
      if q < r {
        assert Disjoint(s.relays[q], s.relays[r]);
      } else if q > r {
        assert Disjoint(s.relays[r], s.relays[q]);
      }
      if q != r && s.relays[q].Batch? {
        forall id | id in s.relays[q].ids ensures id in s'.rows && s'.rows[id].publishedAt.None? {
          CommitRow(s, r, id);
        }
      }
    }
    forall q, t | 0 <= q < t < |s'.relays| ensures Disjoint(s'.relays[q], s'.relays[t]) {
      assert Disjoint(s.relays[q], s.relays[t]);
    }
  }

  /** Only one open transaction can have sent an event, so when it ends nothing has it in flight. */
  lemma EndsFlight(s: State, after: seq<Relay>, r: nat, id: EventId)
    requires RelaysOk(s) && r < |s.relays| && after == s.relays[r := Idle]
    ensures InFlight(s.relays, id) <==> Carries(s.relays[r], id) || InFlight(after, id)
    ensures !(Carries(s.relays[r], id) && InFlight(after, id))
  {
    assert RelayOk(s.rows, s.relays[r]);
    if InFlight(s.relays, id) {
      var q :| 0 <= q < |s.relays| && Carries(s.relays[q], id);
      assert q != r ==> Carries(after[q], id);
    }
    if InFlight(after, id) {
      var q :| 0 <= q < |after| && Carries(after[q], id);
      assert q != r && Carries(s.relays[q], id);
      CarriedIsHeld(s.relays[q], id);
      if Carries(s.relays[r], id) {
        CarriedIsHeld(s.relays[r], id);
      }
      assert Disjoint(s.relays[if q < r then q else r], s.relays[if q < r then r else q]);
    }
  }

  lemma CommitKeeps(s: State, r: nat)
    requires Inv(s) && r < |s.relays|
    ensures Inv(StepCommit(s, r))
  {
    var relay := s.relays[r];
    if relay.Batch? && |relay.marks| == |relay.ids| {
      var s' := StepCommit(s, r);
      CommitRows(s, r);
      assert RelayOk(s.rows, relay);
      forall id ensures Counted(s', id) {
        assert Counted(s, id);
        EndsFlight(s, s'.relays, r, id);
        if id in SentIds(relay.ids, relay.marks) {
          assert id in s.rows && s.rows[id].publishedAt.None? && id !in s.published;
        }
      }
    }
  }

  lemma AbortKeeps(s: State, r: nat)
    requires Inv(s) && r < |s.relays|
    ensures Inv(StepAbort(s, r))
  {
    var s' := StepAbort(s, r);
    var relay := s.relays[r];
    if relay.Batch? && |relay.marks| <= |relay.ids| {
      forall q | 0 <= q < |s'.relays| ensures RelayOk(s'.rows, s'.relays[q]) {
        assert RelayOk(s.rows, s.relays[q]);
      }
      forall q, t | 0 <= q < t < |s'.relays| ensures Disjoint(s'.relays[q], s'.relays[t]) {
        assert Disjoint(s.relays[q], s.relays[t]);
      }
      forall id ensures Counted(s', id) {
        assert Counted(s, id);
        EndsFlight(s, s'.relays, r, id);
      }
    }
  }

  /** Purging touches published rows only, which no open transaction holds. */
  lemma PurgeKeeps(s: State, olderThan: int)
    requires Inv(s)
    ensures Inv(StepPurge(s, olderThan))
  {
    var s' := StepPurge(s, olderThan);
    forall q | 0 <= q < |s'.relays| ensures RelayOk(s'.rows, s'.relays[q]) {
      assert RelayOk(s.rows, s.relays[q]);
    }
    forall id | id in s'.published ensures exists i :: 0 <= i < |s'.issued| && s'.issued[i].eventId == id {
      KnownIds(s, id);
    }
    forall id ensures Counted(s', id) {
      assert Counted(s, id);
    }
  }

  lemma StepKeeps(s: State, a: Action)
    requires Inv(s)
    ensures Inv(Step(s, a))
  {
    match a
    case Tick(to) =>
      forall id ensures Counted(Step(s, a), id) {
        assert Counted(s, id);
      }
    case Enqueue(events) => if FreshEvents(s.issued, events) { EnqueueKeeps(s, events); }
    case Lock(r, ids, limit, at) =>
      if r < |s.relays| && s.relays[r].Idle? && at <= s.now && IsBatch(s, ids, limit, at) {
        LockKeeps(s, r, ids, limit, at);
      }
    case Send(r, result) => if r < |s.relays| { SendKeeps(s, r, result); }
    case CommitBatch(r) => if r < |s.relays| { CommitKeeps(s, r); }
    case AbortBatch(r) => if r < |s.relays| { AbortKeeps(s, r); }
    case Purge(olderThan) => PurgeKeeps(s, olderThan);
  }

  function Run(s: State, actions: seq<Action>): State
    decreases |actions|
  {
    if actions == [] then s
    else Step(Run(s, actions[..|actions| - 1]), actions[|actions| - 1])
  }

  lemma {:induction false} RunKeeps(s: State, actions: seq<Action>)
    requires Inv(s)
    ensures Inv(Run(s, actions))
  {
    if actions != [] {
      RunKeeps(s, actions[..|actions| - 1]);
      StepKeeps(Run(s, actions[..|actions| - 1]), actions[|actions| - 1]);
    }
  }

  lemma InitInv(s: State)
    requires Init(s)
    ensures Inv(s)
  {
    forall id ensures Counted(s, id) {
      forall r | 0 <= r < |s.relays| ensures !Carries(s.relays[r], id) {
      }
    }
  }

  // ------------------------------------------------------------ what every run guarantees

  /** At least once, and how many times more: copies beyond the first come only from sends that
      raised and from relay transactions that sent the event and then rolled back or died. */
  lemma {:induction false} DeliveriesBounded(s: State, actions: seq<Action>, id: EventId)
    requires Init(s)
    ensures var t := Run(s, actions); Deliveries(t.broker, id) <= 1 + t.failures[id] + t.aborted[id]
  {
    InitInv(s);
    RunKeeps(s, actions);
    var t := Run(s, actions);
    assert Counted(t, id);
    if InFlight(t.relays, id) {
      InFlightIsLocked(t, id);
    }
  }

  lemma {:induction false} DeliveredIsLogged(broker: seq<Event>, id: EventId)
    requires Deliveries(broker, id) >= 1
    ensures exists i :: 0 <= i < |broker| && broker[i].eventId == id
  {
    var n := |broker| - 1;
    if broker[n].eventId != id {
      DeliveredIsLogged(broker[..n], id);
      var i :| 0 <= i < n && broker[..n][i].eventId == id;
      assert broker[i].eventId == id;
    }
  }

  /** No committed event is ever both gone from the outbox and undelivered: purges and crashes
      included, it is waiting in an unpublished row, or the broker log holds that very event. */
  lemma NothingLost(s: State, actions: seq<Action>, i: nat)
    requires Init(s) && i < |Run(s, actions).issued|
    ensures var t := Run(s, actions);
            var e := t.issued[i];
            || (e.eventId in t.rows && t.rows[e.eventId].event == e && t.rows[e.eventId].publishedAt.None?)
            || e in t.broker
  {
    InitInv(s);
    RunKeeps(s, actions);
    Conserved(Run(s, actions), i);
  }

  lemma Conserved(t: State, i: nat)
    requires Inv(t) && i < |t.issued|
    ensures var e := t.issued[i];
            || (e.eventId in t.rows && t.rows[e.eventId].event == e && t.rows[e.eventId].publishedAt.None?)
            || e in t.broker
  {
    var e := t.issued[i];
    if e.eventId in t.published {
      assert Counted(t, e.eventId);
      DeliveredIsLogged(t.broker, e.eventId);
      var k :| 0 <= k < |t.broker| && t.broker[k].eventId == e.eventId;
      SameEvent(t, i, t.broker[k]);
    } else {
      SameEvent(t, i, t.rows[e.eventId].event);
    }
  }

  lemma SameEvent(t: State, i: nat, e: Event)
    requires Inv(t) && i < |t.issued| && e in t.issued && e.eventId == t.issued[i].eventId
    ensures e == t.issued[i]
  {
    var j :| 0 <= j < |t.issued| && t.issued[j] == e;
    assert i == j;
  }

  /** FOR UPDATE SKIP LOCKED: two open relay transactions never hold the same row. */
  lemma {:induction false} RelaysExclusive(s: State, actions: seq<Action>, q: nat, r: nat, id: EventId)
    requires Init(s) && q != r
    requires var t := Run(s, actions);
             q < |t.relays| && r < |t.relays| && t.relays[q].Batch? && t.relays[r].Batch?
    ensures var t := Run(s, actions); id !in t.relays[q].ids || id !in t.relays[r].ids
  {
    InitInv(s);
    RunKeeps(s, actions);
    var t := Run(s, actions);
    assert Disjoint(t.relays[if q < r then q else r], t.relays[if q < r then r else q]);
  }

  /** Only a commit, an insert or the purge changes a row: a relay that rolls back or dies leaves no
      trace in the table, and gives up what it held.  Only sends reach the broker. */
  lemma {:induction false} OnlyCommitsMark(s: State, a: Action)
    ensures !a.CommitBatch? && !a.Enqueue? && !a.Purge? ==> Step(s, a).rows == s.rows
    ensures !a.Send? ==> Step(s, a).broker == s.broker
    ensures a.AbortBatch? && a.relay < |s.relays| && RelayOk(s.rows, s.relays[a.relay]) ==>
              Step(s, a).relays == s.relays[a.relay := Idle]
  {
  }

  // ------------------------------------------------------------ backoff and draining

  /** Each failure doubles the wait, until the cap is reached. */
  lemma {:induction false} BackoffDoubles(attempts: nat)
    ensures Backoff(0) == 2
    ensures Backoff(attempts + 1) == if 2 * Backoff(attempts) < 60 then 2 * Backoff(attempts) else 60
  {
    assert Pow2(attempts + 1) == 2 * Pow2(attempts);
  }

  lemma {:induction false} BackoffBounds(attempts: nat)
    requires attempts >= 1
    ensures 4 <= Backoff(attempts) <= MAX_BACKOFF_SECONDS
    ensures Backoff(attempts) <= Backoff(attempts + 1)
  {
    assert Pow2(1) == 2 * Pow2(0);
    if attempts > 1 {
      BackoffBounds(attempts - 1);
    }
  }

  /** Unpublished rows that are due at `horizon` at the latest. */
  function Waiting(rows: map<EventId, Row>, horizon: int): set<EventId> {
    set id | id in rows && Eligible(rows[id], horizon)
  }

  function IdSet(ids: seq<EventId>): set<EventId> {
    set id | id in ids
  }

  predicate MarksPast(marks: seq<Mark>, horizon: int) {
    forall k :: 0 <= k < |marks| ==> marks[k].Failed? ==> marks[k].retryAt > horizon
  }

  /** Whichever sends failed, committing a batch removes exactly its rows from those due by the
      horizon, because every retry lies beyond it. */
  lemma CommitDrains(rows: map<EventId, Row>, ids: seq<EventId>, marks: seq<Mark>, horizon: int)
    requires |marks| == |ids| && Distinct(ids) && MarksPast(marks, horizon)
    requires forall id :: id in ids ==> id in rows && rows[id].publishedAt.None?
    ensures Waiting(ApplyMarks(rows, ids, marks), horizon) == Waiting(rows, horizon) - IdSet(ids)
  {
    var after := ApplyMarks(rows, ids, marks);
    ApplyMarksFacts(rows, ids, marks);
    assert ids[..|marks|] == ids;
    forall id ensures id in Waiting(after, horizon) <==> id in Waiting(rows, horizon) && id !in ids {
      if id in ids {
        var k :| 0 <= k < |ids| && ids[k] == id;
        assert after[ids[k]] == MarkRow(rows[ids[k]], marks[k]);
      }
    }
  }

  predicate RowBy(row: Row, bound: int) {
    row.nextAttemptAt.Some? ==> row.nextAttemptAt.value <= bound
  }

  predicate MarkBy(mark: Mark, bound: int) {
    mark.Failed? ==> mark.retryAt <= bound
  }

  ghost predicate AllBy(rows: map<EventId, Row>, bound: int) {
    forall id :: id in rows ==> RowBy(rows[id], bound)
  }

  ghost predicate MarksBy(relay: Relay, bound: int) {
    relay.Batch? ==> forall k :: 0 <= k < |relay.marks| ==> MarkBy(relay.marks[k], bound)
  }

  /** Every scheduled retry, committed or not, is due by `bound`. */
  ghost predicate Clear(s: State, bound: int) {
    AllBy(s.rows, bound) && forall r :: 0 <= r < |s.relays| ==> MarksBy(s.relays[r], bound)
  }

  /** No retry is ever scheduled more than the cap ahead. */
  ghost predicate RetriesSoon(s: State) {
    Clear(s, s.now + MAX_BACKOFF_SECONDS * SECOND)
  }

  lemma {:induction false} InsertSoon(rows: map<EventId, Row>, events: seq<Event>, now: int, bound: int)
    requires AllBy(rows, bound)
    ensures AllBy(InsertRows(rows, events, now), bound)
  {
    if events != [] {
      InsertSoon(rows, events[..|events| - 1], now, bound);
    }
  }

  lemma {:induction false} ApplySoon(rows: map<EventId, Row>, ids: seq<EventId>, marks: seq<Mark>, bound: int)
    requires |marks| <= |ids| && AllBy(rows, bound)
    requires forall k :: 0 <= k < |marks| ==> MarkBy(marks[k], bound)
    ensures AllBy(ApplyMarks(rows, ids, marks), bound)
  {
    if marks != [] {
      var n := |marks| - 1;
      ApplySoon(rows, ids, marks[..n], bound);
      assert MarkBy(marks[n], bound);
    }
  }

  lemma RetrySend(s: State, r: nat, result: SendResult)
    requires RetriesSoon(s) && RelaysOk(s) && r < |s.relays|
    ensures RetriesSoon(StepSend(s, r, result))
  {
    var s' := StepSend(s, r, result);
    if s' != s {
      var relay := s.relays[r];
      BackoffBounds(s.rows[relay.ids[|relay.marks|]].attempts + 1);
      assert MarksBy(relay, s.now + MAX_BACKOFF_SECONDS * SECOND);
      assert MarksBy(s'.relays[r], s.now + MAX_BACKOFF_SECONDS * SECOND);
    }
  }

  lemma RetryCommit(s: State, r: nat)
    requires RetriesSoon(s) && RelaysOk(s) && r < |s.relays|
    ensures RetriesSoon(StepCommit(s, r))
  {
    var relay := s.relays[r];
    var bound := s.now + MAX_BACKOFF_SECONDS * SECOND;
    if relay.Batch? && |relay.marks| == |relay.ids| {
      assert MarksBy(relay, bound);
      ApplySoon(s.rows, relay.ids, relay.marks, bound);
    }
  }

  lemma RetryStep(s: State, a: Action)
    requires RetriesSoon(s) && RelaysOk(s)
    ensures RetriesSoon(Step(s, a))
  {
    match a
    case Enqueue(events) => InsertSoon(s.rows, events, s.now, s.now + MAX_BACKOFF_SECONDS * SECOND);
    case Send(r, result) => if r < |s.relays| { RetrySend(s, r, result); }
    case CommitBatch(r) => if r < |s.relays| { RetryCommit(s, r); }
    case Tick(to) =>
      forall r | 0 <= r < |s.relays|
        ensures MarksBy(s.relays[r], Step(s, a).now + MAX_BACKOFF_SECONDS * SECOND)
      {
        assert MarksBy(s.relays[r], s.now + MAX_BACKOFF_SECONDS * SECOND);
      }
    case _ =>
  }

  lemma {:induction false} RetryRun(s: State, actions: seq<Action>)
    requires Init(s)
    ensures RetriesSoon(Run(s, actions))
  {
    if actions != [] {
      RetryRun(s, actions[..|actions| - 1]);
      InitInv(s);
      RunKeeps(s, actions[..|actions| - 1]);
      RetryStep(Run(s, actions[..|actions| - 1]), actions[|actions| - 1]);
    }
  }

  /** A minute from now every row still unpublished is due. */
  lemma DueWithinMinute(s: State, actions: seq<Action>, horizon: int)
    requires Init(s) && horizon >= Run(s, actions).now + MAX_BACKOFF_SECONDS * SECOND
    ensures var t := Run(s, actions);
            Waiting(t.rows, horizon) == set id | id in t.rows && t.rows[id].publishedAt.None?
  {
    RetryRun(s, actions);
    var t := Run(s, actions);
    forall id | id in t.rows ensures RowBy(t.rows[id], horizon) {
      assert RowBy(t.rows[id], t.now + MAX_BACKOFF_SECONDS * SECOND);
    }
  }

  // ------------------------------------------------------------ what shrinks, whoever moves

  /** Every row a relay holds is due. */
  ghost predicate HoldsDue(rows: map<EventId, Row>, now: int, relay: Relay) {
    relay.Batch? ==> forall id :: id in relay.ids ==> id in rows && Eligible(rows[id], now)
  }

  ghost predicate HeldDue(s: State) {
    forall r :: 0 <= r < |s.relays| ==> HoldsDue(s.rows, s.now, s.relays[r])
  }

  lemma HeldDueCommit(s: State, r: nat)
    requires Inv(s) && HeldDue(s) && r < |s.relays|
    ensures HeldDue(StepCommit(s, r))
  {
    var s' := StepCommit(s, r);
    if s.relays[r].Batch? && |s.relays[r].marks| == |s.relays[r].ids| {
      forall q | 0 <= q < |s'.relays| && q != r ensures HoldsDue(s'.rows, s'.now, s'.relays[q]) {
        assert HoldsDue(s.rows, s.now, s.relays[q]);
        assert Disjoint(s.relays[if q < r then q else r], s.relays[if q < r then r else q]);
        if s.relays[q].Batch? {
          forall id | id in s.relays[q].ids ensures id in s'.rows && s'.rows[id] == s.rows[id] {
            CommitRow(s, r, id);
          }
        }
      }
    }
  }

  lemma HeldDueStep(s: State, a: Action)
    requires Inv(s) && HeldDue(s)
    ensures HeldDue(Step(s, a))
  {
    var s' := Step(s, a);
    match a
    case CommitBatch(r) => if r < |s.relays| { HeldDueCommit(s, r); }
    case Enqueue(events) =>
      if FreshEvents(s.issued, events) {
        FreshIds(s, events);
        InsertRowsFacts(s.rows, events, s.now);
        forall q | 0 <= q < |s.relays| ensures HoldsDue(s'.rows, s'.now, s.relays[q]) {
          assert HoldsDue(s.rows, s.now, s.relays[q]);
        }
      }
    case Lock(r, ids, limit, at) =>
      forall q | 0 <= q < |s'.relays| ensures HoldsDue(s'.rows, s'.now, s'.relays[q]) {
        assert HoldsDue(s.rows, s.now, s.relays[q]);
      }
    case Send(r, result) => if r < |s.relays| { HeldDueSend(s, r, result); }
    case _ =>
      forall q | 0 <= q < |s'.relays| ensures HoldsDue(s'.rows, s'.now, s'.relays[q]) {
        assert HoldsDue(s.rows, s.now, s.relays[q]);
      }
  }

  lemma HeldDueSend(s: State, r: nat, result: SendResult)
    requires HeldDue(s) && r < |s.relays|
    ensures HeldDue(StepSend(s, r, result))
  {
    var s' := StepSend(s, r, result);
    assert s'.rows == s.rows && s'.now == s.now;
    forall q | 0 <= q < |s'.relays| ensures HoldsDue(s'.rows, s'.now, s'.relays[q]) {
      assert HoldsDue(s.rows, s.now, s.relays[q]);
    }
  }

  lemma {:induction false} HeldDueRun(s: State, actions: seq<Action>)
    requires Init(s)
    ensures HeldDue(Run(s, actions))
  {
    hide Inv, Step;
    if actions != [] {
      HeldDueRun(s, actions[..|actions| - 1]);
      InitInv(s);
      RunKeeps(s, actions[..|actions| - 1]);
      HeldDueStep(Run(s, actions[..|actions| - 1]), actions[|actions| - 1]);
    }
  }

  /** How many rows an action inserts, at most. */
  function Arrived(a: Action): nat {
    if a.Enqueue? then |a.events| else 0
  }

  function Arrivals(actions: seq<Action>): nat {
    if actions == [] then 0
    else Arrivals(actions[..|actions| - 1]) + Arrived(actions[|actions| - 1])
  }

  function EventIds(events: seq<Event>): set<EventId> {
    set i | 0 <= i < |events| :: events[i].eventId
  }

  lemma {:induction false} EventIdsSize(events: seq<Event>)
    ensures |EventIds(events)| <= |events|
  {
    if events == [] {
      assert EventIds(events) == {};
    } else {
      var n := |events| - 1;
      EventIdsSize(events[..n]);
      assert EventIds(events) == EventIds(events[..n]) + {events[n].eventId};
    }
  }

  lemma WaitingCommit(s: State, r: nat, horizon: int)
    requires Inv(s) && HeldDue(s) && s.now <= horizon && r < |s.relays|
    ensures Waiting(StepCommit(s, r).rows, horizon) <= Waiting(s.rows, horizon)
  {
    var s' := StepCommit(s, r);
    if s.relays[r].Batch? && |s.relays[r].marks| == |s.relays[r].ids| {
      assert RelayOk(s.rows, s.relays[r]) && HoldsDue(s.rows, s.now, s.relays[r]);
      ApplyMarksFacts(s.rows, s.relays[r].ids, s.relays[r].marks);
      forall id | id in Waiting(s'.rows, horizon) ensures id in Waiting(s.rows, horizon) {
        CommitRow(s, r, id);
      }
    }
  }

  lemma WaitingEnqueue(s: State, events: seq<Event>, horizon: int)
    requires Inv(s) && FreshEvents(s.issued, events)
    ensures Waiting(Step(s, Enqueue(events)).rows, horizon) <= Waiting(s.rows, horizon) + EventIds(events)
  {
    FreshIds(s, events);
    InsertRowsFacts(s.rows, events, s.now);
  }

  /** Whoever moves, the rows due by the horizon grow by new rows only: a relay, this one or another,
      can only take rows from them, and so can the purge. */
  lemma WaitingStep(s: State, a: Action, horizon: int)
    requires Inv(s) && HeldDue(s) && s.now <= horizon
    ensures |Waiting(Step(s, a).rows, horizon)| <= |Waiting(s.rows, horizon)| + Arrived(a)
  {
    hide Inv, HeldDue, Eligible;
    var before, after := Waiting(s.rows, horizon), Waiting(Step(s, a).rows, horizon);
    match a
    case CommitBatch(r) =>
      if r < |s.relays| {
        WaitingCommit(s, r, horizon);
        SmallerWaits(after, before);
      }
    case Enqueue(events) =>
      if FreshEvents(s.issued, events) {
        WaitingEnqueue(s, events, horizon);
        EventIdsSize(events);
        SmallerWaits(after, before + EventIds(events));
        UnionSize(before, EventIds(events));
      }
    case Purge(olderThan) =>
      SmallerWaits(after, before);
    case _ =>
  }

  lemma SmallerWaits(part: set<EventId>, all: set<EventId>)
    ensures part <= all ==> |part| <= |all|
  {
    if part <= all {
      assert all == part + (all - part);
    }
  }

  lemma UnionSize(a: set<EventId>, b: set<EventId>)
    ensures |a + b| <= |a| + |b|
  {
    assert a + b == a + (b - a);
    SmallerWaits(b - a, b);
  }

  /** The send goes through. */
  predicate Smooth(a: Action) {
    a.Send? ==> a.result.Delivered?
  }

  lemma ClearSend(s: State, r: nat, bound: int)
    requires Clear(s, bound) && r < |s.relays|
    ensures Clear(StepSend(s, r, Delivered), bound)
  {
    var s' := StepSend(s, r, Delivered);
    forall q | 0 <= q < |s'.relays| ensures MarksBy(s'.relays[q], bound) {
      assert MarksBy(s.relays[q], bound);
    }
  }

  /** Sends that go through schedule no retry, whoever makes them. */
  lemma ClearStep(s: State, a: Action, bound: int)
    requires Clear(s, bound) && RelaysOk(s) && Smooth(a)
    ensures Clear(Step(s, a), bound)
  {
    match a
    case Enqueue(events) => InsertSoon(s.rows, events, s.now, bound);
    case Send(r, result) => if r < |s.relays| { ClearSend(s, r, bound); }
    case CommitBatch(r) =>
      if r < |s.relays| && s.relays[r].Batch? && |s.relays[r].marks| == |s.relays[r].ids| {
        assert MarksBy(s.relays[r], bound);
        ApplySoon(s.rows, s.relays[r].ids, s.relays[r].marks, bound);
      }
    case _ =>
  }
}
