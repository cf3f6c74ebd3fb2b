/** The whole money path: idempotent calls whose work is a deposit or a round, the tables that work
    commits to, the outbox rows it commits along, and the broker log a consumer reads. */
module EndToEnd {
  import opened Decimals
  import opened Wrappers
  import Idempotency
  import Casino
  import Engine
  import Outbox
  import OutboxService
  import Replay

  type Config = Casino.Config
  type Event = Outbox.Event
  type Slot = Idempotency.Slot
  type Ids = set<Outbox.EventId>

  datatype State = State(calls: Idempotency.State, casino: Casino.State, outbox: Outbox.State)

  /** A deposit or round commits together with its call's `mark_completed` and its outbox rows;
      everything else moves one of the three machines alone. */
  datatype Action =
    | Call(call: Idempotency.Action)
    | Table(move: Casino.Action)
    | Deliver(step: Outbox.Action)
    | CommitWork(pid: nat, tx: nat, body: Idempotency.Json)

  predicate IsMoney(tx: Casino.Tx) {
    tx.Deposited? || tx.Paid?
  }

  function SlotOf(tx: Casino.Tx): Slot
    requires IsMoney(tx)
  {
    if tx.Deposited? then Idempotency.Slot(tx.user, tx.key) else Idempotency.Slot(tx.spin.user, tx.spin.key)
  }

  predicate CommitsMoney(s: Casino.State, a: Casino.Action) {
    a.Commit? && a.tx < |s.txs| && IsMoney(s.txs[a.tx])
  }

  /** The balance a deposit or round leaves, which is the one its response carries. */
  function BalanceOf(tx: Casino.Tx): int
    requires IsMoney(tx)
  {
    if tx.Deposited? then tx.after else if tx.afterPayout.Some? then tx.afterPayout.value else tx.spin.afterStake
  }

  function Shown(n: int): string {
    if n >= 0 then Decimal(n) else "-" + Decimal(-n)
  }

  /** A response body that reports this balance, among other things. */
  predicate ReportsBalance(body: Idempotency.Json, balance: int) {
    "balance_minor" in body && body["balance_minor"] == Shown(balance)
  }

  predicate WorkReady(s: State, pid: nat, tx: nat, body: Idempotency.Json) {
    && pid < |s.calls.procs| && s.calls.procs[pid].pc.Holding?
    && tx < |s.casino.txs| && IsMoney(s.casino.txs[tx]) && SlotOf(s.casino.txs[tx]) == s.calls.procs[pid].slot
    && ReportsBalance(body, BalanceOf(s.casino.txs[tx]))
  }

  function NewEvents(before: seq<Event>, after: seq<Event>): seq<Event> {
    if |before| <= |after| then after[|before|..] else []
  }

  ghost function Step(c: Config, s: State, a: Action): State {
    match a
    case Call(call) => if call.Commit? then s else s.(calls := Idempotency.Step(s.calls, call))
    case Table(move) => if CommitsMoney(s.casino, move) then s else s.(casino := Casino.Step(c, s.casino, move))
    case Deliver(step) => if step.Enqueue? then s else s.(outbox := Outbox.Step(s.outbox, step))
    case CommitWork(pid, tx, body) =>
      if !WorkReady(s, pid, tx, body) then s
      else
        var casino := Casino.Step(c, s.casino, Casino.Commit(tx, [], ""));
        State(Idempotency.Step(s.calls, Idempotency.Commit(pid, body)), casino,
              Outbox.Step(s.outbox, Outbox.Enqueue(NewEvents(s.casino.issued, casino.issued))))
  }

  ghost function Run(c: Config, s: State, actions: seq<Action>): State
    decreases |actions|
  {
    if actions == [] then s
    else Step(c, Run(c, s, actions[..|actions| - 1]), actions[|actions| - 1])
  }

  ghost predicate Init(c: Config, s: State) {
    Idempotency.Init(s.calls) && Casino.Init(s.casino) && Outbox.Init(s.outbox) && c.minBet.minor >= 1
  }

  // ------------------------------------------------------------ deposits and rounds per key

  /** The one event that every deposit and every round issues exactly once. */
  predicate IsSettlement(e: Event, slot: Slot) {
    e.idempotencyKey == slot.key &&
    match e.data
    case RoundSettled(_, user, _, _, _, _, _, _, _) => user == slot.user
    case WalletTransaction(_, user, kind, _, _, _) => user == slot.user && kind.DepositKind?
    case _ => false
  }

  /** How many deposits and rounds were committed for a user under an idempotency key. */
  function Settlements(events: seq<Event>, slot: Slot): nat {
    if events == [] then 0
    else Settlements(events[..|events| - 1], slot) + if IsSettlement(events[|events| - 1], slot) then 1 else 0
  }

  lemma SettlementsAppend(events: seq<Event>, e: Event, slot: Slot)
    ensures Settlements(events + [e], slot) == Settlements(events, slot) + if IsSettlement(e, slot) then 1 else 0
  {
    assert (events + [e])[..|events|] == events;
  }

  lemma {:induction false} SettlementsConcat(a: seq<Event>, b: seq<Event>, slot: Slot)
    ensures Settlements(a + b, slot) == Settlements(a, slot) + Settlements(b, slot)
  {
    if b == [] {
      assert a + b == a;
    } else {
      SettlementsConcat(a, b[..|b| - 1], slot);
      assert (a + b)[..|a + b| - 1] == a + b[..|b| - 1];
    }
  }

  lemma {:induction false} NoSettlements(events: seq<Event>, slot: Slot)
    requires forall i :: 0 <= i < |events| ==> !IsSettlement(events[i], slot)
    ensures Settlements(events, slot) == 0
  {
    if events != [] {
      NoSettlements(events[..|events| - 1], slot);
    }
  }

  /** A round issues one settlement, on its own key. */
  lemma RoundSettlesOnce(spin: Casino.Spin, afterPayout: Option<int>, id: nat, slot: Slot)
    ensures Settlements(Casino.RoundEvents(spin, afterPayout, id), slot)
            == if slot == Idempotency.Slot(spin.user, spin.key) then 1 else 0
  {
    hide Settlements, Engine.TotalStake, Engine.TotalPayout;
    var events := Casino.RoundEvents(spin, afterPayout, id);
    var n := |spin.bets|;
    assert events == events[..n] + [events[n]] + events[n + 1..];
    SettlementsConcat(events[..n] + [events[n]], events[n + 1..], slot);
    SettlementsAppend(events[..n], events[n], slot);
    NoSettlements(events[..n], slot);
    NoSettlements(events[n + 1..], slot);
  }

  /** What a money commit issues. */
  lemma {:induction false} MoneyCommit(c: Config, s: Casino.State, t: nat, slot: Slot)
    requires Casino.Inv(c, s) && t < |s.txs| && IsMoney(s.txs[t])
    ensures var s' := Casino.Step(c, s, Casino.Commit(t, [], ""));
            && s.issued <= s'.issued
            && Settlements(s'.issued, slot) == Settlements(s.issued, slot) + if slot == SlotOf(s.txs[t]) then 1 else 0
  {
    hide Settlements, Casino.RoundEvents, Casino.RoundEntries, Casino.Inv;
    if s.txs[t].Deposited? {
      SettlementsAppend(s.issued, Casino.CommitDeposit(s, t).issued[|s.issued|], slot);
    } else {
      PaidPair(c, s, t);
      var spin, after := s.txs[t].spin, s.txs[t].afterPayout;
      RoundSettlesOnce(spin, after, s.nextId, slot);
      SettlementsConcat(s.issued, Casino.RoundEvents(spin, after, s.nextId), slot);
    }
  }

  lemma PaidPair(c: Config, s: Casino.State, t: nat)
    requires Casino.Inv(c, s) && t < |s.txs| && s.txs[t].Paid?
    ensures s.txs[t].spin.pairId in s.pairs
  {
    Casino.TxIsOk(c, s, t);
    Casino.PaidSpinOk(c, s.wallets, s.pairs, s.txs[t]);
  }

  lemma CallLogs(s: Idempotency.State, pid: nat, body: Idempotency.Json, slot: Slot)
    requires pid < |s.procs| && s.procs[pid].pc.Holding?
    ensures Idempotency.Executions(Idempotency.Step(s, Idempotency.Commit(pid, body)).log, slot)
            == Idempotency.Executions(s.log, slot) + if slot == s.procs[pid].slot then 1 else 0
  {
    hide Idempotency.Executions;
    var e := Idempotency.Execution(s.procs[pid].slot, s.procs[pid].hash, body, s.procs[pid].pc.id in s.rows);
    assert Idempotency.Step(s, Idempotency.Commit(pid, body)).log == s.log + [e];
    Idempotency.ExecutionsAppend(s.log, e, slot);
  }

  lemma CallsOnlyLogCommits(s: Idempotency.State, a: Idempotency.Action)
    requires !a.Commit?
    ensures Idempotency.Step(s, a).log == s.log
  {
  }

  lemma TableOnlyIssuesMoney(c: Config, s: Casino.State, a: Casino.Action)
    requires !CommitsMoney(s, a)
    ensures Casino.Step(c, s, a).issued == s.issued
  {
    if !a.Register? && !a.Commit? {
      Casino.OnlyCommitsWrite(c, s, a);
    }
  }

  lemma DeliveryIssuesNothing(s: Outbox.State, a: Outbox.Action)
    requires !a.Enqueue?
    ensures Outbox.Step(s, a).issued == s.issued
  {
  }

  // ------------------------------------------------------------ the invariant

  /** The wallet.transaction event of some committed entry of this user and key, with this balance. */
  predicate IsReceipt(e: Event, slot: Slot, body: Idempotency.Json) {
    && e.idempotencyKey == slot.key && e.data.WalletTransaction? && e.data.user == slot.user
    && ReportsBalance(body, e.data.balanceAfter)
  }

  ghost predicate Receipted(issued: seq<Event>, slot: Slot, body: Idempotency.Json) {
    exists j :: 0 <= j < |issued| && IsReceipt(issued[j], slot, body)
  }

  /** The outbox received exactly what was committed, every committed deposit or round is one
      committed execution of an idempotent call, and the body of that execution reports it. */
  ghost predicate Linked(s: State) {
    && s.outbox.issued == s.casino.issued
    && (forall slot :: Settlements(s.casino.issued, slot) == Idempotency.Executions(s.calls.log, slot))
    && forall i :: 0 <= i < |s.calls.log| ==> Receipted(s.casino.issued, s.calls.log[i].slot, s.calls.log[i].body)
  }

  ghost predicate Inv(c: Config, s: State) {
    Idempotency.Inv(s.calls) && Casino.Inv(c, s.casino) && Outbox.Inv(s.outbox) && Linked(s)
  }

  lemma NewAreFresh(c: Config, s: Casino.State, before: seq<Event>)
    requires Casino.Inv(c, s) && before <= s.issued
    ensures Outbox.FreshEvents(before, NewEvents(before, s.issued))
    ensures before + NewEvents(before, s.issued) == s.issued
  {
    Casino.Parts(c, s);
    hide Casino.Inv;
    var added := NewEvents(before, s.issued);
    forall i, j | 0 <= i < j < |added| ensures added[i].eventId != added[j].eventId {
      assert added[i] == s.issued[|before| + i] && added[j] == s.issued[|before| + j];
    }
    forall i, j | 0 <= i < |before| && 0 <= j < |added| ensures before[i].eventId != added[j].eventId {
      assert before[i] == s.issued[i] && added[j] == s.issued[|before| + j];
    }
  }

  lemma {:induction false} CommitWorkKeeps(c: Config, s: State, pid: nat, tx: nat, body: Idempotency.Json)
    requires Inv(c, s) && WorkReady(s, pid, tx, body)
    ensures Inv(c, Step(c, s, CommitWork(pid, tx, body)))
  {
    hide Idempotency.Inv, Casino.Inv, Outbox.Inv, Idempotency.Step, Casino.Step, Settlements, Idempotency.Executions,
         Outbox.FreshEvents, NewEvents;
    var s' := Step(c, s, CommitWork(pid, tx, body));
    Idempotency.StepKeeps(s.calls, Idempotency.Commit(pid, body));
    Casino.StepKeeps(c, s.casino, Casino.Commit(tx, [], ""));
    MoneyCommit(c, s.casino, tx, SlotOf(s.casino.txs[tx]));
    NewAreFresh(c, s'.casino, s.casino.issued);
    Outbox.EnqueueKeeps(s.outbox, NewEvents(s.casino.issued, s'.casino.issued));
    forall slot ensures Settlements(s'.casino.issued, slot) == Idempotency.Executions(s'.calls.log, slot) {
      MoneyCommit(c, s.casino, tx, slot);
      CallLogs(s.calls, pid, body, slot);
    }
    MoneyReceipt(c, s.casino, tx, body);
    CallAppends(s.calls, pid, body);
    forall i | 0 <= i < |s'.calls.log|
      ensures Receipted(s'.casino.issued, s'.calls.log[i].slot, s'.calls.log[i].body)
    {
      if i < |s.calls.log| {
        assert Receipted(s.casino.issued, s.calls.log[i].slot, s.calls.log[i].body);
        ReceiptStays(s.casino.issued, s'.casino.issued, s.calls.log[i].slot, s.calls.log[i].body);
      }
    }
  }

  lemma ReceiptStays(before: seq<Event>, after: seq<Event>, slot: Slot, body: Idempotency.Json)
    requires before <= after && Receipted(before, slot, body)
    ensures Receipted(after, slot, body)
  {
    var j :| 0 <= j < |before| && IsReceipt(before[j], slot, body);
    assert after[j] == before[j];
  }

  /** The last event a money commit issues carries the balance it leaves. */
  lemma MoneyReceipt(c: Config, s: Casino.State, t: nat, body: Idempotency.Json)
    requires Casino.Inv(c, s) && t < |s.txs| && IsMoney(s.txs[t]) && ReportsBalance(body, BalanceOf(s.txs[t]))
    ensures Receipted(Casino.Step(c, s, Casino.Commit(t, [], "")).issued, SlotOf(s.txs[t]), body)
  {
    hide ReportsBalance, Casino.Inv, Casino.PlacedEvents, Engine.TotalStake, Engine.TotalPayout;
    var slot := SlotOf(s.txs[t]);
    if s.txs[t].Deposited? {
      var after := Casino.CommitDeposit(s, t).issued;
      assert IsReceipt(after[|s.issued|], slot, body);
    } else {
      PaidPair(c, s, t);
      var after := Casino.CommitRound(s, t).issued;
      assert IsReceipt(after[|after| - 1], slot, body);
    }
  }

  lemma CallAppends(s: Idempotency.State, pid: nat, body: Idempotency.Json)
    requires pid < |s.procs| && s.procs[pid].pc.Holding?
    ensures var log := Idempotency.Step(s, Idempotency.Commit(pid, body)).log;
            && |log| == |s.log| + 1 && s.log <= log
            && log[|s.log|].slot == s.procs[pid].slot && log[|s.log|].body == body
  {
  }

  lemma StepKeeps(c: Config, s: State, a: Action)
    requires Inv(c, s)
    ensures Inv(c, Step(c, s, a))
  {
    hide Idempotency.Inv, Casino.Inv, Outbox.Inv, Idempotency.Step, Casino.Step, Outbox.Step, Settlements,
         Idempotency.Executions;
    match a
    case Call(call) =>
      if !call.Commit? {
        Idempotency.StepKeeps(s.calls, call);
        CallsOnlyLogCommits(s.calls, call);
      }
    case Table(move) =>
      if !CommitsMoney(s.casino, move) {
        Casino.StepKeeps(c, s.casino, move);
        TableOnlyIssuesMoney(c, s.casino, move);
      }
    case Deliver(step) =>
      if !step.Enqueue? {
        Outbox.StepKeeps(s.outbox, step);
        DeliveryIssuesNothing(s.outbox, step);
      }
    case CommitWork(pid, tx, body) =>
      if WorkReady(s, pid, tx, body) {
        CommitWorkKeeps(c, s, pid, tx, body);
      }
  }

  lemma InitKeeps(c: Config, s: State)
    requires Init(c, s)
    ensures Inv(c, s)
  {
    Idempotency.RunKeeps(s.calls, []);
    Casino.InitKeeps(c, s.casino);
    Outbox.InitInv(s.outbox);
    hide Idempotency.Inv, Casino.Inv, Outbox.Inv;
  }

  lemma {:induction false} RunKeeps(c: Config, s: State, actions: seq<Action>)
    requires Init(c, s)
    ensures Inv(c, Run(c, s, actions))
  {
    hide Inv, Step;
    if actions == [] {
      InitKeeps(c, s);
    } else {
      RunKeeps(c, s, actions[..|actions| - 1]);
      StepKeeps(c, Run(c, s, actions[..|actions| - 1]), actions[|actions| - 1]);
    }
  }

  // ------------------------------------------------------------ charged at most once

  /** Retries of one request move money at most once more than the reclaims that removed a row. */
  lemma {:induction false} ChargesBounded(c: Config, s: State, actions: seq<Action>, slot: Slot)
    requires Init(c, s)
    ensures var t := Run(c, s, actions); Settlements(t.casino.issued, slot) <= 1 + t.calls.reclaims[slot]
  {
    RunKeeps(c, s, actions);
    assert Idempotency.Balanced(Run(c, s, actions).calls, slot);
  }

  /** Work commits at most `limit` after its reservation was created, and a call that found a pending
      row looks at the clock at most `d` after reading it. */
  ghost predicate Prompt(s: State, a: Action, limit: nat, d: nat) {
    match a
    case Call(call) => call.Commit? || Idempotency.Timely(s.calls, call, limit, d)
    case CommitWork(pid, _, body) => Idempotency.Timely(s.calls, Idempotency.Commit(pid, body), limit, d)
    case _ => true
  }

  ghost predicate PromptRun(c: Config, s: State, actions: seq<Action>, limit: nat, d: nat)
    decreases |actions|
  {
    actions == [] ||
    (var n := |actions| - 1;
     PromptRun(c, s, actions[..n], limit, d) && Prompt(Run(c, s, actions[..n]), actions[n], limit, d))
  }

  lemma {:induction false} PromptRunKeeps(c: Config, s: State, actions: seq<Action>, limit: nat, d: nat)
    requires Init(c, s) && PromptRun(c, s, actions, limit, d) && limit + d <= Idempotency.PENDING_RECLAIM
    ensures Idempotency.TimelyInv(Run(c, s, actions).calls, limit)
  {
    hide Inv, Casino.Step, Outbox.Step, Idempotency.Step, Idempotency.TimelyInv, Idempotency.Timely;
    if actions == [] {
      Idempotency.TimelyRunKeeps(s.calls, [], limit, d);
    } else {
      var n := |actions| - 1;
      PromptRunKeeps(c, s, actions[..n], limit, d);
      RunKeeps(c, s, actions[..n]);
      var t := Run(c, s, actions[..n]);
      CallsOk(c, t);
      match actions[n]
      case Call(call) => if !call.Commit? { Idempotency.TimelyStep(t.calls, call, limit, d); }
      case CommitWork(pid, _, body) => Idempotency.TimelyStep(t.calls, Idempotency.Commit(pid, body), limit, d);
      case _ =>
    }
  }

  lemma CallsOk(c: Config, s: State)
    requires Inv(c, s)
    ensures Idempotency.Inv(s.calls)
  {
  }

  /** With prompt work, however often a request is retried, by however many concurrent calls,
      through crashes and rollbacks, its deposit or round is committed at most once. */
  lemma ChargedAtMostOnce(c: Config, s: State, actions: seq<Action>, limit: nat, d: nat, slot: Slot)
    requires Init(c, s) && PromptRun(c, s, actions, limit, d) && limit + d <= Idempotency.PENDING_RECLAIM
    ensures Settlements(Run(c, s, actions).casino.issued, slot) <= 1
  {
    PromptRunKeeps(c, s, actions, limit, d);
    RunKeeps(c, s, actions);
    assert Idempotency.Balanced(Run(c, s, actions).calls, slot);
  }

  ghost predicate Succeeded(s: State, pid: nat) {
    pid < |s.calls.procs| && s.calls.procs[pid].pc.Done? && s.calls.procs[pid].pc.outcome.Returned?
  }

  /** A success means at least one deposit or round under its key. */
  lemma {:induction false} SuccessIsCharged(c: Config, s: State, pid: nat)
    requires Inv(c, s) && Succeeded(s, pid)
    ensures Settlements(s.casino.issued, s.calls.procs[pid].slot) >= 1
  {
    hide Settlements, Idempotency.Executions, Idempotency.Inv, Casino.Inv, Outbox.Inv;
    var slot := s.calls.procs[pid].slot;
    ReturnedWasLogged(s.calls, pid);
    var i :| 0 <= i < |s.calls.log| && s.calls.log[i].slot == slot
             && s.calls.log[i].body == s.calls.procs[pid].pc.outcome.body;
    Idempotency.ExecutionsAtLeast(s.calls.log, i, slot);
  }

  /** A successful call under prompt work, first or replayed, means exactly one deposit or round. */
  lemma {:induction false} SuccessIsOneCharge(c: Config, s: State, actions: seq<Action>, limit: nat, d: nat, pid: nat)
    requires Init(c, s) && PromptRun(c, s, actions, limit, d) && limit + d <= Idempotency.PENDING_RECLAIM
    requires Succeeded(Run(c, s, actions), pid)
    ensures var t := Run(c, s, actions); Settlements(t.casino.issued, t.calls.procs[pid].slot) == 1
  {
    hide PromptRun, Run, Init, Inv, Settlements;
    RunKeeps(c, s, actions);
    SuccessIsCharged(c, Run(c, s, actions), pid);
    ChargedAtMostOnce(c, s, actions, limit, d, Run(c, s, actions).calls.procs[pid].slot);
  }

  /** Without any timing: every reclaim that removes a row finds it pending and nobody at work on it. */
  ghost predicate CleanRun(c: Config, s: State, actions: seq<Action>)
    decreases |actions|
  {
    actions == [] ||
    (var n := |actions| - 1;
     && CleanRun(c, s, actions[..n])
     && (actions[n].Call? ==> Idempotency.CleanStep(Run(c, s, actions[..n]).calls, actions[n].call)))
  }

  lemma {:induction false} CleanRunKeeps(c: Config, s: State, actions: seq<Action>)
    requires Init(c, s) && CleanRun(c, s, actions)
    ensures Idempotency.CleanInv(Run(c, s, actions).calls)
  {
    hide Inv, Casino.Step, Outbox.Step, Idempotency.Step, Idempotency.CleanInv;
    if actions == [] {
      Idempotency.CleanRunKeeps(s.calls, []);
    } else {
      var n := |actions| - 1;
      CleanRunKeeps(c, s, actions[..n]);
      RunKeeps(c, s, actions[..n]);
      var t := Run(c, s, actions[..n]);
      CallsOk(c, t);
      match actions[n]
      case Call(call) => Idempotency.CleanStepKeeps(t.calls, call);
      case CommitWork(pid, _, body) => Idempotency.CleanStepKeeps(t.calls, Idempotency.Commit(pid, body));
      case _ =>
    }
  }

  /** However slow the work and the readers, a key is charged at most once while reclaims only ever
      remove the rows of owners that ended without committing. */
  lemma CleanChargedAtMostOnce(c: Config, s: State, actions: seq<Action>, slot: Slot)
    requires Init(c, s) && CleanRun(c, s, actions)
    ensures Settlements(Run(c, s, actions).casino.issued, slot) <= 1
  {
    CleanRunKeeps(c, s, actions);
    RunKeeps(c, s, actions);
    assert Idempotency.Balanced(Run(c, s, actions).calls, slot);
  }

  lemma {:induction false} CleanSuccessIsOneCharge(c: Config, s: State, actions: seq<Action>, pid: nat)
    requires Init(c, s) && CleanRun(c, s, actions) && Succeeded(Run(c, s, actions), pid)
    ensures var t := Run(c, s, actions); Settlements(t.casino.issued, t.calls.procs[pid].slot) == 1
  {
    hide CleanRun, Run, Init, Inv, Settlements;
    RunKeeps(c, s, actions);
    SuccessIsCharged(c, Run(c, s, actions), pid);
    CleanChargedAtMostOnce(c, s, actions, Run(c, s, actions).calls.procs[pid].slot);
  }

  /** After a success every other call with the key is answered from it: it collides, and is told the
      same body, or a conflict when its request differs.  Prompt work and readers guarantee that, and so
      do clean reclaims without any timing. */
  lemma {:induction false} RetriesReplay(c: Config, s: State, actions: seq<Action>, limit: nat, d: nat, p: nat, q: nat,
                                         b: Idempotency.Json)
    requires Init(c, s)
    requires CleanRun(c, s, actions)
             || (PromptRun(c, s, actions, limit, d) && limit + d <= Idempotency.PENDING_RECLAIM)
    requires q < |Run(c, s, actions).calls.procs|
    requires Run(c, s, actions).calls.procs[q].pc == Idempotency.Done(Idempotency.Returned(b))
    ensures var calls := Run(c, s, actions).calls;
            Replay.Replays(calls, p, calls.procs[q].slot, calls.procs[q].hash, b)
  {
    hide Run, Init, Inv, PromptRun, CleanRun, Replay.Replays, Idempotency.Inv, Idempotency.TimelyProc;
    RunKeeps(c, s, actions);
    CallsOk(c, Run(c, s, actions));
    if CleanRun(c, s, actions) {
      CleanRunKeeps(c, s, actions);
    } else {
      PromptRunKeeps(c, s, actions, limit, d);
    }
    Replay.SuccessReplays(Run(c, s, actions).calls, p, q, b);
  }

  lemma {:induction false} ReturnedWasLogged(s: Idempotency.State, pid: nat)
    requires Idempotency.Inv(s) && pid < |s.procs| && s.procs[pid].pc.Done? && s.procs[pid].pc.outcome.Returned?
    ensures exists i ::
              0 <= i < |s.log| && s.log[i].slot == s.procs[pid].slot && s.log[i].body == s.procs[pid].pc.outcome.body
  {
    assert Idempotency.ProcOk(s, s.procs[pid]);
  }

  // ------------------------------------------------------------ charged twice beyond the threshold

  type Race = Idempotency.Race

  function Receipt(balance: int): Idempotency.Json {
    map["balance_minor" := Shown(balance)]
  }

  /** Two calls with one key, each to deposit 1. */
  function TwoDeposits(limit: nat, d: nat): Race {
    Idempotency.Race(limit, d, Receipt(1), Receipt(2))
  }

  function SlowAction(w: Race, k: nat): Action {
    if k == 0 then Table(Casino.Register(1, [], ""))
    else if k <= 4 then Call(Idempotency.SlowAction(w, k - 1))
    else if k == 5 then Table(Casino.Credit(0, 1, "key", 1))
    else if k == 6 then CommitWork(0, 0, w.first)
    else if k <= 10 then Call(Idempotency.SlowAction(w, k - 2))
    else if k == 11 then Table(Casino.Credit(1, 1, "key", 1))
    else CommitWork(1, 1, w.second)
  }

  function SlowActions(w: Race, n: nat): seq<Action> {
    if n == 0 then [] else SlowActions(w, n - 1) + [SlowAction(w, n - 1)]
  }

  function SlowStart(w: Race): State {
    State(Idempotency.SlowState(w, 0),
          Casino.State(map[], map[], [], [], [], [Casino.Idle, Casino.Idle], 0),
          Outbox.State(0, map[], [], [], [], {}, multiset{}, multiset{}, multiset{}))
  }

  /** The state of the calls, the balance of the one wallet, and the open transactions. */
  ghost predicate Stage(s: State, calls: Idempotency.State, balance: int, txs: seq<Casino.Tx>) {
    s.calls == calls && s.casino.wallets == map[1 := balance] && s.casino.txs == txs
  }

  /** The first `n` actions are prompt, and lead to this stage, with no transaction open. */
  ghost predicate Reached(c: Config, w: Race, n: nat, calls: Idempotency.State, balance: int) {
    && PromptRun(c, SlowStart(w), SlowActions(w, n), w.limit, w.d)
    && Stage(Run(c, SlowStart(w), SlowActions(w, n)), calls, balance, [Casino.Idle, Casino.Idle])
  }

  lemma RegisterStage(c: Config, w: Race)
    ensures Stage(Step(c, SlowStart(w), SlowAction(w, 0)), Idempotency.SlowState(w, 0), 0, [Casino.Idle, Casino.Idle])
  {
    hide Idempotency.SlowState;
  }

  lemma CreditStage(c: Config, s: State, t: nat, calls: Idempotency.State, balance: int)
    requires t < 2 && Stage(s, calls, balance, [Casino.Idle, Casino.Idle])
    ensures Stage(Step(c, s, Table(Casino.Credit(t, 1, "key", 1))), calls, balance,
                  [Casino.Idle, Casino.Idle][t := Casino.Deposited(1, "key", 1, balance + 1)])
  {
    Casino.IdleHoldsNothing();
    assert !Casino.WalletLocked(s.casino.txs, 1);
  }

  lemma WorkStage(c: Config, s: State, t: nat, calls: Idempotency.State, balance: int, body: Idempotency.Json)
    requires t < 2 && ReportsBalance(body, balance + 1)
    requires Stage(s, calls, balance, [Casino.Idle, Casino.Idle][t := Casino.Deposited(1, "key", 1, balance + 1)])
    requires |calls.procs| == 2 && calls.procs[t].pc.Holding? && calls.procs[t].slot == Idempotency.DOUBLE_SLOT
    ensures Stage(Step(c, s, CommitWork(t, t, body)), Idempotency.Step(calls, Idempotency.Commit(t, body)), balance + 1,
                  [Casino.Idle, Casino.Idle])
  {
    hide Idempotency.Step, Outbox.Step, ReportsBalance;
    assert WorkReady(s, t, t, body);
    var s' := Step(c, s, CommitWork(t, t, body));
    assert s'.casino.wallets == map[1 := balance + 1];
    assert s'.casino.txs == [Casino.Idle, Casino.Idle];
  }

  lemma SlowExtends(c: Config, w: Race, n: nat)
    requires PromptRun(c, SlowStart(w), SlowActions(w, n), w.limit, w.d)
    requires Prompt(Run(c, SlowStart(w), SlowActions(w, n)), SlowAction(w, n), w.limit, w.d)
    ensures var actions := SlowActions(w, n + 1);
            && Run(c, SlowStart(w), actions)
               == Step(c, Run(c, SlowStart(w), SlowActions(w, n)), SlowAction(w, n))
            && PromptRun(c, SlowStart(w), actions, w.limit, w.d)
  {
    hide SlowAction, SlowStart, Step, Prompt;
    var actions := SlowActions(w, n + 1);
    assert actions[..|actions| - 1] == SlowActions(w, n);
  }

  lemma SlowRegisters(c: Config, w: Race)
    ensures Reached(c, w, 1, Idempotency.SlowState(w, 0), 0)
  {
    hide SlowStart, Stage, Step, Idempotency.SlowState;
    assert Run(c, SlowStart(w), SlowActions(w, 0)) == SlowStart(w);
    SlowExtends(c, w, 0);
    RegisterStage(c, w);
  }

  /** A step of the calls alone. */
  lemma SlowCall(c: Config, w: Race, n: nat, k: nat, balance: int)
    requires k < 9 && k != 4 && Idempotency.SlowFollows(w, k)
    requires SlowAction(w, n) == Call(Idempotency.SlowAction(w, k))
    requires Reached(c, w, n, Idempotency.SlowState(w, k), balance)
    ensures Reached(c, w, n + 1, Idempotency.SlowState(w, k + 1), balance)
  {
    hide SlowStart, SlowActions, SlowAction, Run, PromptRun, Idempotency.SlowState, Idempotency.Step,
         Idempotency.Timely;
    SlowExtends(c, w, n);
  }

  /** A credit and the commit of its work. */
  lemma SlowDeposit(c: Config, w: Race, n: nat, t: nat, calls: Idempotency.State, balance: int, body: Idempotency.Json)
    requires t < 2 && SlowAction(w, n) == Table(Casino.Credit(t, 1, "key", 1))
    requires SlowAction(w, n + 1) == CommitWork(t, t, body) && ReportsBalance(body, balance + 1)
    requires Reached(c, w, n, calls, balance)
    requires |calls.procs| == 2 && calls.procs[t].pc.Holding? && calls.procs[t].slot == Idempotency.DOUBLE_SLOT
    requires Idempotency.Timely(calls, Idempotency.Commit(t, body), w.limit, w.d)
    ensures Reached(c, w, n + 2, Idempotency.Step(calls, Idempotency.Commit(t, body)), balance + 1)
  {
    hide SlowStart, SlowActions, Run, PromptRun, Stage, Step, Idempotency.Step, Idempotency.Timely, SlowAction,
         ReportsBalance;
    SlowExtends(c, w, n);
    CreditStage(c, Run(c, SlowStart(w), SlowActions(w, n)), t, calls, balance);
    var staked := [Casino.Idle, Casino.Idle][t := Casino.Deposited(1, "key", 1, balance + 1)];
    StageCalls(Run(c, SlowStart(w), SlowActions(w, n + 1)), calls, balance, staked);
    SlowExtends(c, w, n + 1);
    WorkStage(c, Run(c, SlowStart(w), SlowActions(w, n + 1)), t, calls, balance, body);
  }

  lemma StageCalls(s: State, calls: Idempotency.State, balance: int, txs: seq<Casino.Tx>)
    requires Stage(s, calls, balance, txs)
    ensures s.calls == calls
  {
  }

  /** Whoever commits next holds a reservation. */
  lemma SlowHolders(w: Race)
    ensures var first, second := Idempotency.SlowState(w, 4).procs, Idempotency.SlowState(w, 9).procs;
            && |first| == 2 && first[0].pc.Holding? && first[0].slot == Idempotency.DOUBLE_SLOT
            && |second| == 2 && second[1].pc.Holding? && second[1].slot == Idempotency.DOUBLE_SLOT
  {
  }

  lemma SlowFirstCharge(c: Config, w: Race)
    requires w.limit + w.d > Idempotency.PENDING_RECLAIM && ReportsBalance(w.first, 1)
    ensures Reached(c, w, 7, Idempotency.SlowState(w, 5), 1)
  {
    hide Reached, Idempotency.SlowState, Idempotency.Step, Idempotency.Timely, ReportsBalance;
    SlowRegisters(c, w);
    Idempotency.SlowBegins(w);
    Idempotency.SlowCollides(w);
    SlowCall(c, w, 1, 0, 0);
    SlowCall(c, w, 2, 1, 0);
    SlowCall(c, w, 3, 2, 0);
    SlowCall(c, w, 4, 3, 0);
    SlowHolders(w);
    Idempotency.SlowCommits(w);
    SlowDeposit(c, w, 5, 0, Idempotency.SlowState(w, 4), 0, w.first);
  }

  lemma SlowSecondCharge(c: Config, w: Race)
    requires w.limit + w.d > Idempotency.PENDING_RECLAIM && ReportsBalance(w.second, 2)
    requires Reached(c, w, 7, Idempotency.SlowState(w, 5), 1)
    ensures Reached(c, w, 13, Idempotency.SlowState(w, 10), 2)
  {
    hide Reached, Idempotency.SlowState, Idempotency.Step, Idempotency.Timely, ReportsBalance;
    Idempotency.SlowJudges(w);
    Idempotency.SlowEnding(w);
    SlowCall(c, w, 7, 5, 1);
    SlowCall(c, w, 8, 6, 1);
    SlowCall(c, w, 9, 7, 1);
    SlowCall(c, w, 10, 8, 1);
    SlowHolders(w);
    SlowDeposit(c, w, 11, 1, Idempotency.SlowState(w, 9), 1, w.second);
  }

  /** The run: register, reserve, collide and read, deposit, judge, reclaim, reserve, deposit. */
  lemma SlowChargesTwice(c: Config, limit: nat, d: nat)
    requires limit + d > Idempotency.PENDING_RECLAIM && c.minBet.minor >= 1
    ensures var s, actions := SlowStart(TwoDeposits(limit, d)), SlowActions(TwoDeposits(limit, d), 13);
            && Init(c, s) && PromptRun(c, s, actions, limit, d)
            && Settlements(Run(c, s, actions).casino.issued, Idempotency.DOUBLE_SLOT) == 2
  {
    hide SlowStart, SlowActions, Run, PromptRun, Init, Settlements, Idempotency.Executions, Idempotency.SlowState,
         Inv, Shown;
    var w := TwoDeposits(limit, d);
    SlowInit(c, w);
    SlowFirstCharge(c, w);
    SlowSecondCharge(c, w);
    Idempotency.SlowEnds(w);
    RunKeeps(c, SlowStart(w), SlowActions(w, 13));
    ChargesAreExecutions(c, Run(c, SlowStart(w), SlowActions(w, 13)), Idempotency.DOUBLE_SLOT);
  }

  lemma SlowInit(c: Config, w: Race)
    requires c.minBet.minor >= 1
    ensures Init(c, SlowStart(w))
  {
  }

  lemma ChargesAreExecutions(c: Config, s: State, slot: Slot)
    requires Inv(c, s)
    ensures Settlements(s.casino.issued, slot) == Idempotency.Executions(s.calls.log, slot)
  {
  }

  /** The promise to the client, for work that never takes longer than `limit` and readers that never
      take longer than `d`. */
  ghost predicate ChargesOnceWithin(c: Config, limit: nat, d: nat) {
    forall s, actions, slot ::
      Init(c, s) && PromptRun(c, s, actions, limit, d) ==> Settlements(Run(c, s, actions).casino.issued, slot) <= 1
  }

  /** Retried requests move money at most once exactly when work and the reader of its row cannot
      together outlive the reclaim threshold. */
  lemma {:induction false} ChargesOnceExactly(c: Config, limit: nat, d: nat)
    requires c.minBet.minor >= 1
    ensures ChargesOnceWithin(c, limit, d) <==> limit + d <= Idempotency.PENDING_RECLAIM
  {
    hide Init, PromptRun, Settlements, Run;
    if limit + d <= Idempotency.PENDING_RECLAIM {
      forall s, actions, slot | Init(c, s) && PromptRun(c, s, actions, limit, d)
        ensures Settlements(Run(c, s, actions).casino.issued, slot) <= 1
      {
        ChargedAtMostOnce(c, s, actions, limit, d, slot);
      }
    } else {
      SlowChargesTwice(c, limit, d);
    }
  }

  // ------------------------------------------------------------ the ledger and the broker log

  /** The wallet.transaction events, in order. */
  function WalletEvents(events: seq<Event>): seq<Event> {
    if events == [] then []
    else
      var last := events[|events| - 1];
      WalletEvents(events[..|events| - 1]) + if last.data.WalletTransaction? then [last] else []
  }

  lemma {:induction false} WalletEventsData(events: seq<Event>)
    ensures |WalletEvents(events)| == |Casino.WalletData(events)|
    ensures forall i :: 0 <= i < |WalletEvents(events)| ==> WalletEvents(events)[i].data == Casino.WalletData(events)[i]
  {
    if events != [] {
      WalletEventsData(events[..|events| - 1]);
    }
  }

  lemma {:induction false} WalletEventsFrom(events: seq<Event>, i: nat)
    requires i < |WalletEvents(events)|
    ensures WalletEvents(events)[i] in events
  {
    var n := |events| - 1;
    if i < |WalletEvents(events[..n])| {
      WalletEventsFrom(events[..n], i);
    }
  }

  lemma {:induction false} WalletEventsHold(events: seq<Event>, e: Event)
    requires e in events && e.data.WalletTransaction?
    ensures e in WalletEvents(events)
  {
    var n := |events| - 1;
    if e != events[n] {
      assert e in events[..n];
      WalletEventsHold(events[..n], e);
    }
  }

  lemma {:induction false} WalletEventsDistinct(events: seq<Event>)
    requires forall i, j :: 0 <= i < j < |events| ==> events[i].eventId != events[j].eventId
    ensures forall i, j :: 0 <= i < j < |WalletEvents(events)| ==>
              WalletEvents(events)[i].eventId != WalletEvents(events)[j].eventId
  {
    if events != [] {
      var n := |events| - 1;
      var front := WalletEvents(events[..n]);
      WalletEventsDistinct(events[..n]);
      forall i | 0 <= i < |front| ensures front[i].eventId != events[n].eventId {
        WalletEventsFrom(events[..n], i);
      }
    }
  }

  /** Waiting in an unpublished outbox row. */
  predicate Pending(s: State, e: Event) {
    && e.eventId in s.outbox.rows && s.outbox.rows[e.eventId].event == e
    && s.outbox.rows[e.eventId].publishedAt.None?
  }

  /** The wallet after a money commit. */
  lemma MoneyPays(c: Config, s: Casino.State, t: nat)
    requires Casino.Inv(c, s) && t < |s.txs| && IsMoney(s.txs[t])
    ensures Casino.Step(c, s, Casino.Commit(t, [], "")).wallets
            == s.wallets[SlotOf(s.txs[t]).user := BalanceOf(s.txs[t])]
  {
    hide Casino.Inv, Casino.RoundEvents, Casino.RoundEntries;
    if s.txs[t].Paid? {
      PaidPair(c, s, t);
    }
  }

  /** New rows wait unpublished. */
  lemma EnqueuedWait(s: Outbox.State, events: seq<Event>)
    requires Outbox.Inv(s) && Outbox.FreshEvents(s.issued, events)
    ensures var rows := Outbox.Step(s, Outbox.Enqueue(events)).rows;
            forall e :: e in events ==> e.eventId in rows && rows[e.eventId] == Outbox.Row(e, s.now, None, 0, None)
  {
    Outbox.FreshIds(s, events);
    Outbox.InsertRowsFacts(s.rows, events, s.now);
    forall e | e in events
      ensures e.eventId in Outbox.Step(s, Outbox.Enqueue(events)).rows
      ensures Outbox.Step(s, Outbox.Enqueue(events)).rows[e.eventId] == Outbox.Row(e, s.now, None, 0, None)
    {
      var i :| 0 <= i < |events| && events[i] == e;
    }
  }

  /** Work that is ready commits as one: the call has its answer, the wallet the balance that the answer
      reports, the key one more deposit or round, and each new event waits in the outbox. */
  lemma {:induction false} WorkTakesEffect(c: Config, s: State, actions: seq<Action>, pid: nat, tx: nat,
                                           body: Idempotency.Json)
    requires Init(c, s)
    requires var t := Run(c, s, actions);
             && pid < |t.calls.procs| && t.calls.procs[pid].pc.Holding?
             && tx < |t.casino.txs| && IsMoney(t.casino.txs[tx])
             && SlotOf(t.casino.txs[tx]) == t.calls.procs[pid].slot
             && ReportsBalance(body, BalanceOf(t.casino.txs[tx]))
    ensures var t := Run(c, s, actions);
            var slot, u := t.calls.procs[pid].slot, Step(c, t, CommitWork(pid, tx, body));
            && |u.calls.procs| == |t.calls.procs|
            && u.calls.procs[pid].pc == Idempotency.Done(Idempotency.Returned(body))
            && u.casino.wallets == t.casino.wallets[slot.user := BalanceOf(t.casino.txs[tx])]
            && Settlements(u.casino.issued, slot) == Settlements(t.casino.issued, slot) + 1
            && t.casino.issued <= u.casino.issued
            && forall e :: e in u.casino.issued && e !in t.casino.issued ==> Pending(u, e)
  {
    hide Run, Init, Casino.Inv, Idempotency.Inv, Outbox.Inv, Casino.Step, Outbox.Step, Settlements, ReportsBalance,
         Outbox.FreshEvents, IsMoney, BalanceOf;
    RunKeeps(c, s, actions);
    var t := Run(c, s, actions);
    var u := Step(c, t, CommitWork(pid, tx, body));
    Casino.StepKeeps(c, t.casino, Casino.Commit(tx, [], ""));
    MoneyCommit(c, t.casino, tx, t.calls.procs[pid].slot);
    MoneyPays(c, t.casino, tx);
    NewAreFresh(c, u.casino, t.casino.issued);
    var events := NewEvents(t.casino.issued, u.casino.issued);
    EnqueuedWait(t.outbox, events);
    forall e | e in u.casino.issued && e !in t.casino.issued ensures e in events {
      assert t.casino.issued + events == u.casino.issued;
    }
  }

  /** One to one, in every reachable state and across rollbacks, crashes and purges: the i-th ledger
      entry has its own wallet.transaction event that says the same, which waits in the outbox or is
      in the broker log; and every wallet.transaction in either place is one of those events. */
  lemma {:induction false} LedgerMatchesEvents(c: Config, s: State, actions: seq<Action>)
    requires Init(c, s)
    ensures var t := Run(c, s, actions);
            var events := WalletEvents(t.casino.issued);
            && |events| == |t.casino.ledger|
            && (forall i :: 0 <= i < |events| ==>
                  && events[i].data == Casino.EntryData(t.casino.ledger[i])
                  && (Pending(t, events[i]) || events[i] in t.outbox.broker))
            && (forall i, j :: 0 <= i < j < |events| ==> events[i].eventId != events[j].eventId)
            && (forall e :: e in t.outbox.broker && e.data.WalletTransaction? ==> e in events)
            && forall e :: Pending(t, e) && e.data.WalletTransaction? ==> e in events
  {
    hide Casino.Inv, Idempotency.Inv, WalletEvents, Casino.WalletData, Casino.LedgerData;
    RunKeeps(c, s, actions);
    var t := Run(c, s, actions);
    var issued := t.casino.issued;
    Casino.Parts(c, t.casino);
    WalletEventsData(issued);
    Casino.LedgerDataAt(t.casino.ledger);
    WalletEventsDistinct(issued);
    forall i | 0 <= i < |WalletEvents(issued)|
      ensures Pending(t, WalletEvents(issued)[i]) || WalletEvents(issued)[i] in t.outbox.broker
    {
      WalletEventsFrom(issued, i);
      var k :| 0 <= k < |issued| && issued[k] == WalletEvents(issued)[i];
      Outbox.Conserved(t.outbox, k);
    }
    forall e | (e in t.outbox.broker || Pending(t, e)) && e.data.WalletTransaction? ensures e in WalletEvents(issued) {
      assert e in issued;
      WalletEventsHold(issued, e);
    }
  }

  // ------------------------------------------------------------ a consumer that ignores duplicates

  function AmountFor(e: Event, user: nat): int {
    if e.data.WalletTransaction? && e.data.user == user then e.data.amount else 0
  }

  function IdsOf(log: seq<Event>): Ids {
    set i | 0 <= i < |log| :: log[i].eventId
  }

  /** What a consumer has added up after reading the log, skipping event ids it has seen. */
  function Consumed(log: seq<Event>, user: nat): int {
    if log == [] then 0
    else
      var n := |log| - 1;
      Consumed(log[..n], user) + if log[n].eventId in IdsOf(log[..n]) then 0 else AmountFor(log[n], user)
  }

  /** The same sum over the committed events with these ids. */
  function AmountsIn(issued: seq<Event>, ids: Ids, user: nat): int {
    if issued == [] then 0
    else
      var n := |issued| - 1;
      AmountsIn(issued[..n], ids, user) + if issued[n].eventId in ids then AmountFor(issued[n], user) else 0
  }

  /** What committed events with none of these ids amount to. */
  function AmountsOutside(issued: seq<Event>, ids: Ids, user: nat): int {
    if issued == [] then 0
    else
      var n := |issued| - 1;
      AmountsOutside(issued[..n], ids, user) + if issued[n].eventId in ids then 0 else AmountFor(issued[n], user)
  }

  ghost predicate DistinctIds(issued: seq<Event>) {
    forall i, j :: 0 <= i < j < |issued| ==> issued[i].eventId != issued[j].eventId
  }

  lemma {:induction false} AmountsWithout(issued: seq<Event>, ids: Ids, id: Outbox.EventId, user: nat)
    requires forall i :: 0 <= i < |issued| ==> issued[i].eventId != id
    ensures AmountsIn(issued, ids + {id}, user) == AmountsIn(issued, ids, user)
  {
    if issued != [] {
      AmountsWithout(issued[..|issued| - 1], ids, id, user);
    }
  }

  /** A new id adds its event's amount, once. */
  lemma {:induction false} AmountsWith(issued: seq<Event>, ids: Ids, k: nat, user: nat)
    requires DistinctIds(issued) && k < |issued| && issued[k].eventId !in ids
    ensures AmountsIn(issued, ids + {issued[k].eventId}, user)
            == AmountsIn(issued, ids, user) + AmountFor(issued[k], user)
  {
    var n := |issued| - 1;
    if k == n {
      AmountsWithout(issued[..n], ids, issued[n].eventId, user);
    } else {
      AmountsWith(issued[..n], ids, k, user);
    }
  }

  lemma {:induction false} NothingIn(issued: seq<Event>, user: nat)
    ensures AmountsIn(issued, {}, user) == 0
  {
    if issued != [] {
      NothingIn(issued[..|issued| - 1], user);
    }
  }

  lemma {:induction false} ConsumedIs(log: seq<Event>, issued: seq<Event>, user: nat)
    requires DistinctIds(issued) && forall i :: 0 <= i < |log| ==> log[i] in issued
    ensures Consumed(log, user) == AmountsIn(issued, IdsOf(log), user)
  {
    if log == [] {
      assert IdsOf(log) == {};
      NothingIn(issued, user);
    } else {
      var n := |log| - 1;
      ConsumedIs(log[..n], issued, user);
      assert IdsOf(log) == IdsOf(log[..n]) + {log[n].eventId};
      if log[n].eventId in IdsOf(log[..n]) {
        assert IdsOf(log) == IdsOf(log[..n]);
      } else {
        var k :| 0 <= k < |issued| && issued[k] == log[n];
        AmountsWith(issued, IdsOf(log[..n]), k, user);
      }
    }
  }

  function DataFor(data: Outbox.Data, user: nat): int {
    if data.WalletTransaction? && data.user == user then data.amount else 0
  }

  function DataSum(data: seq<Outbox.Data>, user: nat): int {
    if data == [] then 0 else DataSum(data[..|data| - 1], user) + DataFor(data[|data| - 1], user)
  }

  lemma DataSumAppend(data: seq<Outbox.Data>, d: Outbox.Data, user: nat)
    ensures DataSum(data + [d], user) == DataSum(data, user) + DataFor(d, user)
  {
    assert (data + [d])[..|data|] == data;
  }

  lemma {:induction false} InAndOutside(issued: seq<Event>, ids: Ids, user: nat)
    ensures AmountsIn(issued, ids, user) + AmountsOutside(issued, ids, user) == DataSum(Casino.WalletData(issued), user)
  {
    if issued != [] {
      var n := |issued| - 1;
      InAndOutside(issued[..n], ids, user);
      var front := Casino.WalletData(issued[..n]);
      DataSumAppend(front, issued[n].data, user);
      assert front + [] == front;
    }
  }

  lemma {:induction false} LedgerDataSum(ledger: seq<Casino.Entry>, user: nat)
    ensures DataSum(Casino.LedgerData(ledger), user) == Casino.Sum(ledger, user)
  {
    if ledger != [] {
      var n := |ledger| - 1;
      LedgerDataSum(ledger[..n], user);
      DataSumAppend(Casino.LedgerData(ledger[..n]), Casino.EntryData(ledger[n]), user);
    }
  }

  /** Conservation: at every moment a balance is what a deduplicating consumer has added up so far
      plus what the events the broker has not got yet amount to. */
  lemma ConsumerConservation(c: Config, s: State, actions: seq<Action>, user: nat)
    requires Init(c, s) && user in Run(c, s, actions).casino.wallets
    ensures var t := Run(c, s, actions);
            t.casino.wallets[user]
            == Consumed(t.outbox.broker, user) + AmountsOutside(t.casino.issued, IdsOf(t.outbox.broker), user)
  {
    hide Casino.Inv, Idempotency.Inv, Consumed, AmountsIn, AmountsOutside, Casino.Sum, Casino.WalletData,
         Casino.LedgerData;
    RunKeeps(c, s, actions);
    var t := Run(c, s, actions);
    Casino.Parts(c, t.casino);
    assert Casino.WalletOk(if user in t.casino.wallets then t.casino.wallets[user] else 0, t.casino.ledger,
                           t.casino.rounds, user);
    ConsumedIs(t.outbox.broker, t.casino.issued, user);
    InAndOutside(t.casino.issued, IdsOf(t.outbox.broker), user);
    LedgerDataSum(t.casino.ledger, user);
  }

  lemma {:induction false} NothingOutside(issued: seq<Event>, ids: Ids, user: nat)
    requires forall i :: 0 <= i < |issued| ==> issued[i].eventId in ids
    ensures AmountsOutside(issued, ids, user) == 0
  {
    if issued != [] {
      NothingOutside(issued[..|issued| - 1], ids, user);
    }
  }

  /** Once the outbox is drained, the consumer's sum is the balance, however many duplicates the
      broker log holds. */
  lemma {:induction false} DrainedConsumerAgrees(c: Config, s: State, actions: seq<Action>, user: nat)
    requires Init(c, s) && user in Run(c, s, actions).casino.wallets
    requires forall id :: id in Run(c, s, actions).outbox.rows ==> Run(c, s, actions).outbox.rows[id].publishedAt.Some?
    ensures var t := Run(c, s, actions); Consumed(t.outbox.broker, user) == t.casino.wallets[user]
  {
    hide Casino.Inv, Idempotency.Inv, Consumed, AmountsOutside;
    RunKeeps(c, s, actions);
    var t := Run(c, s, actions);
    forall i | 0 <= i < |t.casino.issued| ensures t.casino.issued[i].eventId in IdsOf(t.outbox.broker) {
      Outbox.Conserved(t.outbox, i);
      var k :| 0 <= k < |t.outbox.broker| && t.outbox.broker[k] == t.casino.issued[i];
    }
    NothingOutside(t.casino.issued, IdsOf(t.outbox.broker), user);
    ConsumerConservation(c, s, actions, user);
  }

  /** Whatever call succeeds, at first or as a replay, its body reports the balance_after of a ledger
      entry of its user, whose event carries the call's key. */
  lemma {:induction false} ReplayReportsEntry(c: Config, s: State, actions: seq<Action>, pid: nat)
    requires Init(c, s) && Succeeded(Run(c, s, actions), pid)
    ensures var t := Run(c, s, actions);
            var slot, body := t.calls.procs[pid].slot, t.calls.procs[pid].pc.outcome.body;
            var events := WalletEvents(t.casino.issued);
            |events| == |t.casino.ledger|
            && exists i :: 0 <= i < |events| && EntryReported(t.casino.ledger[i], events[i], slot, body)
  {
    hide Run, Init, Idempotency.Inv, Casino.Inv, Outbox.Inv, WalletEvents, ReportsBalance;
    RunKeeps(c, s, actions);
    LedgerMatchesEvents(c, s, actions);
    var t := Run(c, s, actions);
    var slot, body := t.calls.procs[pid].slot, t.calls.procs[pid].pc.outcome.body;
    ReturnedWasLogged(t.calls, pid);
    var i :| 0 <= i < |t.calls.log| && t.calls.log[i].slot == slot && t.calls.log[i].body == body;
    assert Receipted(t.casino.issued, t.calls.log[i].slot, t.calls.log[i].body);
    var j :| 0 <= j < |t.casino.issued| && IsReceipt(t.casino.issued[j], slot, body);
    WalletEventsHold(t.casino.issued, t.casino.issued[j]);
    var events := WalletEvents(t.casino.issued);
    var k :| 0 <= k < |events| && events[k] == t.casino.issued[j];
    assert EntryReported(t.casino.ledger[k], events[k], slot, body);
  }

  predicate EntryReported(entry: Casino.Entry, e: Event, slot: Slot, body: Idempotency.Json) {
    && entry.user == slot.user && e.idempotencyKey == slot.key && e.data == Casino.EntryData(entry)
    && ReportsBalance(body, entry.balanceAfter)
  }

  // ------------------------------------------------------------ draining

  /** The moves of the outbox machine in a run of the whole. */
  ghost function OutboxMoves(c: Config, s: State, actions: seq<Action>): seq<Outbox.Action>
    decreases |actions|
  {
    if actions == [] then []
    else
      var front, last := actions[..|actions| - 1], actions[|actions| - 1];
      OutboxMoves(c, s, front) + OutboxMove(c, Run(c, s, front), last)
  }

  ghost function OutboxMove(c: Config, s: State, a: Action): seq<Outbox.Action> {
    match a
    case Deliver(step) => if step.Enqueue? then [] else [step]
    case CommitWork(pid, tx, body) =>
      if !WorkReady(s, pid, tx, body) then []
      else [Outbox.Enqueue(NewEvents(s.casino.issued, Casino.Step(c, s.casino, Casino.Commit(tx, [], "")).issued))]
    case _ => []
  }

  /** What every run of the outbox machine guarantees, the whole guarantees too. */
  lemma {:induction false} OutboxRuns(c: Config, s: State, actions: seq<Action>)
    ensures Run(c, s, actions).outbox == Outbox.Run(s.outbox, OutboxMoves(c, s, actions))
  {
    hide Outbox.Step, Casino.Step, Idempotency.Step, WorkReady;
    if actions == [] {
      OutboxService.RunEmpty(s.outbox);
    } else {
      var front, last := actions[..|actions| - 1], actions[|actions| - 1];
      var moves, more := OutboxMoves(c, s, front), OutboxMove(c, Run(c, s, front), last);
      OutboxRuns(c, s, front);
      if more == [] {
        assert moves + more == moves;
      } else {
        OutboxService.RunSnoc(s.outbox, moves, more[0]);
        assert moves + more == moves + [more[0]];
      }
    }
  }

  function Deliveries(trace: seq<Outbox.Action>): seq<Action> {
    seq(|trace|, i requires 0 <= i < |trace| => Deliver(trace[i]))
  }

  /** Moves of the relays alone change nothing but the outbox. */
  lemma {:induction false} DeliveriesRun(c: Config, s: State, actions: seq<Action>, trace: seq<Outbox.Action>)
    requires OutboxService.NoNews(trace)
    ensures var t := Run(c, s, actions);
            Run(c, s, actions + Deliveries(trace)) == t.(outbox := Outbox.Run(t.outbox, trace))
    decreases |trace|
  {
    hide Outbox.Step, Casino.Step, Idempotency.Step;
    var all := actions + Deliveries(trace);
    if trace == [] {
      OutboxService.RunEmpty(Run(c, s, actions).outbox);
      assert all == actions;
    } else {
      var n := |trace| - 1;
      DeliveriesRun(c, s, actions, trace[..n]);
      assert all[..|all| - 1] == actions + Deliveries(trace[..n]);
      assert all[|all| - 1] == Deliver(trace[n]);
    }
  }

  /** From any reachable state: after a minute a burst of the relay, with sends that succeed and no
      new rows, leaves only rows other relays hold, whatever those relays and the purge do meanwhile.
      When none of them is at work in the end, a deduplicating consumer has every balance. */
  method DrainAndConsume(relays: OutboxService.Relays, r: nat, limit: nat, env: seq<seq<seq<Outbox.Action>>>,
                         ghost horizon: int, ghost c: Config, ghost s: State, ghost actions: seq<Action>)
    returns (ghost more: seq<Action>)
    requires Init(c, s) && relays.View() == Run(c, s, actions).outbox
    requires r < |relays.relays| && relays.relays[r].Idle? && limit > 0
    requires forall i, j :: 0 <= i < |env| && 0 <= j < |env[i]| ==>
               && OutboxService.Others(env[i][j], r) && OutboxService.NoNews(env[i][j])
               && OutboxService.TicksBy(env[i][j], horizon) && OutboxService.AllSmooth(env[i][j])
    requires relays.now + Outbox.MAX_BACKOFF_SECONDS * Outbox.SECOND <= horizon
    modifies relays
    ensures Run(c, s, actions + more) == Run(c, s, actions).(outbox := relays.View())
    ensures forall id :: id in relays.rows ==> relays.rows[id].publishedAt.Some? || Outbox.Locked(relays.relays, id)
    ensures (forall q :: 0 <= q < |relays.relays| ==> relays.relays[q].Idle?) ==>
              forall user :: user in Run(c, s, actions).casino.wallets ==>
                Consumed(relays.broker, user) == Run(c, s, actions).casino.wallets[user]
  {
    hide Run, Init, Inv, Outbox.Inv, Outbox.HeldDue, Outbox.Step, Outbox.Run, Outbox.Clear, Outbox.RetriesSoon,
         Consumed,
         OutboxService.Others, OutboxService.NoNews, OutboxService.TicksBy, OutboxService.AllSmooth;
    ghost var t := Run(c, s, actions);
    OutboxReachable(c, s, actions);
    var later := Outbox.Tick(relays.now + Outbox.MAX_BACKOFF_SECONDS * Outbox.SECOND);
    RetriesLater(t.outbox, later);
    OutboxService.StepTime(t.outbox, later);
    OutboxService.OtherStepKeepsRelay(t.outbox, later, r);
    OutboxService.RunEmpty(t.outbox);
    OutboxService.RunSnoc(t.outbox, [], later);
    relays.Act(later);
    ghost var burst, _ := relays.RelayBurst(r, limit, [], env, horizon);
    ghost var trace := [] + [later] + burst;
    OutboxService.RunConcat(t.outbox, [] + [later], burst);
    TickThenNoNews(later, burst);
    DeliveriesRun(c, s, actions, trace);
    more := Deliveries(trace);
    if forall q :: 0 <= q < |relays.relays| ==> relays.relays[q].Idle? {
      NobodyHolds(relays.relays);
      forall user | user in t.casino.wallets ensures Consumed(relays.broker, user) == t.casino.wallets[user] {
        DrainedConsumerAgrees(c, s, actions + more, user);
      }
    }
  }

  lemma OutboxReachable(c: Config, s: State, actions: seq<Action>)
    requires Init(c, s)
    ensures var t := Run(c, s, actions).outbox; Outbox.Inv(t) && Outbox.HeldDue(t) && Outbox.RetriesSoon(t)
  {
    hide Outbox.Inv, Outbox.HeldDue, Outbox.RetriesSoon, Outbox.Run, Run;
    OutboxRuns(c, s, actions);
    Outbox.InitInv(s.outbox);
    Outbox.RunKeeps(s.outbox, OutboxMoves(c, s, actions));
    Outbox.HeldDueRun(s.outbox, OutboxMoves(c, s, actions));
    Outbox.RetryRun(s.outbox, OutboxMoves(c, s, actions));
  }

  lemma RetriesLater(s: Outbox.State, a: Outbox.Action)
    requires Outbox.RetriesSoon(s) && a.Tick?
    ensures Outbox.Clear(Outbox.Step(s, a), s.now + Outbox.MAX_BACKOFF_SECONDS * Outbox.SECOND)
  {
  }

  lemma TickThenNoNews(a: Outbox.Action, trace: seq<Outbox.Action>)
    requires a.Tick? && OutboxService.NoNews(trace)
    ensures OutboxService.NoNews([] + [a] + trace)
  {
  }

  lemma NobodyHolds(relays: seq<Outbox.Relay>)
    requires forall q :: 0 <= q < |relays| ==> relays[q].Idle?
    ensures forall id :: !Outbox.Locked(relays, id)
  {
  }
}
