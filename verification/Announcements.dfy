/** What the bet.placed and round.settled events of the committed rounds say. */
module Announcements {
  import opened Bets
  import opened Engine
  import opened Fairness
  import opened Wrappers
  import opened Casino
  import Outbox

  type Data = Outbox.Data

  predicate Wanted(d: Data, settled: bool) {
    if settled then d.RoundSettled? else d.BetPlaced?
  }

  /** The round.settled payloads among the events, or the bet.placed ones, in order. */
  function Said(events: seq<Event>, settled: bool): seq<Data> {
    if events == [] then []
    else
      var last := events[|events| - 1].data;
      Said(events[..|events| - 1], settled) + if Wanted(last, settled) then [last] else []
  }

  /** What a round.settled event should say of a round. */
  function RoundData(r: Round): Data {
    var stake, payout := RoundStake(r.bets), TotalPayout(r.bets);
    Outbox.RoundSettled(r.id, r.user, r.pairId, r.nonce, r.outcome, r.bets, stake, payout, payout - stake)
  }

  /** What the bet.placed events should say of its first n bets. */
  function BetsData(r: Round, n: nat): seq<Data>
    requires n <= |r.bets|
  {
    if n == 0 then [] else BetsData(r, n - 1) + [Outbox.BetPlaced(r.id, r.user, r.bets[n - 1].bet)]
  }

  function RoundsData(rounds: seq<Round>, settled: bool): seq<Data> {
    if rounds == [] then []
    else
      var last := rounds[|rounds| - 1];
      RoundsData(rounds[..|rounds| - 1], settled) + if settled then [RoundData(last)] else BetsData(last, |last.bets|)
  }

  lemma {:induction false} SaidConcat(a: seq<Event>, b: seq<Event>, settled: bool)
    ensures Said(a + b, settled) == Said(a, settled) + Said(b, settled)
  {
    if b == [] {
      assert a + b == a;
    } else {
      hide Wanted;
      var n := |b| - 1;
      SaidConcat(a, b[..n], settled);
      assert (a + b)[..|a + b| - 1] == a + b[..n] && (a + b)[|a + b| - 1] == b[n];
    }
  }

  lemma {:induction false} WalletSaysNothing(events: seq<Event>, settled: bool)
    requires forall i :: 0 <= i < |events| ==> events[i].data.WalletTransaction?
    ensures Said(events, settled) == []
  {
    if events != [] {
      WalletSaysNothing(events[..|events| - 1], settled);
    }
  }

  lemma SaidOne(e: Event, settled: bool)
    ensures Said([e], settled) == if Wanted(e.data, settled) then [e.data] else []
  {
    assert [e][..0] == [];
  }

  /** The bets of a settled round are the bets that were placed. */
  lemma {:induction false} ResolvedBets(bets: seq<PlacedBet>, outcome: int)
    requires Resolve(bets, outcome).Ok?
    ensures forall i :: 0 <= i < |bets| ==> Resolve(bets, outcome).value[i].bet == bets[i]
  {
    if bets != [] {
      ResolvedBets(bets[..|bets| - 1], outcome);
    }
  }

  lemma {:induction false} PlacedSay(spin: Spin, round: Round, firstId: nat, n: nat)
    requires n <= |spin.bets| == |round.bets| && round.user == spin.user
    requires forall i :: 0 <= i < n ==> round.bets[i].bet == spin.bets[i]
    ensures Said(PlacedEvents(spin, round.id, firstId, n), true) == []
    ensures Said(PlacedEvents(spin, round.id, firstId, n), false) == BetsData(round, n)
  {
    hide Said, PlacedEvents, BetsData;
    NoBetsSaid(spin, round, firstId);
    if n > 0 {
      PlacedSnoc(spin, round.id, firstId, n - 1);
      NextBetData(round, n);
      PlacedSay(spin, round, firstId, n - 1);
      var front := PlacedEvents(spin, round.id, firstId, n - 1);
      var e := Outbox.Event(firstId + n - 1, spin.key, Outbox.BetPlaced(round.id, spin.user, spin.bets[n - 1]));
      SaidConcat(front, [e], true);
      SaidConcat(front, [e], false);
      SaidOne(e, true);
      SaidOne(e, false);
    }
  }

  lemma NoBetsSaid(spin: Spin, round: Round, firstId: nat)
    ensures forall settled :: Said(PlacedEvents(spin, round.id, firstId, 0), settled) == []
    ensures BetsData(round, 0) == []
  {
  }

  lemma NextBetData(round: Round, n: nat)
    requires 1 <= n <= |round.bets|
    ensures BetsData(round, n) == BetsData(round, n - 1)
            + [Outbox.BetPlaced(round.id, round.user, round.bets[n - 1].bet)]
  {
  }

  /** What a round issues says what the round is. */
  lemma RoundSays(spin: Spin, afterPayout: Option<int>, id: nat, settled: bool)
    requires Resolve(spin.bets, spin.outcome) == Ok(spin.resolved)
    ensures var round := Round(id, spin.user, spin.pairId, spin.nonce, spin.outcome, spin.resolved);
            Said(RoundEvents(spin, afterPayout, id), settled)
            == if settled then [RoundData(round)] else BetsData(round, |round.bets|)
  {
    hide Said, TotalStake, TotalPayout, RoundStake, Resolve, PlacedEvents, BetsData;
    var round := Round(id, spin.user, spin.pairId, spin.nonce, spin.outcome, spin.resolved);
    var events := RoundEvents(spin, afterPayout, id);
    var n := |spin.bets|;
    ResolvedBets(spin.bets, spin.outcome);
    ResolvedStake(spin.bets, spin.outcome);
    PlacedSay(spin, round, id + 3, n);
    var placed, middle, tail := events[..n], [events[n]], events[n + 1..];
    assert placed == PlacedEvents(spin, id, id + 3, n);
    WalletSaysNothing(tail, settled);
    SaidOne(events[n], settled);
    SaidConcat(placed, middle, settled);
    SaidConcat(placed + middle, tail, settled);
    assert events == placed + middle + tail;
  }

  ghost predicate Told(s: State) {
    forall settled :: Said(s.issued, settled) == RoundsData(s.rounds, settled)
  }

  lemma RoundsDataAppend(rounds: seq<Round>, r: Round, settled: bool)
    ensures RoundsData(rounds + [r], settled)
            == RoundsData(rounds, settled) + if settled then [RoundData(r)] else BetsData(r, |r.bets|)
  {
    assert (rounds + [r])[..|rounds|] == rounds;
  }

  lemma {:induction false} RoundTold(c: Config, s: State, t: nat)
    requires Inv(c, s) && Told(s) && t < |s.txs| && s.txs[t].Paid? && s.txs[t].spin.pairId in s.pairs
    ensures Told(CommitRound(s, t))
  {
    hide Inv, Said, RoundsData, RoundEvents, RoundEntries, RoundData, BetsData, Resolve, BetOk, Drawn;
    TxIsOk(c, s, t);
    PaidSpinOk(c, s.wallets, s.pairs, s.txs[t]);
    var spin, afterPayout := s.txs[t].spin, s.txs[t].afterPayout;
    forall settled ensures Said(CommitRound(s, t).issued, settled) == RoundsData(CommitRound(s, t).rounds, settled) {
      SaidConcat(s.issued, RoundEvents(spin, afterPayout, s.nextId), settled);
      RoundSays(spin, afterPayout, s.nextId, settled);
      RoundsDataAppend(s.rounds, Round(s.nextId, spin.user, spin.pairId, spin.nonce, spin.outcome, spin.resolved),
                       settled);
    }
  }

  lemma DepositTold(s: State, t: nat)
    requires Told(s) && t < |s.txs| && s.txs[t].Deposited?
    ensures Told(CommitDeposit(s, t))
  {
    hide Said, RoundsData;
    var e := CommitDeposit(s, t).issued[|s.issued|];
    forall settled ensures Said(CommitDeposit(s, t).issued, settled) == RoundsData(s.rounds, settled) {
      SaidConcat(s.issued, [e], settled);
      SaidOne(e, settled);
      assert Said(s.issued, settled) + [] == Said(s.issued, settled);
    }
  }

  lemma {:induction false} StepTold(c: Config, s: State, a: Action)
    requires Inv(c, s) && Told(s)
    ensures Told(Step(c, s, a))
  {
    hide Inv, Said, RoundsData, CommitRound, CommitDeposit;
    if !a.Register? && !a.Commit? {
      OnlyCommitsWrite(c, s, a);
    } else if a.Commit? && a.tx < |s.txs| {
      match s.txs[a.tx]
      case Deposited(_, _, _, _) => DepositTold(s, a.tx);
      case Paid(spin, _) => if spin.pairId in s.pairs { RoundTold(c, s, a.tx); }
      case _ =>
    }
  }

  lemma {:induction false} RunTold(c: Config, s: State, actions: seq<Action>)
    requires Init(s) && c.minBet.minor >= 1
    ensures Told(Run(c, s, actions))
  {
    hide Inv, Step, Said, RoundsData;
    if actions == [] {
      NothingSaid();
    } else {
      RunTold(c, s, actions[..|actions| - 1]);
      RunKeeps(c, s, actions[..|actions| - 1]);
      StepTold(c, Run(c, s, actions[..|actions| - 1]), actions[|actions| - 1]);
    }
  }

  lemma NothingSaid()
    ensures forall settled :: Said([], settled) == RoundsData([], settled)
  {
  }

  /** In every reachable state the round.settled events are the committed rounds, one each and in
      order, with their real totals; and the bet.placed events are their bets, in order. */
  lemma {:induction false} EventsTellRounds(c: Config, s: State, actions: seq<Action>)
    requires Init(s) && c.minBet.minor >= 1
    ensures var t := Run(c, s, actions);
            && Said(t.issued, true) == RoundsData(t.rounds, true)
            && Said(t.issued, false) == RoundsData(t.rounds, false)
  {
    hide Said, RoundsData;
    RunTold(c, s, actions);
  }

  // ------------------------------------------------------------ one key per round

  /** The round an event is about. */
  function AboutRound(d: Data): Option<nat> {
    match d
    case BetPlaced(roundId, _, _) => Some(roundId)
    case RoundSettled(roundId, _, _, _, _, _, _, _, _) => Some(roundId)
    case WalletTransaction(_, _, _, _, _, refId) => refId
  }

  predicate SameKey(e: Event, f: Event) {
    AboutRound(e.data).Some? && AboutRound(e.data) == AboutRound(f.data) ==> e.idempotencyKey == f.idempotencyKey
  }

  ghost predicate OneKeyEach(s: State) {
    && (forall e :: e in s.issued && AboutRound(e.data).Some? ==> AboutRound(e.data).value < s.nextId)
    && forall e, f :: e in s.issued && f in s.issued ==> SameKey(e, f)
  }

  lemma RoundKeyed(spin: Spin, afterPayout: Option<int>, id: nat)
    ensures forall e :: e in RoundEvents(spin, afterPayout, id) ==>
              e.idempotencyKey == spin.key && AboutRound(e.data) == Some(id)
  {
    hide TotalStake, TotalPayout;
    var placed := PlacedEvents(spin, id, id + 3, |spin.bets|);
    hide PlacedEvents;
    forall e | e in placed ensures e.idempotencyKey == spin.key && AboutRound(e.data) == Some(id) {
      var i :| 0 <= i < |placed| && placed[i] == e;
    }
  }

  lemma StepOneKey(c: Config, s: State, a: Action)
    requires OneKeyEach(s)
    ensures OneKeyEach(Step(c, s, a))
  {
    hide IsOutcome, AllValidated, TotalStake, HasActive, Resolve, WalletLocked, PairLocked, AfterPayout, RoundEvents,
         RoundEntries, TotalPayout;
    if !a.Register? && !a.Commit? {
      OnlyCommitsWrite(c, s, a);
      hide Step;
    } else if a.Commit? && a.tx < |s.txs| && s.txs[a.tx].Paid? {
      RoundKeyed(s.txs[a.tx].spin, s.txs[a.tx].afterPayout, s.nextId);
    }
  }

  /** All events of one round, its bets, its result and its ledger entries, carry one key. */
  lemma {:induction false} RoundSpeaksOnce(c: Config, s: State, actions: seq<Action>, e: Event, f: Event)
    requires Init(s) && e in Run(c, s, actions).issued && f in Run(c, s, actions).issued
    requires AboutRound(e.data).Some? && AboutRound(e.data) == AboutRound(f.data)
    ensures e.idempotencyKey == f.idempotencyKey
  {
    hide Run;
    RunOneKey(c, s, actions);
    assert SameKey(e, f);
  }

  lemma {:induction false} RunOneKey(c: Config, s: State, actions: seq<Action>)
    requires Init(s)
    ensures OneKeyEach(Run(c, s, actions))
  {
    hide Step;
    if actions != [] {
      RunOneKey(c, s, actions[..|actions| - 1]);
      StepOneKey(c, Run(c, s, actions[..|actions| - 1]), actions[|actions| - 1]);
    }
  }
}
