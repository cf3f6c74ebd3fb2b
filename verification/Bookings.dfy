/** What the ledger says of the committed rounds and deposits. */
module Bookings {
  import opened Bets
  import opened Engine
  import opened Fairness
  import opened Wrappers
  import opened Casino
  import Outbox

  /** A ledger entry without its id and its running balance. */
  datatype Booking = Booking(user: User, kind: Outbox.Kind, amount: int, refId: Option<nat>)

  function LineOf(e: Entry): Booking {
    Booking(e.user, e.kind, e.amount, e.refId)
  }

  /** The entries of bets, in commit order. */
  function BetLines(ledger: seq<Entry>): seq<Booking> {
    if ledger == [] then []
    else
      var last := ledger[|ledger| - 1];
      BetLines(ledger[..|ledger| - 1]) + if last.kind.DepositKind? then [] else [LineOf(last)]
  }

  /** What a round should book: its stake as a stake, and what it paid, if anything, as a payout. */
  function RoundLines(r: Round): seq<Booking> {
    [Booking(r.user, Outbox.BetStake, -RoundStake(r.bets), Some(r.id))]
    + if TotalPayout(r.bets) > 0 then [Booking(r.user, Outbox.BetPayout, TotalPayout(r.bets), Some(r.id))] else []
  }

  function RoundsLines(rounds: seq<Round>): seq<Booking> {
    if rounds == [] then [] else RoundsLines(rounds[..|rounds| - 1]) + RoundLines(rounds[|rounds| - 1])
  }

  lemma BetLinesAppend(ledger: seq<Entry>, e: Entry)
    ensures BetLines(ledger + [e]) == BetLines(ledger) + if e.kind.DepositKind? then [] else [LineOf(e)]
  {
    assert (ledger + [e])[..|ledger|] == ledger;
  }

  lemma RoundsLinesAppend(rounds: seq<Round>, r: Round)
    ensures RoundsLines(rounds + [r]) == RoundsLines(rounds) + RoundLines(r)
  {
    assert (rounds + [r])[..|rounds|] == rounds;
  }

  // ------------------------------------------------------------ the invariant

  ghost predicate IdsOk(s: State) {
    && (forall i :: 0 <= i < |s.rounds| ==> s.rounds[i].id < s.nextId)
    && (forall i, j :: 0 <= i < j < |s.rounds| ==> s.rounds[i].id != s.rounds[j].id)
    && (forall i :: 0 <= i < |s.ledger| ==> s.ledger[i].id < s.nextId)
    && forall i, j :: 0 <= i < j < |s.ledger| ==> s.ledger[i].id != s.ledger[j].id
  }

  /** A deposit is positive and refers to nothing. */
  predicate DepositsOk(ledger: seq<Entry>) {
    forall i :: 0 <= i < |ledger| && ledger[i].kind.DepositKind? ==> ledger[i].amount > 0 && ledger[i].refId.None?
  }

  ghost predicate Booked(s: State) {
    && BetLines(s.ledger) == RoundsLines(s.rounds) && DepositsOk(s.ledger)
    && forall i :: 0 <= i < |s.rounds| ==> TotalPayout(s.rounds[i].bets) >= 0
  }

  /** The entries that a round writes are what the round should book. */
  lemma RoundBooks(ledger: seq<Entry>, spin: Spin, id: nat)
    requires Resolve(spin.bets, spin.outcome) == Ok(spin.resolved)
    ensures var round := Round(id, spin.user, spin.pairId, spin.nonce, spin.outcome, spin.resolved);
            BetLines(ledger + RoundEntries(spin, AfterPayout(spin), id)) == BetLines(ledger) + RoundLines(round)
  {
    hide BetLines, TotalStake, TotalPayout, RoundStake, Resolve;
    ResolvedStake(spin.bets, spin.outcome);
    var entries := RoundEntries(spin, AfterPayout(spin), id);
    BetLinesAppend(ledger, entries[0]);
    if |entries| == 2 {
      BetLinesAppend(ledger + [entries[0]], entries[1]);
      assert ledger + entries == ledger + [entries[0]] + [entries[1]];
    } else {
      assert ledger + entries == ledger + [entries[0]];
    }
  }

  lemma {:induction false} RoundKeepsBooks(c: Config, s: State, t: nat)
    requires Inv(c, s) && Booked(s) && t < |s.txs| && s.txs[t].Paid? && s.txs[t].spin.pairId in s.pairs
    ensures Booked(CommitRound(s, t))
  {
    hide Inv, BetLines, RoundsLines, RoundLines, RoundEvents, Resolve, BetOk, Drawn, TotalPayout, TotalStake;
    TxIsOk(c, s, t);
    PaidSpinOk(c, s.wallets, s.pairs, s.txs[t]);
    RoundPays(c, s, t);
    var spin := s.txs[t].spin;
    hide TxOk;
    RoundBooks(s.ledger, spin, s.nextId);
    RoundsLinesAppend(s.rounds, Round(s.nextId, spin.user, spin.pairId, spin.nonce, spin.outcome, spin.resolved));
  }

  lemma DepositKeepsBooks(c: Config, s: State, t: nat)
    requires Inv(c, s) && Booked(s) && t < |s.txs| && s.txs[t].Deposited?
    ensures Booked(CommitDeposit(s, t))
  {
    hide Inv, BetLines, RoundsLines;
    TxIsOk(c, s, t);
    BetLinesAppend(s.ledger, DepositEntry(s, s.txs[t].user, s.txs[t].amount, s.txs[t].after));
  }

  lemma {:induction false} StepBooks(c: Config, s: State, a: Action)
    requires Inv(c, s) && Booked(s)
    ensures Booked(Step(c, s, a))
  {
    hide Inv, Booked, CommitRound, CommitDeposit;
    if !a.Register? && !a.Commit? {
      OnlyCommitsWrite(c, s, a);
      SameBooks(s, Step(c, s, a));
    } else if a.Commit? && a.tx < |s.txs| {
      match s.txs[a.tx]
      case Deposited(_, _, _, _) => DepositKeepsBooks(c, s, a.tx);
      case Paid(spin, _) => if spin.pairId in s.pairs { RoundKeepsBooks(c, s, a.tx); }
      case _ => SameBooks(s, Step(c, s, a));
    } else {
      SameBooks(s, Step(c, s, a));
    }
  }

  lemma SameBooks(s: State, t: State)
    requires Booked(s) && t.ledger == s.ledger && t.rounds == s.rounds
    ensures Booked(t)
  {
  }

  lemma {:induction false} StepIds(c: Config, s: State, a: Action)
    requires IdsOk(s)
    ensures IdsOk(Step(c, s, a))
  {
    hide IsOutcome, AllValidated, TotalStake, HasActive, Resolve, WalletLocked, PairLocked, AfterPayout, RoundEvents,
         TotalPayout;
  }

  lemma {:induction false} RunBooks(c: Config, s: State, actions: seq<Action>)
    requires Init(s) && c.minBet.minor >= 1
    ensures Booked(Run(c, s, actions)) && IdsOk(Run(c, s, actions))
  {
    hide Inv, Step;
    if actions != [] {
      RunBooks(c, s, actions[..|actions| - 1]);
      RunKeeps(c, s, actions[..|actions| - 1]);
      StepBooks(c, Run(c, s, actions[..|actions| - 1]), actions[|actions| - 1]);
      StepIds(c, Run(c, s, actions[..|actions| - 1]), actions[|actions| - 1]);
    }
  }

  /** In every reachable state the ledger entries of bets are, in order and each once, the stake of
      each committed round and, where it paid anything, its payout, with their kinds and the round's
      id; all other entries are positive deposits that refer to nothing. */
  lemma {:induction false} LedgerTellsRounds(c: Config, s: State, actions: seq<Action>)
    requires Init(s) && c.minBet.minor >= 1
    ensures var t := Run(c, s, actions);
            && BetLines(t.ledger) == RoundsLines(t.rounds)
            && (forall i :: 0 <= i < |t.ledger| && t.ledger[i].kind.DepositKind? ==>
                  t.ledger[i].amount > 0 && t.ledger[i].refId.None?)
            && (forall i, j :: 0 <= i < j < |t.rounds| ==> t.rounds[i].id != t.rounds[j].id)
            && forall i, j :: 0 <= i < j < |t.ledger| ==> t.ledger[i].id != t.ledger[j].id
  {
    hide BetLines, RoundsLines;
    RunBooks(c, s, actions);
  }

  // ------------------------------------------------------------ sums

  /** What a user's entries of one kind amount to. */
  function SumOf(ledger: seq<Entry>, user: User, kind: Outbox.Kind): int {
    if ledger == [] then 0
    else
      var last := ledger[|ledger| - 1];
      SumOf(ledger[..|ledger| - 1], user, kind) + if last.user == user && last.kind == kind then last.amount else 0
  }

  function Stakes(rounds: seq<Round>, user: User): int {
    if rounds == [] then 0
    else
      var last := rounds[|rounds| - 1];
      Stakes(rounds[..|rounds| - 1], user) + if last.user == user then RoundStake(last.bets) else 0
  }

  function Payouts(rounds: seq<Round>, user: User): int {
    if rounds == [] then 0
    else
      var last := rounds[|rounds| - 1];
      Payouts(rounds[..|rounds| - 1], user) + if last.user == user then TotalPayout(last.bets) else 0
  }

  function LineSum(lines: seq<Booking>, user: User, kind: Outbox.Kind): int {
    if lines == [] then 0
    else
      var last := lines[|lines| - 1];
      LineSum(lines[..|lines| - 1], user, kind) + if last.user == user && last.kind == kind then last.amount else 0
  }

  lemma LineSumAppend(lines: seq<Booking>, line: Booking, user: User, kind: Outbox.Kind)
    ensures LineSum(lines + [line], user, kind)
            == LineSum(lines, user, kind) + if line.user == user && line.kind == kind then line.amount else 0
  {
    assert (lines + [line])[..|lines|] == lines;
  }

  lemma {:induction false} SumOfLines(ledger: seq<Entry>, user: User, kind: Outbox.Kind)
    requires !kind.DepositKind?
    ensures SumOf(ledger, user, kind) == LineSum(BetLines(ledger), user, kind)
  {
    if ledger != [] {
      var front, last := ledger[..|ledger| - 1], ledger[|ledger| - 1];
      SumOfLines(front, user, kind);
      LineSumAppend(BetLines(front), LineOf(last), user, kind);
      assert BetLines(front) + [] == BetLines(front);
    }
  }

  lemma {:induction false} SumOfRounds(rounds: seq<Round>, user: User)
    requires forall i :: 0 <= i < |rounds| ==> TotalPayout(rounds[i].bets) >= 0
    ensures LineSum(RoundsLines(rounds), user, Outbox.BetStake) == -Stakes(rounds, user)
    ensures LineSum(RoundsLines(rounds), user, Outbox.BetPayout) == Payouts(rounds, user)
  {
    hide TotalPayout, RoundStake;
    if rounds != [] {
      var front, last := rounds[..|rounds| - 1], rounds[|rounds| - 1];
      SumOfRounds(front, user);
      forall kind | kind == Outbox.BetStake || kind == Outbox.BetPayout
        ensures LineSum(RoundsLines(rounds), user, kind)
                == LineSum(RoundsLines(front), user, kind)
                   + if last.user != user then 0
                     else if kind.BetStake? then -RoundStake(last.bets) else TotalPayout(last.bets)
      {
        SumOfRound(RoundsLines(front), last, user, kind);
      }
    }
  }

  lemma SumOfRound(lines: seq<Booking>, r: Round, user: User, kind: Outbox.Kind)
    requires TotalPayout(r.bets) >= 0 && !kind.DepositKind?
    ensures LineSum(lines + RoundLines(r), user, kind)
            == LineSum(lines, user, kind)
               + if r.user != user then 0 else if kind.BetStake? then -RoundStake(r.bets) else TotalPayout(r.bets)
  {
    hide LineSum, TotalPayout, RoundStake;
    var more := RoundLines(r);
    LineSumAppend(lines, more[0], user, kind);
    if |more| == 2 {
      LineSumAppend(lines + [more[0]], more[1], user, kind);
      assert lines + more == lines + [more[0]] + [more[1]];
    } else {
      assert lines + more == lines + [more[0]];
    }
  }

  /** Per user, the entries of kind bet_stake take exactly what the rounds staked, and those of kind
      bet_payout give exactly what they paid. */
  lemma {:induction false} StakesAndPayouts(c: Config, s: State, actions: seq<Action>, user: User)
    requires Init(s) && c.minBet.minor >= 1
    ensures var t := Run(c, s, actions);
            && SumOf(t.ledger, user, Outbox.BetStake) == -Stakes(t.rounds, user)
            && SumOf(t.ledger, user, Outbox.BetPayout) == Payouts(t.rounds, user)
  {
    hide BetLines, RoundsLines, SumOf, LineSum, Stakes, Payouts, Run;
    RunBooks(c, s, actions);
    var t := Run(c, s, actions);
    SumOfLines(t.ledger, user, Outbox.BetStake);
    SumOfLines(t.ledger, user, Outbox.BetPayout);
    SumOfRounds(t.rounds, user);
  }

  /** The round that an entry refers to is its user's, and the entry carries its stake or its payout. */
  predicate Refers(e: Entry, r: Round) {
    && e.refId == Some(r.id) && e.user == r.user
    && match e.kind
       case DepositKind => false
       case BetStake => e.amount == -RoundStake(r.bets)
       case BetPayout => e.amount == TotalPayout(r.bets) > 0
  }

  lemma {:induction false} BetLineOf(ledger: seq<Entry>, i: nat)
    requires i < |ledger| && !ledger[i].kind.DepositKind?
    ensures LineOf(ledger[i]) in BetLines(ledger)
  {
    if i < |ledger| - 1 {
      BetLineOf(ledger[..|ledger| - 1], i);
    }
  }

  lemma {:induction false} RoundOfLine(rounds: seq<Round>, e: Entry)
    requires LineOf(e) in RoundsLines(rounds)
    ensures exists j :: 0 <= j < |rounds| && Refers(e, rounds[j])
  {
    var n := |rounds| - 1;
    if LineOf(e) in RoundLines(rounds[n]) {
      assert Refers(e, rounds[n]);
    } else {
      RoundOfLine(rounds[..n], e);
      var j :| 0 <= j < n && Refers(e, rounds[..n][j]);
      assert Refers(e, rounds[j]);
    }
  }

  /** Every entry of a bet refers to a committed round of its user whose stake or payout it carries. */
  lemma {:induction false} EntriesRefer(c: Config, s: State, actions: seq<Action>, i: nat)
    requires Init(s) && c.minBet.minor >= 1
    requires i < |Run(c, s, actions).ledger| && !Run(c, s, actions).ledger[i].kind.DepositKind?
    ensures var t := Run(c, s, actions);
            exists j :: 0 <= j < |t.rounds| && Refers(t.ledger[i], t.rounds[j])
  {
    hide BetLines, RoundsLines, Run, Refers;
    RunBooks(c, s, actions);
    BetLineOf(Run(c, s, actions).ledger, i);
    RoundOfLine(Run(c, s, actions).rounds, Run(c, s, actions).ledger[i]);
  }
}
