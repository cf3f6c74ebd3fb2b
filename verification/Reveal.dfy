/** Whether a seed pair can still be played after its server seed was revealed: `consume_nonce` does
    not look at the pair's status, so a bet that read the pair before can. */
module Reveal {
  import opened Bets
  import opened Casino
  import opened Engine
  import opened Fairness
  import opened Table
  import opened Wrappers
  import CasinoService

  /** The bet of this transaction has read the pair, and has not committed. */
  predicate Reads(tx: Tx, p: PairId) {
    match tx
    case Seeded(_, _, _, _, q, _, _) => q == p
    case Spun(spin) => spin.pairId == p
    case Paid(spin, _) => spin.pairId == p
    case _ => false
  }

  ghost predicate HasReader(txs: seq<Tx>, p: PairId) {
    exists t :: 0 <= t < |txs| && Reads(txs[t], p)
  }

  predicate Closed(pairs: map<PairId, Pair>, p: PairId) {
    p in pairs && !pairs[p].active
  }

  /** These moves commit a further round on the pair. */
  ghost predicate SpinsOn(c: Config, s: State, p: PairId, actions: seq<Action>) {
    RoundsOn(Run(c, s, actions).rounds, p) > RoundsOn(s.rounds, p)
  }

  // ------------------------------------------------------------ nobody has read it: never again

  /** An open transaction comes to read a pair only while it is active. */
  lemma StepReadsActive(c: Config, s: State, a: Action, p: PairId, t: nat)
    requires !a.Register? && a.tx < |s.txs| && t < |s.txs| && Reads(Step(c, s, a).txs[t], p)
    ensures Reads(s.txs[t], p) || Casino.ActivePair(s.pairs, s.txs[t].user, p)
  {
    hide IsOutcome, Resolve, AllValidated, TotalStake, HasActive, WalletLocked, PairLocked, RoundEntries, RoundEvents,
         AfterPayout;
  }

  /** A commit on a pair comes from a transaction that has read it. */
  lemma StepRounds(c: Config, s: State, a: Action, p: PairId)
    ensures Step(c, s, a).rounds == s.rounds
            || (a.Commit? && a.tx < |s.txs| && s.txs[a.tx].Paid?
                && exists r :: Step(c, s, a).rounds == s.rounds + [r] && r.pairId == s.txs[a.tx].spin.pairId)
  {
    if !a.Register? && !a.Commit? {
      OnlyCommitsWrite(c, s, a);
    } else if a.Commit? && a.tx < |s.txs| && s.txs[a.tx].Paid? && s.txs[a.tx].spin.pairId in s.pairs {
      var spin := s.txs[a.tx].spin;
      var r := Round(s.nextId, spin.user, spin.pairId, spin.nonce, spin.outcome, spin.resolved);
      hide RoundEntries, RoundEvents;
      assert Step(c, s, a).rounds == s.rounds + [r];
    }
  }

  lemma StepTxs(c: Config, s: State, a: Action)
    ensures |Step(c, s, a).txs| == |s.txs|
    ensures a.Register? || a.tx >= |s.txs| ==> Step(c, s, a).txs == s.txs
  {
    hide IsOutcome, Resolve, AllValidated, TotalStake, HasActive, WalletLocked, PairLocked, RoundEntries, RoundEvents,
         AfterPayout;
  }

  lemma ClosedStep(c: Config, s: State, a: Action, p: PairId)
    requires Inv(c, s) && Closed(s.pairs, p) && !HasReader(s.txs, p)
    ensures var s' := Step(c, s, a);
            Closed(s'.pairs, p) && !HasReader(s'.txs, p) && RoundsOn(s'.rounds, p) == RoundsOn(s.rounds, p)
  {
    hide Inv, Step, Reads, RoundsOn;
    var s' := Step(c, s, a);
    StepEvolves(c, s, a);
    StepTxs(c, s, a);
    forall t | 0 <= t < |s'.txs| ensures !Reads(s'.txs[t], p) {
      if !a.Register? && a.tx < |s.txs| && Reads(s'.txs[t], p) {
        StepReadsActive(c, s, a, p, t);
      }
    }
    StepRounds(c, s, a, p);
    if s'.rounds != s.rounds {
      PaidReads(s.txs[a.tx]);
      var r :| s'.rounds == s.rounds + [r] && r.pairId == s.txs[a.tx].spin.pairId;
      AppendRound(s.rounds, r, 0, p);
    }
  }

  lemma PaidReads(tx: Tx)
    requires tx.Paid?
    ensures Reads(tx, tx.spin.pairId)
  {
  }

  lemma {:induction false} ClosedRun(c: Config, s: State, actions: seq<Action>, p: PairId)
    requires Inv(c, s) && Closed(s.pairs, p) && !HasReader(s.txs, p)
    ensures var t := Run(c, s, actions);
            && Inv(c, t) && Closed(t.pairs, p) && !HasReader(t.txs, p)
            && RoundsOn(t.rounds, p) == RoundsOn(s.rounds, p)
  {
    hide Inv, Step, HasReader, RoundsOn;
    if actions != [] {
      var n := |actions| - 1;
      ClosedRun(c, s, actions[..n], p);
      StepKeeps(c, Run(c, s, actions[..n]), actions[n]);
      ClosedStep(c, Run(c, s, actions[..n]), actions[n], p);
    }
  }

  // ------------------------------------------------------------ somebody has: it can be played

  lemma RunThen(c: Config, s: State, a: Action, rest: seq<Action>)
    ensures Run(c, s, [a] + rest) == Run(c, Step(c, s, a), rest)
  {
    hide Step;
    RunConcat(c, s, [a], rest);
    assert [a][..0] == [];
  }

  /** A transaction that has paid commits its round. */
  lemma PaidPlays(c: Config, s: State, t: nat, p: PairId)
    requires Inv(c, s) && t < |s.txs| && s.txs[t].Paid? && s.txs[t].spin.pairId == p
    ensures SpinsOn(c, s, p, [Commit(t, [], "")])
  {
    hide Inv, BetOk, Drawn, Resolve, RoundEntries, RoundEvents, RoundsOn;
    TxIsOk(c, s, t);
    PaidSpinOk(c, s.wallets, s.pairs, s.txs[t]);
    var spin := s.txs[t].spin;
    RunThen(c, s, Commit(t, [], ""), []);
    assert [Commit(t, [], "")] + [] == [Commit(t, [], "")];
    AppendRound(s.rounds, Round(s.nextId, spin.user, p, spin.nonce, spin.outcome, spin.resolved), 0, p);
  }

  lemma SpunPlays(c: Config, s: State, t: nat, p: PairId)
    requires Inv(c, s) && t < |s.txs| && s.txs[t].Spun? && s.txs[t].spin.pairId == p
    ensures SpinsOn(c, s, p, [PayOut(t)] + [Commit(t, [], "")])
  {
    hide Inv, Run, AfterPayout;
    PayOutKeeps(c, s, t);
    PaidPlays(c, Step(c, s, PayOut(t)), t, p);
    RunThen(c, s, PayOut(t), [Commit(t, [], "")]);
  }

  lemma SeededPlays(c: Config, s: State, t: nat, p: PairId) returns (outcome: nat)
    requires Inv(c, s) && SpinsEnd(c.hmac) && t < |s.txs| && s.txs[t].Seeded? && s.txs[t].pairId == p
    requires !PairLocked(s.txs, p)
    ensures SpinsOn(c, s, p, [ConsumeNonce(t, outcome)] + ([PayOut(t)] + [Commit(t, [], "")]))
  {
    outcome := SeededSpins(c, s, t);
    hide Inv, Run, Step;
    StepKeeps(c, s, ConsumeNonce(t, outcome));
    SpunPlays(c, Step(c, s, ConsumeNonce(t, outcome)), t, p);
    RunThen(c, s, ConsumeNonce(t, outcome), [PayOut(t)] + [Commit(t, [], "")]);
  }

  lemma SeededSpins(c: Config, s: State, t: nat) returns (outcome: nat)
    requires Inv(c, s) && SpinsEnd(c.hmac) && t < |s.txs| && s.txs[t].Seeded? && !PairLocked(s.txs, s.txs[t].pairId)
    ensures var s' := Step(c, s, ConsumeNonce(t, outcome));
            && s'.rounds == s.rounds && |s'.txs| == |s.txs|
            && s'.txs[t].Spun? && s'.txs[t].spin.pairId == s.txs[t].pairId
  {
    hide Inv, Step, PairLocked, IsOutcome, Resolve, AllValidated, SpinsEnd;
    CasinoService.SeededIsOk(c, s, t);
    var tx := s.txs[t];
    outcome := SomeOutcome(c.hmac, SeedMaterial(tx.serverSeed, tx.clientSeed, s.pairs[tx.pairId].nonce + 1));
    BetsResolve(tx.bets, c.minBet, c.maxBet, outcome);
    CasinoService.Spins(c, s, t, outcome);
  }

  lemma SomeOutcome(hmac: Hmac, seed: SeedMaterial) returns (outcome: nat)
    requires SpinsEnd(hmac)
    ensures IsOutcome(hmac, seed, POCKET_COUNT, outcome)
  {
    hide IsOutcome, StreamBlock;
    assert SpinEnds(hmac, seed);
    var g :| StreamBlock(hmac, seed, g) < Limit(POCKET_COUNT);
    OutcomeExists(hmac, seed, POCKET_COUNT, g);
    outcome :| IsOutcome(hmac, seed, POCKET_COUNT, outcome);
  }

  lemma BetsResolve(bets: seq<PlacedBet>, minBet: Money, maxBet: Money, outcome: nat)
    requires AllValidated(bets, minBet, maxBet) && minBet.minor >= 1
    ensures Resolve(bets, outcome).Ok?
  {
    hide AllValidated, Resolve;
    ValidatedPays(bets, minBet, maxBet, outcome);
  }

  /** Whoever holds the pair may roll back, and then nobody does. */
  lemma FreedPair(c: Config, s: State, u: nat, p: PairId)
    requires Inv(c, s) && u < |s.txs| && HoldsPair(s.txs[u], p)
    ensures !PairLocked(Step(c, s, Abort(u)).txs, p)
  {
    Parts(c, s);
    hide Inv;
    forall t | 0 <= t < |s.txs| && t != u ensures !HoldsPair(s.txs[t], p) {
    }
  }

  lemma ReaderPlays(c: Config, s: State, t: nat, p: PairId) returns (actions: seq<Action>)
    requires Inv(c, s) && SpinsEnd(c.hmac) && t < |s.txs| && Reads(s.txs[t], p)
    ensures SpinsOn(c, s, p, actions)
  {
    hide Inv, SpinsOn, SpinsEnd, HoldsPair;
    if s.txs[t].Paid? {
      PaidPlays(c, s, t, p);
      actions := [Commit(t, [], "")];
    } else if s.txs[t].Spun? {
      SpunPlays(c, s, t, p);
      actions := [PayOut(t)] + [Commit(t, [], "")];
    } else if !PairLocked(s.txs, p) {
      var outcome := SeededPlays(c, s, t, p);
      actions := [ConsumeNonce(t, outcome)] + ([PayOut(t)] + [Commit(t, [], "")]);
    } else {
      var u :| 0 <= u < |s.txs| && HoldsPair(s.txs[u], p);
      SeededHoldsNothing(s.txs[t], p);
      FreedPair(c, s, u, p);
      AbortKeeps(c, s, u);
      var freed := Step(c, s, Abort(u));
      var outcome := SeededPlays(c, freed, t, p);
      var rest := [ConsumeNonce(t, outcome)] + ([PayOut(t)] + [Commit(t, [], "")]);
      actions := [Abort(u)] + rest;
      PlaysLater(c, s, Abort(u), rest, p);
    }
  }

  lemma SeededHoldsNothing(tx: Tx, p: PairId)
    requires tx.Seeded?
    ensures !HoldsPair(tx, p)
  {
  }

  lemma PlaysLater(c: Config, s: State, a: Action, rest: seq<Action>, p: PairId)
    requires SpinsOn(c, Step(c, s, a), p, rest) && Step(c, s, a).rounds == s.rounds
    ensures SpinsOn(c, s, p, [a] + rest)
  {
    hide Step;
    RunThen(c, s, a, rest);
  }

  /** Exactly when a revealed pair can still be played: some bet that is open now has read it. */
  lemma {:induction false} SpinAfterRevealExactly(c: Config, s: State, before: seq<Action>, p: PairId)
    requires Init(s) && c.minBet.minor >= 1 && SpinsEnd(c.hmac)
    requires Closed(Run(c, s, before).pairs, p)
    ensures var t := Run(c, s, before);
            (exists after :: SpinsOn(c, t, p, after)) <==> HasReader(t.txs, p)
  {
    hide Inv, Run, Closed, SpinsEnd, Init, Reads;
    RunKeeps(c, s, before);
    var t := Run(c, s, before);
    if HasReader(t.txs, p) {
      var u :| 0 <= u < |t.txs| && Reads(t.txs[u], p);
      var after := ReaderPlays(c, t, u, p);
    } else {
      forall after ensures !SpinsOn(c, t, p, after) {
        ClosedRun(c, t, after, p);
      }
    }
  }

  // ------------------------------------------------------------ the run

  /** One user, the smallest bet on red, and another session that rotates once the bet has read. */
  function RedBet(c: Config): PlacedBet {
    PlacedBet(Red, map[], c.minBet)
  }

  function LateAction(c: Config, k: nat): Action {
    if k == 0 then Register(1, [], "")
    else if k == 1 then Credit(0, 1, "deposit", c.minBet.minor)
    else if k == 2 then Commit(0, [], "")
    else if k == 3 then Debit(0, 1, "bet", [RedBet(c)])
    else if k == 4 then ReadSeed(0)
    else if k == 5 then ReadActive(1, 1)
    else if k == 6 then Reveal(1)
    else Commit(1, [], "")
  }

  function LateActions(c: Config, n: nat): seq<Action> {
    if n == 0 then [] else LateActions(c, n - 1) + [LateAction(c, n - 1)]
  }

  const LATE_START: State := State(map[], map[], [], [], [], [Idle, Idle], 0)

  function FirstPair(c: Config): Pair {
    Pair(1, [], c.sha256([]), "", 0, true)
  }

  ghost predicate Stage(s: State, balance: int, pair: Pair, txs: seq<Tx>) {
    s.wallets == map[1 := balance] && s.pairs == map[0 := pair] && s.txs == txs && s.nextId > 0
  }

  lemma LateBet(c: Config)
    requires c.minBet.currency == c.maxBet.currency && c.minBet.minor <= c.maxBet.minor
    ensures AllValidated([RedBet(c)], c.minBet, c.maxBet) && TotalStake([RedBet(c)]) == c.minBet.minor
  {
    assert [RedBet(c)][..0] == [];
  }

  lemma LateDeposit(c: Config)
    requires c.minBet.minor >= 1
    ensures var m := c.minBet.minor;
            var s1 := Step(c, LATE_START, LateAction(c, 0));
            var s2 := Step(c, s1, LateAction(c, 1));
            Stage(Step(c, s2, LateAction(c, 2)), m, FirstPair(c), [Idle, Idle])
  {
    var m := c.minBet.minor;
    var s1 := Step(c, LATE_START, LateAction(c, 0));
    assert !WalletLocked(s1.txs, 1);
    var s2 := Step(c, s1, LateAction(c, 1));
    assert s2.txs == [Deposited(1, "deposit", m, m), Idle];
    var s3 := Step(c, s2, LateAction(c, 2));
    assert s3.txs == [Idle, Idle] && s3.wallets == map[1 := m];
  }

  lemma LateRead(c: Config, s: State)
    requires c.minBet.minor >= 1 && c.minBet.currency == c.maxBet.currency && c.minBet.minor <= c.maxBet.minor
    requires Stage(s, c.minBet.minor, FirstPair(c), [Idle, Idle])
    ensures Stage(Step(c, Step(c, s, LateAction(c, 3)), LateAction(c, 4)), c.minBet.minor, FirstPair(c),
                  [Seeded(1, "bet", [RedBet(c)], 0, 0, [], ""), Idle])
  {
    LateBet(c);
    hide AllValidated, TotalStake;
    assert !WalletLocked(s.txs, 1);
    var s4 := Step(c, s, LateAction(c, 3));
    assert s4.txs == [Staked(1, "bet", [RedBet(c)], 0), Idle];
    FirstIsActive(c);
  }

  lemma FirstIsActive(c: Config)
    ensures HasActive(map[0 := FirstPair(c)], 1) && ActiveOf(map[0 := FirstPair(c)], 1) == 0
  {
    assert Casino.ActivePair(map[0 := FirstPair(c)], 1, 0);
  }

  lemma LateRotation(c: Config, s: State, tx: Tx)
    requires tx.Seeded? && Stage(s, c.minBet.minor, FirstPair(c), [tx, Idle])
    ensures var s' := Step(c, Step(c, Step(c, s, LateAction(c, 5)), LateAction(c, 6)), LateAction(c, 7));
            Closed(s'.pairs, 0) && s'.txs == [tx, Idle]
  {
    FirstIsActive(c);
    hide HasActive;
    var s6 := Step(c, s, LateAction(c, 5));
    assert s6.txs == [tx, RotateRead(1, 0)];
    assert !PairLocked(s6.txs, 0);
    var s7 := Step(c, s6, LateAction(c, 6));
    assert s7.txs == [tx, Revealed(1, 0)];
    NoneLeft(c);
    assert map[0 := FirstPair(c)][0 := FirstPair(c).(active := false)] == map[0 := FirstPair(c).(active := false)];
  }

  lemma NoneLeft(c: Config)
    ensures !HasActive(map[0 := FirstPair(c).(active := false)], 1)
  {
  }

  lemma LateExtends(c: Config, n: nat)
    ensures Run(c, LATE_START, LateActions(c, n + 1))
            == Step(c, Run(c, LATE_START, LateActions(c, n)), LateAction(c, n))
  {
    hide Step, LateAction;
    RunSnoc(c, LATE_START, LateActions(c, n), LateAction(c, n));
  }

  lemma LateRun(c: Config)
    requires c.minBet.minor >= 1 && c.minBet.currency == c.maxBet.currency && c.minBet.minor <= c.maxBet.minor
    ensures Closed(Run(c, LATE_START, LateActions(c, 8)).pairs, 0)
    ensures HasReader(Run(c, LATE_START, LateActions(c, 8)).txs, 0)
  {
    hide Step, Run, LateAction, LateActions, Stage;
    RunEmptyLate(c);
    LateExtends(c, 0);
    LateExtends(c, 1);
    LateExtends(c, 2);
    LateDeposit(c);
    LateExtends(c, 3);
    LateExtends(c, 4);
    LateRead(c, Run(c, LATE_START, LateActions(c, 3)));
    LateExtends(c, 5);
    LateExtends(c, 6);
    LateExtends(c, 7);
    var tx := Seeded(1, "bet", [RedBet(c)], 0, 0, [], "");
    LateRotation(c, Run(c, LATE_START, LateActions(c, 5)), tx);
    assert Reads(Run(c, LATE_START, LateActions(c, 8)).txs[0], 0);
  }

  lemma RunEmptyLate(c: Config)
    ensures Run(c, LATE_START, LateActions(c, 0)) == LATE_START
  {
  }

  /** "It can no longer be used" fails: on every table, a bet that read the pair before the rotation
      commits a round on the revealed pair. */
  lemma RevealedPairIsPlayed(c: Config) returns (after: seq<Action>)
    requires c.minBet.minor >= 1 && c.minBet.currency == c.maxBet.currency && c.minBet.minor <= c.maxBet.minor
    requires SpinsEnd(c.hmac)
    ensures Init(LATE_START) && Closed(Run(c, LATE_START, LateActions(c, 8)).pairs, 0)
    ensures SpinsOn(c, Run(c, LATE_START, LateActions(c, 8)), 0, after)
  {
    hide SpinsEnd, Run, Inv, Closed, LateActions, Reads, SpinsOn;
    LateRun(c);
    RunKeeps(c, LATE_START, LateActions(c, 8));
    var t := Run(c, LATE_START, LateActions(c, 8));
    var u :| 0 <= u < |t.txs| && Reads(t.txs[u], 0);
    after := ReaderPlays(c, t, u, 0);
  }
}
