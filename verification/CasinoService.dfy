/** `register_user`, `deposit`, `place_bet` and `rotate_seed` as the code runs them: one statement
    after the other on tables updated in place, with whatever other sessions do at each await. */
module CasinoService {
  import opened Bets
  import opened Engine
  import opened Fairness
  import opened Table
  import opened Wrappers
  import opened Casino
  import Outbox

  /** Why a call raised; its transaction is rolled back. */
  datatype Failure =
    | NoWallet
    | NoSeedPair
    | NoBets
    | BetRejected(error: BetError)
    | InsufficientFunds
    | StatementTimeout
    | AlreadyRotated

  datatype PlaceBetResult = PlaceBetResult(roundId: nat, outcome: nat, bets: seq<ResolvedBet>,
                                           totalStake: int, totalPayout: int, net: int, balance: int)

  datatype RotateSeedView = RotateSeedView(revealedSeed: Bytes, revealedHash: string,
                                           newHash: string, newClientSeed: string)

  /** The moves of every transaction but `t`. */
  predicate Others(env: seq<Action>, t: nat) {
    forall i :: 0 <= i < |env| ==> OtherAction(env[i], t)
  }

  predicate OtherAction(a: Action, t: nat) {
    a.Register? || a.tx != t
  }

  /** Nothing that transaction t did was committed. */
  predicate NoCommit(trace: seq<Action>, t: nat) {
    forall i :: 0 <= i < |trace| ==> !trace[i].Commit? || trace[i].tx != t
  }

  /** What a move of another transaction leaves alone. */
  ghost predicate KeepsTx(s: State, s': State, t: nat) {
    && |s'.txs| == |s.txs| && t < |s.txs| && s'.txs[t] == s.txs[t]
    && forall u :: u in s.wallets ==> u in s'.wallets
  }

  /** A move of transaction t that changes no committed table. */
  predicate OnlyTx(s: State, s': State, t: nat) {
    t < |s.txs| && |s'.txs| == |s.txs| && s' == s.(txs := s.txs[t := s'.txs[t]])
  }

  lemma ActiveIsUnique(c: Config, s: State, user: User, p: PairId)
    requires Inv(c, s) && ActivePair(s.pairs, user, p)
    ensures HasActive(s.pairs, user) && ActiveOf(s.pairs, user) == p
  {
    Parts(c, s);
    hide Inv, LedgerOk, RoundsOk, EventsOk, TxsOk;
  }

  lemma NoneActive(pairs: map<PairId, Pair>, user: User, none: bool)
    requires none ==> forall q :: !ActivePair(pairs, user, q)
    requires !none ==> exists q :: ActivePair(pairs, user, q)
    ensures none <==> !HasActive(pairs, user)
  {
  }

  lemma NoSuchTx(c: Config, s: State, a: Action)
    requires !a.Register? && a.tx >= |s.txs|
    ensures Step(c, s, a) == s
  {
  }

  lemma ConsumeWaits(c: Config, s: State, t: nat, outcome: nat)
    requires t < |s.txs| && (!s.txs[t].Seeded? || PairLocked(s.txs, s.txs[t].pairId))
    ensures Step(c, s, ConsumeNonce(t, outcome)) == s
  {
    hide PairLocked, IsOutcome, Resolve;
  }

  lemma OtherOutcome(c: Config, s: State, t: nat, drawn: nat, outcome: nat)
    requires t < |s.txs| && s.txs[t].Seeded? && s.txs[t].pairId in s.pairs && drawn != outcome
    requires var tx := s.txs[t];
             IsOutcome(c.hmac, SeedMaterial(tx.serverSeed, tx.clientSeed, s.pairs[tx.pairId].nonce + 1), POCKET_COUNT,
                       drawn)
    ensures Step(c, s, ConsumeNonce(t, outcome)) == s
  {
    hide PairLocked, IsOutcome, Resolve;
    var tx := s.txs[t];
    var seed := SeedMaterial(tx.serverSeed, tx.clientSeed, s.pairs[tx.pairId].nonce + 1);
    if IsOutcome(c.hmac, seed, POCKET_COUNT, outcome) {
      OutcomeUnique(c.hmac, seed, POCKET_COUNT, drawn, outcome);
    }
  }

  /** Another transaction leaves this one's state alone, and deletes no wallet. */
  lemma OtherKeeps(c: Config, s: State, a: Action, t: nat)
    requires t < |s.txs| && OtherAction(a, t)
    ensures KeepsTx(s, Step(c, s, a), t)
  {
    hide HasActive, IsOutcome, Resolve, AllValidated, TotalStake, WalletLocked, PairLocked, RoundEntries, RoundEvents,
         AfterPayout;
  }

  lemma OthersDoNotCommit(env: seq<Action>, t: nat)
    requires Others(env, t)
    ensures NoCommit(env, t)
  {
    forall i | 0 <= i < |env| ensures !env[i].Commit? || env[i].tx != t {
      assert OtherAction(env[i], t);
    }
  }

  lemma NothingCommitted(t: nat)
    ensures NoCommit([], t)
  {
  }

  lemma NothingCommittedTwice(a: seq<Action>, b: seq<Action>, t: nat)
    requires NoCommit(a, t) && NoCommit(b, t)
    ensures NoCommit(a + b, t)
  {
  }

  lemma CommitsDeposit(c: Config, s: State, t: nat)
    requires t < |s.txs| && s.txs[t].Deposited?
    ensures Step(c, s, Commit(t, [], "")) == CommitDeposit(s, t)
  {
    hide CommitDeposit;
  }

  lemma CommitsRound(c: Config, s: State, t: nat)
    requires t < |s.txs| && s.txs[t].Paid? && s.txs[t].spin.pairId in s.pairs
    ensures Step(c, s, Commit(t, [], "")) == CommitRound(s, t)
  {
    hide CommitRound;
  }

  lemma CommitsRotation(c: Config, s: State, t: nat, serverSeed: Bytes, clientSeed: string)
    requires t < |s.txs| && s.txs[t].Revealed? && s.txs[t].pairId in s.pairs
    ensures Step(c, s, Commit(t, serverSeed, clientSeed)) == CommitRotation(c, s, t, serverSeed, clientSeed)
  {
    hide CommitRotation;
  }

  lemma SameSeedsFurther(a: map<PairId, Pair>, b: map<PairId, Pair>, c: map<PairId, Pair>)
    requires SamePairs(a, b) && PairsEvolve(b, c)
    ensures SamePairs(a, c)
  {
  }

  /** Where a spin takes its transaction. */
  function SpinOf(tx: Tx, nonce: nat, outcome: nat): Tx
    requires tx.Seeded? && Resolve(tx.bets, outcome).Ok?
  {
    Spun(Spin(tx.user, tx.key, tx.bets, tx.after, tx.pairId, nonce, outcome, Resolve(tx.bets, outcome).value))
  }

  lemma Spins(c: Config, s: State, t: nat, outcome: nat)
    requires t < |s.txs| && s.txs[t].Seeded? && s.txs[t].pairId in s.pairs && !PairLocked(s.txs, s.txs[t].pairId)
    requires var tx := s.txs[t];
             && IsOutcome(c.hmac, SeedMaterial(tx.serverSeed, tx.clientSeed, s.pairs[tx.pairId].nonce + 1),
                          POCKET_COUNT, outcome)
             && Resolve(tx.bets, outcome).Ok?
    ensures Step(c, s, ConsumeNonce(t, outcome))
            == Goto(s, t, SpinOf(s.txs[t], s.pairs[s.txs[t].pairId].nonce + 1, outcome))
  {
    hide PairLocked, IsOutcome, Resolve;
  }

  lemma SeededIsOk(c: Config, s: State, t: nat)
    requires Inv(c, s) && t < |s.txs| && s.txs[t].Seeded?
    ensures s.txs[t].pairId in s.pairs && AllValidated(s.txs[t].bets, c.minBet, c.maxBet) && c.minBet.minor >= 1
  {
    TxIsOk(c, s, t);
    hide Inv, AllValidated, TotalStake;
  }

  function Closed(pairs: map<PairId, Pair>, p: PairId): map<PairId, Pair>
    requires p in pairs
  {
    pairs[p := pairs[p].(active := false)]
  }

  lemma RotationTables(c: Config, s: State, t: nat, serverSeed: Bytes, clientSeed: string)
    requires t < |s.txs| && s.txs[t].Revealed? && s.txs[t].pairId in s.pairs
    ensures var user, p := s.txs[t].user, s.txs[t].pairId;
            var s' := CommitRotation(c, s, t, serverSeed, clientSeed);
            && s'.txs == s.txs[t := Idle]
            && (!HasActive(Closed(s.pairs, p), user) ==>
                  s'.pairs
                  == Closed(s.pairs, p)[s.nextId := Pair(user, serverSeed, c.sha256(serverSeed), clientSeed, 0, true)])
  {
    hide HasActive;
  }

  /** Releasing what one transaction does not hold releases nothing. */
  lemma StaysLocked(txs: seq<Tx>, t: nat, user: User, p: PairId)
    requires t < |txs|
    ensures WalletLocked(txs, user) && !HoldsWallet(txs[t], user) ==> WalletLocked(txs[t := Idle], user)
    ensures PairLocked(txs, p) && !HoldsPair(txs[t], p) ==> PairLocked(txs[t := Idle], p)
  {
    hide HoldsWallet, HoldsPair;
    if u :| 0 <= u < |txs| && HoldsWallet(txs[u], user) && u != t {
      assert HoldsWallet(txs[t := Idle][u], user);
    }
    if u :| 0 <= u < |txs| && HoldsPair(txs[u], p) && u != t {
      assert HoldsPair(txs[t := Idle][u], p);
    }
  }

  /** The last event of a round tells its last ledger entry, under the key of the bet. */
  lemma RoundReceipt(spin: Spin, afterPayout: Option<int>, roundId: nat)
    ensures var entries, events := RoundEntries(spin, afterPayout, roundId), RoundEvents(spin, afterPayout, roundId);
            && entries != [] && events != []
            && events[|events| - 1].data == EntryData(entries[|entries| - 1])
            && events[|events| - 1].idempotencyKey == spin.key
  {
    hide TotalStake, TotalPayout, PlacedEvents, EntryData;
  }

  /** Somebody else's active pair rolls a rotation back. */
  lemma RotationRefused(c: Config, s: State, t: nat, serverSeed: Bytes, clientSeed: string)
    requires t < |s.txs| && s.txs[t].Revealed? && s.txs[t].pairId in s.pairs
    requires HasActive(Closed(s.pairs, s.txs[t].pairId), s.txs[t].user)
    ensures CommitRotation(c, s, t, serverSeed, clientSeed) == Goto(s, t, Idle)
    ensures exists q :: q != s.txs[t].pairId && ActivePair(s.pairs, s.txs[t].user, q)
  {
    var q :| ActivePair(Closed(s.pairs, s.txs[t].pairId), s.txs[t].user, q);
    assert ActivePair(s.pairs, s.txs[t].user, q);
  }

  lemma PublishedHash(c: Config, s: State, p: PairId)
    requires Inv(c, s) && p in s.pairs
    ensures p < s.nextId && s.pairs[p].seedHash == c.sha256(s.pairs[p].serverSeed)
  {
    assert PairOk(c, s.wallets, s.pairs[p]);
  }

  /** A rotation that goes through closes its pair and opens the new one. */
  lemma RotationOutcome(c: Config, s: State, t: nat, serverSeed: Bytes, clientSeed: string)
    requires Inv(c, s) && t < |s.txs| && s.txs[t].Revealed?
    requires s.txs[t].pairId in s.pairs && s.pairs[s.txs[t].pairId].user == s.txs[t].user
    ensures s.pairs[s.txs[t].pairId].seedHash == c.sha256(s.pairs[s.txs[t].pairId].serverSeed)
    ensures CommitRotation(c, s, t, serverSeed, clientSeed).txs == s.txs[t := Idle]
    ensures var user, p := s.txs[t].user, s.txs[t].pairId;
            var after := CommitRotation(c, s, t, serverSeed, clientSeed).pairs;
            !HasActive(Closed(s.pairs, p), user) ==>
              && p in after && after[p] == s.pairs[p].(active := false)
              && HasActive(after, user) && ActiveOf(after, user) != p
              && after[ActiveOf(after, user)] == Pair(user, serverSeed, c.sha256(serverSeed), clientSeed, 0, true)
  {
    hide Inv, CommitRotation, HasActive;
    var user, p := s.txs[t].user, s.txs[t].pairId;
    var s' := CommitRotation(c, s, t, serverSeed, clientSeed);
    PublishedHash(c, s, p);
    RotationTables(c, s, t, serverSeed, clientSeed);
    if !HasActive(Closed(s.pairs, p), user) {
      RotationKeeps(c, s, t, serverSeed, clientSeed);
      ActiveIsUnique(c, s', user, s.nextId);
    }
  }

  /** `spin`. */
  method DrawOutcome(hmac: Hmac, seed: SeedMaterial) returns (outcome: nat)
    requires SpinsEnd(hmac)
    ensures outcome < POCKET_COUNT && IsOutcome(hmac, seed, POCKET_COUNT, outcome)
  {
    hide IsOutcome, StreamBlock;
    assert SpinEnds(hmac, seed);
    ghost var g :| StreamBlock(hmac, seed, g) < Limit(POCKET_COUNT);
    outcome := DeriveOutcome(hmac, seed, POCKET_COUNT, g);
  }

  /** `resolve_bets` on bets that were validated: it does not raise. */
  method ResolveValidated(bets: seq<PlacedBet>, minBet: Money, maxBet: Money, outcome: nat)
      returns (resolved: seq<ResolvedBet>)
    requires AllValidated(bets, minBet, maxBet) && minBet.minor >= 1
    ensures Resolve(bets, outcome) == Ok(resolved)
  {
    hide AllValidated, Resolve;
    ValidatedPays(bets, minBet, maxBet, outcome);
    var r := ResolveBets(bets, outcome);
    resolved := r.value;
  }

  class Database {
    const c: Config
    var wallets: map<User, int>
    var pairs: map<PairId, Pair>
    var rounds: seq<Round>
    var ledger: seq<Entry>
    var issued: seq<Event>
    var txs: seq<Tx>
    var nextId: nat

    function View(): State
      reads this
    {
      State(wallets, pairs, rounds, ledger, issued, txs, nextId)
    }

    ghost predicate Valid()
      reads this
    {
      Inv(c, View()) && SpinsEnd(c.hmac)
    }

    constructor (config: Config, sessions: nat)
      requires config.minBet.minor >= 1 && SpinsEnd(config.hmac)
      ensures Valid() && c == config && Init(View()) && |txs| == sessions
    {
      c := config;
      wallets, pairs, rounds, ledger, issued, nextId := map[], map[], [], [], [], 0;
      txs := seq(sessions, i => Idle);
      new;
      InitKeeps(c, View());
    }

    /** `get_active_by_user_id`. */
    method FindActive(user: User) returns (p: Option<PairId>)
      requires Valid()
      ensures p.Some? <==> HasActive(pairs, user)
      ensures p.Some? ==> p.value == ActiveOf(pairs, user)
    {
      hide Inv;
      var candidates := pairs.Keys;
      p := None;
      while candidates != {}
        invariant p.None? && candidates <= pairs.Keys
        invariant forall q :: ActivePair(pairs, user, q) ==> q in candidates
        decreases candidates
      {
        var q :| q in candidates;
        if ActivePair(pairs, user, q) {
          ActiveIsUnique(c, View(), user, q);
          return Some(q);
        }
        candidates := candidates - {q};
      }
    }

    // ------------------------------------------------------------ statements

    method RegisterUser(user: User, serverSeed: Bytes, clientSeed: string)
      requires Valid()
      modifies this
      ensures Valid() && View() == Step(c, old(View()), Register(user, serverSeed, clientSeed))
      ensures txs == old(txs) && user in wallets
      ensures forall u :: u in old(wallets) ==> u in wallets && wallets[u] == old(wallets)[u]
      ensures user in old(wallets) ==> View() == old(View())
      ensures user !in old(wallets) ==>
                && wallets == old(wallets)[user := 0] && old(nextId) !in old(pairs)
                && pairs
                   == old(pairs)[old(nextId) := Pair(user, serverSeed, c.sha256(serverSeed), clientSeed, 0, true)]
                && rounds == old(rounds) && ledger == old(ledger) && issued == old(issued)
    {
      hide Inv, SpinsEnd, Goto;
      NextIdIsNew(c, View());
      RegisterKeeps(c, View(), user, serverSeed, clientSeed);
      if user !in wallets {
        wallets := wallets[user := 0];
        pairs := pairs[nextId := Pair(user, serverSeed, c.sha256(serverSeed), clientSeed, 0, true)];
        nextId := nextId + 1;
      }
    }

    /** The UPDATE of `credit` in `deposit`. */
    method CreditWallet(t: nat, user: User, key: string, amount: int) returns (done: bool)
      requires Valid() && t < |txs|
      modifies this
      ensures Valid() && View() == Step(c, old(View()), Credit(t, user, key, amount)) && OnlyTx(old(View()), View(), t)
      ensures done <==> old(txs[t]).Idle? && user in wallets && !WalletLocked(old(txs), user) && amount > 0
      ensures txs[t] == if done then Deposited(user, key, amount, wallets[user] + amount) else old(txs[t])
      ensures !done ==> View() == old(View())
    {
      hide Inv, WalletLocked;
      CreditKeeps(c, View(), t, user, key, amount);
      done := txs[t].Idle? && user in wallets && !WalletLocked(txs, user) && amount > 0;
      if done {
        txs := txs[t := Deposited(user, key, amount, wallets[user] + amount)];
      }
    }

    /** The UPDATE of `debit`, whose WHERE clause is the only balance check. */
    method DebitWallet(t: nat, user: User, key: string, bets: seq<PlacedBet>) returns (done: bool)
      requires Valid() && t < |txs|
      modifies this
      ensures Valid() && View() == Step(c, old(View()), Debit(t, user, key, bets)) && OnlyTx(old(View()), View(), t)
      ensures done <==> && old(txs[t]).Idle? && user in wallets && !WalletLocked(old(txs), user)
                        && bets != [] && AllValidated(bets, c.minBet, c.maxBet) && wallets[user] >= TotalStake(bets)
      ensures txs[t] == if done then Staked(user, key, bets, wallets[user] - TotalStake(bets)) else old(txs[t])
      ensures !done ==> View() == old(View())
    {
      hide Inv, WalletLocked, AllValidated, TotalStake;
      DebitKeeps(c, View(), t, user, key, bets);
      done := && txs[t].Idle? && user in wallets && !WalletLocked(txs, user)
              && bets != [] && AllValidated(bets, c.minBet, c.maxBet) && wallets[user] >= TotalStake(bets);
      if done {
        txs := txs[t := Staked(user, key, bets, wallets[user] - TotalStake(bets))];
      }
    }

    method ReadSeedPair(t: nat)
      requires Valid() && t < |txs|
      modifies this
      ensures Valid() && View() == Step(c, old(View()), ReadSeed(t)) && OnlyTx(old(View()), View(), t)
      ensures old(txs[t]).Staked? ==>
                var tx := old(txs[t]);
                if HasActive(pairs, tx.user) then
                  var p := ActiveOf(pairs, tx.user);
                  txs[t] == Seeded(tx.user, tx.key, tx.bets, tx.after, p, pairs[p].serverSeed, pairs[p].clientSeed)
                else txs[t] == Idle
    {
      hide Inv, HasActive;
      ReadSeedKeeps(c, View(), t);
      var tx := txs[t];
      if tx.Staked? {
        var found := FindActive(tx.user);
        match found
        case Some(p) =>
          txs := txs[t := Seeded(tx.user, tx.key, tx.bets, tx.after, p, pairs[p].serverSeed, pairs[p].clientSeed)];
        case None =>
          txs := txs[t := Idle];
      }
    }

    /** `consume_nonce`, `spin` and `resolve_bets`. */
    method TakeNonce(t: nat) returns (outcome: nat)
      requires Valid() && t < |txs| && txs[t].Seeded? && !PairLocked(txs, txs[t].pairId)
      modifies this
      ensures Valid() && View() == Step(c, old(View()), ConsumeNonce(t, outcome)) && OnlyTx(old(View()), View(), t)
      ensures var tx := old(txs[t]);
              && tx.pairId in pairs && Resolve(tx.bets, outcome).Ok?
              && IsOutcome(c.hmac, SeedMaterial(tx.serverSeed, tx.clientSeed, pairs[tx.pairId].nonce + 1),
                           POCKET_COUNT, outcome)
              && txs[t] == SpinOf(tx, pairs[tx.pairId].nonce + 1, outcome)
    {
      hide Inv, Step, Resolve, IsOutcome, PairLocked, SpinsEnd, AllValidated, TotalStake;
      SeededIsOk(c, View(), t);
      var tx := txs[t];
      var nonce := pairs[tx.pairId].nonce + 1;
      var seed := SeedMaterial(tx.serverSeed, tx.clientSeed, nonce);
      outcome := DrawOutcome(c.hmac, seed);
      var resolved := ResolveValidated(tx.bets, c.minBet, c.maxBet, outcome);
      Spins(c, View(), t, outcome);
      StepKeeps(c, View(), ConsumeNonce(t, outcome));
      txs := txs[t := Spun(Spin(tx.user, tx.key, tx.bets, tx.after, tx.pairId, nonce, outcome, resolved))];
    }

    /** The UPDATE of `credit` in `place_bet`, skipped when nothing was won. */
    method PayWinnings(t: nat)
      requires Valid() && t < |txs|
      modifies this
      ensures Valid() && View() == Step(c, old(View()), PayOut(t)) && OnlyTx(old(View()), View(), t)
      ensures old(txs[t]).Spun? ==> txs[t] == Paid(old(txs[t]).spin, AfterPayout(old(txs[t]).spin))
    {
      hide Inv, TotalPayout;
      PayOutKeeps(c, View(), t);
      if txs[t].Spun? {
        var spin := txs[t].spin;
        var afterPayout := None;
        var payout := TotalPayout(spin.resolved);
        if payout > 0 {
          afterPayout := Some(spin.afterStake + payout);
        }
        txs := txs[t := Paid(spin, afterPayout)];
      }
    }

    method ReadActivePair(t: nat, user: User)
      requires Valid() && t < |txs|
      modifies this
      ensures Valid() && View() == Step(c, old(View()), ReadActive(t, user)) && OnlyTx(old(View()), View(), t)
      ensures old(txs[t]).Idle? ==>
                txs[t] == if HasActive(pairs, user) then RotateRead(user, ActiveOf(pairs, user)) else Idle
    {
      hide Inv, HasActive;
      RotationMovesKeep(c, View(), t, user);
      if txs[t].Idle? {
        var found := FindActive(user);
        if found.Some? {
          txs := txs[t := RotateRead(user, found.value)];
        }
      }
    }

    /** `reveal_and_deactivate`. */
    method RevealPair(t: nat) returns (done: bool)
      requires Valid() && t < |txs|
      modifies this
      ensures Valid() && View() == Step(c, old(View()), Reveal(t)) && OnlyTx(old(View()), View(), t)
      ensures done <==> old(txs[t]).RotateRead? && !PairLocked(old(txs), old(txs[t]).pairId)
      ensures txs[t] == if done then Revealed(old(txs[t]).user, old(txs[t]).pairId) else old(txs[t])
      ensures !done ==> View() == old(View())
    {
      hide Inv, PairLocked;
      RotationMovesKeep(c, View(), t, 0);
      done := txs[t].RotateRead? && !PairLocked(txs, txs[t].pairId);
      if done {
        txs := txs[t := Revealed(txs[t].user, txs[t].pairId)];
      }
    }

    method Rollback(t: nat)
      requires Valid() && t < |txs|
      modifies this
      ensures Valid() && View() == Step(c, old(View()), Abort(t)) && OnlyTx(old(View()), View(), t)
      ensures txs[t] == Idle
    {
      hide Inv;
      AbortKeeps(c, View(), t);
      txs := txs[t := Idle];
    }

    // ------------------------------------------------------------ commits

    /** `append` and `enqueue_event` of a deposit, and the commit. */
    method CommitDepositTx(t: nat)
      requires Valid() && t < |txs| && txs[t].Deposited?
      modifies this
      ensures Valid() && View() == CommitDeposit(old(View()), t)
    {
      hide Inv;
      DepositKeeps(c, View(), t);
      var tx := txs[t];
      var entry := Entry(nextId, tx.user, tx.amount, tx.after, Outbox.DepositKind, None);
      wallets := wallets[tx.user := tx.after];
      ledger := ledger + [entry];
      issued := issued + [Outbox.Event(nextId + 1, tx.key, EntryData(entry))];
      nextId := nextId + 2;
      txs := txs[t := Idle];
    }

    /** `_enqueue_round_events`. */
    method EnqueueRoundEvents(spin: Spin, afterPayout: Option<int>, roundId: nat) returns (events: seq<Event>)
      ensures events == RoundEvents(spin, afterPayout, roundId)
    {
      hide TotalStake, TotalPayout, PlacedEvents;
      events := [];
      for i := 0 to |spin.bets|
        invariant events == PlacedEvents(spin, roundId, roundId + 3, i)
      {
        PlacedSnoc(spin, roundId, roundId + 3, i);
        events := events + [Outbox.Event(roundId + 3 + i, spin.key,
                                         Outbox.BetPlaced(roundId, spin.user, spin.bets[i]))];
      }
      var entries := RoundEntries(spin, afterPayout, roundId);
      var stake, payout := TotalStake(spin.bets), TotalPayout(spin.resolved);
      var n := |spin.bets|;
      events := events + [Outbox.Event(roundId + 3 + n, spin.key,
                            Outbox.RoundSettled(roundId, spin.user, spin.pairId, spin.nonce, spin.outcome,
                                                spin.resolved, stake, payout, payout - stake))];
      events := events + [Outbox.Event(roundId + 4 + n, spin.key, EntryData(entries[0]))];
      if |entries| > 1 {
        events := events + [Outbox.Event(roundId + 5 + n, spin.key, EntryData(entries[1]))];
      }
    }

    method CommitRoundTx(t: nat)
      requires Valid() && t < |txs| && txs[t].Paid?
      modifies this
      ensures Valid() && old(txs[t]).spin.pairId in old(pairs) && View() == CommitRound(old(View()), t)
    {
      hide Inv, RoundEntries, RoundEvents, BetOk, Drawn, Resolve;
      TxIsOk(c, View(), t);
      PaidSpinOk(c, wallets, pairs, txs[t]);
      RoundKeeps(c, View(), t);
      var spin, afterPayout := txs[t].spin, txs[t].afterPayout;
      rounds := rounds + [Round(nextId, spin.user, spin.pairId, spin.nonce, spin.outcome, spin.resolved)];
      ledger := ledger + RoundEntries(spin, afterPayout, nextId);
      var events := EnqueueRoundEvents(spin, afterPayout, nextId);
      issued := issued + events;
      wallets := wallets[spin.user := if afterPayout.Some? then afterPayout.value else spin.afterStake];
      pairs := pairs[spin.pairId := pairs[spin.pairId].(nonce := spin.nonce)];
      nextId := nextId + 6 + |spin.bets|;
      txs := txs[t := Idle];
    }

    /** `create_active` and the commit; the unique index refuses a second active pair. */
    method CommitRotationTx(t: nat, serverSeed: Bytes, clientSeed: string) returns (done: bool)
      requires Valid() && t < |txs| && txs[t].Revealed?
      modifies this
      ensures Valid() && old(txs[t]).pairId in old(pairs)
              && View() == CommitRotation(c, old(View()), t, serverSeed, clientSeed)
      ensures done <==> !HasActive(Closed(old(pairs), old(txs[t]).pairId), old(txs[t]).user)
    {
      hide Inv, HasActive;
      TxIsOk(c, View(), t);
      RotationKeeps(c, View(), t, serverSeed, clientSeed);
      var user, p := txs[t].user, txs[t].pairId;
      var closed := Closed(pairs, p);
      done := true;
      var candidates := closed.Keys;
      while candidates != {} && done
        invariant candidates <= closed.Keys
        invariant done ==> forall q :: ActivePair(closed, user, q) ==> q in candidates
        invariant !done ==> exists q :: ActivePair(closed, user, q)
        decreases candidates
      {
        var q :| q in candidates;
        done := !ActivePair(closed, user, q);
        candidates := candidates - {q};
      }
      NoneActive(closed, user, done);
      if done {
        pairs := closed[nextId := Pair(user, serverSeed, c.sha256(serverSeed), clientSeed, 0, true)];
        nextId := nextId + 1;
      }
      txs := txs[t := Idle];
    }

    /** One move of another session. */
    method Act(a: Action)
      requires Valid()
      modifies this
      ensures Valid() && View() == Step(c, old(View()), a)
    {
      hide Inv, Step;
      ghost var s := View();
      if a.Register? {
        RegisterUser(a.user, a.serverSeed, a.clientSeed);
      } else if a.tx >= |txs| {
        NoSuchTx(c, s, a);
      } else {
        match a
        case Credit(t, user, key, amount) => var _ := CreditWallet(t, user, key, amount);
        case Debit(t, user, key, bets) => var _ := DebitWallet(t, user, key, bets);
        case ReadSeed(t) => ReadSeedPair(t);
        case ConsumeNonce(t, outcome) => ConsumeAs(t, outcome);
        case PayOut(t) => PayWinnings(t);
        case ReadActive(t, user) => ReadActivePair(t, user);
        case Reveal(t) => var _ := RevealPair(t);
        case Commit(t, serverSeed, clientSeed) => CommitTx(t, serverSeed, clientSeed);
        case Abort(t) => Rollback(t);
      }
    }

    /** Another session's spin, if `outcome` is what its seeds give. */
    method ConsumeAs(t: nat, outcome: nat)
      requires Valid() && t < |txs|
      modifies this
      ensures Valid() && View() == Step(c, old(View()), ConsumeNonce(t, outcome))
    {
      hide Inv, Step, PairLocked, IsOutcome, SpinsEnd;
      ghost var s := View();
      if !txs[t].Seeded? || PairLocked(txs, txs[t].pairId) {
        ConsumeWaits(c, s, t, outcome);
      } else {
        var tx := txs[t];
        TxIsOk(c, s, t);
        var seed := SeedMaterial(tx.serverSeed, tx.clientSeed, pairs[tx.pairId].nonce + 1);
        var drawn := DrawOutcome(c.hmac, seed);
        if drawn == outcome {
          var again := TakeNonce(t);
          OutcomeUnique(c.hmac, seed, POCKET_COUNT, again, outcome);
        } else {
          OtherOutcome(c, s, t, drawn, outcome);
        }
      }
    }

    method CommitTx(t: nat, serverSeed: Bytes, clientSeed: string)
      requires Valid() && t < |txs|
      modifies this
      ensures Valid() && View() == Step(c, old(View()), Commit(t, serverSeed, clientSeed))
    {
      hide Inv, CommitDeposit, CommitRound, CommitRotation;
      CommitKeeps(c, View(), t, serverSeed, clientSeed);
      match txs[t]
      case Deposited(_, _, _, _) => CommitDepositTx(t);
      case Paid(_, _) => CommitRoundTx(t);
      case Revealed(_, _) => var _ := CommitRotationTx(t, serverSeed, clientSeed);
      case _ =>
    }

    /** What other sessions do while transaction t waits. */
    method Interfere(env: seq<Action>, t: nat)
      requires Valid() && t < |txs| && Others(env, t)
      modifies this
      ensures Valid() && View() == Run(c, old(View()), env) && KeepsTx(old(View()), View(), t)
      ensures SamePairs(old(pairs), pairs)
    {
      hide Inv, Step, Run, SamePairs;
      RunEmpty(c, View());
      NoPairChange(pairs);
      assert env[..0] == [];
      for i := 0 to |env|
        invariant Valid() && View() == Run(c, old(View()), env[..i]) && KeepsTx(old(View()), View(), t)
        invariant SamePairs(old(pairs), pairs)
      {
        OtherKeeps(c, View(), env[i], t);
        StepEvolves(c, View(), env[i]);
        SameSeedsFurther(old(pairs), pairs, Step(c, View(), env[i]).pairs);
        RunSnoc(c, old(View()), env[..i], env[i]);
        assert env[..i + 1] == env[..i] + [env[i]];
        Act(env[i]);
      }
      assert env[..|env|] == env;
    }

    // ------------------------------------------------------------ requests

    /** `deposit`.  It fails without a trace, or books exactly one entry that carries the balance
        it returns, with one event saying the same. */
    method Deposit(t: nat, user: User, key: string, amount: int, env: seq<seq<Action>>)
      returns (r: Result<int, Failure>, ghost trace: seq<Action>)
      requires Valid() && t < |txs| && txs[t] == Idle && amount > 0
      requires forall i :: 0 <= i < |env| ==> Others(env[i], t)
      modifies this
      ensures Valid() && View() == Run(c, old(View()), trace) && |txs| == old(|txs|) && txs[t] == Idle
      ensures r.Err? ==> NoCommit(trace, t)
      ensures r.Err? ==> || (r.error == NoWallet && user !in wallets)
                         || (r.error == StatementTimeout && WalletLocked(txs, user))
      ensures r.Ok? ==>
                && user in wallets && wallets[user] == r.value >= amount
                && ledger != [] && ledger[|ledger| - 1].user == user && ledger[|ledger| - 1].amount == amount
                && ledger[|ledger| - 1].balanceAfter == r.value
                && ledger[|ledger| - 1].kind.DepositKind? && ledger[|ledger| - 1].refId == None
                && issued != [] && issued[|issued| - 1].data == EntryData(ledger[|ledger| - 1])
                && issued[|issued| - 1].idempotencyKey == key
    {
      hide Inv, Step, Run, NoCommit, Others, KeepsTx;
      ghost var start := View();
      RunEmpty(c, start);
      NothingCommitted(t);
      trace := Pause(t, env, 0, start, []);
      if user !in wallets {
        trace := Fail(t, start, trace);
        return Err(NoWallet), trace;
      }
      trace := Pause(t, env, 1, start, trace);
      var done := CreditWallet(t, user, key, amount);
      trace := Log(start, trace, Credit(t, user, key, amount), t);
      if !done {
        StaysLocked(txs, t, user, 0);
        trace := Fail(t, start, trace);
        return Err(StatementTimeout), trace;
      }
      trace := Pause(t, env, 2, start, trace);
      TxIsOk(c, View(), t);
      BalanceIsNat(c, View(), user);
      r := Ok(txs[t].after);
      ghost var before := View();
      CommitDepositTx(t);
      CommitsDeposit(c, before, t);
      RunSnoc(c, start, trace, Commit(t, [], ""));
      trace := trace + [Commit(t, [], "")];
    }

    /** An await point: the others move. */
    method Pause(t: nat, env: seq<seq<Action>>, i: nat, ghost start: State, ghost trace: seq<Action>)
      returns (ghost longer: seq<Action>)
      requires Valid() && t < |txs| && View() == Run(c, start, trace) && NoCommit(trace, t)
      requires forall i :: 0 <= i < |env| ==> Others(env[i], t)
      modifies this
      ensures Valid() && View() == Run(c, start, longer) && NoCommit(longer, t)
      ensures |txs| == old(|txs|) && txs[t] == old(txs[t]) && forall u :: u in old(wallets) ==> u in wallets
      ensures SamePairs(old(pairs), pairs)
    {
      hide Inv, Step, Run;
      longer := trace;
      if i < |env| {
        Interfere(env[i], t);
        RunConcat(c, start, trace, env[i]);
        OthersDoNotCommit(env[i], t);
        longer := trace + env[i];
      }
    }

    /** The statement just made, on the record. */
    ghost method Log(start: State, trace: seq<Action>, a: Action, t: nat) returns (longer: seq<Action>)
      requires NoCommit(trace, t) && !a.Commit? && View() == Step(c, Run(c, start, trace), a)
      ensures longer == trace + [a] && View() == Run(c, start, longer) && NoCommit(longer, t)
    {
      hide Inv, Step, Run;
      RunSnoc(c, start, trace, a);
      longer := trace + [a];
    }

    /** The exception leaves the unit of work: rollback. */
    method Fail(t: nat, ghost start: State, ghost trace: seq<Action>) returns (ghost longer: seq<Action>)
      requires Valid() && t < |txs| && View() == Run(c, start, trace) && NoCommit(trace, t)
      modifies this
      ensures Valid() && View() == Run(c, start, longer) && NoCommit(longer, t)
      ensures |txs| == old(|txs|) && txs[t] == Idle && OnlyTx(old(View()), View(), t)
    {
      hide Inv, Step, Run;
      Rollback(t);
      longer := Log(start, trace, Abort(t), t);
    }

    /** Some bet is rejected with this error, and the ones before it are not. */
    ghost predicate FirstRejected(bets: seq<PlacedBet>, error: BetError) {
      exists i :: 0 <= i < |bets| && AllValidated(bets[..i], c.minBet, c.maxBet)
                  && ValidateBet(bets[i], c.minBet, c.maxBet) == Err(error)
    }

    /** Why `place_bet` may raise. */
    ghost predicate Refused(failure: Failure, user: User, bets: seq<PlacedBet>)
      reads this
    {
      match failure
      case NoWallet => user !in wallets
      case NoSeedPair => !HasActive(pairs, user)
      case NoBets => bets == []
      case BetRejected(error) => FirstRejected(bets, error)
      case InsufficientFunds => user in wallets && wallets[user] < TotalStake(bets)
      case StatementTimeout => WalletLocked(txs, user) || OwnPairLocked(user)
      case AlreadyRotated => false
    }

    /** Another session holds a seed pair of this user. */
    ghost predicate OwnPairLocked(user: User)
      reads this
    {
      exists p :: p in pairs && pairs[p].user == user && PairLocked(txs, p)
    }

    /** The validation loop; the first bet that does not validate raises. */
    method Validate(bets: seq<PlacedBet>) returns (error: Option<BetError>)
      ensures error.None? <==> AllValidated(bets, c.minBet, c.maxBet)
      ensures error.Some? ==> FirstRejected(bets, error.value)
    {
      hide ValidateBet;
      error := None;
      for i := 0 to |bets|
        invariant error.None? && AllValidated(bets[..i], c.minBet, c.maxBet)
      {
        var checked := ValidateBet(bets[i], c.minBet, c.maxBet);
        if checked.Err? {
          return Some(checked.error);
        }
      }
      assert bets[..|bets|] == bets;
    }

    /** `place_bet` up to the debit. */
    method Stake(t: nat, user: User, key: string, bets: seq<PlacedBet>, env: seq<seq<Action>>)
      returns (failure: Option<Failure>, ghost trace: seq<Action>)
      requires Valid() && t < |txs| && txs[t] == Idle
      requires forall i :: 0 <= i < |env| ==> Others(env[i], t)
      modifies this
      ensures Valid() && View() == Run(c, old(View()), trace) && |txs| == old(|txs|) && NoCommit(trace, t)
      ensures failure.Some? ==> txs[t] == Idle
      ensures failure.None? ==> txs[t].Staked? && txs[t].user == user && txs[t].key == key && txs[t].bets == bets
      ensures failure.Some? ==> Refused(failure.value, user, bets)
    {
      hide Inv, Step, Run, NoCommit, Others, KeepsTx, TotalStake, AllValidated, WalletLocked;
      ghost var start := View();
      RunEmpty(c, start);
      NothingCommitted(t);
      trace := [];
      var rejected := Validate(bets);
      if rejected.Some? {
        return Some(BetRejected(rejected.value)), trace;
      }
      trace := Pause(t, env, 0, start, trace);
      if user !in wallets {
        trace := Fail(t, start, trace);
        return Some(NoWallet), trace;
      }
      trace := Pause(t, env, 1, start, trace);
      if bets == [] {
        trace := Fail(t, start, trace);
        return Some(NoBets), trace;
      }
      var waiting := WalletLocked(txs, user);
      var done := DebitWallet(t, user, key, bets);
      trace := Log(start, trace, Debit(t, user, key, bets), t);
      if !done {
        StaysLocked(txs, t, user, 0);
        trace := Fail(t, start, trace);
        return Some(if waiting then StatementTimeout else InsufficientFunds), trace;
      }
      failure := None;
    }

    /** `place_bet` from the seed pair to the resolved bets. */
    method SpinWheel(t: nat, env: seq<seq<Action>>) returns (failure: Option<Failure>, ghost trace: seq<Action>)
      requires Valid() && t < |txs| && txs[t].Staked?
      requires forall i :: 0 <= i < |env| ==> Others(env[i], t)
      modifies this
      ensures Valid() && View() == Run(c, old(View()), trace) && |txs| == old(|txs|) && NoCommit(trace, t)
      ensures failure.Some? ==> txs[t] == Idle && Refused(failure.value, old(txs[t].user), old(txs[t].bets))
      ensures failure.None? ==>
                && txs[t].Spun? && txs[t].spin.user == old(txs[t].user) && txs[t].spin.key == old(txs[t].key)
                && txs[t].spin.bets == old(txs[t].bets)
    {
      hide Inv, Step, Run, NoCommit, Others, KeepsTx, HasActive, PairLocked, IsOutcome, Resolve;
      ghost var start := View();
      RunEmpty(c, start);
      NothingCommitted(t);
      trace := Pause(t, env, 2, start, []);
      ReadSeedPair(t);
      trace := Log(start, trace, ReadSeed(t), t);
      if !txs[t].Seeded? {
        trace := Fail(t, start, trace);
        return Some(NoSeedPair), trace;
      }
      trace := Pause(t, env, 3, start, trace);
      if PairLocked(txs, txs[t].pairId) {
        TxIsOk(c, View(), t);
        StaysLocked(txs, t, 0, txs[t].pairId);
        trace := Fail(t, start, trace);
        return Some(StatementTimeout), trace;
      }
      var outcome := TakeNonce(t);
      trace := Log(start, trace, ConsumeNonce(t, outcome), t);
      failure := None;
    }

    /** The result the caller sees and the rows the commit has written. */
    ghost predicate Reported(r: PlaceBetResult, user: User, key: string, bets: seq<PlacedBet>)
      reads this
    {
      && user in wallets && wallets[user] == r.balance
      && Resolve(bets, r.outcome) == Ok(r.bets)
      && r.totalStake == TotalStake(bets) && r.totalPayout == TotalPayout(r.bets)
      && r.net == r.totalPayout - r.totalStake
      && rounds != [] && rounds[|rounds| - 1].id == r.roundId && rounds[|rounds| - 1].user == user
      && rounds[|rounds| - 1].outcome == r.outcome && rounds[|rounds| - 1].bets == r.bets
      && ledger != [] && ledger[|ledger| - 1].user == user && ledger[|ledger| - 1].balanceAfter == r.balance
      && ledger[|ledger| - 1].refId == Some(r.roundId)
      && issued != [] && issued[|issued| - 1].data == EntryData(ledger[|ledger| - 1])
      && issued[|issued| - 1].idempotencyKey == key
    }

    /** `place_bet` from the payout to the commit. */
    method Settle(t: nat, env: seq<seq<Action>>) returns (r: PlaceBetResult, ghost trace: seq<Action>)
      requires Valid() && t < |txs| && txs[t].Spun?
      requires forall i :: 0 <= i < |env| ==> Others(env[i], t)
      modifies this
      ensures Valid() && View() == Run(c, old(View()), trace) && |txs| == old(|txs|) && txs[t] == Idle
      ensures Reported(r, old(txs[t].spin.user), old(txs[t].spin.key), old(txs[t].spin.bets))
    {
      hide Inv, Step, Run, NoCommit, Others, KeepsTx, Resolve, TotalStake, TotalPayout, RoundEvents, AllValidated,
           Drawn;
      ghost var start := View();
      RunEmpty(c, start);
      NothingCommitted(t);
      trace := Pause(t, env, 4, start, []);
      PayWinnings(t);
      trace := Log(start, trace, PayOut(t), t);
      trace := Pause(t, env, 5, start, trace);
      TxIsOk(c, View(), t);
      PaidSpinOk(c, wallets, pairs, txs[t]);
      RoundPays(c, View(), t);
      var spin := txs[t].spin;
      var stake, payout := TotalStake(spin.bets), TotalPayout(spin.resolved);
      r := PlaceBetResult(nextId, spin.outcome, spin.resolved, stake, payout, payout - stake, spin.afterStake + payout);
      ghost var before := View();
      RoundReceipt(spin, txs[t].afterPayout, nextId);
      CommitRoundTx(t);
      CommitsRound(c, before, t);
      RunSnoc(c, start, trace, Commit(t, [], ""));
      trace := trace + [Commit(t, [], "")];
    }

    /** `place_bet`.  It fails and commits nothing, or commits one round whose result it reports. */
    method PlaceBet(t: nat, user: User, key: string, bets: seq<PlacedBet>, env: seq<seq<Action>>)
      returns (r: Result<PlaceBetResult, Failure>, ghost trace: seq<Action>)
      requires Valid() && t < |txs| && txs[t] == Idle
      requires forall i :: 0 <= i < |env| ==> Others(env[i], t)
      modifies this
      ensures Valid() && View() == Run(c, old(View()), trace) && |txs| == old(|txs|) && txs[t] == Idle
      ensures r.Err? ==> NoCommit(trace, t) && Refused(r.error, user, bets)
      ensures r.Ok? ==> Reported(r.value, user, key, bets)
    {
      hide Inv, Step, Run, NoCommit, Others, Reported, Refused;
      ghost var start := View();
      var failure;
      failure, trace := Stake(t, user, key, bets, env);
      if failure.Some? {
        return Err(failure.value), trace;
      }
      ghost var more;
      failure, more := SpinWheel(t, env);
      RunConcat(c, start, trace, more);
      NothingCommittedTwice(trace, more, t);
      trace := trace + more;
      if failure.Some? {
        return Err(failure.value), trace;
      }
      var result;
      result, more := Settle(t, env);
      RunConcat(c, start, trace, more);
      trace := trace + more;
      r := Ok(result);
    }

    /** `get_current_seed`. */
    method GetCurrentSeed(user: User) returns (r: Result<(string, string, nat), Failure>)
      requires Valid()
      ensures r.Ok? <==> HasActive(pairs, user)
      ensures r.Err? ==> r.error == NoSeedPair
      ensures r.Ok? ==>
                var pair := pairs[ActiveOf(pairs, user)];
                pair.user == user && r.value == (c.sha256(pair.serverSeed), pair.clientSeed, pair.nonce)
    {
      var found := FindActive(user);
      if found.None? {
        return Err(NoSeedPair);
      }
      assert PairOk(c, wallets, pairs[found.value]);
      var pair := pairs[found.value];
      r := Ok((pair.seedHash, pair.clientSeed, pair.nonce));
    }

    /** `rotate_seed` up to `reveal_and_deactivate`. */
    method RevealCurrent(t: nat, user: User, env: seq<seq<Action>>)
      returns (revealed: Result<(PairId, Bytes, string), Failure>, ghost trace: seq<Action>)
      requires Valid() && t < |txs| && txs[t] == Idle
      requires forall i :: 0 <= i < |env| ==> Others(env[i], t)
      modifies this
      ensures Valid() && View() == Run(c, old(View()), trace) && |txs| == old(|txs|) && NoCommit(trace, t)
      ensures revealed.Err? ==>
                && txs[t] == Idle
                && (|| (revealed.error == NoSeedPair && !HasActive(pairs, user))
                    || (revealed.error == StatementTimeout && OwnPairLocked(user)))
      ensures revealed.Ok? ==>
                var p := revealed.value.0;
                && txs[t] == Revealed(user, p) && p in pairs && pairs[p].user == user
                && revealed.value.1 == pairs[p].serverSeed && revealed.value.2 == pairs[p].seedHash
    {
      hide Inv, Step, Run, NoCommit, Others, KeepsTx, HasActive, PairLocked;
      ghost var start := View();
      RunEmpty(c, start);
      NothingCommitted(t);
      trace := Pause(t, env, 0, start, []);
      ReadActivePair(t, user);
      trace := Log(start, trace, ReadActive(t, user), t);
      if !txs[t].RotateRead? {
        return Err(NoSeedPair), trace;
      }
      TxIsOk(c, View(), t);
      var p := txs[t].pairId;
      revealed := Ok((p, pairs[p].serverSeed, pairs[p].seedHash));
      trace := Pause(t, env, 1, start, trace);
      var done := RevealPair(t);
      trace := Log(start, trace, Reveal(t), t);
      if !done {
        StaysLocked(txs, t, 0, p);
        trace := Fail(t, start, trace);
        return Err(StatementTimeout), trace;
      }
      trace := Pause(t, env, 2, start, trace);
    }

    /** `rotate_seed`: what it reveals hashes to the hash the player had seen, the revealed pair
        is closed, and the user's active pair is the new one. */
    method RotateSeed(t: nat, user: User, serverSeed: Bytes, clientSeed: string, env: seq<seq<Action>>)
      returns (r: Result<RotateSeedView, Failure>, ghost trace: seq<Action>, ghost closed: PairId)
      requires Valid() && t < |txs| && txs[t] == Idle
      requires forall i :: 0 <= i < |env| ==> Others(env[i], t)
      modifies this
      ensures Valid() && View() == Run(c, old(View()), trace) && |txs| == old(|txs|) && txs[t] == Idle
      ensures r.Err? ==> NoCommit(trace, t) || r.error == AlreadyRotated
      ensures r.Err? ==>
                || (r.error == NoSeedPair && !HasActive(pairs, user))
                || (r.error == StatementTimeout && OwnPairLocked(user))
                || (r.error == AlreadyRotated && exists q :: q != closed && ActivePair(pairs, user, q))
      ensures r.Ok? ==>
                && closed in pairs && pairs[closed].user == user && !pairs[closed].active
                && r.value.newHash == c.sha256(serverSeed) && r.value.newClientSeed == clientSeed
                && r.value.revealedSeed == pairs[closed].serverSeed
                && r.value.revealedHash == pairs[closed].seedHash == c.sha256(r.value.revealedSeed)
                && HasActive(pairs, user) && ActiveOf(pairs, user) != closed
                && pairs[ActiveOf(pairs, user)]
                   == Pair(user, serverSeed, r.value.newHash, r.value.newClientSeed, 0, true)
    {
      hide Inv, Step, Run, NoCommit, Others, HasActive, CommitRotation, TxOk;
      ghost var start := View();
      closed := 0;
      var revealed;
      revealed, trace := RevealCurrent(t, user, env);
      if revealed.Err? {
        return Err(revealed.error), trace, closed;
      }
      closed := revealed.value.0;
      ghost var before := View();
      var done := CommitRotationTx(t, serverSeed, clientSeed);
      CommitsRotation(c, before, t, serverSeed, clientSeed);
      RotationOutcome(c, before, t, serverSeed, clientSeed);
      RunSnoc(c, start, trace, Commit(t, serverSeed, clientSeed));
      trace := trace + [Commit(t, serverSeed, clientSeed)];
      if !done {
        RotationRefused(c, before, t, serverSeed, clientSeed);
        return Err(AlreadyRotated), trace, closed;
      }
      r := Ok(RotateSeedView(revealed.value.1, revealed.value.2, c.sha256(serverSeed), clientSeed));
    }
  }
}
