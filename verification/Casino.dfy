/** The money core: wallets, ledger, seed pairs, rounds and the events they issue, under
    statement-level interleaving of `deposit`, `place_bet` and `rotate_seed` transactions.

    A wallet or seed-pair row updated by an open transaction is locked until that transaction ends;
    everybody else keeps reading the committed row (READ COMMITTED).  Rows a transaction inserts
    are invisible and block nobody, so they appear at its commit.  A user has one wallet (UNIQUE
    user_id), so the user also names the wallet. */
module Casino {
  import opened Bets
  import opened Engine
  import opened Fairness
  import opened Table
  import opened Wrappers
  import Outbox

  type User = nat
  type PairId = nat
  type Event = Outbox.Event

  datatype Pair = Pair(user: User, serverSeed: Bytes, seedHash: string, clientSeed: string, nonce: nat, active: bool)

  datatype Round = Round(id: nat, user: User, pairId: PairId, nonce: nat, outcome: nat, bets: seq<ResolvedBet>)

  datatype Entry = Entry(id: nat, user: User, amount: int, balanceAfter: int, kind: Outbox.Kind, refId: Option<nat>)

  /** What `place_bet` knows once the wheel has stopped. */
  datatype Spin = Spin(user: User, key: string, bets: seq<PlacedBet>, afterStake: int,
                       pairId: PairId, nonce: nat, outcome: nat, resolved: seq<ResolvedBet>)

  /** How far an open transaction has got, with its local variables. */
  datatype Tx =
    | Idle
    | Deposited(user: User, key: string, amount: int, after: int)
    | Staked(user: User, key: string, bets: seq<PlacedBet>, after: int)
    | Seeded(user: User, key: string, bets: seq<PlacedBet>, after: int,
             pairId: PairId, serverSeed: Bytes, clientSeed: string)
    | Spun(spin: Spin)
    | Paid(spin: Spin, afterPayout: Option<int>)
    | RotateRead(user: User, pairId: PairId)
    | Revealed(user: User, pairId: PairId)

  /** The committed tables and the open transactions.  `issued` lists the committed outbox events. */
  datatype State = State(
    wallets: map<User, int>,
    pairs: map<PairId, Pair>,
    rounds: seq<Round>,
    ledger: seq<Entry>,
    issued: seq<Event>,
    txs: seq<Tx>,
    nextId: nat)

  /** The opaque functions and the table limits. */
  datatype Config = Config(hmac: Hmac, sha256: Bytes -> string, minBet: Money, maxBet: Money)

  /** The digests of every seed go on to hold an accepted block, so that no spin retries forever. */
  ghost predicate SpinsEnd(hmac: Hmac) {
    forall seed :: SpinEnds(hmac, seed)
  }

  ghost predicate SpinEnds(hmac: Hmac, seed: SeedMaterial) {
    exists g :: StreamBlock(hmac, seed, g) < Limit(POCKET_COUNT)
  }

  datatype Action =
    | Register(user: User, serverSeed: Bytes, clientSeed: string)
    | Credit(tx: nat, user: User, key: string, amount: int)
    | Debit(tx: nat, user: User, key: string, bets: seq<PlacedBet>)
    | ReadSeed(tx: nat)
    | ConsumeNonce(tx: nat, outcome: nat)
    | PayOut(tx: nat)
    | ReadActive(tx: nat, user: User)
    | Reveal(tx: nat)
    | Commit(tx: nat, serverSeed: Bytes, clientSeed: string)
    | Abort(tx: nat)

  // ------------------------------------------------------------ locks

  predicate HoldsWallet(tx: Tx, user: User) {
    match tx
    case Deposited(u, _, _, _) => u == user
    case Staked(u, _, _, _) => u == user
    case Seeded(u, _, _, _, _, _, _) => u == user
    case Spun(spin) => spin.user == user
    case Paid(spin, _) => spin.user == user
    case _ => false
  }

  predicate HoldsPair(tx: Tx, pairId: PairId) {
    match tx
    case Spun(spin) => spin.pairId == pairId
    case Paid(spin, _) => spin.pairId == pairId
    case Revealed(_, p) => p == pairId
    case _ => false
  }

  predicate WalletLocked(txs: seq<Tx>, user: User) {
    exists t :: 0 <= t < |txs| && HoldsWallet(txs[t], user)
  }

  predicate PairLocked(txs: seq<Tx>, pairId: PairId) {
    exists t :: 0 <= t < |txs| && HoldsPair(txs[t], pairId)
  }

  // ------------------------------------------------------------ the steps

  predicate ActivePair(pairs: map<PairId, Pair>, user: User, p: PairId) {
    p in pairs && pairs[p].user == user && pairs[p].active
  }

  ghost predicate HasActive(pairs: map<PairId, Pair>, user: User) {
    exists p :: ActivePair(pairs, user, p)
  }

  /** `get_active_by_user_id`. */
  ghost function ActiveOf(pairs: map<PairId, Pair>, user: User): (p: PairId)
    requires HasActive(pairs, user)
    ensures ActivePair(pairs, user, p)
  {
    var p :| ActivePair(pairs, user, p);
    p
  }

  function Goto(s: State, t: nat, tx: Tx): State
    requires t < |s.txs|
  {
    s.(txs := s.txs[t := tx])
  }

  /** `register_user`: an empty wallet and a first seed pair, in one transaction. */
  function StepRegister(c: Config, s: State, user: User, serverSeed: Bytes, clientSeed: string): State {
    if user in s.wallets then s
    else s.(wallets := s.wallets[user := 0],
            pairs := s.pairs[s.nextId := Pair(user, serverSeed, c.sha256(serverSeed), clientSeed, 0, true)],
            nextId := s.nextId + 1)
  }

  /** UPDATE wallets SET balance = balance + amount: the first statement of `deposit`. */
  function StepCredit(s: State, t: nat, user: User, key: string, amount: int): State
    requires t < |s.txs|
  {
    if s.txs[t].Idle? && user in s.wallets && !WalletLocked(s.txs, user) && amount > 0
    then Goto(s, t, Deposited(user, key, amount, s.wallets[user] + amount)) else s
  }

  /** UPDATE wallets SET balance = balance - stake WHERE balance >= stake, after validation. */
  function StepDebit(c: Config, s: State, t: nat, user: User, key: string, bets: seq<PlacedBet>): State
    requires t < |s.txs|
  {
    if && s.txs[t].Idle? && user in s.wallets && !WalletLocked(s.txs, user)
       && bets != [] && AllValidated(bets, c.minBet, c.maxBet)
       && s.wallets[user] >= TotalStake(bets)
    then Goto(s, t, Staked(user, key, bets, s.wallets[user] - TotalStake(bets))) else s
  }

  ghost function StepReadSeed(s: State, t: nat): State
    requires t < |s.txs|
  {
    var tx := s.txs[t];
    if !tx.Staked? then s
    else if !HasActive(s.pairs, tx.user) then Goto(s, t, Idle)
    else
      var p := ActiveOf(s.pairs, tx.user);
      Goto(s, t, Seeded(tx.user, tx.key, tx.bets, tx.after, p, s.pairs[p].serverSeed, s.pairs[p].clientSeed))
  }

  /** UPDATE seed_pairs SET nonce = nonce + 1 WHERE id = ..., whatever its status; then the spin. */
  ghost function StepConsume(c: Config, s: State, t: nat, outcome: nat): State
    requires t < |s.txs|
  {
    var tx := s.txs[t];
    if !tx.Seeded? || tx.pairId !in s.pairs || PairLocked(s.txs, tx.pairId) then s
    else
      var nonce := s.pairs[tx.pairId].nonce + 1;
      // The seeds are the ones read before, by a statement that took no lock.
      if !IsOutcome(c.hmac, SeedMaterial(tx.serverSeed, tx.clientSeed, nonce), POCKET_COUNT, outcome) then s
      else
        match Resolve(tx.bets, outcome)
        case Err(_) => Goto(s, t, Idle)
        case Ok(resolved) =>
          Goto(s, t, Spun(Spin(tx.user, tx.key, tx.bets, tx.after, tx.pairId, nonce, outcome, resolved)))
  }

  function StepPayOut(s: State, t: nat): State
    requires t < |s.txs|
  {
    if !s.txs[t].Spun? then s
    else
      Goto(s, t, Paid(s.txs[t].spin, AfterPayout(s.txs[t].spin)))
  }

  ghost function StepReadActive(s: State, t: nat, user: User): State
    requires t < |s.txs|
  {
    if s.txs[t].Idle? && HasActive(s.pairs, user)
    then Goto(s, t, RotateRead(user, ActiveOf(s.pairs, user))) else s
  }

  function StepReveal(s: State, t: nat): State
    requires t < |s.txs|
  {
    var tx := s.txs[t];
    if tx.RotateRead? && !PairLocked(s.txs, tx.pairId) then Goto(s, t, Revealed(tx.user, tx.pairId)) else s
  }

  function EntryData(e: Entry): Outbox.Data {
    Outbox.WalletTransaction(e.id, e.user, e.kind, e.amount, e.balanceAfter, e.refId)
  }

  function DepositEntry(s: State, user: User, amount: int, after: int): Entry {
    Entry(s.nextId, user, amount, after, Outbox.DepositKind, None)
  }

  function CommitDeposit(s: State, t: nat): State
    requires t < |s.txs| && s.txs[t].Deposited?
  {
    var tx := s.txs[t];
    var entry := DepositEntry(s, tx.user, tx.amount, tx.after);
    Goto(s, t, Idle).(
      wallets := s.wallets[tx.user := tx.after],
      ledger := s.ledger + [entry],
      issued := s.issued + [Outbox.Event(s.nextId + 1, tx.key, EntryData(entry))],
      nextId := s.nextId + 2)
  }

  /** The ledger rows of a round: the stake, then the payout if there is one. */
  function RoundEntries(spin: Spin, afterPayout: Option<int>, roundId: nat): seq<Entry> {
    [Entry(roundId + 1, spin.user, -TotalStake(spin.bets), spin.afterStake, Outbox.BetStake, Some(roundId))]
    + match afterPayout
      case Some(after) =>
        [Entry(roundId + 2, spin.user, TotalPayout(spin.resolved), after, Outbox.BetPayout, Some(roundId))]
      case None => []
  }

  /** One bet.placed event per bet. */
  function PlacedEvents(spin: Spin, roundId: nat, firstId: nat, n: nat): (events: seq<Event>)
    requires n <= |spin.bets|
    ensures |events| == n
    ensures forall i :: 0 <= i < n ==>
              events[i] == Outbox.Event(firstId + i, spin.key, Outbox.BetPlaced(roundId, spin.user, spin.bets[i]))
  {
    if n == 0 then []
    else PlacedEvents(spin, roundId, firstId, n - 1)
         + [Outbox.Event(firstId + n - 1, spin.key, Outbox.BetPlaced(roundId, spin.user, spin.bets[n - 1]))]
  }

  /** `_enqueue_round_events`: the bets, the settled round, the stake, and the payout if any. */
  function RoundEvents(spin: Spin, afterPayout: Option<int>, roundId: nat): seq<Event> {
    var entries := RoundEntries(spin, afterPayout, roundId);
    var n := |spin.bets|;
    var stake, payout := TotalStake(spin.bets), TotalPayout(spin.resolved);
    PlacedEvents(spin, roundId, roundId + 3, n)
    + [Outbox.Event(roundId + 3 + n, spin.key,
                    Outbox.RoundSettled(roundId, spin.user, spin.pairId, spin.nonce, spin.outcome, spin.resolved,
                                        stake, payout, payout - stake))]
    + [Outbox.Event(roundId + 4 + n, spin.key, EntryData(entries[0]))]
    + if |entries| > 1 then [Outbox.Event(roundId + 5 + n, spin.key, EntryData(entries[1]))] else []
  }

  function CommitRound(s: State, t: nat): State
    requires t < |s.txs| && s.txs[t].Paid? && s.txs[t].spin.pairId in s.pairs
  {
    var spin, afterPayout := s.txs[t].spin, s.txs[t].afterPayout;
    Goto(s, t, Idle).(
      wallets := s.wallets[spin.user := match afterPayout case Some(after) => after case None => spin.afterStake],
      pairs := s.pairs[spin.pairId := s.pairs[spin.pairId].(nonce := spin.nonce)],
      rounds := s.rounds + [Round(s.nextId, spin.user, spin.pairId, spin.nonce, spin.outcome, spin.resolved)],
      ledger := s.ledger + RoundEntries(spin, afterPayout, s.nextId),
      issued := s.issued + RoundEvents(spin, afterPayout, s.nextId),
      nextId := s.nextId + 6 + |spin.bets|)
  }

  /** INSERT of the new active pair and commit; the partial unique index on active pairs rolls the
      whole transaction back when somebody else already rotated. */
  ghost function CommitRotation(c: Config, s: State, t: nat, serverSeed: Bytes, clientSeed: string): State
    requires t < |s.txs| && s.txs[t].Revealed? && s.txs[t].pairId in s.pairs
  {
    var user, p := s.txs[t].user, s.txs[t].pairId;
    var closed := s.pairs[p := s.pairs[p].(active := false)];
    if HasActive(closed, user) then Goto(s, t, Idle)
    else
      Goto(s, t, Idle).(
        pairs := closed[s.nextId := Pair(user, serverSeed, c.sha256(serverSeed), clientSeed, 0, true)],
        nextId := s.nextId + 1)
  }

  ghost function StepCommit(c: Config, s: State, t: nat, serverSeed: Bytes, clientSeed: string): State
    requires t < |s.txs|
  {
    match s.txs[t]
    case Deposited(_, _, _, _) => CommitDeposit(s, t)
    case Paid(spin, _) => if spin.pairId in s.pairs then CommitRound(s, t) else s
    case Revealed(_, p) => if p in s.pairs then CommitRotation(c, s, t, serverSeed, clientSeed) else s
    case _ => s
  }

  /** An action that is not enabled leaves the state alone: a failed statement or a wait. */
  ghost function Step(c: Config, s: State, a: Action): State {
    if a.Register? then StepRegister(c, s, a.user, a.serverSeed, a.clientSeed)
    else if a.tx >= |s.txs| then s
    else
      match a
      case Credit(t, user, key, amount) => StepCredit(s, t, user, key, amount)
      case Debit(t, user, key, bets) => StepDebit(c, s, t, user, key, bets)
      case ReadSeed(t) => StepReadSeed(s, t)
      case ConsumeNonce(t, outcome) => StepConsume(c, s, t, outcome)
      case PayOut(t) => StepPayOut(s, t)
      case ReadActive(t, user) => StepReadActive(s, t, user)
      case Reveal(t) => StepReveal(s, t)
      case Commit(t, serverSeed, clientSeed) => StepCommit(c, s, t, serverSeed, clientSeed)
      case Abort(t) => Goto(s, t, Idle)
  }

  predicate Init(s: State) {
    && s.wallets == map[] && s.pairs == map[] && s.rounds == [] && s.ledger == [] && s.issued == []
    && forall t :: 0 <= t < |s.txs| ==> s.txs[t].Idle?
  }

  ghost function Run(c: Config, s: State, actions: seq<Action>): State
    decreases |actions|
  {
    if actions == [] then s
    else Step(c, Run(c, s, actions[..|actions| - 1]), actions[|actions| - 1])
  }

  lemma {:induction false} RunConcat(c: Config, s: State, a: seq<Action>, b: seq<Action>)
    ensures Run(c, s, a + b) == Run(c, Run(c, s, a), b)
  {
    hide Step;
    if b == [] {
      assert a + b == a;
    } else {
      var n := |b| - 1;
      RunConcat(c, s, a, b[..n]);
      assert (a + b)[..|a + b| - 1] == a + b[..n];
    }
  }

  lemma RunSnoc(c: Config, s: State, actions: seq<Action>, a: Action)
    ensures Run(c, s, actions + [a]) == Step(c, Run(c, s, actions), a)
  {
    hide Step;
    assert (actions + [a])[..|actions|] == actions;
  }

  lemma RunEmpty(c: Config, s: State)
    ensures Run(c, s, []) == s
  {
  }

  // ------------------------------------------------------------ the invariant

  /** The sum of a wallet's ledger amounts. */
  function Sum(ledger: seq<Entry>, user: User): int {
    if ledger == [] then 0
    else Sum(ledger[..|ledger| - 1], user)
         + if ledger[|ledger| - 1].user == user then ledger[|ledger| - 1].amount else 0
  }

  /** What a wallet received as deposits. */
  function Deposits(ledger: seq<Entry>, user: User): int {
    if ledger == [] then 0
    else
      var last := ledger[|ledger| - 1];
      Deposits(ledger[..|ledger| - 1], user) + if last.user == user && last.kind.DepositKind? then last.amount else 0
  }

  function RoundStake(bets: seq<ResolvedBet>): int {
    if bets == [] then 0 else RoundStake(bets[..|bets| - 1]) + bets[|bets| - 1].bet.stake.minor
  }

  /** What a user won minus what they staked, over all their rounds. */
  function Winnings(rounds: seq<Round>, user: User): int {
    if rounds == [] then 0
    else
      var last := rounds[|rounds| - 1];
      Winnings(rounds[..|rounds| - 1], user)
      + if last.user == user then TotalPayout(last.bets) - RoundStake(last.bets) else 0
  }

  function RoundsOn(rounds: seq<Round>, p: PairId): nat {
    if rounds == [] then 0
    else RoundsOn(rounds[..|rounds| - 1], p) + if rounds[|rounds| - 1].pairId == p then 1 else 0
  }

  /** The wallet.transaction payloads among the events, in order. */
  function WalletData(events: seq<Event>): seq<Outbox.Data> {
    if events == [] then []
    else
      var last := events[|events| - 1];
      WalletData(events[..|events| - 1]) + if last.data.WalletTransaction? then [last.data] else []
  }

  function LedgerData(ledger: seq<Entry>): seq<Outbox.Data> {
    if ledger == [] then []
    else LedgerData(ledger[..|ledger| - 1]) + [EntryData(ledger[|ledger| - 1])]
  }

  /** Every entry carries the running balance of its wallet, and it is never negative. */
  predicate Chained(ledger: seq<Entry>) {
    forall i :: 0 <= i < |ledger| ==> ledger[i].balanceAfter == Sum(ledger[..i + 1], ledger[i].user) >= 0
  }

  /** A balance is the sum of the wallet's entries, and of its deposits and winnings. */
  predicate WalletOk(balance: int, ledger: seq<Entry>, rounds: seq<Round>, user: User) {
    balance == Sum(ledger, user) >= 0 && balance == Deposits(ledger, user) + Winnings(rounds, user)
  }

  /** Every wallet agrees with the ledger; a user without one counts as an empty wallet. */
  ghost predicate LedgerOk(wallets: map<User, int>, ledger: seq<Entry>, rounds: seq<Round>) {
    && Chained(ledger)
    && forall user :: WalletOk(if user in wallets then wallets[user] else 0, ledger, rounds, user)
  }

  ghost predicate PairOk(c: Config, wallets: map<User, int>, pair: Pair) {
    pair.user in wallets && pair.seedHash == c.sha256(pair.serverSeed)
  }

  ghost predicate PairsOk(c: Config, wallets: map<User, int>, pairs: map<PairId, Pair>, nextId: nat) {
    && (forall p :: p in pairs ==> p < nextId && PairOk(c, wallets, pairs[p]))
    && (forall user :: user in wallets ==> HasActive(pairs, user))
    && forall user, p, q :: ActivePair(pairs, user, p) && ActivePair(pairs, user, q) ==> p == q
  }

  ghost predicate RoundOk(c: Config, pairs: map<PairId, Pair>, r: Round) {
    && r.pairId in pairs && pairs[r.pairId].user == r.user
    && Drawn(c, pairs[r.pairId], r.nonce, r.outcome)
  }

  /** The outcome is the one the pair's seeds give at this nonce. */
  ghost predicate Drawn(c: Config, pair: Pair, nonce: nat, outcome: nat) {
    IsOutcome(c.hmac, SeedMaterial(pair.serverSeed, pair.clientSeed, nonce), POCKET_COUNT, outcome)
  }

  /** The nonce of a round is its position among the rounds of its pair. */
  predicate Numbered(rounds: seq<Round>) {
    forall i :: 0 <= i < |rounds| ==> rounds[i].nonce == RoundsOn(rounds[..i + 1], rounds[i].pairId)
  }

  ghost predicate RoundsOk(c: Config, pairs: map<PairId, Pair>, rounds: seq<Round>) {
    && Numbered(rounds)
    && (forall i :: 0 <= i < |rounds| ==> RoundOk(c, pairs, rounds[i]))
    && forall p :: RoundsOn(rounds, p) == if p in pairs then pairs[p].nonce else 0
  }

  ghost predicate EventsOk(issued: seq<Event>, ledger: seq<Entry>, nextId: nat) {
    && (forall i :: 0 <= i < |issued| ==> issued[i].eventId < nextId)
    && (forall i, j :: 0 <= i < j < |issued| ==> issued[i].eventId != issued[j].eventId)
    && WalletData(issued) == LedgerData(ledger)
  }

  ghost predicate BetOk(c: Config, wallets: map<User, int>, user: User, bets: seq<PlacedBet>, after: int) {
    && user in wallets && bets != [] && AllValidated(bets, c.minBet, c.maxBet)
    && after == wallets[user] - TotalStake(bets) >= 0
  }

  ghost predicate SpinOk(c: Config, wallets: map<User, int>, pairs: map<PairId, Pair>, spin: Spin) {
    && BetOk(c, wallets, spin.user, spin.bets, spin.afterStake)
    && spin.pairId in pairs && pairs[spin.pairId].user == spin.user
    && spin.nonce == pairs[spin.pairId].nonce + 1
    && Drawn(c, pairs[spin.pairId], spin.nonce, spin.outcome)
    && Resolve(spin.bets, spin.outcome) == Ok(spin.resolved)
  }

  function AfterPayout(spin: Spin): Option<int> {
    var payout := TotalPayout(spin.resolved);
    if payout > 0 then Some(spin.afterStake + payout) else None
  }

  ghost predicate OwnPair(wallets: map<User, int>, pairs: map<PairId, Pair>, user: User, p: PairId) {
    user in wallets && p in pairs && pairs[p].user == user
  }

  ghost predicate TxOk(c: Config, wallets: map<User, int>, pairs: map<PairId, Pair>, tx: Tx) {
    match tx
    case Idle => true
    case Deposited(user, _, amount, after) => user in wallets && amount > 0 && after == wallets[user] + amount
    case Staked(user, _, bets, after) => BetOk(c, wallets, user, bets, after)
    case Seeded(user, _, bets, after, p, serverSeed, clientSeed) =>
      && BetOk(c, wallets, user, bets, after) && OwnPair(wallets, pairs, user, p)
      && pairs[p].serverSeed == serverSeed && pairs[p].clientSeed == clientSeed
    case Spun(spin) => SpinOk(c, wallets, pairs, spin)
    case Paid(spin, afterPayout) => SpinOk(c, wallets, pairs, spin) && afterPayout == AfterPayout(spin)
    case RotateRead(user, p) => OwnPair(wallets, pairs, user, p)
    case Revealed(user, p) => OwnPair(wallets, pairs, user, p)
  }

  ghost predicate LocksOk(txs: seq<Tx>) {
    && (forall t, u, user ::
          0 <= t < |txs| && 0 <= u < |txs| && HoldsWallet(txs[t], user) && HoldsWallet(txs[u], user) ==> t == u)
    && forall t, u, p :: 0 <= t < |txs| && 0 <= u < |txs| && HoldsPair(txs[t], p) && HoldsPair(txs[u], p) ==> t == u
  }

  ghost predicate TxsOk(c: Config, wallets: map<User, int>, pairs: map<PairId, Pair>, txs: seq<Tx>) {
    LocksOk(txs) && forall t :: 0 <= t < |txs| ==> TxOk(c, wallets, pairs, txs[t])
  }

  ghost predicate Inv(c: Config, s: State) {
    && c.minBet.minor >= 1
    && LedgerOk(s.wallets, s.ledger, s.rounds)
    && PairsOk(c, s.wallets, s.pairs, s.nextId)
    && RoundsOk(c, s.pairs, s.rounds)
    && EventsOk(s.issued, s.ledger, s.nextId)
    && TxsOk(c, s.wallets, s.pairs, s.txs)
  }

  // ------------------------------------------------------------ appending

  lemma AppendEntry(ledger: seq<Entry>, e: Entry, user: User)
    ensures Sum(ledger + [e], user) == Sum(ledger, user) + if e.user == user then e.amount else 0
    ensures Deposits(ledger + [e], user)
            == Deposits(ledger, user) + if e.user == user && e.kind.DepositKind? then e.amount else 0
    ensures LedgerData(ledger + [e]) == LedgerData(ledger) + [EntryData(e)]
  {
    assert (ledger + [e])[..|ledger|] == ledger;
  }

  lemma ChainAppend(ledger: seq<Entry>, e: Entry)
    requires Chained(ledger) && e.balanceAfter == Sum(ledger, e.user) + e.amount >= 0
    ensures Chained(ledger + [e])
  {
    var after := ledger + [e];
    forall i | 0 <= i < |after| ensures after[i].balanceAfter == Sum(after[..i + 1], after[i].user) >= 0 {
      if i < |ledger| {
        assert after[..i + 1] == ledger[..i + 1];
      } else {
        assert after[..i + 1] == after;
        AppendEntry(ledger, e, e.user);
      }
    }
  }

  lemma AppendRound(rounds: seq<Round>, r: Round, user: User, p: PairId)
    ensures Winnings(rounds + [r], user)
            == Winnings(rounds, user) + if r.user == user then TotalPayout(r.bets) - RoundStake(r.bets) else 0
    ensures RoundsOn(rounds + [r], p) == RoundsOn(rounds, p) + if r.pairId == p then 1 else 0
  {
    assert (rounds + [r])[..|rounds|] == rounds;
  }

  lemma NumberedAppend(rounds: seq<Round>, r: Round)
    requires Numbered(rounds) && r.nonce == RoundsOn(rounds, r.pairId) + 1
    ensures Numbered(rounds + [r])
  {
    var after := rounds + [r];
    forall i | 0 <= i < |after| ensures after[i].nonce == RoundsOn(after[..i + 1], after[i].pairId) {
      if i < |rounds| {
        assert after[..i + 1] == rounds[..i + 1];
      } else {
        assert after[..i + 1] == after;
        AppendRound(rounds, r, r.user, r.pairId);
      }
    }
  }

  lemma {:induction false} WalletDataConcat(a: seq<Event>, b: seq<Event>)
    ensures WalletData(a + b) == WalletData(a) + WalletData(b)
  {
    if b == [] {
      assert a + b == a;
    } else {
      WalletDataConcat(a, b[..|b| - 1]);
      assert (a + b)[..|a + b| - 1] == a + b[..|b| - 1];
    }
  }

  lemma WalletDataOne(e: Event)
    ensures WalletData([e]) == if e.data.WalletTransaction? then [e.data] else []
  {
    assert [e][..0] == [];
  }

  lemma {:induction false} PlacedAreNotWallet(events: seq<Event>)
    requires forall i :: 0 <= i < |events| ==> events[i].data.BetPlaced?
    ensures WalletData(events) == []
  {
    if events != [] {
      PlacedAreNotWallet(events[..|events| - 1]);
    }
  }

  lemma PlacedSnoc(spin: Spin, roundId: nat, firstId: nat, n: nat)
    requires n < |spin.bets|
    ensures PlacedEvents(spin, roundId, firstId, n + 1)
            == PlacedEvents(spin, roundId, firstId, n)
               + [Outbox.Event(firstId + n, spin.key, Outbox.BetPlaced(roundId, spin.user, spin.bets[n]))]
  {
  }

  lemma {:induction false} LedgerDataConcat(a: seq<Entry>, b: seq<Entry>)
    ensures LedgerData(a + b) == LedgerData(a) + LedgerData(b)
  {
    if b == [] {
      assert a + b == a;
    } else {
      LedgerDataConcat(a, b[..|b| - 1]);
      assert (a + b)[..|a + b| - 1] == a + b[..|b| - 1];
    }
  }

  lemma {:induction false} LedgerDataAt(entries: seq<Entry>)
    ensures |LedgerData(entries)| == |entries|
    ensures forall i :: 0 <= i < |entries| ==> LedgerData(entries)[i] == EntryData(entries[i])
  {
    if entries != [] {
      LedgerDataAt(entries[..|entries| - 1]);
    }
  }

  lemma {:induction false} WalletDataAll(events: seq<Event>)
    requires forall i :: 0 <= i < |events| ==> events[i].data.WalletTransaction?
    ensures |WalletData(events)| == |events|
    ensures forall i :: 0 <= i < |events| ==> WalletData(events)[i] == events[i].data
  {
    if events != [] {
      WalletDataAll(events[..|events| - 1]);
    }
  }

  /** A round issues one wallet.transaction per ledger entry it writes, with the same contents. */
  lemma RoundEventsMatch(spin: Spin, afterPayout: Option<int>, roundId: nat, ledger: seq<Entry>)
    ensures LedgerData(ledger + RoundEntries(spin, afterPayout, roundId))
            == LedgerData(ledger) + WalletData(RoundEvents(spin, afterPayout, roundId))
  {
    hide WalletData, LedgerData, TotalStake, TotalPayout, EntryData;
    var entries, events := RoundEntries(spin, afterPayout, roundId), RoundEvents(spin, afterPayout, roundId);
    var n := |spin.bets|;
    var placed, rest := PlacedEvents(spin, roundId, roundId + 3, n), events[n..];
    assert events == placed + rest;
    WalletDataConcat(placed, rest);
    PlacedAreNotWallet(placed);
    RoundTail(rest, entries);
    LedgerDataConcat(ledger, entries);
  }

  lemma RoundTail(rest: seq<Event>, entries: seq<Entry>)
    requires |rest| == |entries| + 1 && rest[0].data.RoundSettled?
    requires forall i :: 0 <= i < |entries| ==> rest[i + 1].data == EntryData(entries[i])
    ensures WalletData(rest) == LedgerData(entries)
  {
    hide WalletData, LedgerData;
    WalletDataOne(rest[0]);
    assert forall i :: 0 <= i < |rest[1..]| ==> rest[1..][i].data == EntryData(entries[i]);
    WalletDataAll(rest[1..]);
    LedgerDataAt(entries);
    assert rest == [rest[0]] + rest[1..];
    WalletDataConcat([rest[0]], rest[1..]);
  }

  lemma {:induction false} ResolvedStake(bets: seq<PlacedBet>, outcome: int)
    requires Resolve(bets, outcome).Ok?
    ensures RoundStake(Resolve(bets, outcome).value) == TotalStake(bets)
  {
    if bets != [] {
      var n := |bets| - 1;
      ResolvedStake(bets[..n], outcome);
      var resolved := Resolve(bets, outcome).value;
      assert resolved[..n] == Resolve(bets[..n], outcome).value;
    }
  }

  // ------------------------------------------------------------ private moves

  /** A statement that only touches the transaction itself, or takes a free lock. */
  lemma GotoKeeps(c: Config, s: State, t: nat, tx: Tx)
    requires Inv(c, s) && t < |s.txs| && TxOk(c, s.wallets, s.pairs, tx)
    requires forall user :: HoldsWallet(tx, user) ==> HoldsWallet(s.txs[t], user) || !WalletLocked(s.txs, user)
    requires forall p :: HoldsPair(tx, p) ==> HoldsPair(s.txs[t], p) || !PairLocked(s.txs, p)
    ensures Inv(c, Goto(s, t, tx))
  {
    hide LedgerOk, PairsOk, RoundsOk, EventsOk, TxOk;
    LocksKeep(s.txs, t, tx);
  }

  lemma LocksKeep(txs: seq<Tx>, t: nat, tx: Tx)
    requires LocksOk(txs) && t < |txs|
    requires forall user :: HoldsWallet(tx, user) ==> HoldsWallet(txs[t], user) || !WalletLocked(txs, user)
    requires forall p :: HoldsPair(tx, p) ==> HoldsPair(txs[t], p) || !PairLocked(txs, p)
    ensures LocksOk(txs[t := tx])
  {
    hide HoldsWallet, HoldsPair;
    forall u, user | 0 <= u < |txs| && u != t && HoldsWallet(txs[u], user) ensures !HoldsWallet(tx, user) {
      assert WalletLocked(txs, user);
    }
    forall u, p | 0 <= u < |txs| && u != t && HoldsPair(txs[u], p) ensures !HoldsPair(tx, p) {
      assert PairLocked(txs, p);
    }
  }

  lemma CreditKeeps(c: Config, s: State, t: nat, user: User, key: string, amount: int)
    requires Inv(c, s) && t < |s.txs|
    ensures Inv(c, StepCredit(s, t, user, key, amount))
  {
    hide Inv;
    if StepCredit(s, t, user, key, amount) != s {
      GotoKeeps(c, s, t, Deposited(user, key, amount, s.wallets[user] + amount));
    }
  }

  lemma DebitKeeps(c: Config, s: State, t: nat, user: User, key: string, bets: seq<PlacedBet>)
    requires Inv(c, s) && t < |s.txs|
    ensures Inv(c, StepDebit(c, s, t, user, key, bets))
  {
    hide Inv;
    if StepDebit(c, s, t, user, key, bets) != s {
      GotoKeeps(c, s, t, Staked(user, key, bets, s.wallets[user] - TotalStake(bets)));
    }
  }

  lemma TxIsOk(c: Config, s: State, t: nat)
    requires Inv(c, s) && t < |s.txs|
    ensures TxOk(c, s.wallets, s.pairs, s.txs[t]) && c.minBet.minor >= 1
  {
  }

  lemma ActiveIsOwn(c: Config, s: State, user: User)
    requires Inv(c, s) && HasActive(s.pairs, user)
    ensures OwnPair(s.wallets, s.pairs, user, ActiveOf(s.pairs, user))
  {
  }

  lemma ReadSeedKeeps(c: Config, s: State, t: nat)
    requires Inv(c, s) && t < |s.txs|
    ensures Inv(c, StepReadSeed(s, t))
  {
    hide Inv;
    TxIsOk(c, s, t);
    if s.txs[t].Staked? {
      if HasActive(s.pairs, s.txs[t].user) {
        ActiveIsOwn(c, s, s.txs[t].user);
      }
      GotoKeeps(c, s, t, StepReadSeed(s, t).txs[t]);
    }
  }

  lemma ConsumeKeeps(c: Config, s: State, t: nat, outcome: nat)
    requires Inv(c, s) && t < |s.txs|
    ensures Inv(c, StepConsume(c, s, t, outcome))
  {
    hide Inv;
    var s' := StepConsume(c, s, t, outcome);
    TxIsOk(c, s, t);
    if s' != s {
      GotoKeeps(c, s, t, s'.txs[t]);
    }
  }

  lemma PayOutKeeps(c: Config, s: State, t: nat)
    requires Inv(c, s) && t < |s.txs|
    ensures Inv(c, StepPayOut(s, t))
  {
    hide Inv;
    TxIsOk(c, s, t);
    if s.txs[t].Spun? {
      GotoKeeps(c, s, t, StepPayOut(s, t).txs[t]);
    }
  }

  lemma {:induction false} RotationMovesKeep(c: Config, s: State, t: nat, user: User)
    requires Inv(c, s) && t < |s.txs|
    ensures Inv(c, StepReadActive(s, t, user)) && Inv(c, StepReveal(s, t))
  {
    hide Inv;
    TxIsOk(c, s, t);
    if StepReadActive(s, t, user) != s {
      ActiveIsOwn(c, s, user);
      GotoKeeps(c, s, t, RotateRead(user, ActiveOf(s.pairs, user)));
    }
    if StepReveal(s, t) != s {
      GotoKeeps(c, s, t, Revealed(s.txs[t].user, s.txs[t].pairId));
    }
  }

  /** The invariant, part by part, so that each proof opens only the part it is about. */
  lemma Parts(c: Config, s: State)
    requires Inv(c, s)
    ensures c.minBet.minor >= 1
    ensures LedgerOk(s.wallets, s.ledger, s.rounds)
    ensures PairsOk(c, s.wallets, s.pairs, s.nextId)
    ensures RoundsOk(c, s.pairs, s.rounds)
    ensures EventsOk(s.issued, s.ledger, s.nextId)
    ensures TxsOk(c, s.wallets, s.pairs, s.txs)
  {
  }

  lemma Assemble(c: Config, s: State)
    requires c.minBet.minor >= 1
    requires LedgerOk(s.wallets, s.ledger, s.rounds)
    requires PairsOk(c, s.wallets, s.pairs, s.nextId)
    requires RoundsOk(c, s.pairs, s.rounds)
    requires EventsOk(s.issued, s.ledger, s.nextId)
    requires TxsOk(c, s.wallets, s.pairs, s.txs)
    ensures Inv(c, s)
  {
  }

  lemma NextIdIsNew(c: Config, s: State)
    requires Inv(c, s)
    ensures s.nextId !in s.pairs
  {
  }

  // ------------------------------------------------------------ commits

  /** Pairs are never deleted, and their owner, seeds and published hash never change. */
  predicate SamePairs(before: map<PairId, Pair>, after: map<PairId, Pair>) {
    forall p :: p in before ==> p in after && SameSeeds(before[p], after[p])
  }

  predicate SameSeeds(a: Pair, b: Pair) {
    a.user == b.user && a.serverSeed == b.serverSeed && a.seedHash == b.seedHash && a.clientSeed == b.clientSeed
  }

  /** What an open transaction relies on: the rows it has locked, and immutable seeds. */
  lemma TxFrame(c: Config, w: map<User, int>, ps: map<PairId, Pair>, w': map<User, int>, ps': map<PairId, Pair>, tx: Tx)
    requires TxOk(c, w, ps, tx) && SamePairs(ps, ps')
    requires forall user :: user in w ==> user in w' && (HoldsWallet(tx, user) ==> w'[user] == w[user])
    requires forall p :: p in ps && HoldsPair(tx, p) ==> ps'[p].nonce == ps[p].nonce
    ensures TxOk(c, w', ps', tx)
  {
    hide AllValidated, TotalStake, IsOutcome, Resolve;
    match tx
    case Spun(spin) => assert HoldsWallet(tx, spin.user) && HoldsPair(tx, spin.pairId);
    case Paid(spin, _) => assert HoldsWallet(tx, spin.user) && HoldsPair(tx, spin.pairId);
    case _ =>
  }

  /** Ending transaction t may change the rows it had locked, and nothing the others rely on. */
  lemma TxsFrame(c: Config, w: map<User, int>, ps: map<PairId, Pair>, txs: seq<Tx>,
                 w': map<User, int>, ps': map<PairId, Pair>, t: nat)
    requires TxsOk(c, w, ps, txs) && t < |txs| && SamePairs(ps, ps')
    requires forall user :: user in w ==> user in w' && (w'[user] == w[user] || HoldsWallet(txs[t], user))
    requires forall p :: p in ps ==> ps'[p].nonce == ps[p].nonce || HoldsPair(txs[t], p)
    ensures TxsOk(c, w', ps', txs[t := Idle])
  {
    hide TxOk, HoldsWallet, HoldsPair;
    forall u | 0 <= u < |txs| && u != t ensures TxOk(c, w', ps', txs[u]) {
      TxFrame(c, w, ps, w', ps', txs[u]);
    }
    IdleIsOk(c, w', ps');
    IdleHoldsNothing();
  }

  lemma IdleIsOk(c: Config, w: map<User, int>, ps: map<PairId, Pair>)
    ensures TxOk(c, w, ps, Idle)
  {
  }

  lemma IdleHoldsNothing()
    ensures forall user :: !HoldsWallet(Idle, user)
    ensures forall p :: !HoldsPair(Idle, p)
  {
  }

  lemma NewOwner(c: Config, w: map<User, int>, pairs: map<PairId, Pair>, nextId: nat, pair: Pair)
    requires PairsOk(c, w, pairs, nextId) && pair.user !in w && pair.active
             && pair.seedHash == c.sha256(pair.serverSeed)
    ensures PairsOk(c, w[pair.user := 0], pairs[nextId := pair], nextId + 1)
    ensures SamePairs(pairs, pairs[nextId := pair])
  {
    var after := pairs[nextId := pair];
    forall p | p in pairs ensures p < nextId && PairOk(c, w, pairs[p]) && pairs[p].user != pair.user {
    }
    forall u | u in w[pair.user := 0] ensures HasActive(after, u) {
      if u == pair.user {
        assert ActivePair(after, u, nextId);
      } else {
        var p :| ActivePair(pairs, u, p);
        assert ActivePair(after, u, p);
      }
    }
    forall u, p, q | ActivePair(after, u, p) && ActivePair(after, u, q) ensures p == q {
      assert p != nextId ==> ActivePair(pairs, u, p);
      assert q != nextId ==> ActivePair(pairs, u, q);
    }
  }

  lemma RegisterPairs(c: Config, s: State, user: User, serverSeed: Bytes, clientSeed: string)
    requires Inv(c, s) && user !in s.wallets
    ensures var s' := StepRegister(c, s, user, serverSeed, clientSeed);
            PairsOk(c, s'.wallets, s'.pairs, s'.nextId) && SamePairs(s.pairs, s'.pairs)
  {
    hide Inv, PairsOk, SamePairs;
    Parts(c, s);
    NewOwner(c, s.wallets, s.pairs, s.nextId, Pair(user, serverSeed, c.sha256(serverSeed), clientSeed, 0, true));
  }

  lemma NewWallet(w: map<User, int>, ledger: seq<Entry>, rounds: seq<Round>, user: User)
    requires LedgerOk(w, ledger, rounds) && user !in w
    ensures LedgerOk(w[user := 0], ledger, rounds)
  {
    var w' := w[user := 0];
    forall u ensures WalletOk(if u in w' then w'[u] else 0, ledger, rounds, u) {
      assert WalletOk(if u in w then w[u] else 0, ledger, rounds, u);
    }
  }

  lemma {:induction false} RegisterTxs(c: Config, s: State, user: User, serverSeed: Bytes, clientSeed: string)
    requires Inv(c, s) && user !in s.wallets
    requires SamePairs(s.pairs, StepRegister(c, s, user, serverSeed, clientSeed).pairs)
    ensures var s' := StepRegister(c, s, user, serverSeed, clientSeed);
            TxsOk(c, s'.wallets, s'.pairs, s'.txs)
  {
    hide Inv, TxOk, HoldsWallet, HoldsPair;
    Parts(c, s);
    NextIdIsNew(c, s);
    var s' := StepRegister(c, s, user, serverSeed, clientSeed);
    forall t | 0 <= t < |s.txs| ensures TxOk(c, s'.wallets, s'.pairs, s.txs[t]) {
      TxFrame(c, s.wallets, s.pairs, s'.wallets, s'.pairs, s.txs[t]);
    }
  }

  lemma RegisterKeeps(c: Config, s: State, user: User, serverSeed: Bytes, clientSeed: string)
    requires Inv(c, s)
    ensures Inv(c, StepRegister(c, s, user, serverSeed, clientSeed))
  {
    hide Inv, LedgerOk, PairsOk, RoundsOk, EventsOk, TxsOk;
    if user !in s.wallets {
      var s' := StepRegister(c, s, user, serverSeed, clientSeed);
      Parts(c, s);
      NextIdIsNew(c, s);
      RegisterPairs(c, s, user, serverSeed, clientSeed);
      RegisterTxs(c, s, user, serverSeed, clientSeed);
      NewWallet(s.wallets, s.ledger, s.rounds, user);
      NewPairRounds(c, s.pairs, s'.pairs, s.rounds, s.nextId);
      EventsLater(s.issued, s.ledger, s.nextId, s'.nextId);
      Assemble(c, s');
    }
  }

  lemma EventsLater(issued: seq<Event>, ledger: seq<Entry>, nextId: nat, later: nat)
    requires EventsOk(issued, ledger, nextId) && nextId <= later
    ensures EventsOk(issued, ledger, later)
  {
  }

  lemma NewPairRounds(c: Config, before: map<PairId, Pair>, after: map<PairId, Pair>, rounds: seq<Round>, id: PairId)
    requires RoundsOk(c, before, rounds) && SamePairs(before, after)
    requires forall p :: p in before ==> after[p].nonce == before[p].nonce
    requires after.Keys == before.Keys + {id} && (id !in before ==> after[id].nonce == 0)
    ensures RoundsOk(c, after, rounds)
  {
    forall i | 0 <= i < |rounds| ensures RoundOk(c, after, rounds[i]) {
      assert RoundOk(c, before, rounds[i]);
    }
    forall p ensures RoundsOn(rounds, p) == if p in after then after[p].nonce else 0 {
      assert RoundsOn(rounds, p) == if p in before then before[p].nonce else 0;
    }
  }

  /** Appending one entry that carries the new balance. */
  lemma BookEntry(w: map<User, int>, ledger: seq<Entry>, rounds: seq<Round>, e: Entry)
    requires LedgerOk(w, ledger, rounds) && e.user in w && e.kind.DepositKind?
    requires e.balanceAfter == w[e.user] + e.amount >= 0
    ensures LedgerOk(w[e.user := e.balanceAfter], ledger + [e], rounds)
  {
    var w' := w[e.user := e.balanceAfter];
    assert WalletOk(w[e.user], ledger, rounds, e.user);
    ChainAppend(ledger, e);
    forall u ensures WalletOk(if u in w' then w'[u] else 0, ledger + [e], rounds, u) {
      assert WalletOk(if u in w then w[u] else 0, ledger, rounds, u);
      AppendEntry(ledger, e, u);
    }
  }

  /** Issuing events with new ids, one wallet.transaction per new entry. */
  lemma {:induction false} IssueEvents(issued: seq<Event>, ledger: seq<Entry>, nextId: nat, events: seq<Event>,
                                       entries: seq<Entry>, later: nat)
    requires EventsOk(issued, ledger, nextId) && nextId <= later
    requires forall i :: 0 <= i < |events| ==> nextId <= events[i].eventId < later
    requires forall i, j :: 0 <= i < j < |events| ==> events[i].eventId != events[j].eventId
    requires WalletData(events) == LedgerData(entries)
    ensures EventsOk(issued + events, ledger + entries, later)
  {
    WalletDataConcat(issued, events);
    LedgerDataConcat(ledger, entries);
  }

  lemma DepositLedger(c: Config, s: State, t: nat)
    requires Inv(c, s) && t < |s.txs| && s.txs[t].Deposited?
    ensures var s' := CommitDeposit(s, t);
            LedgerOk(s'.wallets, s'.ledger, s'.rounds) && EventsOk(s'.issued, s'.ledger, s'.nextId)
  {
    hide Inv, LedgerOk, PairsOk, RoundsOk, EventsOk, TxsOk, WalletData, LedgerData;
    Parts(c, s);
    TxIsOk(c, s, t);
    var tx := s.txs[t];
    var entry := DepositEntry(s, tx.user, tx.amount, tx.after);
    var e := Outbox.Event(s.nextId + 1, tx.key, EntryData(entry));
    BalanceIsNat(c, s, tx.user);
    BookEntry(s.wallets, s.ledger, s.rounds, entry);
    WalletDataOne(e);
    LedgerDataAt([entry]);
    IssueEvents(s.issued, s.ledger, s.nextId, [e], [entry], s.nextId + 2);
  }

  lemma BalanceIsNat(c: Config, s: State, user: User)
    requires Inv(c, s) && user in s.wallets
    ensures s.wallets[user] >= 0
  {
    assert WalletOk(if user in s.wallets then s.wallets[user] else 0, s.ledger, s.rounds, user);
  }

  lemma DepositKeeps(c: Config, s: State, t: nat)
    requires Inv(c, s) && t < |s.txs| && s.txs[t].Deposited?
    ensures Inv(c, CommitDeposit(s, t))
  {
    hide Inv, LedgerOk, PairsOk, RoundsOk, EventsOk, TxsOk;
    var s' := CommitDeposit(s, t);
    Parts(c, s);
    DepositLedger(c, s, t);
    TxIsOk(c, s, t);
    NoPairChange(s.pairs);
    TxsFrame(c, s.wallets, s.pairs, s.txs, s'.wallets, s.pairs, t);
    SameKeysPairs(c, s.wallets, s'.wallets, s.pairs, s.nextId, s'.nextId);
    Assemble(c, s');
  }

  lemma NoPairChange(pairs: map<PairId, Pair>)
    ensures SamePairs(pairs, pairs)
  {
  }

  lemma SameKeysPairs(c: Config, w: map<User, int>, w': map<User, int>, pairs: map<PairId, Pair>, nextId: nat,
                      later: nat)
    requires PairsOk(c, w, pairs, nextId) && w'.Keys == w.Keys && nextId <= later
    ensures PairsOk(c, w', pairs, later)
  {
  }

  // A round.

  lemma {:induction false} RoundPays(c: Config, s: State, t: nat)
    requires Inv(c, s) && t < |s.txs| && s.txs[t].Paid?
    ensures var spin := s.txs[t].spin;
            && spin.user in s.wallets && spin.afterStake == s.wallets[spin.user] - TotalStake(spin.bets) >= 0
            && TotalPayout(spin.resolved) >= 0 && RoundStake(spin.resolved) == TotalStake(spin.bets)
            && s.txs[t].afterPayout == AfterPayout(spin)
  {
    hide Inv;
    TxIsOk(c, s, t);
    var spin := s.txs[t].spin;
    ValidatedPays(spin.bets, c.minBet, c.maxBet, spin.outcome);
    ResolvedStake(spin.bets, spin.outcome);
  }

  /** The stake and the payout, one entry each, and the round they belong to. */
  lemma BookRound(w: map<User, int>, ledger: seq<Entry>, rounds: seq<Round>, spin: Spin, id: nat)
    requires LedgerOk(w, ledger, rounds) && spin.user in w
    requires spin.afterStake == w[spin.user] - TotalStake(spin.bets) >= 0
    requires TotalPayout(spin.resolved) >= 0 && RoundStake(spin.resolved) == TotalStake(spin.bets)
    ensures var round := Round(id, spin.user, spin.pairId, spin.nonce, spin.outcome, spin.resolved);
            var after := spin.afterStake + TotalPayout(spin.resolved);
            LedgerOk(w[spin.user := after], ledger + RoundEntries(spin, AfterPayout(spin), id), rounds + [round])
  {
    hide TotalStake, TotalPayout, RoundStake;
    var entries := RoundEntries(spin, AfterPayout(spin), id);
    var round := Round(id, spin.user, spin.pairId, spin.nonce, spin.outcome, spin.resolved);
    var w' := w[spin.user := spin.afterStake + TotalPayout(spin.resolved)];
    assert WalletOk(if spin.user in w then w[spin.user] else 0, ledger, rounds, spin.user);
    RoundChain(ledger, spin, id);
    forall u ensures WalletOk(if u in w' then w'[u] else 0, ledger + entries, rounds + [round], u) {
      assert WalletOk(if u in w then w[u] else 0, ledger, rounds, u);
      RoundSums(ledger, spin, id, u);
      AppendRound(rounds, round, u, 0);
    }
  }

  lemma RoundSums(ledger: seq<Entry>, spin: Spin, id: nat, user: User)
    requires TotalPayout(spin.resolved) >= 0
    ensures var after := ledger + RoundEntries(spin, AfterPayout(spin), id);
            && Sum(after, user) == Sum(ledger, user)
                 + (if spin.user == user then TotalPayout(spin.resolved) - TotalStake(spin.bets) else 0)
            && Deposits(after, user) == Deposits(ledger, user)
  {
    hide TotalStake, TotalPayout, Sum, Deposits, LedgerData;
    var entries := RoundEntries(spin, AfterPayout(spin), id);
    AppendEntry(ledger, entries[0], user);
    if |entries| == 2 {
      AppendEntry(ledger + [entries[0]], entries[1], user);
      assert ledger + entries == ledger + [entries[0]] + [entries[1]];
    } else {
      assert ledger + entries == ledger + [entries[0]];
    }
  }

  lemma RoundChain(ledger: seq<Entry>, spin: Spin, id: nat)
    requires Chained(ledger) && spin.afterStake == Sum(ledger, spin.user) - TotalStake(spin.bets) >= 0
    requires TotalPayout(spin.resolved) >= 0
    ensures Chained(ledger + RoundEntries(spin, AfterPayout(spin), id))
  {
    hide TotalStake, TotalPayout, Sum, Chained, LedgerData, Deposits;
    var entries := RoundEntries(spin, AfterPayout(spin), id);
    ChainAppend(ledger, entries[0]);
    AppendEntry(ledger, entries[0], spin.user);
    if |entries| == 2 {
      ChainAppend(ledger + [entries[0]], entries[1]);
      assert ledger + entries == ledger + [entries[0]] + [entries[1]];
    } else {
      assert ledger + entries == ledger + [entries[0]];
    }
  }

  lemma RoundEventIds(spin: Spin, afterPayout: Option<int>, id: nat)
    ensures var events := RoundEvents(spin, afterPayout, id);
            && (forall i :: 0 <= i < |events| ==> events[i].eventId == id + 3 + i)
            && |events| <= |spin.bets| + 3
  {
    hide TotalStake, TotalPayout, PlacedEvents;
  }

  lemma {:induction false} RoundIssued(c: Config, s: State, t: nat)
    requires Inv(c, s) && t < |s.txs| && s.txs[t].Paid? && s.txs[t].spin.pairId in s.pairs
    ensures var s' := CommitRound(s, t); EventsOk(s'.issued, s'.ledger, s'.nextId)
  {
    hide Inv, LedgerOk, PairsOk, RoundsOk, TxsOk, EventsOk, RoundEvents, RoundEntries, WalletData, LedgerData;
    Parts(c, s);
    var spin, after := s.txs[t].spin, s.txs[t].afterPayout;
    var entries, events := RoundEntries(spin, after, s.nextId), RoundEvents(spin, after, s.nextId);
    RoundEventIds(spin, after, s.nextId);
    RoundEventsMatch(spin, after, s.nextId, []);
    assert [] + entries == entries;
    EmptyLedgerData();
    IssueEvents(s.issued, s.ledger, s.nextId, events, entries, s.nextId + 6 + |spin.bets|);
  }

  lemma EmptyLedgerData()
    ensures LedgerData([]) == []
  {
  }

  lemma {:induction false} RoundNumbered(c: Config, pairs: map<PairId, Pair>, rounds: seq<Round>, r: Round)
    requires RoundsOk(c, pairs, rounds) && RoundOk(c, pairs, r) && r.nonce == pairs[r.pairId].nonce + 1
    ensures var pairs' := pairs[r.pairId := pairs[r.pairId].(nonce := r.nonce)];
            RoundsOk(c, pairs', rounds + [r]) && SamePairs(pairs, pairs')
  {
    hide Drawn, RoundsOn, IsOutcome;
    var pairs' := pairs[r.pairId := pairs[r.pairId].(nonce := r.nonce)];
    assert RoundsOn(rounds, r.pairId) == pairs[r.pairId].nonce;
    NumberedAppend(rounds, r);
    forall i | 0 <= i < |rounds + [r]| ensures RoundOk(c, pairs', (rounds + [r])[i]) {
      RoundFrame(c, pairs, pairs', (rounds + [r])[i]);
    }
    forall p ensures RoundsOn(rounds + [r], p) == if p in pairs' then pairs'[p].nonce else 0 {
      assert RoundsOn(rounds, p) == if p in pairs then pairs[p].nonce else 0;
      AppendRound(rounds, r, 0, p);
    }
  }

  lemma PaidSpinOk(c: Config, w: map<User, int>, ps: map<PairId, Pair>, tx: Tx)
    requires tx.Paid? && TxOk(c, w, ps, tx)
    ensures SpinOk(c, w, ps, tx.spin)
  {
  }

  lemma RoundFrame(c: Config, before: map<PairId, Pair>, after: map<PairId, Pair>, r: Round)
    requires RoundOk(c, before, r) && SamePairs(before, after)
    ensures RoundOk(c, after, r)
  {
    hide IsOutcome;
  }

  /** Advancing a nonce changes neither owners nor statuses. */
  lemma NonceKeepsPairs(c: Config, w: map<User, int>, pairs: map<PairId, Pair>, p: PairId, nonce: nat, nextId: nat)
    requires PairsOk(c, w, pairs, nextId) && p in pairs
    ensures PairsOk(c, w, pairs[p := pairs[p].(nonce := nonce)], nextId)
  {
    var after := pairs[p := pairs[p].(nonce := nonce)];
    forall user | user in w ensures HasActive(after, user) {
      var q :| ActivePair(pairs, user, q);
      assert ActivePair(after, user, q);
    }
    forall user, q, r | ActivePair(after, user, q) && ActivePair(after, user, r) ensures q == r {
      assert ActivePair(pairs, user, q) && ActivePair(pairs, user, r);
    }
  }

  lemma RoundKeeps(c: Config, s: State, t: nat)
    requires Inv(c, s) && t < |s.txs| && s.txs[t].Paid? && s.txs[t].spin.pairId in s.pairs
    ensures Inv(c, CommitRound(s, t))
  {
    hide Inv, LedgerOk, PairsOk, RoundsOk, EventsOk, TxsOk, RoundEntries, RoundEvents, TotalPayout, TotalStake,
         RoundStake;
    var s' := CommitRound(s, t);
    var spin := s.txs[t].spin;
    Parts(c, s);
    RoundPays(c, s, t);
    BookRound(s.wallets, s.ledger, s.rounds, spin, s.nextId);
    RoundIssued(c, s, t);
    PaidRound(c, s, t);
    RoundNumbered(c, s.pairs, s.rounds,
                  Round(s.nextId, spin.user, spin.pairId, spin.nonce, spin.outcome, spin.resolved));
    NonceKeepsPairs(c, s.wallets, s.pairs, spin.pairId, spin.nonce, s.nextId);
    SameKeysPairs(c, s.wallets, s'.wallets, s'.pairs, s.nextId, s'.nextId);
    TxsFrame(c, s.wallets, s.pairs, s.txs, s'.wallets, s'.pairs, t);
    Assemble(c, s');
  }

  lemma PaidRound(c: Config, s: State, t: nat)
    requires Inv(c, s) && t < |s.txs| && s.txs[t].Paid?
    ensures var spin := s.txs[t].spin;
            && RoundOk(c, s.pairs, Round(s.nextId, spin.user, spin.pairId, spin.nonce, spin.outcome, spin.resolved))
            && spin.nonce == s.pairs[spin.pairId].nonce + 1
            && HoldsWallet(s.txs[t], spin.user) && HoldsPair(s.txs[t], spin.pairId)
  {
    hide Inv, Drawn, Resolve, BetOk;
    TxIsOk(c, s, t);
    PaidSpinOk(c, s.wallets, s.pairs, s.txs[t]);
  }

  // A rotation.

  lemma RotationPairs(c: Config, w: map<User, int>, pairs: map<PairId, Pair>, nextId: nat, p: PairId, newPair: Pair)
    requires PairsOk(c, w, pairs, nextId) && p in pairs
    requires newPair.active && newPair.user == pairs[p].user && PairOk(c, w, newPair)
    requires !HasActive(pairs[p := pairs[p].(active := false)], newPair.user)
    ensures PairsOk(c, w, pairs[p := pairs[p].(active := false)][nextId := newPair], nextId + 1)
  {
    var closed := pairs[p := pairs[p].(active := false)];
    var after := closed[nextId := newPair];
    forall user | user in w ensures HasActive(after, user) {
      if user == newPair.user {
        assert ActivePair(after, user, nextId);
      } else {
        var q :| ActivePair(pairs, user, q);
        assert ActivePair(after, user, q);
      }
    }
    forall user, q, r | ActivePair(after, user, q) && ActivePair(after, user, r) ensures q == r {
      assert q != nextId ==> ActivePair(closed, user, q) && ActivePair(pairs, user, q);
      assert r != nextId ==> ActivePair(closed, user, r) && ActivePair(pairs, user, r);
    }
  }

  lemma {:induction false} RotationKeeps(c: Config, s: State, t: nat, serverSeed: Bytes, clientSeed: string)
    requires Inv(c, s) && t < |s.txs| && s.txs[t].Revealed? && s.txs[t].pairId in s.pairs
    ensures Inv(c, CommitRotation(c, s, t, serverSeed, clientSeed))
  {
    hide Inv, LedgerOk, PairsOk, RoundsOk, EventsOk, TxsOk, HasActive;
    var s' := CommitRotation(c, s, t, serverSeed, clientSeed);
    var user, p := s.txs[t].user, s.txs[t].pairId;
    TxIsOk(c, s, t);
    if HasActive(s.pairs[p := s.pairs[p].(active := false)], user) {
      GotoKeeps(c, s, t, Idle);
    } else {
      Parts(c, s);
      NextIdIsNew(c, s);
      var pair := Pair(user, serverSeed, c.sha256(serverSeed), clientSeed, 0, true);
      RotationPairs(c, s.wallets, s.pairs, s.nextId, p, pair);
      NewPairRounds(c, s.pairs, s'.pairs, s.rounds, s.nextId);
      EventsLater(s.issued, s.ledger, s.nextId, s'.nextId);
      TxsFrame(c, s.wallets, s.pairs, s.txs, s.wallets, s'.pairs, t);
      Assemble(c, s');
    }
  }

  lemma CommitKeeps(c: Config, s: State, t: nat, serverSeed: Bytes, clientSeed: string)
    requires Inv(c, s) && t < |s.txs|
    ensures Inv(c, StepCommit(c, s, t, serverSeed, clientSeed))
  {
    hide Inv, CommitDeposit, CommitRound, CommitRotation;
    match s.txs[t]
    case Deposited(_, _, _, _) => DepositKeeps(c, s, t);
    case Paid(spin, _) => if spin.pairId in s.pairs { RoundKeeps(c, s, t); }
    case Revealed(_, p) => if p in s.pairs { RotationKeeps(c, s, t, serverSeed, clientSeed); }
    case _ =>
  }

  lemma AbortKeeps(c: Config, s: State, t: nat)
    requires Inv(c, s) && t < |s.txs|
    ensures Inv(c, Goto(s, t, Idle))
  {
    hide Inv;
    GotoKeeps(c, s, t, Idle);
  }

  lemma {:induction false} StepKeeps(c: Config, s: State, a: Action)
    requires Inv(c, s)
    ensures Inv(c, Step(c, s, a))
  {
    hide Inv, StepRegister, StepCredit, StepDebit, StepReadSeed, StepConsume, StepPayOut, StepReadActive, StepReveal,
         StepCommit, Goto;
    if a.Register? {
      RegisterKeeps(c, s, a.user, a.serverSeed, a.clientSeed);
    } else if a.tx < |s.txs| {
      match a
      case Credit(t, user, key, amount) => CreditKeeps(c, s, t, user, key, amount);
      case Debit(t, user, key, bets) => DebitKeeps(c, s, t, user, key, bets);
      case ReadSeed(t) => ReadSeedKeeps(c, s, t);
      case ConsumeNonce(t, outcome) => ConsumeKeeps(c, s, t, outcome);
      case PayOut(t) => PayOutKeeps(c, s, t);
      case ReadActive(t, user) => RotationMovesKeep(c, s, t, user);
      case Reveal(t) => RotationMovesKeep(c, s, t, 0);
      case Commit(t, serverSeed, clientSeed) => CommitKeeps(c, s, t, serverSeed, clientSeed);
      case Abort(t) => AbortKeeps(c, s, t);
    }
  }

  lemma InitKeeps(c: Config, s: State)
    requires Init(s) && c.minBet.minor >= 1
    ensures Inv(c, s)
  {
    assert Sum([], 0) == 0;
    forall user ensures WalletOk(if user in s.wallets then s.wallets[user] else 0, s.ledger, s.rounds, user) {
    }
  }

  lemma {:induction false} RunKeeps(c: Config, s: State, actions: seq<Action>)
    requires Init(s) && c.minBet.minor >= 1
    ensures Inv(c, Run(c, s, actions))
  {
    hide Inv, Step;
    if actions == [] {
      InitKeeps(c, s);
    } else {
      RunKeeps(c, s, actions[..|actions| - 1]);
      StepKeeps(c, Run(c, s, actions[..|actions| - 1]), actions[|actions| - 1]);
    }
  }

  // ------------------------------------------------------------ what every run guarantees

  /** In every committed state, whatever the interleaving and however many transactions roll back:
      a balance is never negative, and is both the sum of the wallet's ledger and its deposits plus
      what its rounds paid minus what they staked. */
  lemma BalanceIsLedger(c: Config, s: State, actions: seq<Action>, user: User)
    requires Init(s) && c.minBet.minor >= 1
    ensures var t := Run(c, s, actions);
            user in t.wallets ==>
              && t.wallets[user] >= 0
              && t.wallets[user] == Sum(t.ledger, user)
              && t.wallets[user] == Deposits(t.ledger, user) + Winnings(t.rounds, user)
  {
    RunKeeps(c, s, actions);
    var t := Run(c, s, actions);
    hide TxsOk, PairsOk, RoundsOk, EventsOk;
    assert WalletOk(if user in t.wallets then t.wallets[user] else 0, t.ledger, t.rounds, user);
  }

  lemma {:induction false} SumSkips(ledger: seq<Entry>, lo: nat, hi: nat, user: User)
    requires lo <= hi <= |ledger|
    requires forall k :: lo <= k < hi ==> ledger[k].user != user
    ensures Sum(ledger[..hi], user) == Sum(ledger[..lo], user)
    decreases hi
  {
    if lo < hi {
      SumSkips(ledger, lo, hi - 1, user);
      assert ledger[..hi][..hi - 1] == ledger[..hi - 1];
    }
  }

  lemma ChainedFollows(ledger: seq<Entry>, j: nat, i: nat)
    requires Chained(ledger) && j < i < |ledger| && ledger[j].user == ledger[i].user
    requires forall k :: j < k < i ==> ledger[k].user != ledger[i].user
    ensures ledger[i].balanceAfter == ledger[j].balanceAfter + ledger[i].amount >= 0
  {
    SumSkips(ledger, j + 1, i, ledger[i].user);
    assert ledger[..i + 1][..i] == ledger[..i];
  }

  /** Each entry's balance_after is the previous entry's plus its own amount, where "previous" is
      the wallet's own previous entry in commit order, the stake of a round before its payout. */
  lemma EntriesChain(c: Config, s: State, actions: seq<Action>, j: nat, i: nat)
    requires Init(s) && c.minBet.minor >= 1
    requires var ledger := Run(c, s, actions).ledger;
             && j < i < |ledger| && ledger[j].user == ledger[i].user
             && forall k :: j < k < i ==> ledger[k].user != ledger[i].user
    ensures var ledger := Run(c, s, actions).ledger;
            ledger[i].balanceAfter == ledger[j].balanceAfter + ledger[i].amount >= 0
  {
    hide Inv, Run, Step, Chained, PairsOk, RoundsOk, EventsOk, TxsOk;
    RunKeeps(c, s, actions);
    Parts(c, Run(c, s, actions));
    ChainedFollows(Run(c, s, actions).ledger, j, i);
  }

  /** A registered user has exactly one active pair, between any two commits. */
  lemma OneActivePair(c: Config, s: State, actions: seq<Action>, user: User)
    requires Init(s) && c.minBet.minor >= 1
    requires user in Run(c, s, actions).wallets
    ensures var pairs := Run(c, s, actions).pairs;
            exists p :: ActivePair(pairs, user, p) && forall q :: ActivePair(pairs, user, q) ==> q == p
  {
    RunKeeps(c, s, actions);
    Parts(c, Run(c, s, actions));
    hide Inv;
    var pairs := Run(c, s, actions).pairs;
    var p :| ActivePair(pairs, user, p);
  }

  lemma {:induction false} RoundsOnBounds(rounds: seq<Round>, p: PairId, i: nat)
    requires i <= |rounds|
    ensures RoundsOn(rounds[..i], p) <= RoundsOn(rounds, p)
    decreases |rounds| - i
  {
    if i < |rounds| {
      RoundsOnBounds(rounds, p, i + 1);
      assert rounds[..i + 1][..i] == rounds[..i];
    } else {
      assert rounds[..i] == rounds;
    }
  }

  lemma {:induction false} RoundAt(rounds: seq<Round>, p: PairId, k: nat)
    requires 1 <= k <= RoundsOn(rounds, p)
    ensures exists i :: 0 <= i < |rounds| && rounds[i].pairId == p && RoundsOn(rounds[..i + 1], p) == k
  {
    var n := |rounds| - 1;
    var front := rounds[..n];
    if k <= RoundsOn(front, p) {
      RoundAt(front, p, k);
      var i :| 0 <= i < |front| && front[i].pairId == p && RoundsOn(front[..i + 1], p) == k;
      assert rounds[..i + 1] == front[..i + 1] && rounds[i] == front[i];
    } else {
      assert rounds[..n + 1] == rounds && rounds[n].pairId == p;
    }
  }

  lemma RoundsOnGrow(rounds: seq<Round>, p: PairId, i: nat, j: nat)
    requires i < j < |rounds| && rounds[j].pairId == p
    ensures RoundsOn(rounds[..i + 1], p) < RoundsOn(rounds[..j + 1], p)
  {
    RoundsOnBounds(rounds[..j], p, i + 1);
    assert rounds[..j][..i + 1] == rounds[..i + 1];
    assert rounds[..j + 1][..j] == rounds[..j];
  }

  /** Some committed round of the pair carries this nonce. */
  predicate Played(rounds: seq<Round>, p: PairId, nonce: nat) {
    exists i :: 0 <= i < |rounds| && rounds[i].pairId == p && rounds[i].nonce == nonce
  }

  lemma {:induction false} NumberedContiguous(rounds: seq<Round>, p: PairId)
    requires Numbered(rounds)
    ensures forall i :: 0 <= i < |rounds| && rounds[i].pairId == p ==> 1 <= rounds[i].nonce <= RoundsOn(rounds, p)
    ensures forall k :: 1 <= k <= RoundsOn(rounds, p) ==> Played(rounds, p, k)
    ensures forall i, j :: 0 <= i < j < |rounds| && rounds[i].pairId == p && rounds[j].pairId == p ==>
              rounds[i].nonce < rounds[j].nonce
  {
    forall i | 0 <= i < |rounds| && rounds[i].pairId == p ensures 1 <= rounds[i].nonce <= RoundsOn(rounds, p) {
      RoundsOnBounds(rounds, p, i + 1);
      assert rounds[..i + 1][..i] == rounds[..i];
    }
    forall k | 1 <= k <= RoundsOn(rounds, p) ensures Played(rounds, p, k) {
      RoundAt(rounds, p, k);
      var i :| 0 <= i < |rounds| && rounds[i].pairId == p && RoundsOn(rounds[..i + 1], p) == k;
      assert rounds[i].nonce == k;
    }
    forall i, j | 0 <= i < j < |rounds| && rounds[i].pairId == p && rounds[j].pairId == p
      ensures rounds[i].nonce < rounds[j].nonce
    {
      RoundsOnGrow(rounds, p, i, j);
    }
  }

  /** The committed rounds of a pair carry the nonces 1, 2, ..., nonce of the pair: each once, in
      commit order, with no gap left by a rolled-back bet and none reused. */
  lemma NoncesContiguous(c: Config, s: State, actions: seq<Action>, p: PairId)
    requires Init(s) && c.minBet.minor >= 1
    requires p in Run(c, s, actions).pairs
    ensures var t := Run(c, s, actions);
            && (forall i :: 0 <= i < |t.rounds| && t.rounds[i].pairId == p ==>
                  1 <= t.rounds[i].nonce <= t.pairs[p].nonce)
            && (forall k :: 1 <= k <= t.pairs[p].nonce ==> Played(t.rounds, p, k))
            && forall i, j :: 0 <= i < j < |t.rounds| && t.rounds[i].pairId == p && t.rounds[j].pairId == p ==>
                 t.rounds[i].nonce < t.rounds[j].nonce
  {
    hide Inv, RoundOk, LedgerOk, PairsOk, EventsOk, TxsOk, Numbered, Played;
    RunKeeps(c, s, actions);
    var t := Run(c, s, actions);
    Parts(c, t);
    assert RoundsOn(t.rounds, p) == t.pairs[p].nonce;
    NumberedContiguous(t.rounds, p);
  }

  /** Once committed, a pair keeps its seeds and its hash, its nonce only grows, and a revealed pair
      is never active again. */
  predicate PairsEvolve(before: map<PairId, Pair>, after: map<PairId, Pair>) {
    && SamePairs(before, after)
    && forall p :: p in before ==> before[p].nonce <= after[p].nonce && (after[p].active ==> before[p].active)
  }

  lemma NewPairEvolves(pairs: map<PairId, Pair>, id: PairId, pair: Pair)
    requires id !in pairs
    ensures PairsEvolve(pairs, pairs[id := pair])
  {
  }

  lemma ChangedPairEvolves(pairs: map<PairId, Pair>, p: PairId, pair: Pair)
    requires p in pairs && SameSeeds(pairs[p], pair) && pairs[p].nonce <= pair.nonce
             && (pair.active ==> pairs[p].active)
    ensures PairsEvolve(pairs, pairs[p := pair])
  {
  }

  lemma EvolvesFurther(a: map<PairId, Pair>, b: map<PairId, Pair>, c: map<PairId, Pair>)
    requires PairsEvolve(a, b) && PairsEvolve(b, c)
    ensures PairsEvolve(a, c)
  {
  }

  lemma {:induction false} RoundEvolves(c: Config, s: State, t: nat)
    requires Inv(c, s) && t < |s.txs| && s.txs[t].Paid? && s.txs[t].spin.pairId in s.pairs
    ensures PairsEvolve(s.pairs, CommitRound(s, t).pairs)
  {
    PaidRound(c, s, t);
    hide Inv, RoundOk, RoundEntries, RoundEvents, PairsEvolve;
    var spin := s.txs[t].spin;
    ChangedPairEvolves(s.pairs, spin.pairId, s.pairs[spin.pairId].(nonce := spin.nonce));
  }

  lemma {:induction false} RotationEvolves(c: Config, s: State, t: nat, serverSeed: Bytes, clientSeed: string)
    requires Inv(c, s) && t < |s.txs| && s.txs[t].Revealed? && s.txs[t].pairId in s.pairs
    ensures PairsEvolve(s.pairs, CommitRotation(c, s, t, serverSeed, clientSeed).pairs)
  {
    NextIdIsNew(c, s);
    hide Inv, HasActive, PairsEvolve;
    SamePairsEvolve(s.pairs);
    ReplacedPairEvolves(s.pairs, s.txs[t].pairId, s.nextId,
                        Pair(s.txs[t].user, serverSeed, c.sha256(serverSeed), clientSeed, 0, true));
  }

  lemma ReplacedPairEvolves(pairs: map<PairId, Pair>, p: PairId, id: PairId, pair: Pair)
    requires p in pairs && id !in pairs
    ensures PairsEvolve(pairs, pairs[p := pairs[p].(active := false)][id := pair])
  {
    hide PairsEvolve;
    var closed := pairs[p := pairs[p].(active := false)];
    ChangedPairEvolves(pairs, p, closed[p]);
    NewPairEvolves(closed, id, pair);
    EvolvesFurther(pairs, closed, closed[id := pair]);
  }

  /** The committed tables. */
  predicate SameTables(s: State, s': State) {
    && s'.wallets == s.wallets && s'.pairs == s.pairs && s'.rounds == s.rounds
    && s'.ledger == s.ledger && s'.issued == s.issued && s'.nextId == s.nextId
  }

  /** Only a commit, or a registration, changes a committed table: whatever statements a
      transaction has made, a rollback leaves no trace of it. */
  lemma {:induction false} OnlyCommitsWrite(c: Config, s: State, a: Action)
    requires !a.Register? && !a.Commit?
    ensures SameTables(s, Step(c, s, a))
  {
    hide IsOutcome, AllValidated, TotalStake, HasActive, Resolve, WalletLocked, PairLocked, AfterPayout;
  }

  lemma {:induction false} StepEvolves(c: Config, s: State, a: Action)
    requires Inv(c, s)
    ensures PairsEvolve(s.pairs, Step(c, s, a).pairs)
  {
    hide Inv, PairsEvolve, SamePairs, CommitRound, CommitRotation, StepDebit, StepConsume, StepReadSeed, StepRegister;
    SamePairsEvolve(s.pairs);
    if a.Register? {
      RegisterEvolves(c, s, a.user, a.serverSeed, a.clientSeed);
    } else if !a.Commit? {
      OnlyCommitsWrite(c, s, a);
    } else if a.tx < |s.txs| {
      match s.txs[a.tx]
      case Paid(spin, _) => if spin.pairId in s.pairs { RoundEvolves(c, s, a.tx); }
      case Revealed(_, p) => if p in s.pairs { RotationEvolves(c, s, a.tx, a.serverSeed, a.clientSeed); }
      case _ =>
    }
  }

  lemma SamePairsEvolve(pairs: map<PairId, Pair>)
    ensures PairsEvolve(pairs, pairs)
  {
  }

  lemma RegisterEvolves(c: Config, s: State, user: User, serverSeed: Bytes, clientSeed: string)
    requires Inv(c, s)
    ensures PairsEvolve(s.pairs, StepRegister(c, s, user, serverSeed, clientSeed).pairs)
  {
    NextIdIsNew(c, s);
    hide Inv, PairsEvolve;
    SamePairsEvolve(s.pairs);
    NewPairEvolves(s.pairs, s.nextId, Pair(user, serverSeed, c.sha256(serverSeed), clientSeed, 0, true));
  }

  lemma {:induction false} RunEvolves(c: Config, s: State, actions: seq<Action>, n: nat)
    requires Init(s) && c.minBet.minor >= 1 && n <= |actions|
    ensures PairsEvolve(Run(c, s, actions[..n]).pairs, Run(c, s, actions).pairs)
    decreases |actions|
  {
    hide Inv, Step, PairsEvolve;
    if n == |actions| {
      assert actions[..n] == actions;
      SamePairsEvolve(Run(c, s, actions).pairs);
    } else {
      var front := actions[..|actions| - 1];
      RunEvolves(c, s, front, n);
      assert front[..n] == actions[..n];
      RunKeeps(c, s, front);
      StepEvolves(c, Run(c, s, front), actions[|actions| - 1]);
      EvolvesFurther(Run(c, s, actions[..n]).pairs, Run(c, s, front).pairs, Run(c, s, actions).pairs);
    }
  }

  /** Provably fair: the hash a player saw at any earlier moment is the hash of the server seed that
      is revealed, and every round on that pair, before or after, is what these seeds give. */
  lemma {:induction false} RevealVerifies(c: Config, s: State, actions: seq<Action>, n: nat, p: PairId)
    requires Init(s) && c.minBet.minor >= 1 && n <= |actions|
    requires p in Run(c, s, actions[..n]).pairs
    ensures var seen, t := Run(c, s, actions[..n]).pairs[p], Run(c, s, actions);
            && p in t.pairs
            && seen.seedHash == c.sha256(t.pairs[p].serverSeed) && seen.clientSeed == t.pairs[p].clientSeed
            && forall i :: 0 <= i < |t.rounds| && t.rounds[i].pairId == p ==>
                 IsOutcome(c.hmac, SeedMaterial(t.pairs[p].serverSeed, seen.clientSeed, t.rounds[i].nonce),
                           POCKET_COUNT, t.rounds[i].outcome)
  {
    RunEvolves(c, s, actions, n);
    RunKeeps(c, s, actions);
    var t := Run(c, s, actions);
    Parts(c, t);
    hide Inv, IsOutcome;
    assert PairOk(c, t.wallets, t.pairs[p]);
    forall i | 0 <= i < |t.rounds| && t.rounds[i].pairId == p
      ensures Drawn(c, t.pairs[p], t.rounds[i].nonce, t.rounds[i].outcome)
    {
      assert RoundOk(c, t.pairs, t.rounds[i]);
    }
  }
}
