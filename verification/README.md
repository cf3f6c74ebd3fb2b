# Verification of the club API

A Dafny model of the parts of the service that carry its promises: the idempotency protocol, the
money tables, the transactional outbox, provably fair spins, and the session and delivery machinery
around them. `dafny verify dfyconfig.toml` checks everything.

## How it is organised

| file | what it models |
|---|---|
| `Idempotency`, `IdempotencyService` | the claim, execute and reconcile protocol behind the Idempotency-Key header |
| `Replay` | what a call is told: finished keys replayed, failed ones freed |
| `Casino`, `CasinoService`, `Announcements`, `Bookings` | wallets, ledger, seed pairs, rounds, and what their events and ledger entries say |
| `Reveal` | exactly when a revealed seed pair can still be played |
| `Outbox`, `OutboxService` | the outbox table, the relays, the broker log and the purge |
| `EndToEnd` | the three machines above joined: calls, tables and delivery |
| `Fairness`, `Decimals` | HMAC messages, rejection sampling, outcomes |
| `Table`, `Bets`, `Engine` | table geometry, bet validation, payouts |
| `Tokens` | refresh-token families |
| `Paging` | keyset pagination of the ledger and the rounds |
| `RateLimit` | the fixed-window limiter on WebSocket connections |
| `Broadcaster` | the drop-oldest notification queues |
| `Wrappers`, `Arithmetic` | Option, Result, two facts about products |

A protocol is a state machine. `State` holds the committed tables, the open transactions and, for
counting, history that no action reads. An `Action` is one statement or one commit of one session;
`Step` is total and leaves the state alone when the action is not enabled (a statement that fails or
waits). `Run` folds `Step` over any list of actions, so a theorem about `Run` is about every
interleaving of any number of sessions, with rollbacks and crashes anywhere.

Where the source changes rows in place there is a class (`Deployment`, `Database`, `Relays`,
`Sessions`, `Limiter`, `Queue`, `InMemoryBroadcaster`) whose methods follow the source statement by
statement. Each statement method proves `View() == Step(old(View()), action)`. The service methods of
`Deployment`, `Database`, `Relays` and `Limiter` take `env`, the moves the other sessions make at each
of their await points, and prove that the whole call is a `Run`; the theorems about `Run` therefore
hold of the code as written. Where the code reads the clock and uses the reading after an await, the
two are separate steps, and others may move in between.

## Assumptions

- The database runs at READ COMMITTED. A row updated by an open transaction is locked until it ends,
  and others read the committed version. A commit takes effect or raises, never both.
- New ids are fresh: a counter stands for `uuid4`. One number stands for an event's id and for its
  outbox row's id.
- HMAC, SHA-256, the token hash and the password check are opaque functions. UTF-8 encoding and
  JSONB storage are injective. Refused duplicates of a token hash are modelled, not excluded.
- The digests of every seed go on to contain an accepted block (`SpinsEnd`); otherwise the retry loop
  of `derive_outcome` would not end.
- The table minimum is at least 1 and a deposit is positive, as the settings and the request schema
  demand (`app/config.py:89`, `app/api/v1/wallet.py:85`).
- A send that raises may or may not have reached the broker.
- Each protocol has one non-decreasing clock.
- A statement that finds its row locked either waits (others move first) or is cancelled by the
  statement timeout, which raises and rolls the transaction back.

## Where code and documentation differ

- "At most once per key" (`app/services/idempotency.py:1-22`) is not unconditional. A reservation
  older than 30 seconds is deleted by id whoever owns it, so an owner that is merely slow still
  commits. Moreover a reader may see the row pending, then wait before it looks at the clock, and
  delete a row that has been completed since. `AtMostOnceExactly` gives the exact bound: take all runs
  in which no commit lags behind its reservation by more than `limit`, and no reader of a pending row
  looks at the clock more than `d` after reading it; the promise holds over them if and only if
  `limit + d` is at most the reclaim threshold. `SlowOwnerRunsTwice` is the run that breaks it beyond
  that; `EndToEnd.ChargesOnceExactly` and `SlowChargesTwice` say the same of the money. (A single late
  commit that nobody reclaims is harmless: `CleanAtMostOnce` and `EndToEnd.CleanChargedAtMostOnce` need
  no timing, only that reclaims hit pending rows nobody works on any more.)
- "It can no longer be used" (`app/services/fairness.py:64-66`), said of a revealed seed, holds except
  for bets that are open: `consume_nonce` does not look at the pair's status, so a bet that read the
  pair before a rotation still spins on it afterwards. `SpinAfterRevealExactly` gives the condition: a
  revealed pair can be played again if and only if some open bet has read it. `RevealedPairIsPlayed`
  exhibits a run. The late spin is verifiable and numbered like any other.
- The backoff comment (`app/repositories/outbox.py:16`) says 2, 4, 8 seconds. The relay passes
  `attempts + 1`, so the first retry waits 4 seconds.
- The limiter reads the clock before it increments, and its counter lives for the window rounded up to
  whole seconds. `BucketLimitExactly` gives the condition: at most `max_attempts` per bucket if and only
  if no increment lags behind its clock reading by more than that rounding, so by nothing at all when
  the window is a whole number of seconds. Even then one window's length can let in twice
  `max_attempts`, because windows are fixed; `WindowLimitReached` shows calls that do.
- The chain of `balance_after` values is proved in commit order. Creation times are not part of the
  money model, and nothing is claimed about the order in which the listing shows the entries.

## Model

| member | source | states |
|---|---|---|
| Idempotency.ExecutionsBounded | app/services/idempotency.py:57-156 | in every interleaving with crashes anywhere, committed executions of work per key are at most 1 + the reclaim-deletes that removed a row, and are accounted for exactly: row still completed, reclaimed after completion, or gone before the commit |
| Idempotency.ReturnsAreExecutions | app/services/idempotency.py:129-152 | every successful return carries the body of a committed execution on the same key and request hash |
| Idempotency.CleanupIsOwn | app/services/idempotency.py:153-156 | a failed owner's cleanup deletes only its own pending row, and takes no other owner's row |
| Idempotency.OtherHashConflicts | app/services/idempotency.py:93-99 | a call that finds its key taken collides, and if the row it reads after whatever others did meanwhile has another request hash, it ends in a conflict without running work or changing a row |
| Idempotency.AtMostOnceExactly | app/services/idempotency.py:91-113 | over all runs whose commits lag behind their reservations by at most limit, and whose readers of a pending row look at the clock at most d after reading it, work commits at most once per key if and only if limit + d is at most the reclaim threshold |
| Idempotency.TimelyAtMostOnce | app/services/idempotency.py:116-156 | with owners and readers timely in that sense work commits at most once per key |
| Idempotency.SlowOwnerRunsTwice | app/services/idempotency.py:91-113 | for any owner's lag and reader's delay that together exceed the threshold, a concrete run of two calls commits work twice: the second reads the row just before the first commits and judges it just after |
| Idempotency.ReplayAgreement | app/services/idempotency.py:101-134 | with timely owners and readers all successes on a key carry the one committed body, for one request hash |
| Idempotency.CommitHoldsReservation | app/services/idempotency.py:146-152 | with timely owners and readers a commit finds its own reservation, and no other request hash holds the key meanwhile |
| Idempotency.CleanAtMostOnce | app/services/idempotency.py:104-113 | when reclaims hit only rows of owners that ended without committing, work commits at most once per key, however slow anyone is |
| Idempotency.CleanReplayAgreement | app/services/idempotency.py:101-134 | under the same condition all successes on a key agree on body and request hash |
| Idempotency.CleanHoldsReservation | app/services/idempotency.py:146-152 | under the same condition whoever may still commit holds the one row of its key under its own request hash, so no other hash runs work while a row exists |
| Idempotency.RunKeeps | app/repositories/idempotency.py:22-52 | the counting invariant (unique keys, distinct owners, every insert reclaimed, cleaned up or present) holds in every reachable state |
| Replay.CompletedIsReplayed | app/services/idempotency.py:91-102 | in every reachable state a collided call is returned a body when it reads if and only if its key has a completed row with its request hash and that body; reading changes no row and runs no work |
| Replay.ReadDecides | app/services/idempotency.py:91-106 | what each row a collided call may find makes of it: conflict, the stored body, an age to judge, or another try when there is none |
| Replay.CleanReplays | app/services/idempotency.py:116-134 | when reclaims hit only rows of owners that ended without committing, a success is final: from then on every other call on the key collides and is told that body, or a conflict for another request hash |
| Replay.TimelyReplays | app/services/idempotency.py:116-134 | with timely owners and readers a success is final in the same sense |
| Replay.FailureFreesKey | app/services/idempotency.py:153-156 | after the cleanup of failed work its row is gone, the key is free unless somebody else had taken it, and the next call on it wins the reservation |
| Replay.RunRow | app/repositories/idempotency.py:36-52 | row ids are never used again, a row keeps key and request hash, and a completed row never changes until it goes |
| Replay.EndedForever | app/services/idempotency.py:116-156 | a call that has ended or died does nothing any more |
| IdempotencyService.Deployment.TryReserve | app/services/idempotency.py:57-78 | the insert wins exactly when the key is free, and leaves one new pending row with the call's key, hash and date; committed at once |
| IdempotencyService.Deployment.ReadExisting | app/services/idempotency.py:91-102 | the SELECT and what its row decides at once: conflict, the stored body, retry, or a pending row whose age is still to be judged |
| IdempotencyService.Deployment.JudgeExisting | app/services/idempotency.py:104-106 | the age of the row as it was read, by the clock as it is later: reclaim, or still in progress |
| IdempotencyService.Deployment.ResolveExisting | app/services/idempotency.py:81-113 | with other requests moving after its SELECT and before its DELETE, what it finds decides: no row or a pending one older than the threshold means another try, another hash a conflict, a completed row its body, a younger one a refusal |
| IdempotencyService.Deployment.Attempt | app/services/idempotency.py:57-78 | a reservation dated before others moved wins exactly when the key is free once they have |
| IdempotencyService.Deployment.ReclaimRow | app/services/idempotency.py:108-113 | the delete by id, whether or not the row is still there |
| IdempotencyService.Deployment.CommitWork | app/services/idempotency.py:146-152 | work and mark_completed commit together; the update by id may hit no row |
| IdempotencyService.Deployment.DeleteReservation | app/services/idempotency.py:153-156 | the cleanup transaction |
| IdempotencyService.Deployment.RunIdempotent | app/services/idempotency.py:116-156 | the whole call, with other requests moving at each await, is a run of the protocol and what it returns was committed; a free key means the outcome of its work; otherwise the rows at its SELECT decide, and a completed row of the same request that is there at the start and at the SELECT is answered with its body |
| Casino.BalanceIsLedger | app/services/roulette.py:129-192 | in every committed state a balance is non-negative, equals the sum of the wallet's ledger, and equals its deposits plus what its rounds paid minus what they staked |
| Casino.EntriesChain | app/repositories/ledger.py:19-39 | each entry's balance_after is the wallet's previous entry's plus its own amount, in commit order |
| Casino.OneActivePair | app/models/fairness.py:30-38 | a registered user has exactly one active seed pair in every reachable state |
| Casino.NoncesContiguous | app/repositories/seed_pairs.py:38-52 | the committed rounds of a pair carry exactly the nonces 1..nonce, increasing in commit order; rollbacks leave no gap |
| Casino.RevealVerifies | app/services/fairness.py:64-90 | the hash seen at any earlier time is the hash of the revealed seed, and every round of the pair is what those unchanged seeds give at its nonce |
| Casino.RunEvolves | app/repositories/seed_pairs.py:54-59 | between any two moments pairs keep owner, seeds and hash, nonces only grow, and a revealed pair never becomes active again |
| Casino.OnlyCommitsWrite | app/infra/db.py:43-49 | statements before the commit leave every committed table alone, so a rollback leaves no trace |
| Reveal.SpinAfterRevealExactly | app/services/fairness.py:64-75 | in any reachable state a further round can be committed on a revealed pair if and only if some open bet has read the pair |
| Reveal.RevealedPairIsPlayed | app/repositories/seed_pairs.py:45-52 | on every table a bet that read the pair before a rotation goes on to commit a round on the revealed pair |
| Reveal.ClosedRun | app/services/fairness.py:64-75 | a revealed pair that no open bet has read keeps its number of rounds for ever |
| Casino.RoundEventsMatch | app/services/roulette.py:284-320 | a round issues one wallet.transaction per ledger entry it writes, with the same contents |
| Casino.RunKeeps | app/services/roulette.py:104-234 | ledger, balances, pairs, rounds, events and open transactions agree in every reachable state |
| CasinoService.Database.CreditWallet | app/repositories/wallets.py:51-60 | the unconditional update, on a wallet nobody else holds |
| CasinoService.Database.DebitWallet | app/repositories/wallets.py:28-49 | the conditional update: succeeds exactly when the committed balance covers the stake |
| CasinoService.Database.TakeNonce | app/services/roulette.py:136-141 | the next nonce of the pair read before, the outcome its seeds give, and bets that resolve without raising |
| CasinoService.Database.EnqueueRoundEvents | app/services/roulette.py:237-320 | the loop issues the bets, the settled round, the stake and the payout if any, in that order |
| CasinoService.Database.CommitRoundTx | app/services/roulette.py:151-215 | round, ledger rows, events, balance and nonce appear together |
| CasinoService.Database.CommitRotationTx | app/repositories/seed_pairs.py:23-36 | the new pair is inserted exactly when no other pair of the user is active once the old one is closed |
| CasinoService.Database.Deposit | app/services/wallet.py:47-91 | it fails only without a wallet or while another session holds it, and commits nothing then; otherwise it books one deposit entry with the balance it returns and one event saying the same under its key |
| CasinoService.Database.Stake | app/services/roulette.py:112-130 | validation, wallet lookup and debit in this order; each failure is raised only for its own reason, and none leaves anything behind |
| CasinoService.Database.PlaceBet | app/services/roulette.py:104-234 | it fails only for the reason its error names, and commits nothing then; otherwise it commits one round whose outcome, payouts and balance are what it reports, and announces its last entry under its key |
| CasinoService.Database.GetCurrentSeed | app/services/fairness.py:53-61 | returns the hash of the active pair's server seed, with its client seed and nonce, and fails exactly when there is no such pair |
| CasinoService.Database.RotateSeed | app/services/fairness.py:64-90 | the revealed seed hashes to the published hash, its pair is closed, and the user's active pair is the new one, with the seeds that were generated; it fails only without a pair, while another session holds it, or when somebody else has rotated |
| Announcements.EventsTellRounds | app/services/roulette.py:237-282 | in every reachable state the round.settled events are the committed rounds with their real totals, and the bet.placed events are their bets, both in order |
| Announcements.RoundSpeaksOnce | app/services/roulette.py:224-320 | all events of one round, its bets, its result and its ledger entries, carry one idempotency key |
| Bookings.LedgerTellsRounds | app/services/roulette.py:166-192 | in every reachable state the ledger entries of bets are, in order and each once, the bet_stake of each committed round and, where it paid, its bet_payout, with the round's id; all others are positive deposits that refer to nothing; ids are distinct |
| Bookings.StakesAndPayouts | app/services/roulette.py:166-192 | per user the bet_stake entries sum to minus what the rounds staked and the bet_payout entries to what they paid |
| Bookings.EntriesRefer | app/repositories/ledger.py:19-39 | every entry of a bet refers to a committed round of its user whose stake or payout it carries |
| CasinoService.Database.RegisterUser | app/services/auth.py:64-78 | a new user gets an empty wallet and one active pair with exactly the given seeds, their hash and nonce 0; a known one changes nothing |
| Outbox.DeliveriesBounded | app/events/relay.py:38-57 | copies of an event at the broker are at most 1 + its failed sends + the aborted relay transactions that had sent it |
| Outbox.NothingLost | app/repositories/outbox.py:66-80 | no committed event is ever both gone from the outbox and undelivered, through purges and crashes |
| Outbox.RelaysExclusive | app/repositories/outbox.py:27-45 | two open relay transactions never hold the same row |
| Outbox.BackoffBounds | app/repositories/outbox.py:54-64 | the backoff lies between 4 and 60 seconds and never shrinks |
| Outbox.BackoffDoubles | app/repositories/outbox.py:54-64 | the backoff starts at 2 seconds and doubles with each failure until it is 60 |
| Outbox.CommitDrains | app/events/relay.py:44-57 | whichever sends fail, a committed batch removes exactly its rows from those due before the retries |
| Outbox.CommitRecords | app/repositories/outbox.py:47-64 | a committed batch leaves on each of its rows the time of its send, or its number of failures and next attempt, and touches no other row |
| Outbox.OnlyCommitsMark | app/events/relay.py:38-57 | locks, sends and rollbacks leave every row as it was; only sends reach the broker |
| Outbox.DueWithinMinute | app/repositories/outbox.py:55-64 | in every reachable state each unpublished row is due within 60 seconds, retries not committed yet included |
| Outbox.WaitingStep | app/repositories/outbox.py:27-80 | whoever moves, the rows due by a horizon grow by newly inserted rows only |
| Outbox.HeldDueRun | app/repositories/outbox.py:35-45 | every row an open relay transaction holds is due, in every reachable state |
| Outbox.ClearStep | app/repositories/outbox.py:54-64 | once every retry, committed or not, is due by some time, it stays so while sends succeed |
| Outbox.RunKeeps | app/events/relay.py:24-57 | the exact delivery count of every event holds in every reachable state |
| OutboxService.Relays.SelectBatch | app/repositories/outbox.py:36-45 | the rows that were due at the earlier reading of the clock and nobody holds, oldest first, at most limit of them, and none left out that is older |
| OutboxService.Relays.SendNext | app/events/relay.py:45-55 | sends one row and marks it published now, or failed once more, to be retried after the backoff for that many failures |
| OutboxService.Relays.RelayOnce | app/events/relay.py:24-57 | the whole call, from its clock reading on, is a run of the machine, whatever other relays, the purge and committing requests do; it returns the size of the batch its SELECT finds, and leaves each of these rows published exactly when its send went through; if the clock moves by less than the smallest backoff or no send fails, the rows due shrink by at least the batch, apart from counted arrivals; an empty batch means that no row due at the clock reading could be taken, and that nothing happened but the others' moves |
| OutboxService.Relays.RelayBurst | app/events/relay.py:69-80 | the branch of the loop that does not sleep ends beside any other relays and the purge, whatever sends fail, with every row held by another relay that was due when the clock was last read; when sends succeed and no retry was ahead, nothing is left but published rows and rows others hold |
| OutboxService.Relays.PurgeOnce | app/events/outbox_cleanup.py:20-31 | whatever others do between the cutoff and the DELETE, exactly the rows published before the cutoff go; they were all published, and it counts them |
| EndToEnd.LedgerMatchesEvents | app/events/outbox.py:28-34 | in every reachable state ledger entries and wallet.transaction events, waiting or delivered, match one to one |
| EndToEnd.ConsumerConservation | app/events/relay.py:38-57 | a balance is always what a deduplicating consumer has summed plus what undelivered events amount to |
| EndToEnd.DrainedConsumerAgrees | app/services/wallet.py:67-91 | once the outbox is drained the consumer's sum is the balance, whatever duplicates the log holds |
| EndToEnd.DrainAndConsume | app/events/relay.py:60-80 | from any reachable state, a minute later a burst of successful sends without new rows empties the outbox but for rows other relays hold; when they are idle the deduplicating consumer has every balance |
| EndToEnd.OutboxRuns | app/events/outbox.py:28-34 | the outbox of every run of the whole is a run of the outbox machine, so all its theorems carry over |
| EndToEnd.ReplayReportsEntry | app/services/idempotency.py:101-152 | every successful call, first or replayed, reports the balance_after of a ledger entry of its user whose event carries its key |
| EndToEnd.ChargesBounded | app/services/idempotency.py:116-156 | deposits and rounds committed for one user and key are at most 1 + the reclaims on it |
| EndToEnd.ChargedAtMostOnce | app/api/v1/wallet.py:109-126 | with prompt work and readers a retried request moves money at most once |
| EndToEnd.SuccessIsOneCharge | app/services/idempotency.py:129-152 | with prompt work and readers a successful call, first or replayed, means exactly one deposit or round for its user and key |
| EndToEnd.CleanChargedAtMostOnce | app/services/idempotency.py:104-113 | without any timing, a retried request moves money at most once when reclaims hit only rows of owners that ended without committing |
| EndToEnd.CleanSuccessIsOneCharge | app/services/idempotency.py:129-152 | under the same condition a successful call, first or replayed, means exactly one deposit or round for its user and key |
| EndToEnd.RetriesReplay | app/services/idempotency.py:116-134 | with prompt work and readers, or with clean reclaims, every other call with the key of a success collides and is told the same body, or a conflict |
| EndToEnd.WorkTakesEffect | app/services/idempotency.py:146-152 | work that is ready commits as one: the call returns its body, the wallet has the balance the body reports, there is one more deposit or round on the key, and each new event waits unpublished in the outbox |
| EndToEnd.ChargesOnceExactly | app/services/idempotency.py:91-113 | over all runs whose work lags behind its reservation by at most limit, and whose readers of a pending row look at the clock at most d after reading it, a key moves money at most once if and only if limit + d is at most the reclaim threshold |
| EndToEnd.SlowChargesTwice | app/services/idempotency.py:91-113 | when limit + d exceeds the threshold, a concrete run of two calls with one key deposits twice |
| EndToEnd.RunKeeps | app/services/idempotency.py:146-152 | committed deposits and rounds are exactly the committed executions, key by key, and the outbox holds exactly their events |
| Fairness.Unbiased | app/domain/fairness.py:42-55 | for every digest length and modulus, every outcome is produced by the same number of digests |
| Fairness.EveryOutcomePossible | app/domain/fairness.py:51-55 | every outcome can come up exactly when a digest has a block and the modulus is at most 2^32 |
| Fairness.UniformBelow | app/domain/fairness.py:42-55 | the residue of the first accepted block, or None exactly when all are rejected |
| Fairness.UniformFrom | app/domain/fairness.py:51-55 | rejected leading blocks do not change the result |
| Fairness.DecodeEncode | app/domain/fairness.py:52 | big-endian decoding of four bytes loses nothing |
| Fairness.BlockOrder | app/domain/fairness.py:52 | blocks compare as their four bytes do, the first byte first |
| Fairness.EncodeDecode | app/domain/fairness.py:52 | every 32-bit number is some four bytes |
| Fairness.DeriveOutcome | app/domain/fairness.py:58-74 | returns the residue of the first accepted block of the endless stream of digests, and ends when there is one |
| Fairness.SignedMessage | app/domain/fairness.py:36-39 | with the server seed as the key, round 0 signs the client seed and the nonce joined by a colon, and a further round adds a colon, an r and its number |
| Fairness.DigestsIndependent | app/domain/fairness.py:66-70 | distinct seeds, nonces or rounds are never bound to one digest: some HMAC tells them apart |
| Fairness.AnyOutcomes | app/domain/fairness.py:58-74 | whatever outcome one wants every server seed, client seed and nonce to have, some HMAC gives exactly these: nothing else ties spins together |
| Decimals.DecimalNotation | app/domain/fairness.py:36-39 | numbers are written in decimal digits, the most significant first |
| Fairness.OutcomeUnique | app/domain/fairness.py:58-74 | seeds and nonce determine the outcome, which is below the modulus |
| Fairness.MessageInjective | app/domain/fairness.py:36-39 | distinct client seeds, nonces and round indexes give distinct messages, whatever the client seed contains |
| Table.NumberAtPosition | app/domain/roulette/table.py:31-39 | the number at the position of n is n, for any grid size |
| Table.PositionOfNumber | app/domain/roulette/table.py:31-39 | the position of the number at a cell is that cell |
| Table.Splits | app/domain/roulette/table.py:113-122 | the loop lists exactly the pairs of cells that share a side, each once |
| Table.SplitListSize | app/domain/roulette/table.py:113-122 | there are R(C-1) + C(R-1) splits |
| Table.CornerMembers | app/domain/roulette/table.py:91-104 | the corners are exactly those of the interior cells |
| Table.CornerIsBlock | app/domain/roulette/table.py:91-104 | a corner is the 2x2 block of grid numbers at its cell |
| Table.CornerSize | app/domain/roulette/table.py:91-104 | a corner has four numbers |
| Table.StreetIsColumn | app/domain/roulette/table.py:81-83 | a street is one grid column |
| Table.ColumnIsRow | app/domain/roulette/table.py:86-88 | a betting column is one grid row |
| Table.LineIsTwoStreets | app/domain/roulette/table.py:107-110 | a line is two adjacent grid columns |
| Bets.CoverageExact | app/domain/roulette/table.py:64-78 | an accepted selection covers exactly the coverage of its spec, on the wheel, and coverage times (ratio + 1) is 36 |
| Bets.NumbersAsSet | app/domain/roulette/bets.py:67-74 | a bet on numbers depends only on the set of numbers |
| Bets.AcceptedNumbers | app/domain/roulette/bets.py:67-74 | the accepted number lists are exactly the figures of the grid |
| Bets.AcceptedShapes | app/domain/roulette/bets.py:58-83 | exactly which selections are accepted: none for an even-money bet, a figure for a bet on numbers, an index from 1 to 3 for a dozen or column, whatever else the selection holds |
| Bets.ListedAreCovered | app/domain/roulette/bets.py:67-74 | an accepted bet on numbers covers the numbers it lists and no others |
| Bets.OutsideBets | app/domain/roulette/bets.py:35-42 | which numbers win each even-money bet, number by number, the colours by the rule of the wheel, and that 0 wins none |
| Bets.IndexBets | app/domain/roulette/bets.py:52-55 | a dozen covers its twelve consecutive numbers and a column its grid row |
| Bets.ValidateBet | app/domain/roulette/bets.py:86-94 | a bet is valid exactly when its currency is the table's, its stake within the limits and its selection a figure, and which of the two errors is raised otherwise |
| Engine.ResolveBets | app/domain/roulette/engine.py:24-40 | every bet wins exactly on its numbers and is credited 36/coverage times its stake in its currency; it raises exactly when a selection is no figure |
| Engine.PaysOneFair | app/domain/roulette/engine.py:27-29 | any single bet pays 36 times its stake over the 37 outcomes together |
| Engine.PayoutConservation | app/domain/roulette/engine.py:24-40 | any list of accepted bets pays exactly 36 times its stake over the 37 outcomes together |
| Engine.ValidatedPays | app/domain/roulette/bets.py:86-94 | validated bets never raise when resolved, and a round pays between 0 and 36 times its stake |
| Tokens.AtMostOneLive | app/services/auth.py:98-125 | a family never has two tokens that still work |
| Tokens.RefreshRotates | app/services/auth.py:98-125 | exactly when a refresh succeeds; it hands out the token it was given, leaves it as the only live one of the family, same user, revokes the presented one as of now, and leaves other families as they were |
| Tokens.RefreshErrors | app/services/auth.py:101-120 | exactly which error a refresh raises when, and that all but the reuse change nothing |
| Tokens.HandedOutWorks | app/services/auth.py:150-166 | the token that a registration, login or refresh hands out is the live one it stored, and until it expires or is revoked, whatever happens meanwhile, a refresh with it succeeds |
| Tokens.ReuseEndsFamily | app/services/auth.py:109-117 | presenting a revoked token raises, yet revokes the live token of its family as of now, and changes nothing else |
| Tokens.DeadForever | app/repositories/refresh_tokens.py:40-47 | no refresh in an ended family ever succeeds again |
| Tokens.SecondUseEndsFamily | app/services/auth.py:46-49 | a token exchanged once can never be exchanged again, and the second attempt ends its successor too, whatever happened in between |
| Tokens.LogoutEndsOwnSession | app/services/auth.py:128-147 | logout revokes the family of the caller's own token as of now, even for an expired or rotated one, and changes nothing else; never another user's, and otherwise it is without effect |
| Tokens.RegistrationOpensFamily | app/services/auth.py:58-82 | exactly when a registration succeeds and which error it raises; success hands out the token it was given, for one more user under an id of its own, with that one live token in a family nobody had, and no other token changes |
| Tokens.LoginOpensFamily | app/services/auth.py:85-95 | exactly when a login succeeds and which error it raises, the same one for an unknown email and a wrong password; success hands out the one live token of a new family beside the user's others |
| Tokens.SuspensionStopsLogin | app/services/auth.py:91-92 | with the right password a login is refused exactly while the user is suspended |
| Tokens.RunKeeps | app/repositories/refresh_tokens.py:20-47 | tokens keep user, family and expiry, and no revocation is undone or re-dated |
| Tokens.Sessions.RegisterUser | app/services/auth.py:58-82 | the call in place, step for step; RegistrationOpensFamily says what it achieves |
| Tokens.Sessions.LoginUser | app/services/auth.py:85-95 | the call in place, step for step; LoginOpensFamily says what it achieves |
| Tokens.Sessions.RefreshToken | app/services/auth.py:98-125 | the call with its one committed error |
| Tokens.Sessions.LogoutUser | app/services/auth.py:128-147 | the revocation of the family the presented token belongs to |
| Paging.WalkComplete | app/api/v1/wallet.py:59-79 | following the cursors to the end yields, newest first and each once, every row present at the start, whatever rows are inserted between pages |
| Paging.ReadAll | app/api/v1/wallet.py:76-79 | on a static table the walk ends with exactly the owner's rows, newest first |
| Paging.PageShrinks | app/repositories/ledger.py:54-59 | every full page strictly shrinks the rows below the cursor |
| Paging.Query | app/repositories/ledger.py:41-61 | the page query: the newest matching rows below the cursor, at most limit |
| Paging.PageUnique | app/repositories/rounds.py:64-85 | the query has exactly one answer |
| Paging.List | app/api/v1/wallet.py:76-79 | there is a next cursor, the last row's, exactly when the page is full |
| RateLimit.BucketLimitExactly | app/ws/rate_limit.py:29-40 | at most max attempts are let in per key and bucket, over all runs whose increments lag by at most d, if and only if d is at most the rounding of the counter's lifetime |
| RateLimit.RunKeeps | app/ws/rate_limit.py:29-40 | with such calls every attempt is let in exactly when it is one of the first max of its bucket, apart from a first one whose EXPIRE was lost, and no counter expires on a call of its bucket |
| RateLimit.AllowKeeps | app/ws/rate_limit.py:33-38 | a prompt INCR finds a counter that has seen all earlier attempts of its bucket, lost expiries included |
| RateLimit.LateBreaks | app/ws/rate_limit.py:30-38 | beyond that, max calls and one late one are all let in within one bucket |
| RateLimit.RedisKeyInjective | app/ws/rate_limit.py:30-31 | two (key, bucket) pairs never share a counter, even for addresses with colons |
| RateLimit.CeilRoundsUp | app/ws/rate_limit.py:38 | the lifetime of a counter is its window rounded up to a whole second and no further |
| RateLimit.WindowLimit | app/ws/rate_limit.py:29-40 | any half-open interval of one window's length lets in at most twice max prompt calls |
| RateLimit.WindowLimitReached | app/ws/rate_limit.py:10-14 | calls of the limiter without any delay reach twice max, for every max and window |
| RateLimit.Limiter.Admit | app/ws/rate_limit.py:33-40 | INCR on a live counter or a new one, EXPIRE on the first, no other counter touched, and the answer n <= max; for a prompt call n is its number in its bucket |
| RateLimit.Limiter.Allow | app/ws/rate_limit.py:29-40 | the call with the clock and other calls moving between its clock reading and its INCR is a run of the machine |
| Broadcaster.FeedFaithful | app/ws/broadcaster.py:38-58 | under any interleaving a queue holds the latest messages, at most 32; taken then queued messages are an in-order part of those published, and all of them exactly when nothing was dropped |
| Broadcaster.NothingDropped | app/ws/broadcaster.py:38-45 | a reader who is never more than 32 messages behind misses none |
| Broadcaster.Queue.Put | app/ws/broadcaster.py:40-45 | the message joins the queue, and the oldest goes exactly when 32 were waiting |
| Broadcaster.InMemoryBroadcaster.PublishTo | app/ws/broadcaster.py:38-45 | every queue of the user gets the message, and no other queue changes |
| Broadcaster.InMemoryBroadcaster.Subscribe | app/ws/broadcaster.py:47-52 | a new empty queue joins the user's |
| Broadcaster.InMemoryBroadcaster.Unsubscribe | app/ws/broadcaster.py:53-58 | the queue leaves, and the user with the last one |

## Left out

- HTTP routing, middleware, error mapping, CORS, logging, metrics, health, configuration and the WebSocket heartbeat: no deep invariant.
- SQL text, ORM sessions, migrations and the Kafka and Redis clients: each statement is its atomic effect.
- Cryptography, randomness, JWT access tokens and base64 or ISO encoding: opaque or the identity; a cursor is the pair (created_at, id).
- The rest of a response body: of what a deposit or round returns, the joined machine keeps the balance only.
- Delivery order per user on Kafka: the relay continues past a failed row, so no order is claimed.
- Overlapping refreshes of one token: the read and the revoke are separate statements; each call of `Tokens` is one atomic transaction.
- Suspension is checked at login only, as in the source, and is set from outside; the check on access tokens is not modelled.
- `expires_at` on idempotency rows: written and never read.
- Rows a transaction inserts appear at its commit: they are invisible and block nobody before, except on the unique index of active pairs, which is checked at the commit.
- The send of a row and its mark are one step; a crash between them is covered by the abort that loses the mark.
- A round without bets: the API refuses it, and the event schema would; the model reports it as a failure after the wallet is found.
- 64-bit limits on money columns and the deposit maximum: amounts are unbounded.
- Booleans as numbers in selections: Python accepts `True` as the index 1; the model has numbers only.
- A modulus below 1 in `derive_outcome`: only 37 is ever used, and positive moduli are modelled.
- The order of a set of subscriber queues: `PublishTo` takes them in any order.
