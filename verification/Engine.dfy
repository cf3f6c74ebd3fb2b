/** Resolving a round's bets, and what the table pays over all outcomes. */
module Engine {
  import opened Arithmetic
  import opened Bets
  import opened Table
  import opened Wrappers

  function ResolveBet(bet: PlacedBet, outcome: int): Result<ResolvedBet, BetError> {
    match CoveredNumbers(bet.betType, bet.selection)
    case Err(e) => Err(e)
    case Ok(covered) =>
      if outcome in covered then
        Ok(ResolvedBet(bet, true, Money(bet.stake.minor * (PayoutRatio(bet.betType) + 1), bet.stake.currency)))
      else
        Ok(ResolvedBet(bet, false, Money(0, bet.stake.currency)))
  }

  function Resolve(bets: seq<PlacedBet>, outcome: int): (r: Result<seq<ResolvedBet>, BetError>)
    ensures r.Ok? ==> |r.value| == |bets|
  {
    if bets == [] then Ok([])
    else
      match Resolve(bets[..|bets| - 1], outcome)
      case Err(e) => Err(e)
      case Ok(resolved) =>
        match ResolveBet(bets[|bets| - 1], outcome)
        case Err(e) => Err(e)
        case Ok(last) => Ok(resolved + [last])
  }

  /** `resolve_bets`; the first bet that does not describe a figure raises. */
  method ResolveBets(bets: seq<PlacedBet>, outcome: int) returns (r: Result<seq<ResolvedBet>, BetError>)
    ensures r == Resolve(bets, outcome)
    ensures r.Ok? <==> forall i :: 0 <= i < |bets| ==> Accepted(bets[i])
    ensures r.Err? ==> r.error == InvalidBet
    ensures r.Ok? ==> forall i :: 0 <= i < |bets| ==>
              && r.value[i].bet == bets[i] && r.value[i].payout.currency == bets[i].stake.currency
              && (r.value[i].won <==> outcome in CoveredNumbers(bets[i].betType, bets[i].selection).value)
              && r.value[i].payout.minor * Coverage(bets[i].betType)
                 == if r.value[i].won then 36 * bets[i].stake.minor else 0
  {
    hide CoveredNumbers;
    var resolved := [];
    for i := 0 to |bets|
      invariant Resolve(bets[..i], outcome) == Ok(resolved)
      invariant |resolved| == i
      invariant forall j :: 0 <= j < i ==> Accepted(bets[j]) && Settled(bets[j], outcome, resolved[j])
    {
      assert bets[..i + 1][..i] == bets[..i];
      var one := ResolveBet(bets[i], outcome);
      if one.Err? {
        RejectedPrefix(bets, outcome, i);
        return Err(one.error);
      }
      SettledBet(bets[i], outcome);
      resolved := resolved + [one.value];
    }
    assert bets[..|bets|] == bets;
    r := Ok(resolved);
  }

  /** The selection describes a figure. */
  predicate Accepted(bet: PlacedBet) {
    CoveredNumbers(bet.betType, bet.selection).Ok?
  }

  predicate Settled(bet: PlacedBet, outcome: int, resolved: ResolvedBet)
    requires Accepted(bet)
  {
    && resolved.bet == bet && resolved.payout.currency == bet.stake.currency
    && (resolved.won <==> outcome in CoveredNumbers(bet.betType, bet.selection).value)
    && resolved.payout.minor * Coverage(bet.betType) == if resolved.won then 36 * bet.stake.minor else 0
  }

  /** What a winning stake is credited, times the pockets it covers, is 36 stakes. */
  lemma {:induction false} SettledBet(bet: PlacedBet, outcome: int)
    requires Accepted(bet)
    ensures ResolveBet(bet, outcome).Ok? && Settled(bet, outcome, ResolveBet(bet, outcome).value)
  {
    hide CoveredNumbers;
    CoverageExact(bet.betType, bet.selection);
    var c, p, stake := Coverage(bet.betType), PayoutRatio(bet.betType) + 1, bet.stake.minor;
    assert stake * (p * c) == (stake * p) * c;
  }

  lemma {:induction false} RejectedPrefix(bets: seq<PlacedBet>, outcome: int, i: nat)
    requires i < |bets| && Resolve(bets[..i], outcome).Ok? && ResolveBet(bets[i], outcome).Err?
    ensures Resolve(bets, outcome) == Err(ResolveBet(bets[i], outcome).error)
  {
    if i == |bets| - 1 {
    } else {
      var front := bets[..|bets| - 1];
      assert front[..i] == bets[..i];
      RejectedPrefix(front, outcome, i);
    }
  }

  // ------------------------------------------------------------ conservation

  function TotalStake(bets: seq<PlacedBet>): int {
    if bets == [] then 0 else TotalStake(bets[..|bets| - 1]) + bets[|bets| - 1].stake.minor
  }

  function TotalPayout(resolved: seq<ResolvedBet>): int {
    if resolved == [] then 0 else TotalPayout(resolved[..|resolved| - 1]) + resolved[|resolved| - 1].payout.minor
  }

  predicate AllAccepted(bets: seq<PlacedBet>) {
    forall i :: 0 <= i < |bets| ==> Accepted(bets[i])
  }

  lemma {:induction false} AcceptedResolve(bets: seq<PlacedBet>, outcome: int)
    requires AllAccepted(bets)
    ensures Resolve(bets, outcome).Ok?
  {
    if bets != [] {
      AcceptedResolve(bets[..|bets| - 1], outcome);
    }
  }

  /** What the round pays in total when `outcome` comes up. */
  function Pays(bets: seq<PlacedBet>, outcome: int): int
    requires AllAccepted(bets)
  {
    AcceptedResolve(bets, outcome);
    TotalPayout(Resolve(bets, outcome).value)
  }

  function PaysOver(bets: seq<PlacedBet>, outcomes: nat): int
    requires AllAccepted(bets)
  {
    if outcomes == 0 then 0 else PaysOver(bets, outcomes - 1) + Pays(bets, outcomes - 1)
  }

  function PaysOne(bet: PlacedBet, outcome: int): int
    requires Accepted(bet)
  {
    ResolveBet(bet, outcome).value.payout.minor
  }

  function PaysOneOver(bet: PlacedBet, outcomes: nat): int
    requires Accepted(bet)
  {
    if outcomes == 0 then 0 else PaysOneOver(bet, outcomes - 1) + PaysOne(bet, outcomes - 1)
  }

  lemma PaysSplits(bets: seq<PlacedBet>, outcome: int)
    requires bets != [] && AllAccepted(bets)
    ensures Pays(bets, outcome) == Pays(bets[..|bets| - 1], outcome) + PaysOne(bets[|bets| - 1], outcome)
  {
    var front := bets[..|bets| - 1];
    AcceptedResolve(bets, outcome);
    AcceptedResolve(front, outcome);
    var resolved := Resolve(bets, outcome).value;
    assert resolved[..|resolved| - 1] == Resolve(front, outcome).value;
  }

  lemma AllButLastAccepted(bets: seq<PlacedBet>)
    requires bets != [] && AllAccepted(bets)
    ensures AllAccepted(bets[..|bets| - 1]) && Accepted(bets[|bets| - 1])
  {
  }

  lemma {:induction false} PaysOverSplits(bets: seq<PlacedBet>, outcomes: nat)
    requires bets != [] && AllAccepted(bets)
    ensures PaysOver(bets, outcomes)
            == PaysOver(bets[..|bets| - 1], outcomes) + PaysOneOver(bets[|bets| - 1], outcomes)
  {
    hide Pays, PaysOne, Accepted;
    AllButLastAccepted(bets);
    if outcomes > 0 {
      PaysOverSplits(bets, outcomes - 1);
      PaysSplits(bets, outcomes - 1);
    }
  }

  /** How many of the first n pockets a set covers. */
  function Covered(numbers: set<int>, n: nat): nat {
    |numbers * Interval(0, n)|
  }

  lemma CoveredNext(numbers: set<int>, n: nat)
    ensures Covered(numbers, n + 1) == Covered(numbers, n) + if n in numbers then 1 else 0
  {
    hide Interval;
    var before, after := numbers * Interval(0, n), numbers * Interval(0, n + 1);
    if n in numbers {
      assert after == before + {n};
    } else {
      assert after == before;
    }
  }

  /** What a bet is credited when it wins. */
  function Win(bet: PlacedBet): int {
    bet.stake.minor * (PayoutRatio(bet.betType) + 1)
  }

  lemma PaysOneIs(bet: PlacedBet, outcome: int)
    requires Accepted(bet)
    ensures PaysOne(bet, outcome)
            == if outcome in CoveredNumbers(bet.betType, bet.selection).value then Win(bet) else 0
  {
    hide CoveredNumbers;
  }

  /** One bet pays its winning amount once per covered pocket. */
  lemma {:induction false} PaysOneCounts(bet: PlacedBet, outcomes: nat)
    requires Accepted(bet)
    ensures var covered := CoveredNumbers(bet.betType, bet.selection).value;
            PaysOneOver(bet, outcomes) == Covered(covered, outcomes) * Win(bet)
  {
    hide CoveredNumbers, Covered, Win, PaysOne;
    var covered := CoveredNumbers(bet.betType, bet.selection).value;
    if outcomes == 0 {
      NoneCovered(covered);
    } else {
      PaysOneCounts(bet, outcomes - 1);
      PaysOneIs(bet, outcomes - 1);
      CoveredNext(covered, outcomes - 1);
    }
  }

  lemma NoneCovered(numbers: set<int>)
    ensures Covered(numbers, 0) == 0
  {
    hide Interval;
    assert numbers * Interval(0, 0) == {};
  }

  lemma PaysOneFair(bet: PlacedBet)
    requires Accepted(bet)
    ensures PaysOneOver(bet, POCKET_COUNT) == 36 * bet.stake.minor
  {
    hide CoveredNumbers, Interval, PaysOneOver, Coverage, PayoutRatio;
    var covered := CoveredNumbers(bet.betType, bet.selection).value;
    PaysOneCounts(bet, POCKET_COUNT);
    CoverageExact(bet.betType, bet.selection);
    assert covered * Interval(0, POCKET_COUNT) == covered;
    ThirtySix(Coverage(bet.betType), PayoutRatio(bet.betType) + 1, bet.stake.minor);
  }

  lemma ThirtySix(coverage: nat, ratio: nat, stake: int)
    requires coverage * ratio == 36
    ensures coverage * (stake * ratio) == 36 * stake
  {
    assert coverage * (stake * ratio) == (coverage * ratio) * stake;
  }

  /** Summed over the 37 outcomes, any list of accepted bets is paid exactly 36 times its stake:
      every bet type returns 36/37 of what is staked. */
  lemma {:induction false} PayoutConservation(bets: seq<PlacedBet>)
    requires AllAccepted(bets)
    ensures PaysOver(bets, POCKET_COUNT) == 36 * TotalStake(bets)
  {
    if bets == [] {
      NothingPaid(POCKET_COUNT);
    } else {
      PayoutConservation(bets[..|bets| - 1]);
      PaysOverSplits(bets, POCKET_COUNT);
      PaysOneFair(bets[|bets| - 1]);
    }
  }

  lemma {:induction false} NothingPaid(outcomes: nat)
    ensures PaysOver([], outcomes) == 0
  {
    if outcomes > 0 {
      NothingPaid(outcomes - 1);
    }
  }

  /** Every bet of the round passes `validate_bet` on a table whose minimum is positive. */
  predicate AllValidated(bets: seq<PlacedBet>, minBet: Money, maxBet: Money) {
    forall i :: 0 <= i < |bets| ==> ValidateBet(bets[i], minBet, maxBet).Ok?
  }

  /** Validated bets never raise when they are resolved, and a round pays between nothing and
      36 times its stake. */
  lemma {:induction false} ValidatedPays(bets: seq<PlacedBet>, minBet: Money, maxBet: Money, outcome: int)
    requires AllValidated(bets, minBet, maxBet) && minBet.minor >= 1
    ensures AllAccepted(bets) && Resolve(bets, outcome).Ok?
    ensures |bets| <= TotalStake(bets)
    ensures 0 <= TotalPayout(Resolve(bets, outcome).value) <= 36 * TotalStake(bets)
  {
    AcceptedResolve(bets, outcome);
    if bets != [] {
      var last := bets[|bets| - 1];
      ValidatedPays(bets[..|bets| - 1], minBet, maxBet, outcome);
      PaysSplits(bets, outcome);
      PaysOneBounded(last, outcome);
    }
  }

  lemma {:induction false} PaysOneBounded(bet: PlacedBet, outcome: int)
    requires Accepted(bet) && bet.stake.minor >= 1
    ensures 0 <= PaysOne(bet, outcome) <= 36 * bet.stake.minor
  {
    hide CoveredNumbers;
    var p := PayoutRatio(bet.betType) + 1;
    MulMonotone(p, 36, bet.stake.minor);
  }
}
