/** Money, bet validation, and resolving a round's bets. */
module Bets {
  import opened Arithmetic
  import opened Table
  import opened Wrappers

  /** An integer amount of minor units. */
  datatype Money = Money(minor: int, currency: string)

  datatype BetError = InvalidBet | CurrencyMismatch

  /** `Money.__lt__`; amounts in two currencies do not compare. */
  function Less(a: Money, b: Money): Result<bool, BetError> {
    if a.currency != b.currency then Err(CurrencyMismatch) else Ok(a.minor < b.minor)
  }

  datatype BetType =
    | Straight | Split | Street | Corner | Line | Dozen | Column
    | Red | Black | Odd | Even | High | Low

  datatype SelectionValue = Number(n: int) | NumberList(ns: seq<int>)

  type Selection = map<string, SelectionValue>

  datatype PlacedBet = PlacedBet(betType: BetType, selection: Selection, stake: Money)

  datatype ResolvedBet = ResolvedBet(bet: PlacedBet, won: bool, payout: Money)

  const RED_NUMBERS: set<int> := {1, 3, 5, 7, 9, 12, 14, 16, 18, 19, 21, 23, 25, 27, 30, 32, 34, 36}

  function ElementsOf(ns: seq<int>): set<int> {
    set n | n in ns
  }

  /** `frozenset(range(lo, hi))`. */
  function Interval(lo: int, hi: int): (r: set<int>)
    ensures forall n :: n in r <==> lo <= n < hi
    ensures lo <= hi ==> |r| == hi - lo
  {
    var range := seq(if lo < hi then hi - lo else 0, i => lo + i);
    IncreasingSize(range);
    RangeElements(lo, hi, range);
    ElementsOf(range)
  }

  lemma RangeElements(lo: int, hi: int, range: seq<int>)
    requires |range| == if lo < hi then hi - lo else 0
    requires forall i :: 0 <= i < |range| ==> range[i] == lo + i
    ensures forall n :: n in ElementsOf(range) <==> lo <= n < hi
  {
    forall n ensures n in ElementsOf(range) <==> lo <= n < hi {
      if lo <= n < hi {
        assert range[n - lo] == n;
      }
    }
  }

  lemma {:induction false} IncreasingSize(ns: seq<int>)
    requires forall i, j :: 0 <= i < j < |ns| ==> ns[i] < ns[j]
    ensures |ElementsOf(ns)| == |ns|
  {
    if ns == [] {
      assert ElementsOf(ns) == {};
    } else {
      var rest, last := ns[..|ns| - 1], ns[|ns| - 1];
      IncreasingSize(rest);
      assert ElementsOf(ns) == ElementsOf(rest) + {last};
    }
  }

  /** `BET_SPECS[...].coverage`. */
  function Coverage(t: BetType): nat {
    match t
    case Straight => 1
    case Split => 2
    case Street => 3
    case Corner => 4
    case Line => 6
    case Dozen => 12
    case Column => 12
    case _ => 18
  }

  /** `BET_SPECS[...].payout_ratio`. */
  function PayoutRatio(t: BetType): nat {
    match t
    case Straight => 35
    case Split => 17
    case Street => 11
    case Corner => 8
    case Line => 5
    case Dozen => 2
    case Column => 2
    case _ => 1
  }

  predicate IsFixed(t: BetType) {
    t.Red? || t.Black? || t.Odd? || t.Even? || t.High? || t.Low?
  }

  predicate IsNumbers(t: BetType) {
    t.Straight? || t.Split? || t.Street? || t.Corner? || t.Line?
  }

  function FixedSelection(t: BetType): set<int>
    requires IsFixed(t)
  {
    match t
    case Red => RED_NUMBERS
    case Black => Interval(1, 37) - RED_NUMBERS
    case Odd => set n | n in Interval(1, 37) && n % 2 == 1
    case Even => set n | n in Interval(2, 37) && n % 2 == 0
    case High => Interval(19, 37)
    case Low => Interval(1, 19)
  }

  /** The figures a bet on numbers may name. */
  function Figures(t: BetType): seq<set<int>>
    requires IsNumbers(t)
  {
    match t
    case Straight => seq(POCKET_COUNT, n => {n})
    case Split => SplitList(ROWS, COLS)
    case Street => Streets(ROWS, COLS)
    case Corner => Corners(ROWS, COLS)
    case Line => Lines(ROWS, COLS)
  }

  function IndexSelection(t: BetType, index: int): Option<set<int>>
    requires t.Dozen? || t.Column?
  {
    if !(1 <= index <= 3) then None
    else if t.Dozen? then Some(Interval(12 * index - 11, 12 * index + 1))
    else Some(Columns(ROWS, COLS)[index - 1])
  }

  /** `covered_numbers`. */
  function CoveredNumbers(t: BetType, selection: Selection): (r: Result<set<int>, BetError>)
    ensures r.Err? ==> r.error == InvalidBet
  {
    if IsFixed(t) then
      if selection != map[] then Err(InvalidBet) else Ok(FixedSelection(t))
    else if IsNumbers(t) then
      if "numbers" !in selection || !selection["numbers"].NumberList? then Err(InvalidBet)
      else
        var candidate := ElementsOf(selection["numbers"].ns);
        if candidate in Figures(t) then Ok(candidate) else Err(InvalidBet)
    else if "index" !in selection || !selection["index"].Number? then Err(InvalidBet)
    else
      match IndexSelection(t, selection["index"].n)
      case Some(numbers) => Ok(numbers)
      case None => Err(InvalidBet)
  }

  /** `validate_bet`. */
  function ValidateBet(bet: PlacedBet, minBet: Money, maxBet: Money): (r: Result<(), BetError>)
    ensures r.Ok? <==>
              && bet.stake.currency == minBet.currency == maxBet.currency
              && minBet.minor <= bet.stake.minor <= maxBet.minor
              && CoveredNumbers(bet.betType, bet.selection).Ok?
    ensures r.Err? ==>
              r.error == if && bet.stake.currency == minBet.currency != maxBet.currency
                            && minBet.minor <= bet.stake.minor
                         then CurrencyMismatch else InvalidBet
  {
    if bet.stake.currency != minBet.currency then Err(InvalidBet)
    else
      match Less(bet.stake, minBet)
      case Err(e) => Err(e)
      case Ok(true) => Err(InvalidBet)
      case Ok(false) =>
        match Less(maxBet, bet.stake)
        case Err(e) => Err(e)
        case Ok(true) => Err(InvalidBet)
        case Ok(false) =>
          match CoveredNumbers(bet.betType, bet.selection)
          case Err(e) => Err(e)
          case Ok(_) => Ok(())
  }

  // ------------------------------------------------------------ coverage

  function Term(first: int, step: nat, k: nat): int {
    first + step * k
  }

  lemma NextTerm(first: int, step: nat, k: nat)
    ensures Term(first, step, k + 1) == Term(first, step, k) + step
  {
  }

  /** Numbers first, first + step, ..., n of them. */
  ghost function Progression(first: int, step: nat, n: nat): set<int> {
    if n == 0 then {} else Progression(first, step, n - 1) + {Term(first, step, n - 1)}
  }

  lemma {:induction false} ProgressionMembers(first: int, step: nat, n: nat, x: int)
    ensures x in Progression(first, step, n) <==> exists k: nat :: k < n && x == Term(first, step, k)
  {
    hide Term;
    if n > 0 {
      ProgressionMembers(first, step, n - 1, x);
    }
  }

  lemma {:induction false} ProgressionSize(first: int, step: nat, n: nat)
    requires step >= 1
    ensures |Progression(first, step, n)| == n
    ensures forall x :: x in Progression(first, step, n) ==> x < Term(first, step, n)
  {
    hide Term;
    if n > 0 {
      ProgressionSize(first, step, n - 1);
      NextTerm(first, step, n - 1);
    }
  }

  lemma StreetSize(col: int)
    requires 1 <= col <= COLS
    ensures |Table.Street(col, ROWS)| == 3
  {
    var first := 3 * col - 2;
    ProgressionSize(first, 1, 3);
    var street := Table.Street(col, ROWS);
    forall n ensures n in street <==> n in Progression(first, 1, 3) {
      ProgressionMembers(first, 1, 3, n);
      hide Progression;
      if k: nat :| k < 3 && n == Term(first, 1, k) {
        assert n == NumberAt(k + 1, col, ROWS);
      }
      if n in street {
        var r :| 1 <= r <= ROWS && n == NumberAt(r, col, ROWS);
        assert n == Term(first, 1, r - 1);
      }
    }
    assert street == Progression(first, 1, 3);
  }

  lemma ColumnSize(row: int)
    requires 1 <= row <= ROWS
    ensures |Table.Column(row, ROWS, COLS)| == 12
  {
    hide Progression;
    ProgressionSize(row, 3, 12);
    var column := Table.Column(row, ROWS, COLS);
    forall n ensures n in column <==> n in Progression(row, 3, 12) {
      ProgressionMembers(row, 3, 12, n);
      if k: nat :| k < 12 && n == Term(row, 3, k) {
        assert n == NumberAt(row, k + 1, ROWS);
      }
      if n in column {
        var c :| 1 <= c <= COLS && n == NumberAt(row, c, ROWS);
        assert n == Term(row, 3, c - 1);
      }
    }
    assert column == Progression(row, 3, 12);
  }

  lemma {:induction false} ParitySize(k: nat)
    ensures |set n | n in Interval(1, 2 * k + 1) && n % 2 == 1| == k
    ensures |set n | n in Interval(2, 2 * k + 1) && n % 2 == 0| == k
  {
    hide Interval;
    var odd := set n | n in Interval(1, 2 * k + 1) && n % 2 == 1;
    var even := set n | n in Interval(2, 2 * k + 1) && n % 2 == 0;
    if k == 0 {
      assert odd == {} && even == {};
    } else {
      ParitySize(k - 1);
      assert odd == (set n | n in Interval(1, 2 * k - 1) && n % 2 == 1) + {2 * k - 1};
      assert even == (set n | n in Interval(2, 2 * k - 1) && n % 2 == 0) + {2 * k};
    }
  }

  lemma RedParts()
    ensures RED_NUMBERS == {1, 3, 5, 7, 9, 12} + {14, 16, 18, 19, 21, 23} + {25, 27, 30, 32, 34, 36}
  {
  }

  lemma SixNumbers(a: int, b: int, c: int, d: int, e: int, f: int)
    requires a < b < c < d < e < f
    ensures |{a, b, c, d, e, f}| == 6
  {
  }

  /** Three sets of six, each above the one before. */
  lemma ThreeSixes(a: set<int>, b: set<int>, c: set<int>, m: int, n: int)
    requires |a| == |b| == |c| == 6 && m <= n
    requires forall x :: x in a ==> x < m
    requires forall x :: x in b ==> m <= x < n
    requires forall x :: x in c ==> n <= x
    ensures |a + b + c| == 18
  {
    forall x ensures !(x in a && x in b) && !(x in a + b && x in c) {
      assert x in a ==> x < m;
      assert x in b ==> m <= x < n;
      assert x in c ==> n <= x;
    }
    assert a !! b && (a + b) !! c;
  }

  lemma RedSize()
    ensures |RED_NUMBERS| == 18
  {
    RedParts();
    SixNumbers(1, 3, 5, 7, 9, 12);
    SixNumbers(14, 16, 18, 19, 21, 23);
    SixNumbers(25, 27, 30, 32, 34, 36);
    ThreeSixes({1, 3, 5, 7, 9, 12}, {14, 16, 18, 19, 21, 23}, {25, 27, 30, 32, 34, 36}, 13, 24);
  }

  lemma RedOnGrid()
    ensures RED_NUMBERS <= Interval(1, 37)
  {
    hide Interval;
    forall n | n in RED_NUMBERS ensures n in Interval(1, 37) {
    }
  }

  lemma DifferenceSize(a: set<int>, b: set<int>)
    requires b <= a
    ensures |a - b| == |a| - |b|
  {
    assert a == b + (a - b);
  }

  lemma {:induction false} ColourSize()
    ensures |RED_NUMBERS| == 18 && |FixedSelection(Black)| == 18
    ensures RED_NUMBERS <= Interval(1, 37)
  {
    hide Interval;
    RedSize();
    RedOnGrid();
    DifferenceSize(Interval(1, 37), RED_NUMBERS);
  }

  lemma LineSize(i: nat)
    requires i < COLS - 1
    ensures |Lines(ROWS, COLS)[i]| == 6
  {
    var a, b := Table.Street(i + 1, ROWS), Table.Street(i + 2, ROWS);
    StreetSize(i + 1);
    StreetSize(i + 2);
    forall n ensures !(n in a && n in b) {
      StreetIsColumn(i + 1, ROWS, COLS, n);
      StreetIsColumn(i + 2, ROWS, COLS, n);
    }
    assert a !! b;
  }

  ghost predicate Covers(t: BetType, numbers: set<int>) {
    |numbers| == Coverage(t) && numbers <= Interval(0, POCKET_COUNT)
  }

  lemma StraightCovers(figure: set<int>)
    requires figure in Figures(Straight)
    ensures Covers(Straight, figure)
  {
    hide Interval;
  }

  lemma {:induction false} SplitCovers(figure: set<int>)
    requires figure in Figures(Split)
    ensures Covers(Split, figure)
  {
    hide Interval, SplitsUpTo;
    SplitListIsAllSplits(ROWS, COLS);
    assert IsSplit(figure, ROWS, COLS);
    var a, b :| Neighbours(a, b, ROWS, COLS) && figure == {a, b};
    assert a != b;
  }

  lemma StreetCovers(figure: set<int>)
    requires figure in Figures(Street)
    ensures Covers(Street, figure)
  {
    hide Interval;
    var i :| 0 <= i < |Figures(Street)| && Figures(Street)[i] == figure;
    StreetSize(i + 1);
    assert figure == Table.Street(i + 1, ROWS);
    hide Figures;
    forall n | n in figure ensures 0 <= n < POCKET_COUNT {
      StreetIsColumn(i + 1, ROWS, COLS, n);
    }
  }

  lemma {:induction false} CornerCovers(figure: set<int>)
    requires figure in Figures(Corner)
    ensures Covers(Corner, figure)
  {
    hide Interval, Corners, Table.Corner, Row, Col;
    CornerMembers(figure, ROWS, COLS);
    var r, c :| 1 <= r < ROWS && 1 <= c < COLS && figure == Table.Corner(r, c, ROWS);
    CornerSize(r, c, ROWS);
    forall n | n in figure ensures 0 <= n < POCKET_COUNT {
      CornerIsBlock(r, c, ROWS, COLS, n);
    }
  }

  lemma LineCovers(figure: set<int>)
    requires figure in Figures(Line)
    ensures Covers(Line, figure)
  {
    hide Interval, Table.Street;
    var i :| 0 <= i < |Figures(Line)| && Figures(Line)[i] == figure;
    LineSize(i);
    forall n | n in figure ensures 0 <= n < POCKET_COUNT {
      LineIsTwoStreets(i, ROWS, COLS, n);
    }
  }

  /** A figure on the table covers as many numbers as its type says, all of them on the wheel. */
  lemma {:induction false} FigureCovers(t: BetType, figure: set<int>)
    requires IsNumbers(t) && figure in Figures(t)
    ensures Covers(t, figure)
  {
    hide Figures, Covers;
    match t
    case Straight => StraightCovers(figure);
    case Split => SplitCovers(figure);
    case Street => StreetCovers(figure);
    case Corner => CornerCovers(figure);
    case Line => LineCovers(figure);
  }

  /** Whatever selection is accepted covers exactly `coverage` pockets of the wheel, and
      `coverage` times what a unit stake is credited on a win is always 36. */
  lemma {:induction false} CoverageExact(t: BetType, selection: Selection)
    requires CoveredNumbers(t, selection).Ok?
    ensures var covered := CoveredNumbers(t, selection).value;
            |covered| == Coverage(t) && covered <= Interval(0, POCKET_COUNT)
    ensures Coverage(t) * (PayoutRatio(t) + 1) == 36
  {
    hide Interval, Figures;
    var covered := CoveredNumbers(t, selection).value;
    if IsFixed(t) {
      ColourSize();
      ParitySize(18);
    } else if IsNumbers(t) {
      FigureCovers(t, covered);
    } else {
      var index := selection["index"].n;
      if t.Column? {
        ColumnSize(index);
        forall n | n in covered ensures 0 <= n < POCKET_COUNT { ColumnIsRow(index, ROWS, COLS, n); }
      }
    }
  }

  /** A bet on numbers depends only on which numbers are listed, not on order or repetition. */
  lemma NumbersAsSet(t: BetType, ns: seq<int>, ms: seq<int>)
    requires IsNumbers(t) && forall n :: n in ns <==> n in ms
    ensures CoveredNumbers(t, map["numbers" := NumberList(ns)]) == CoveredNumbers(t, map["numbers" := NumberList(ms)])
  {
    forall n ensures n in ElementsOf(ns) <==> n in ElementsOf(ms) {
      assert n in ns <==> n in ms;
    }
    assert ElementsOf(ns) == ElementsOf(ms);
  }

  /** Which lists of numbers are accepted, in terms of the grid: a split is two cells that share
      a side, a street one grid column, a line two adjacent ones, a corner a 2x2 block. */
  lemma {:induction false} AcceptedNumbers(t: BetType, ns: seq<int>)
    requires IsNumbers(t)
    ensures CoveredNumbers(t, map["numbers" := NumberList(ns)]).Ok? <==>
            match t
            case Straight => exists n :: 0 <= n < POCKET_COUNT && ElementsOf(ns) == {n}
            case Split => IsSplit(ElementsOf(ns), ROWS, COLS)
            case Street => exists c :: 1 <= c <= COLS && ElementsOf(ns) == Table.Street(c, ROWS)
            case Corner => exists r, c :: 1 <= r < ROWS && 1 <= c < COLS && ElementsOf(ns) == Table.Corner(r, c, ROWS)
            case Line =>
              exists c :: 1 <= c < COLS && ElementsOf(ns) == Table.Street(c, ROWS) + Table.Street(c + 1, ROWS)
  {
    hide Corners, SplitsUpTo, Table.Street, Table.Corner, Neighbours;
    var s := ElementsOf(ns);
    assert CoveredNumbers(t, map["numbers" := NumberList(ns)]).Ok? <==> s in Figures(t);
    match t
    case Straight =>
      if n :| 0 <= n < POCKET_COUNT && s == {n} {
        assert Figures(t)[n] == s;
      }
    case Split => SplitListIsAllSplits(ROWS, COLS);
    case Street =>
      if c :| 1 <= c <= COLS && s == Table.Street(c, ROWS) {
        assert Figures(t)[c - 1] == s;
      }
    case Corner => CornerMembers(s, ROWS, COLS);
    case Line =>
      if c :| 1 <= c < COLS && s == Table.Street(c, ROWS) + Table.Street(c + 1, ROWS) {
        assert Figures(t)[c - 1] == s;
      }
      if s in Figures(t) {
        var i :| 0 <= i < |Figures(t)| && Figures(t)[i] == s;
        assert s == Table.Street(i + 1, ROWS) + Table.Street(i + 1 + 1, ROWS);
      }
  }

  /** Which selections are accepted at all, keys that the bet type does not read aside. */
  lemma AcceptedShapes(t: BetType, selection: Selection)
    ensures CoveredNumbers(t, selection).Ok? <==>
            if IsFixed(t) then selection == map[]
            else if IsNumbers(t) then
              && "numbers" in selection && selection["numbers"].NumberList?
              && CoveredNumbers(t, map["numbers" := selection["numbers"]]).Ok?
            else "index" in selection && selection["index"].Number? && 1 <= selection["index"].n <= 3
  {
  }

  /** A bet on numbers covers the numbers it lists, and no others. */
  lemma {:induction false} ListedAreCovered(t: BetType, selection: Selection, n: int)
    requires IsNumbers(t) && CoveredNumbers(t, selection).Ok?
    ensures "numbers" in selection && selection["numbers"].NumberList?
    ensures n in CoveredNumbers(t, selection).value <==> n in selection["numbers"].ns
  {
    hide Figures;
    assert CoveredNumbers(t, selection).value == ElementsOf(selection["numbers"].ns);
  }

  /** The outside bets, number by number.  The colours follow the rule of the wheel: odd numbers are red
      up to 10 and from 19 to 28, and even ones elsewhere. */
  lemma {:induction false} OutsideBets(n: int)
    requires 0 <= n < POCKET_COUNT
    ensures n in CoveredNumbers(Red, map[]).value <==>
            n != 0 && (n % 2 == 1 <==> 1 <= n <= 10 || 19 <= n <= 28)
    ensures n in CoveredNumbers(Black, map[]).value <==>
            n != 0 && (n % 2 == 0 <==> 1 <= n <= 10 || 19 <= n <= 28)
    ensures n in CoveredNumbers(Odd, map[]).value <==> n % 2 == 1
    ensures n in CoveredNumbers(Even, map[]).value <==> n % 2 == 0 && n != 0
    ensures n in CoveredNumbers(Low, map[]).value <==> 1 <= n <= 18
    ensures n in CoveredNumbers(High, map[]).value <==> n >= 19
  {
    hide Interval;
    RedNumbers(n);
  }

  lemma RedNumbers(n: int)
    requires 0 <= n < POCKET_COUNT
    ensures n in RED_NUMBERS <==> n != 0 && (n % 2 == 1 <==> 1 <= n <= 10 || 19 <= n <= 28)
  {
  }

  /** The bets by index: the dozen and the grid row of a number; 0 has neither. */
  lemma {:induction false} IndexBets(selection: Selection, n: int)
    requires 0 <= n < POCKET_COUNT
    requires "index" in selection && selection["index"].Number? && 1 <= selection["index"].n <= 3
    ensures n in CoveredNumbers(Dozen, selection).value <==> n != 0 && (n - 1) / 12 + 1 == selection["index"].n
    ensures n in CoveredNumbers(BetType.Column, selection).value <==>
            n != 0 && Row(n, ROWS) == selection["index"].n
  {
    ColumnIsRow(selection["index"].n, ROWS, COLS, n);
  }
}
