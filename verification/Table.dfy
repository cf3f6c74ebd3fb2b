/** Table geometry: every figure of the table is derived from a grid of numbers.
    The grid has `rows` x `cols` cells; the real table is 3 x 12. */
module Table {
  import opened Arithmetic

  const ROWS: nat := 3
  const COLS: nat := 12
  const POCKET_COUNT: nat := 37

  function Row(n: int, rows: nat): int
    requires rows >= 1
  {
    (n - 1) % rows + 1
  }

  function Col(n: int, rows: nat): int
    requires rows >= 1
  {
    (n - 1) / rows + 1
  }

  function NumberAt(row: int, col: int, rows: nat): int {
    (col - 1) * rows + row
  }

  predicate OnGrid(n: int, rows: nat, cols: nat) {
    1 <= n <= rows * cols
  }

  /** `_position` and `_number_at` are inverse, and map grid cells to grid numbers. */
  lemma {:induction false} NumberAtPosition(n: int, rows: nat, cols: nat)
    requires rows >= 1 && OnGrid(n, rows, cols)
    ensures 1 <= Row(n, rows) <= rows && 1 <= Col(n, rows) <= cols
    ensures NumberAt(Row(n, rows), Col(n, rows), rows) == n
  {
    var q := (n - 1) / rows;
    assert n - 1 == q * rows + (n - 1) % rows;
    assert cols * rows == rows * cols;
    if q >= cols {
      MulMonotone(cols, q, rows);
      assert false;
    }
  }

  lemma {:induction false} PositionOfNumber(row: int, col: int, rows: nat, cols: nat)
    requires 1 <= row <= rows && 1 <= col <= cols
    ensures OnGrid(NumberAt(row, col, rows), rows, cols)
    ensures Row(NumberAt(row, col, rows), rows) == row && Col(NumberAt(row, col, rows), rows) == col
  {
    MulMonotone(0, col - 1, rows);
    MulMonotone(col, cols, rows);
    assert (col - 1) * rows + rows == col * rows;
    assert cols * rows == rows * cols;
    DivModUnique(NumberAt(row, col, rows) - 1, rows, col - 1, row - 1);
  }

  // ------------------------------------------------------------ figures

  /** One grid column: `rows` consecutive numbers. */
  function Street(col: int, rows: nat): set<int> {
    set r | 1 <= r <= rows :: NumberAt(r, col, rows)
  }

  /** One grid row. */
  function Column(row: int, rows: nat, cols: nat): set<int> {
    set c | 1 <= c <= cols :: NumberAt(row, c, rows)
  }

  function Corner(row: int, col: int, rows: nat): set<int> {
    {NumberAt(row, col, rows), NumberAt(row + 1, col, rows),
     NumberAt(row, col + 1, rows), NumberAt(row + 1, col + 1, rows)}
  }

  function Streets(rows: nat, cols: nat): seq<set<int>> {
    seq(cols, c => Street(c + 1, rows))
  }

  function Columns(rows: nat, cols: nat): seq<set<int>> {
    seq(rows, r => Column(r + 1, rows, cols))
  }

  /** The comprehension runs over c, and for each c over r. */
  function Corners(rows: nat, cols: nat): seq<set<int>>
    decreases cols
  {
    if rows <= 1 || cols <= 1 then []
    else Corners(rows, cols - 1) + seq(rows - 1, r => Corner(r + 1, cols - 1, rows))
  }

  function Lines(rows: nat, cols: nat): seq<set<int>> {
    if cols <= 1 then [] else seq(cols - 1, c => Street(c + 1, rows) + Street(c + 2, rows))
  }

  /** Two cells that share a side. */
  predicate Neighbours(a: int, b: int, rows: nat, cols: nat)
    requires rows >= 1
  {
    && OnGrid(a, rows, cols) && OnGrid(b, rows, cols)
    && ((Col(a, rows) == Col(b, rows) && (Row(a, rows) - Row(b, rows) == 1 || Row(b, rows) - Row(a, rows) == 1))
        || (Row(a, rows) == Row(b, rows) && (Col(a, rows) - Col(b, rows) == 1 || Col(b, rows) - Col(a, rows) == 1)))
  }

  ghost predicate IsSplit(s: set<int>, rows: nat, cols: nat)
    requires rows >= 1
  {
    exists a, b :: Neighbours(a, b, rows, cols) && s == {a, b}
  }

  /** The splits `_splits` adds when it visits `n`. */
  predicate SplitFrom(s: set<int>, n: int, rows: nat, cols: nat)
    requires rows >= 1
  {
    || (Col(n, rows) < cols && s == {n, NumberAt(Row(n, rows), Col(n, rows) + 1, rows)})
    || (Row(n, rows) < rows && s == {n, NumberAt(Row(n, rows) + 1, Col(n, rows), rows)})
  }

  lemma {:induction false} NextNumbers(n: int, rows: nat, cols: nat)
    requires rows >= 1 && OnGrid(n, rows, cols)
    ensures NumberAt(Row(n, rows), Col(n, rows) + 1, rows) == n + rows
    ensures NumberAt(Row(n, rows) + 1, Col(n, rows), rows) == n + 1
    ensures Col(n, rows) < cols ==>
              && OnGrid(n + rows, rows, cols) && Row(n + rows, rows) == Row(n, rows)
              && Col(n + rows, rows) == Col(n, rows) + 1
    ensures Row(n, rows) < rows ==>
              OnGrid(n + 1, rows, cols) && Row(n + 1, rows) == Row(n, rows) + 1 && Col(n + 1, rows) == Col(n, rows)
  {
    var r, c := Row(n, rows), Col(n, rows);
    NumberAtPosition(n, rows, cols);
    assert c * rows == (c - 1) * rows + rows;
    if c < cols {
      PositionOfNumber(r, c + 1, rows, cols);
    }
    if r < rows {
      PositionOfNumber(r + 1, c, rows, cols);
    }
  }

  /** A pair of neighbours is added exactly when its smaller number is visited. */
  lemma {:induction false} SplitIffFrom(s: set<int>, rows: nat, cols: nat)
    requires rows >= 1
    ensures IsSplit(s, rows, cols) <==> exists n :: OnGrid(n, rows, cols) && SplitFrom(s, n, rows, cols)
  {
    if n :| OnGrid(n, rows, cols) && SplitFrom(s, n, rows, cols) {
      NextNumbers(n, rows, cols);
      if s == {n, n + rows} && Col(n, rows) < cols {
        assert Neighbours(n, n + rows, rows, cols);
      } else {
        assert Neighbours(n, n + 1, rows, cols);
      }
    }
    if a, b :| Neighbours(a, b, rows, cols) && s == {a, b} {
      NumberAtPosition(a, rows, cols);
      NumberAtPosition(b, rows, cols);
      if Row(a, rows) < Row(b, rows) || Col(a, rows) < Col(b, rows) {
        assert SplitFrom(s, a, rows, cols);
      } else {
        assert s == {b, a};
        assert SplitFrom(s, b, rows, cols);
      }
    }
  }

  function SplitsAt(n: int, rows: nat, cols: nat): seq<set<int>>
    requires rows >= 1
  {
    var r, c := Row(n, rows), Col(n, rows);
    (if c < cols then [{n, NumberAt(r, c + 1, rows)}] else [])
    + (if r < rows then [{n, NumberAt(r + 1, c, rows)}] else [])
  }

  /** The splits added while visiting 1..n. */
  function SplitsUpTo(n: nat, rows: nat, cols: nat): seq<set<int>>
    requires rows >= 1
  {
    if n == 0 then [] else SplitsUpTo(n - 1, rows, cols) + SplitsAt(n, rows, cols)
  }

  function SplitList(rows: nat, cols: nat): seq<set<int>>
    requires rows >= 1
  {
    SplitsUpTo(rows * cols, rows, cols)
  }

  /** `_splits`. */
  method Splits(rows: nat, cols: nat) returns (splits: seq<set<int>>)
    requires rows >= 1
    ensures splits == SplitList(rows, cols)
    ensures forall s :: s in splits <==> IsSplit(s, rows, cols)
    ensures Distinct(splits)
  {
    hide Row, Col, NumberAt, IsSplit, Distinct;
    splits := [];
    for n := 1 to rows * cols + 1
      invariant splits == SplitsUpTo(n - 1, rows, cols)
    {
      var r, c := Row(n, rows), Col(n, rows);
      if c < cols {
        splits := splits + [{n, NumberAt(r, c + 1, rows)}];
      }
      if r < rows {
        splits := splits + [{n, NumberAt(r + 1, c, rows)}];
      }
    }
    SplitListIsAllSplits(rows, cols);
    SplitsDistinct(rows * cols, rows, cols);
  }

  lemma {:induction false} SplitsMembers(n: nat, rows: nat, cols: nat, s: set<int>)
    requires rows >= 1 && n <= rows * cols
    ensures s in SplitsUpTo(n, rows, cols) <==> exists k :: 1 <= k <= n && SplitFrom(s, k, rows, cols)
  {
    if n > 0 {
      SplitsMembers(n - 1, rows, cols, s);
      assert s in SplitsAt(n, rows, cols) <==> SplitFrom(s, n, rows, cols);
    }
  }

  /** `_splits` lists exactly the pairs of cells that share a side. */
  lemma {:induction false} SplitListIsAllSplits(rows: nat, cols: nat)
    requires rows >= 1
    ensures forall s :: s in SplitList(rows, cols) <==> IsSplit(s, rows, cols)
  {
    forall s ensures s in SplitList(rows, cols) <==> IsSplit(s, rows, cols) {
      SplitsMembers(rows * cols, rows, cols, s);
      SplitIffFrom(s, rows, cols);
    }
  }

  /** A split added at n has n as its smaller number. */
  lemma {:induction false} SplitMinimum(s: set<int>, n: int, rows: nat, cols: nat)
    requires rows >= 1 && OnGrid(n, rows, cols) && SplitFrom(s, n, rows, cols)
    ensures n in s && forall m :: m in s ==> m >= n
  {
    NextNumbers(n, rows, cols);
  }

  lemma SplitsAtDistinct(n: int, rows: nat, cols: nat)
    requires rows >= 1 && OnGrid(n, rows, cols)
    ensures var here := SplitsAt(n, rows, cols);
            && Distinct(here)
            && forall j :: 0 <= j < |here| ==> SplitFrom(here[j], n, rows, cols)
  {
    NextNumbers(n, rows, cols);
    NumberAtPosition(n, rows, cols);
    var here := SplitsAt(n, rows, cols);
    if |here| == 2 {
      assert rows >= 2 && n + rows in here[0] && n + rows !in here[1];
    }
  }

  predicate Distinct(splits: seq<set<int>>) {
    forall i, j :: 0 <= i < j < |splits| ==> splits[i] != splits[j]
  }

  lemma DistinctConcat(a: seq<set<int>>, b: seq<set<int>>)
    requires Distinct(a) && Distinct(b)
    requires forall i, j :: 0 <= i < |a| && 0 <= j < |b| ==> a[i] != b[j]
    ensures Distinct(a + b)
  {
    var all := a + b;
    forall i, j | 0 <= i < j < |all| ensures all[i] != all[j] {
      if j < |a| {
        assert all[i] == a[i] && all[j] == a[j];
      } else if i < |a| {
        assert all[i] == a[i] && all[j] == b[j - |a|];
      } else {
        assert all[i] == b[i - |a|] && all[j] == b[j - |a|];
      }
    }
  }

  /** ... each of them once. */
  lemma {:induction false} SplitsDistinct(n: nat, rows: nat, cols: nat)
    requires rows >= 1 && n <= rows * cols
    ensures Distinct(SplitsUpTo(n, rows, cols))
  {
    hide SplitsAt, SplitFrom, OnGrid;
    if n > 0 {
      var before, here := SplitsUpTo(n - 1, rows, cols), SplitsAt(n, rows, cols);
      NumberOnGrid(n, rows, cols);
      SplitsDistinct(n - 1, rows, cols);
      SplitsAtDistinct(n, rows, cols);
      forall i, j | 0 <= i < |before| && 0 <= j < |here| ensures before[i] != here[j] {
        EarlierSplit(n, before[i], here[j], rows, cols);
      }
      DistinctConcat(before, here);
    }
  }

  lemma NumberOnGrid(n: int, rows: nat, cols: nat)
    ensures OnGrid(n, rows, cols) <==> 1 <= n <= rows * cols
  {
  }

  lemma {:induction false} EarlierSplit(n: nat, s: set<int>, t: set<int>, rows: nat, cols: nat)
    requires rows >= 1 && OnGrid(n, rows, cols)
    requires s in SplitsUpTo(n - 1, rows, cols) && SplitFrom(t, n, rows, cols)
    ensures s != t
  {
    SplitsMembers(n - 1, rows, cols, s);
    var k :| 1 <= k <= n - 1 && SplitFrom(s, k, rows, cols);
    SplitMinimum(s, k, rows, cols);
    SplitMinimum(t, n, rows, cols);
  }

  lemma {:induction false} ColBelow(n: int, rows: nat, cols: nat)
    requires rows >= 1 && cols >= 1 && OnGrid(n, rows, cols)
    ensures Col(n, rows) < cols <==> n <= rows * (cols - 1)
  {
    NumberAtPosition(n, rows, cols);
    var r, c := Row(n, rows), Col(n, rows);
    assert n == (c - 1) * rows + r && (c - 1) * rows + rows == c * rows;
    assert rows * (cols - 1) == (cols - 1) * rows;
    if c < cols {
      MulMonotone(c, cols - 1, rows);
    }
  }

  lemma {:induction false} RowBelow(n: int, rows: nat, cols: nat)
    requires rows >= 1 && OnGrid(n, rows, cols)
    ensures n / rows == (n - 1) / rows + if Row(n, rows) < rows then 0 else 1
  {
    var q, m := (n - 1) / rows, (n - 1) % rows;
    assert n - 1 == q * rows + m && (q + 1) * rows == q * rows + rows;
    if m + 1 < rows {
      DivModUnique(n, rows, q, m + 1);
    } else {
      DivModUnique(n, rows, q + 1, 0);
    }
  }

  lemma {:induction false} SplitsCount(n: nat, rows: nat, cols: nat)
    requires rows >= 1 && cols >= 1 && n <= rows * cols
    ensures |SplitsUpTo(n, rows, cols)|
            == (if n <= rows * (cols - 1) then n else rows * (cols - 1)) + n - n / rows
  {
    if n == 0 {
      DivModUnique(0, rows, 0, 0);
    } else {
      SplitsCount(n - 1, rows, cols);
      ColBelow(n, rows, cols);
      RowBelow(n, rows, cols);
    }
  }

  /** There are R(C-1) + C(R-1) of them. */
  lemma {:induction false} SplitListSize(rows: nat, cols: nat)
    requires rows >= 1 && cols >= 1
    ensures |SplitList(rows, cols)| == rows * (cols - 1) + cols * (rows - 1)
  {
    Distribute(rows, cols);
    SplitsCount(rows * cols, rows, cols);
    DivModUnique(rows * cols, rows, cols, 0);
  }

  lemma Distribute(rows: nat, cols: nat)
    ensures rows * (cols - 1) == rows * cols - rows && cols * (rows - 1) == rows * cols - cols
    ensures rows * cols == cols * rows
  {
  }

  // ------------------------------------------------------------ corners, streets and lines

  lemma {:induction false} CornerMembers(s: set<int>, rows: nat, cols: nat)
    ensures s in Corners(rows, cols) <==> exists r, c :: 1 <= r < rows && 1 <= c < cols && s == Corner(r, c, rows)
  {
    hide Corner;
    if rows > 1 && cols > 1 {
      CornerMembers(s, rows, cols - 1);
      var last := seq(rows - 1, r => Corner(r + 1, cols - 1, rows));
      if s in last {
        var i :| 0 <= i < |last| && last[i] == s;
        assert s == Corner(i + 1, cols - 1, rows);
      }
      if r, c :| 1 <= r < rows && 1 <= c < cols && s == Corner(r, c, rows) {
        if c == cols - 1 {
          assert last[r - 1] == s;
        }
      }
    }
  }

  /** The numbers of a corner, counted from its lowest cell. */
  lemma CornerNumbers(row: int, col: int, rows: nat)
    ensures var n := NumberAt(row, col, rows);
            Corner(row, col, rows) == {n, n + 1, n + rows, n + rows + 1}
  {
    assert (col + 1 - 1) * rows == (col - 1) * rows + rows;
  }

  /** A corner is the 2x2 block at its lowest cell: the grid numbers in two adjacent rows and two
      adjacent columns. */
  lemma {:induction false} CornerIsBlock(row: int, col: int, rows: nat, cols: nat, n: int)
    requires 1 <= row < rows && 1 <= col < cols
    ensures n in Corner(row, col, rows) <==>
            OnGrid(n, rows, cols) && row <= Row(n, rows) <= row + 1 && col <= Col(n, rows) <= col + 1
  {
    hide NumberAt, Row, Col, OnGrid;
    PositionOfNumber(row, col, rows, cols);
    PositionOfNumber(row + 1, col, rows, cols);
    PositionOfNumber(row, col + 1, rows, cols);
    PositionOfNumber(row + 1, col + 1, rows, cols);
    if OnGrid(n, rows, cols) {
      NumberAtPosition(n, rows, cols);
    }
  }

  /** ... and has four numbers. */
  lemma CornerSize(row: int, col: int, rows: nat)
    requires rows >= 2
    ensures |Corner(row, col, rows)| == 4
  {
    CornerNumbers(row, col, rows);
    FourNumbers(NumberAt(row, col, rows), rows);
    hide Corner, NumberAt;
  }

  lemma FourNumbers(n: int, rows: nat)
    requires rows >= 2
    ensures |{n, n + 1, n + rows, n + rows + 1}| == 4
  {
    assert {n, n + 1, n + rows, n + rows + 1} == {n, n + 1} + {n + rows, n + rows + 1};
  }

  /** A street holds exactly the grid numbers of one grid column. */
  lemma {:induction false} StreetIsColumn(col: int, rows: nat, cols: nat, n: int)
    requires rows >= 1 && 1 <= col <= cols
    ensures n in Street(col, rows) <==> OnGrid(n, rows, cols) && Col(n, rows) == col
  {
    if OnGrid(n, rows, cols) {
      NumberAtPosition(n, rows, cols);
    }
    if n in Street(col, rows) {
      var r :| 1 <= r <= rows && n == NumberAt(r, col, rows);
      PositionOfNumber(r, col, rows, cols);
    }
  }

  /** A betting column holds exactly the grid numbers of one grid row. */
  lemma {:induction false} ColumnIsRow(row: int, rows: nat, cols: nat, n: int)
    requires 1 <= row <= rows
    ensures n in Column(row, rows, cols) <==> OnGrid(n, rows, cols) && Row(n, rows) == row
  {
    if OnGrid(n, rows, cols) {
      NumberAtPosition(n, rows, cols);
    }
    if n in Column(row, rows, cols) {
      var c :| 1 <= c <= cols && n == NumberAt(row, c, rows);
      PositionOfNumber(row, c, rows, cols);
    }
  }

  /** A line holds exactly the grid numbers of two adjacent grid columns. */
  lemma LineIsTwoStreets(i: nat, rows: nat, cols: nat, n: int)
    requires rows >= 1 && i + 1 < cols
    ensures |Lines(rows, cols)| == cols - 1
    ensures n in Lines(rows, cols)[i] <==> OnGrid(n, rows, cols) && i + 1 <= Col(n, rows) <= i + 2
  {
    StreetIsColumn(i + 1, rows, cols, n);
    StreetIsColumn(i + 2, rows, cols, n);
  }
}
