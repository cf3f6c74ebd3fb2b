/** Keyset pagination of the ledger and of the round history: one page query, the rule for
    `next_cursor`, and what a reader collects who follows the cursors while rows are inserted. */
module Paging {
  import opened Wrappers

  /** What the query looks at; ids are unique in a table. */
  datatype Row = Row(owner: nat, createdAt: int, id: nat)

  datatype Cursor = Cursor(createdAt: int, id: nat)

  datatype Page = Page(items: seq<Row>, nextCursor: Option<Cursor>)

  /** (created_at, id) of a row below the cursor's. */
  predicate Below(r: Row, cursor: Cursor) {
    r.createdAt < cursor.createdAt || (r.createdAt == cursor.createdAt && r.id < cursor.id)
  }

  predicate Matches(r: Row, owner: nat, cursor: Option<Cursor>) {
    r.owner == owner && (cursor.Some? ==> Below(r, cursor.value))
  }

  function CursorOf(r: Row): Cursor {
    Cursor(r.createdAt, r.id)
  }

  ghost predicate UniqueIds(table: set<Row>) {
    forall r, s :: r in table && s in table && r.id == s.id ==> r == s
  }

  /** Newest first, strictly; among rows of one moment the larger id first. */
  predicate Descending(rows: seq<Row>) {
    forall i, j :: 0 <= i < j < |rows| ==>
      rows[i].createdAt > rows[j].createdAt || (rows[i].createdAt == rows[j].createdAt && rows[i].id > rows[j].id)
  }

  /** WHERE owner AND below the cursor ORDER BY created_at DESC, id DESC LIMIT n. */
  ghost predicate IsPage(table: set<Row>, owner: nat, cursor: Option<Cursor>, limit: nat, rows: seq<Row>) {
    && |rows| <= limit && Descending(rows)
    && (forall r :: r in rows ==> r in table && Matches(r, owner, cursor))
    && forall r :: r in table && Matches(r, owner, cursor) && r !in rows ==>
         |rows| == limit && forall s :: s in rows ==> Below(r, CursorOf(s))
  }

  lemma BelowTransitive(a: Row, b: Row, c: Cursor)
    requires Below(a, CursorOf(b)) && Below(b, c)
    ensures Below(a, c)
  {
  }

  lemma {:induction false} NewestExists(candidates: set<Row>)
    requires candidates != {} && UniqueIds(candidates)
    ensures exists top :: top in candidates && forall r :: r in candidates && r != top ==> Below(r, CursorOf(top))
  {
    var r :| r in candidates;
    var rest := candidates - {r};
    if rest == {} {
      assert candidates == {r};
    } else {
      NewestExists(rest);
      var top :| top in rest && forall x :: x in rest && x != top ==> Below(x, CursorOf(top));
      var best := if Below(r, CursorOf(top)) then top else r;
      assert r.id != top.id;
      forall x | x in candidates && x != best ensures Below(x, CursorOf(best)) {
        assert x == r || x in rest;
      }
    }
  }

  lemma OlderLast(rows: seq<Row>, r: Row)
    requires Descending(rows) && forall s :: s in rows ==> Below(r, CursorOf(s))
    ensures Descending(rows + [r])
  {
    forall i | 0 <= i < |rows| ensures Below(r, CursorOf(rows[i])) {
      assert rows[i] in rows;
    }
  }

  lemma NoRows()
    ensures Descending([])
  {
  }

  /** `list_by_wallet` and `list_by_user`. */
  method Query(table: set<Row>, owner: nat, cursor: Option<Cursor>, limit: nat) returns (rows: seq<Row>)
    requires UniqueIds(table)
    ensures IsPage(table, owner, cursor, limit, rows)
  {
    hide Descending, Below;
    NoRows();
    var candidates := set r | r in table && Matches(r, owner, cursor);
    rows := [];
    while |rows| < limit && candidates != {}
      invariant |rows| <= limit && Descending(rows) && candidates <= table
      invariant forall r :: r in rows ==> r in table && Matches(r, owner, cursor) && r !in candidates
      invariant forall r :: r in table && Matches(r, owner, cursor) ==> r in candidates || r in rows
      invariant forall r, s :: r in candidates && s in rows ==> Below(r, CursorOf(s))
      decreases candidates
    {
      NewestExists(candidates);
      var top :| top in candidates && forall r :: r in candidates && r != top ==> Below(r, CursorOf(top));
      OlderLast(rows, top);
      rows := rows + [top];
      candidates := candidates - {top};
    }
  }

  /** The query has one answer. */
  lemma {:induction false} PageUnique(table: set<Row>, owner: nat, cursor: Option<Cursor>, limit: nat, a: seq<Row>,
                                      b: seq<Row>)
    requires IsPage(table, owner, cursor, limit, a) && IsPage(table, owner, cursor, limit, b)
    ensures a == b
  {
    SameLength(table, owner, cursor, limit, a, b);
    SameLength(table, owner, cursor, limit, b, a);
    PrefixesAgree(table, owner, cursor, limit, a, b, |a|);
    assert a == a[..|a|] && b == b[..|a|];
  }

  lemma {:induction false} PrefixesAgree(table: set<Row>, owner: nat, cursor: Option<Cursor>, limit: nat,
                                         a: seq<Row>, b: seq<Row>, n: nat)
    requires IsPage(table, owner, cursor, limit, a) && IsPage(table, owner, cursor, limit, b)
    requires |a| == |b| && n <= |a|
    ensures a[..n] == b[..n]
  {
    if n > 0 {
      PrefixesAgree(table, owner, cursor, limit, a, b, n - 1);
      HeadOfRest(table, owner, cursor, limit, a, b, n - 1);
      HeadOfRest(table, owner, cursor, limit, b, a, n - 1);
      assert a[..n] == a[..n - 1] + [a[n - 1]] && b[..n] == b[..n - 1] + [b[n - 1]];
    }
  }

  /** The next row of one answer is not newer than the next row of another. */
  lemma HeadOfRest(table: set<Row>, owner: nat, cursor: Option<Cursor>, limit: nat, a: seq<Row>, b: seq<Row>, n: nat)
    requires IsPage(table, owner, cursor, limit, a) && IsPage(table, owner, cursor, limit, b)
    requires |a| == |b| && n < |a| && a[..n] == b[..n]
    ensures a[n] == b[n] || Below(a[n], CursorOf(b[n]))
  {
    assert forall k :: 0 <= k < n ==> a[k] == a[..n][k] && b[k] == b[..n][k];
    if a[n] in b {
      var i :| 0 <= i < |b| && b[i] == a[n];
      assert i >= n;
    } else {
      assert b[n] in b;
    }
  }

  /** An answer that is shorter than another would have left a row out. */
  lemma SameLength(table: set<Row>, owner: nat, cursor: Option<Cursor>, limit: nat, a: seq<Row>, b: seq<Row>)
    requires IsPage(table, owner, cursor, limit, a) && IsPage(table, owner, cursor, limit, b)
    ensures |b| <= |a|
  {
    if |a| < |b| {
      forall r | r in b ensures r in a {
      }
      DistinctRows(a);
      DistinctRows(b);
      SubsetSize(RowSet(b), RowSet(a));
    }
  }

  function RowSet(rows: seq<Row>): set<Row> {
    set r | r in rows
  }

  lemma SubsetSize(part: set<Row>, all: set<Row>)
    requires part <= all
    ensures |part| <= |all|
  {
    assert all == part + (all - part);
  }

  lemma {:induction false} DistinctRows(rows: seq<Row>)
    requires Descending(rows)
    ensures |RowSet(rows)| == |rows|
  {
    if rows == [] {
      assert RowSet(rows) == {};
    } else {
      var n := |rows| - 1;
      DistinctRows(rows[..n]);
      assert rows[n] !in rows[..n];
      assert RowSet(rows) == RowSet(rows[..n]) + {rows[n]};
    }
  }

  /** `list_transactions`: there is a next page exactly when this one is full. */
  method List(table: set<Row>, owner: nat, cursor: Option<Cursor>, limit: nat) returns (page: Page)
    requires UniqueIds(table) && limit >= 1
    ensures IsPage(table, owner, cursor, limit, page.items) && page.nextCursor == NextCursor(page.items, limit)
    ensures |page.items| < limit ==> page.nextCursor == None
    ensures |page.items| == limit ==>
              var last := page.items[limit - 1]; page.nextCursor == Some(Cursor(last.createdAt, last.id))
  {
    var rows := Query(table, owner, cursor, limit);
    page := Page(rows, if |rows| == limit then Some(CursorOf(rows[|rows| - 1])) else None);
  }

  function NextCursor(rows: seq<Row>, limit: nat): Option<Cursor>
    requires limit >= 1
  {
    if |rows| == limit then Some(CursorOf(rows[|rows| - 1])) else None
  }

  // ------------------------------------------------------------ following the cursors

  /** The cursor the last of these pages was asked for with. */
  function CursorBefore(pages: seq<seq<Row>>, limit: nat): Option<Cursor>
    requires limit >= 1 && pages != []
  {
    if |pages| == 1 then None else NextCursor(pages[|pages| - 2], limit)
  }

  /** The pages a reader has got by following `next_cursor`.  Page i is read from table i, and any
      rows may have been inserted between two reads. */
  ghost predicate IsWalk(tables: seq<set<Row>>, owner: nat, limit: nat, pages: seq<seq<Row>>)
    requires limit >= 1
    decreases |pages|
  {
    && pages != [] && |tables| == |pages|
    && (var n := |pages| - 1;
        && (n > 0 ==>
              && IsWalk(tables[..n], owner, limit, pages[..n])
              && tables[n - 1] <= tables[n] && NextCursor(pages[n - 1], limit).Some?)
        && IsPage(tables[n], owner, CursorBefore(pages, limit), limit, pages[n]))
  }

  function Flatten(pages: seq<seq<Row>>): seq<Row> {
    if pages == [] then [] else Flatten(pages[..|pages| - 1]) + pages[|pages| - 1]
  }

  /** Everything a walk has passed: strictly descending, and nothing of the first table above the
      last cursor is missing. */
  ghost predicate Passed(first: set<Row>, owner: nat, cursor: Option<Cursor>, rows: seq<Row>) {
    && Descending(rows)
    && (cursor.Some? ==> forall r :: r in rows ==> !Below(r, cursor.value))
    && (cursor.None? ==> rows == [])
    && forall r :: r in first && r.owner == owner && !Matches(r, owner, cursor) ==> r in rows
  }

  /** One more page. */
  lemma PassPage(first: set<Row>, table: set<Row>, owner: nat, cursor: Option<Cursor>, limit: nat, rows: seq<Row>,
                 page: seq<Row>)
    requires limit >= 1 && first <= table && Passed(first, owner, cursor, rows)
             && IsPage(table, owner, cursor, limit, page)
    ensures Descending(rows + page)
    ensures NextCursor(page, limit).Some? ==> Passed(first, owner, NextCursor(page, limit), rows + page)
    ensures NextCursor(page, limit).None? ==> forall r :: r in first && r.owner == owner ==> r in rows + page
  {
    var all := rows + page;
    forall i, j | 0 <= i < j < |all| ensures Below(all[j], CursorOf(all[i])) {
      if i < |rows| <= j {
        assert all[i] in rows && all[j] in page;
      }
    }
    if |page| == limit {
      PassedBelow(first, table, owner, cursor, limit, rows, page);
    }
  }

  lemma PassedBelow(first: set<Row>, table: set<Row>, owner: nat, cursor: Option<Cursor>, limit: nat, rows: seq<Row>,
                    page: seq<Row>)
    requires limit >= 1 && first <= table && Passed(first, owner, cursor, rows)
             && IsPage(table, owner, cursor, limit, page)
    requires |page| == limit && Descending(rows + page)
    ensures Passed(first, owner, NextCursor(page, limit), rows + page)
  {
    var last := page[|page| - 1];
    var all := rows + page;
    assert all[|all| - 1] == last;
    forall r | r in all ensures r == last || Below(last, CursorOf(r)) {
      var i :| 0 <= i < |all| && all[i] == r;
    }
    assert last in page;
    assert forall r :: r in first && Matches(r, owner, cursor) ==> r in page || Below(r, CursorOf(last));
  }

  lemma {:induction false} WalkGrows(tables: seq<set<Row>>, owner: nat, limit: nat, pages: seq<seq<Row>>)
    requires limit >= 1 && IsWalk(tables, owner, limit, pages)
    ensures tables[0] <= tables[|tables| - 1]
  {
    var n := |pages| - 1;
    if n > 0 {
      WalkGrows(tables[..n], owner, limit, pages[..n]);
    }
  }

  lemma NothingPassed(first: set<Row>, owner: nat)
    ensures Passed(first, owner, None, [])
  {
  }

  lemma {:induction false} WalkPassed(tables: seq<set<Row>>, owner: nat, limit: nat, pages: seq<seq<Row>>)
    requires limit >= 1 && IsWalk(tables, owner, limit, pages)
    ensures Passed(tables[0], owner, CursorBefore(pages, limit), Flatten(pages[..|pages| - 1]))
  {
    hide Passed, IsPage;
    var n := |pages| - 1;
    if n == 0 {
      NothingPassed(tables[0], owner);
    } else {
      WalkPassed(tables[..n], owner, limit, pages[..n]);
      WalkGrows(tables[..n], owner, limit, pages[..n]);
      assert pages[..n][..n - 1] == pages[..n - 1];
      PassPage(tables[0], tables[n - 1], owner, CursorBefore(pages[..n], limit), limit, Flatten(pages[..n - 1]),
               pages[n - 1]);
    }
  }

  /** A walk that reached a page without a cursor: whatever rows were inserted between the pages,
      it went strictly downwards, so it saw no row twice, and it saw every row that was there when
      it began. */
  lemma WalkComplete(tables: seq<set<Row>>, owner: nat, limit: nat, pages: seq<seq<Row>>)
    requires limit >= 1 && IsWalk(tables, owner, limit, pages)
    requires NextCursor(pages[|pages| - 1], limit).None?
    ensures var rows := Flatten(pages);
            && Descending(rows)
            && multiset(rows) <= multiset(RowSet(rows))
            && (forall r :: r in tables[0] && r.owner == owner ==> r in rows)
            && forall r :: r in rows ==> r in tables[|tables| - 1] && r.owner == owner
  {
    hide Passed, IsPage, Descending;
    var n := |pages| - 1;
    WalkPassed(tables, owner, limit, pages);
    WalkGrows(tables, owner, limit, pages);
    PassPage(tables[0], tables[n], owner, CursorBefore(pages, limit), limit, Flatten(pages[..n]), pages[n]);
    OnlyOwnRows(tables, owner, limit, pages);
    OnceEach(Flatten(pages));
  }

  lemma {:induction false} OnlyOwnRows(tables: seq<set<Row>>, owner: nat, limit: nat, pages: seq<seq<Row>>)
    requires limit >= 1 && IsWalk(tables, owner, limit, pages)
    ensures forall r :: r in Flatten(pages) ==> r in tables[|tables| - 1] && r.owner == owner
  {
    var n := |pages| - 1;
    if n > 0 {
      OnlyOwnRows(tables[..n], owner, limit, pages[..n]);
    } else {
      assert Flatten(pages[..0]) == [];
    }
  }

  lemma {:induction false} OnceEach(rows: seq<Row>)
    requires Descending(rows)
    ensures multiset(rows) <= multiset(RowSet(rows))
  {
    if rows != [] {
      var n := |rows| - 1;
      OnceEach(rows[..n]);
      assert rows == rows[..n] + [rows[n]];
      assert rows[n] !in rows[..n];
      assert RowSet(rows) == RowSet(rows[..n]) + {rows[n]};
    }
  }

  /** The rows a cursor has not passed yet. */
  function Remaining(table: set<Row>, owner: nat, cursor: Option<Cursor>): set<Row> {
    set r | r in table && Matches(r, owner, cursor)
  }

  lemma PageShrinks(table: set<Row>, owner: nat, cursor: Option<Cursor>, limit: nat, page: seq<Row>)
    requires limit >= 1 && IsPage(table, owner, cursor, limit, page) && |page| == limit
    ensures Remaining(table, owner, NextCursor(page, limit)) < Remaining(table, owner, cursor)
  {
    var last := page[|page| - 1];
    assert last in page;
    forall r | r in Remaining(table, owner, Some(CursorOf(last))) ensures r in Remaining(table, owner, cursor) {
      if cursor.Some? {
        BelowTransitive(r, last, cursor.value);
      }
    }
    assert last in Remaining(table, owner, cursor) && last !in Remaining(table, owner, Some(CursorOf(last)));
  }

  /** On a table nobody writes to, following the cursors ends, with exactly the owner's rows, newest
      first. */
  method ReadAll(table: set<Row>, owner: nat, limit: nat) returns (rows: seq<Row>)
    requires UniqueIds(table) && limit >= 1
    ensures Descending(rows) && forall r :: r in rows <==> r in table && r.owner == owner
  {
    rows := [];
    var cursor := None;
    var more := true;
    while more
      invariant more ==> Passed(table, owner, cursor, rows)
      invariant Descending(rows) && forall r :: r in rows ==> r in table && r.owner == owner
      invariant !more ==> forall r :: r in table && r.owner == owner ==> r in rows
      decreases if more then 1 else 0, Remaining(table, owner, cursor)
    {
      var page := List(table, owner, cursor, limit);
      PassPage(table, table, owner, cursor, limit, rows, page.items);
      if page.nextCursor.Some? {
        PageShrinks(table, owner, cursor, limit, page.items);
        cursor := page.nextCursor;
      } else {
        more := false;
      }
      rows := rows + page.items;
    }
  }
}
