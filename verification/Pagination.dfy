/**
 Keyset pagination of the transactions that match a filter. The listing order is timestamp descending,
 then id descending; a row without a timestamp sorts before all others, as the database does for
 descending order, and no cursor condition ever selects it.
 */
module Pagination {
  import opened Wrappers

  /** Ids are compared by a total order, here that of the integers. */
  datatype Row = Row(id: int, timestamp: Option<int>, date: int)

  datatype Cursor = Cursor(timestamp: int, id: int)

  datatype Page = Page(items: seq<Row>, total: nat, hasMore: bool, nextCursor: Option<Cursor>)

  predicate Before(a: Row, b: Row) {
    if a.timestamp.None? then b.timestamp.Some? || a.id > b.id
    else b.timestamp.Some?
         && (a.timestamp.value > b.timestamp.value || (a.timestamp.value == b.timestamp.value && a.id > b.id))
  }

  /** A table as its ORDER BY lists it: each row once. */
  ghost predicate Listed(rows: seq<Row>) {
    forall i, j :: 0 <= i < j < |rows| ==> Before(rows[i], rows[j])
  }

  predicate Below(row: Row, c: Cursor) {
    row.timestamp.Some? && (row.timestamp.value < c.timestamp || (row.timestamp.value == c.timestamp && row.id < c.id))
  }

  function Select(rows: seq<Row>, c: Cursor): (r: seq<Row>)
    ensures forall row :: row in r <==> row in rows && Below(row, c)
  {
    if rows == [] then []
    else (if Below(rows[0], c) then [rows[0]] else []) + Select(rows[1..], c)
  }

  function Matching(rows: seq<Row>, cursor: Option<Cursor>): seq<Row> {
    match cursor
    case None => rows
    case Some(c) => Select(rows, c)
  }

  /** The cursor after a row falls back to the row's date when it has no timestamp. */
  function CursorAfter(row: Row): Cursor {
    Cursor(row.timestamp.GetOr(row.date), row.id)
  }

  function ListWithCursor(table: seq<Row>, cursor: Option<Cursor>, limit: nat): Page
    requires 0 < limit
  {
    var matching := Matching(table, cursor);
    var rows := if |matching| <= limit + 1 then matching else matching[..limit + 1];
    var hasMore := |rows| > limit;
    var items := if hasMore then rows[..limit] else rows;
    Page(items, |table|, hasMore, if hasMore then Some(CursorAfter(items[limit - 1])) else None)
  }

  /** A client that follows nextCursor while the table may change between its pages: one table per
      page. The flag tells whether the last page was reached. */
  function Follow(tables: seq<seq<Row>>, cursor: Option<Cursor>, limit: nat): (seq<Row>, bool)
    requires 0 < limit
  {
    if tables == [] then ([], false)
    else
      var page := ListWithCursor(tables[0], cursor, limit);
      if page.nextCursor.None? then (page.items, true)
      else
        var (rest, finished) := Follow(tables[1..], page.nextCursor, limit);
        (page.items + rest, finished)
  }

  // ---------------------------------------------------------------------------------------------
  // Facts about the cursor condition
  // ---------------------------------------------------------------------------------------------

  lemma SelectListed(rows: seq<Row>, c: Cursor)
    requires Listed(rows)
    ensures Listed(Select(rows, c))
  {
    if rows != [] {
      SelectListed(rows[1..], c);
      var rest := Select(rows[1..], c);
      forall j | 0 <= j < |rest| ensures Before(rows[0], rest[j]) {
        assert rest[j] in rest;
        var k :| 0 <= k < |rows[1..]| && rows[1..][k] == rest[j];
        assert rows[k + 1] == rest[j];
      }
    }
  }

  lemma SelectSame(a: seq<Row>, b: seq<Row>)
    requires Listed(a) && Listed(b)
    requires forall row :: row in a <==> row in b
    ensures a == b
  {
    assert (a == [] || a[0] in a) && (b == [] || b[0] in b);
    if a != [] {
      assert a[0] in b && b != [];
      var i :| 0 <= i < |b| && b[i] == a[0];
      var j :| 0 <= j < |a| && a[j] == b[0];
      assert i == 0 && j == 0;
      forall row ensures row in a[1..] <==> row in b[1..] {
        if row in a[1..] { assert row in b; assert row != a[0] by { Irreflexive(a, row); } }
        if row in b[1..] { assert row in a; assert row != b[0] by { Irreflexive(b, row); } }
      }
      SelectSame(a[1..], b[1..]);
    }
  }

  lemma Irreflexive(rows: seq<Row>, row: Row)
    requires Listed(rows) && rows != [] && row in rows[1..]
    ensures row != rows[0]
  {
    var k :| 0 <= k < |rows[1..]| && rows[1..][k] == row;
    assert Before(rows[0], rows[k + 1]);
  }

  /** After a dated row, the cursor selects exactly the rows listed after it. */
  lemma SelectAfter(rows: seq<Row>, k: nat)
    requires Listed(rows) && k < |rows| && rows[k].timestamp.Some?
    ensures Select(rows, CursorAfter(rows[k])) == rows[k + 1..]
  {
    var c := CursorAfter(rows[k]);
    SelectListed(rows, c);
    forall row ensures row in Select(rows, c) <==> row in rows[k + 1..] {
      if row in rows && Below(row, c) {
        var i :| 0 <= i < |rows| && rows[i] == row;
        assert i > k;
        assert rows[k + 1..][i - k - 1] == row;
      }
      if row in rows[k + 1..] {
        var i :| 0 <= i < |rows[k + 1..]| && rows[k + 1..][i] == row;
        assert Before(rows[k], rows[k + 1 + i]);
      }
    }
    SelectSame(Select(rows, c), rows[k + 1..]);
  }

  lemma SelectTwice(rows: seq<Row>, c: Cursor, d: Cursor)
    requires forall row :: Below(row, d) ==> Below(row, c)
    ensures Select(Select(rows, c), d) == Select(rows, d)
  {
    if rows != [] {
      SelectTwice(rows[1..], c, d);
      var rest := Select(rows[1..], c);
      assert [] + rest == rest;
      if Below(rows[0], c) { assert ([rows[0]] + rest)[1..] == rest; }
    }
  }

  /** A page in terms of the rows its condition matches. */
  lemma PageShape(table: seq<Row>, cursor: Option<Cursor>, limit: nat)
    requires 0 < limit
    ensures var page, matching := ListWithCursor(table, cursor, limit), Matching(table, cursor);
            && (page.nextCursor.Some? <==> |matching| > limit)
            && page.items == (if |matching| > limit then matching[..limit] else matching)
            && (page.nextCursor.Some? ==> page.nextCursor.value == CursorAfter(matching[limit - 1]))
  {
    var matching := Matching(table, cursor);
    if |matching| > limit + 1 {
      assert matching[..limit + 1][..limit] == matching[..limit];
    }
  }

  lemma BelowFacts(last: Row, c: Cursor)
    requires Below(last, c)
    ensures last.timestamp.Some?
    ensures forall row :: Below(row, CursorAfter(last)) ==> Below(row, c)
  {
  }

  /** The rows left after a page that starts below a cursor. */
  lemma NextPage(table: seq<Row>, c: Cursor, limit: nat)
    requires Listed(table) && 0 < limit
    ensures var page := ListWithCursor(table, Some(c), limit);
            page.nextCursor.Some? ==>
              page.items + Select(table, page.nextCursor.value) == Select(table, c)
              && |Select(table, page.nextCursor.value)| < |Select(table, c)|
  {
    hide Select, Below, ListWithCursor, CursorAfter, Before;
    var below := Select(table, c);
    PageShape(table, Some(c), limit);
    if |below| > limit {
      var last := below[limit - 1];
      assert last in below;
      BelowFacts(last, c);
      SelectListed(table, c);
      SelectAfter(below, limit - 1);
      SelectTwice(table, c, CursorAfter(last));
      assert below[..limit] + below[limit..] == below;
    }
  }

  /** The rows below the cursor: older, or of the same time with a smaller id. Without a cursor all rows. */
  ghost function Wanted(table: seq<Row>, cursor: Option<Cursor>): set<Row> {
    set row | row in table
              && (cursor.None? || (row.timestamp.Some?
                                   && (row.timestamp.value < cursor.value.timestamp
                                       || (row.timestamp.value == cursor.value.timestamp && row.id < cursor.value.id))))
  }

  lemma {:induction false} DistinctRows(rows: seq<Row>)
    requires Listed(rows)
    ensures |set row | row in rows| == |rows|
  {
    if rows != [] {
      DistinctRows(rows[1..]);
      assert rows == [rows[0]] + rows[1..];
      if rows[0] in rows[1..] { Irreflexive(rows, rows[0]); }
      assert (set row | row in rows) == {rows[0]} + (set row | row in rows[1..]);
    }
  }

  lemma MatchingIsWanted(table: seq<Row>, cursor: Option<Cursor>)
    requires Listed(table)
    ensures Listed(Matching(table, cursor)) && forall row :: row in Matching(table, cursor) <==> row in Wanted(table, cursor)
    ensures |Matching(table, cursor)| == |Wanted(table, cursor)|
  {
    var matching := Matching(table, cursor);
    if cursor.Some? { SelectListed(table, cursor.value); }
    DistinctRows(matching);
    assert (set row | row in matching) == Wanted(table, cursor);
  }

  /** A page holds the newest of the wanted rows, as many as asked for; it says that there are more exactly
      when there are, and then its cursor is the time and id of its last row; its total counts all rows. */
  lemma PageIs(table: seq<Row>, cursor: Option<Cursor>, limit: nat)
    requires Listed(table) && 0 < limit
    ensures var page, wanted := ListWithCursor(table, cursor, limit), Wanted(table, cursor);
            && page.total == |table|
            && |page.items| == (if |wanted| > limit then limit else |wanted|)
            && (page.hasMore <==> |wanted| > limit)
            && (forall row <- page.items :: row in wanted)
            && (forall a <- page.items, b <- wanted :: b in page.items || IsNewer(a, b))
            && (forall i, j :: 0 <= i < j < |page.items| ==> IsNewer(page.items[i], page.items[j]))
            && page.nextCursor == if !page.hasMore then None
                                  else var last := page.items[limit - 1];
                                       Some(Cursor(if last.timestamp.Some? then last.timestamp.value else last.date, last.id))
  {
    hide Wanted, Select;
    var matching := Matching(table, cursor);
    MatchingIsWanted(table, cursor);
    PageShape(table, cursor, limit);
    var page := ListWithCursor(table, cursor, limit);
    forall a <- page.items, b <- Wanted(table, cursor) ensures b in page.items || IsNewer(a, b) {
      var i :| 0 <= i < |page.items| && page.items[i] == a;
      var j :| 0 <= j < |matching| && matching[j] == b;
      if j < |page.items| { assert page.items[j] == b; }
    }
  }

  /** Rows without a time first, then the later times, and within one time the larger ids. */
  ghost predicate IsNewer(a: Row, b: Row) {
    match (a.timestamp, b.timestamp)
    case (None, None) => a.id > b.id
    case (None, Some(_)) => true
    case (Some(_), None) => false
    case (Some(s), Some(t)) => s > t || (s == t && a.id > b.id)
  }

  // ---------------------------------------------------------------------------------------------
  // A table that stands still
  // ---------------------------------------------------------------------------------------------

  /** Following the cursor on an unchanged table until it is null. */
  function Walk(table: seq<Row>, c: Cursor, limit: nat): (r: seq<Row>)
    requires Listed(table) && 0 < limit
    decreases |Select(table, c)|
  {
    NextPage(table, c, limit);
    var page := ListWithCursor(table, Some(c), limit);
    if page.nextCursor.None? then page.items else page.items + Walk(table, page.nextCursor.value, limit)
  }

  function WalkFromStart(table: seq<Row>, limit: nat): seq<Row>
    requires Listed(table) && 0 < limit
  {
    var page := ListWithCursor(table, None, limit);
    if page.nextCursor.None? then page.items else page.items + Walk(table, page.nextCursor.value, limit)
  }

  lemma {:induction false} WalkDelivers(table: seq<Row>, c: Cursor, limit: nat)
    requires Listed(table) && 0 < limit
    ensures Walk(table, c, limit) == Select(table, c)
    decreases |Select(table, c)|
  {
    NextPage(table, c, limit);
    var page := ListWithCursor(table, Some(c), limit);
    if page.nextCursor.Some? {
      WalkDelivers(table, page.nextCursor.value, limit);
    }
  }

  /** The row that closes the first page decides: dated, or old enough by its fallback date. */
  ghost predicate FirstPageCloses(table: seq<Row>, limit: nat)
    requires 0 < limit
  {
    || |table| <= limit
    || table[limit - 1].timestamp.Some?
    || forall row <- table[limit..] :: Below(row, CursorAfter(table[limit - 1]))
  }

  /** The walk ends, and delivers every row exactly once in listing order, exactly when the row that
      closes the first page has a timestamp, there is no second page, or every later row lies below the
      date that stands in for the missing timestamp. */
  lemma CompleteIff(table: seq<Row>, limit: nat)
    requires Listed(table) && 0 < limit
    ensures WalkFromStart(table, limit) == table <==> FirstPageCloses(table, limit)
  {
    hide Select, Below, ListWithCursor, Walk, Before, CursorAfter;
    PageShape(table, None, limit);
    if |table| > limit {
      var c := CursorAfter(table[limit - 1]);
      WalkDelivers(table, c, limit);
      assert table == table[..limit] + table[limit..];
      assert (table[..limit] + Select(table, c))[limit..] == Select(table, c);
      if table[limit - 1].timestamp.Some? {
        SelectAfter(table, limit - 1);
      } else {
        SelectAfterUndated(table, limit);
      }
    }
  }

  /** After an undated row the cursor selects the rest of the listing exactly when all of it lies below
      the fallback date. */
  lemma SelectAfterUndated(table: seq<Row>, limit: nat)
    requires Listed(table) && 0 < limit < |table| && table[limit - 1].timestamp.None?
    ensures var c := CursorAfter(table[limit - 1]);
            Select(table, c) == table[limit..] <==> forall row <- table[limit..] :: Below(row, c)
  {
    hide Select;
    var c, later := CursorAfter(table[limit - 1]), table[limit..];
    UndatedFirst(table, limit);
    SelectListed(table, c);
    assert Listed(later);
    if forall row <- later :: Below(row, c) {
      forall row ensures row in Select(table, c) <==> row in later {
        if row in table && Below(row, c) { assert row in table[..limit] + later; }
      }
      SelectSame(Select(table, c), later);
    } else {
      var row :| row in later && !Below(row, c);
      assert row !in Select(table, c);
    }
  }

  lemma UndatedFirst(table: seq<Row>, limit: nat)
    requires Listed(table) && 0 < limit < |table| && table[limit - 1].timestamp.None?
    ensures forall row <- table[..limit] :: row.timestamp.None?
    ensures table == table[..limit] + table[limit..]
  {
    forall row <- table[..limit] ensures row.timestamp.None? {
      var i :| 0 <= i < limit && table[i] == row;
      assert i < limit - 1 ==> Before(table[i], table[limit - 1]);
    }
  }

  /** A walk over a table that stands still never delivers a row twice, dated or not. */
  lemma NeverTwice(table: seq<Row>, limit: nat)
    requires Listed(table) && 0 < limit
    ensures Listed(WalkFromStart(table, limit))
    ensures var walk := WalkFromStart(table, limit); forall i, j :: 0 <= i < j < |walk| ==> walk[i] != walk[j]
  {
    hide Walk, ListWithCursor, Select;
    var walk := WalkFromStart(table, limit);
    PageShape(table, None, limit);
    if |table| > limit {
      var c := CursorAfter(table[limit - 1]);
      WalkDelivers(table, c, limit);
      SelectListed(table, c);
      var later := Select(table, c);
      FirstRows(table, limit);
      forall i, j | 0 <= i < limit && 0 <= j < |later| ensures Before(table[..limit][i], later[j]) {
        assert table[..limit][i] in table[..limit] && later[j] in later;
        AboveThenBelow(table[..limit][i], later[j], c);
      }
    }
    forall i, j | 0 <= i < j < |walk| ensures walk[i] != walk[j] {
      assert Before(walk[i], walk[j]);
    }
  }

  /** In particular, when every row is dated, for every page size. */
  lemma DatedComplete(table: seq<Row>, limit: nat)
    requires Listed(table) && 0 < limit && forall row <- table :: row.timestamp.Some?
    ensures WalkFromStart(table, limit) == table
  {
    CompleteIff(table, limit);
    if |table| > limit { assert table[limit - 1] in table; }
  }

  lemma NothingSelected(rows: seq<Row>, c: Cursor)
    requires forall row <- rows :: !Below(row, c)
    ensures Select(rows, c) == []
  {
    if rows != [] {
      NothingSelected(rows[1..], c);
    }
  }

  /** Three undated rows and pages of two lose the third. */
  lemma UndatedRowLost()
    ensures var table := [Row(3, None, 30), Row(2, None, 20), Row(1, None, 10)];
            Listed(table) && WalkFromStart(table, 2) == table[..2]
  {
    var table := [Row(3, None, 30), Row(2, None, 20), Row(1, None, 10)];
    var c := CursorAfter(table[1]);
    assert forall row <- table :: !Below(row, c);
    WalkDelivers(table, c, 2);
    NothingSelected(table, c);
    assert ListWithCursor(table, None, 2).items == table[..2];
  }

  // ---------------------------------------------------------------------------------------------
  // A table that changes between pages
  // ---------------------------------------------------------------------------------------------

  ghost predicate InRange(row: Row, cursor: Option<Cursor>) {
    cursor.Some? ==> Below(row, cursor.value)
  }

  /** The row that closes a page has a timestamp, or no page follows. */
  ghost predicate ClosesDated(table: seq<Row>, cursor: Option<Cursor>, limit: nat)
    requires 0 < limit
  {
    |Matching(table, cursor)| <= limit || Matching(table, cursor)[limit - 1].timestamp.Some?
  }

  lemma PageFacts(table: seq<Row>, cursor: Option<Cursor>, limit: nat)
    requires Listed(table) && 0 < limit
    ensures var page := ListWithCursor(table, cursor, limit);
            && Listed(page.items)
            && (forall row <- page.items :: row in table && InRange(row, cursor))
            && (ClosesDated(table, cursor, limit) ==>
                  forall row <- table :: InRange(row, cursor) ==>
                    row in page.items || (page.nextCursor.Some? && Below(row, page.nextCursor.value)))
            && (page.nextCursor.Some? ==> forall row <- page.items :: !Below(row, page.nextCursor.value))
            && (page.nextCursor.Some? ==> forall row :: Below(row, page.nextCursor.value) ==> InRange(row, cursor))
            && (page.nextCursor.None? ==> forall row <- table :: InRange(row, cursor) ==> row in page.items)
            && (cursor.Some? ==> ClosesDated(table, cursor, limit))
  {
    hide Select, ListWithCursor;
    var matching := Matching(table, cursor);
    PageShape(table, cursor, limit);
    if cursor.Some? { SelectListed(table, cursor.value); }
    assert forall row <- matching :: row in table;
    if |matching| > limit {
      var last := matching[limit - 1];
      assert last in matching;
      FirstRows(matching, limit);
      if cursor.Some? { BelowFacts(last, cursor.value); }
    }
  }

  lemma FirstRows(matching: seq<Row>, limit: nat)
    requires Listed(matching) && 0 < limit < |matching|
    ensures var c := CursorAfter(matching[limit - 1]);
            && (forall row <- matching[..limit] :: !Below(row, c))
            && (matching[limit - 1].timestamp.Some? ==> forall row <- matching :: row in matching[..limit] || Below(row, c))
  {
    var last := matching[limit - 1];
    assert last in matching;
    forall row <- matching[..limit] ensures !Below(row, CursorAfter(last)) {
      var i :| 0 <= i < limit && matching[i] == row;
      assert i < limit - 1 ==> Before(row, last);
    }
    if last.timestamp.Some? {
      forall row <- matching ensures row in matching[..limit] || Below(row, CursorAfter(last)) {
        var i :| 0 <= i < |matching| && matching[i] == row;
        if i < limit { assert matching[..limit][i] == row; } else { assert Before(last, matching[i]); }
      }
    }
  }

  ghost predicate Throughout(row: Row, tables: seq<seq<Row>>) {
    forall table <- tables :: row in table
  }

  /** Whatever is inserted or deleted between pages, dated or not: the delivered rows are in strict
      listing order, so none comes twice. A walk that reaches its end has delivered every row that was
      there on every page, when the first page closes with a dated row. */
  lemma {:induction false} StableRowsDelivered(tables: seq<seq<Row>>, cursor: Option<Cursor>, limit: nat)
    requires 0 < limit && forall table <- tables :: Listed(table)
    ensures var (delivered, finished) := Follow(tables, cursor, limit);
            && Listed(delivered)
            && (forall row <- delivered :: InRange(row, cursor) && exists table <- tables :: row in table)
            && (finished && tables != [] && ClosesDated(tables[0], cursor, limit) ==>
                  forall row :: InRange(row, cursor) && Throughout(row, tables) ==> row in delivered)
    decreases |tables|
  {
    hide ClosesDated, Below, ListWithCursor, Before;
    if tables != [] {
      assert tables[0] in tables;
      PageFacts(tables[0], cursor, limit);
      var page := ListWithCursor(tables[0], cursor, limit);
      if page.nextCursor.Some? {
        var next := page.nextCursor;
        assert forall table <- tables[1..] :: table in tables;
        StableRowsDelivered(tables[1..], next, limit);
        var (rest, finished) := Follow(tables[1..], next, limit);
        forall i, j | 0 <= i < |page.items| && 0 <= j < |rest| ensures Before(page.items[i], rest[j]) {
          assert page.items[i] in page.items && rest[j] in rest;
          AboveThenBelow(page.items[i], rest[j], next.value);
        }
        forall row <- page.items + rest ensures InRange(row, cursor) && exists table <- tables :: row in table {
          if row in page.items {
          } else {
            var table :| table in tables[1..] && row in table;
          }
        }
        if finished {
          LaterPagesClose(tables, next.value, limit);
          forall row | InRange(row, cursor) && Throughout(row, tables) && ClosesDated(tables[0], cursor, limit)
            ensures row in page.items + rest
          {
            assert Throughout(row, tables[1..]);
          }
        }
      }
    }
  }

  lemma LaterPagesClose(tables: seq<seq<Row>>, c: Cursor, limit: nat)
    requires 0 < limit && forall table <- tables :: Listed(table)
    ensures forall table <- tables :: ClosesDated(table, Some(c), limit)
  {
    hide ClosesDated, ListWithCursor;
    forall table <- tables ensures ClosesDated(table, Some(c), limit) {
      PageFacts(table, Some(c), limit);
    }
  }

  /** And without that: exactly the rows throughout are delivered that stood on the first page or lie
      below the cursor that closed it. */
  lemma StableDeliveredIff(tables: seq<seq<Row>>, limit: nat, row: Row)
    requires 0 < limit && tables != [] && forall table <- tables :: Listed(table)
    requires Throughout(row, tables)
    ensures var (delivered, finished) := Follow(tables, None, limit);
            var page := ListWithCursor(tables[0], None, limit);
            finished ==>
              (row in delivered <==> row in page.items || (page.nextCursor.Some? && Below(row, page.nextCursor.value)))
  {
    hide ClosesDated, Below, ListWithCursor, Before;
    var page := ListWithCursor(tables[0], None, limit);
    assert tables[0] in tables;
    PageFacts(tables[0], None, limit);
    if page.nextCursor.Some? {
      assert forall table <- tables[1..] :: table in tables;
      StableRowsDelivered(tables[1..], page.nextCursor, limit);
      LaterPagesClose(tables, page.nextCursor.value, limit);
      assert Throughout(row, tables[1..]);
    }
  }

  lemma AboveThenBelow(a: Row, b: Row, c: Cursor)
    requires !Below(a, c) && Below(b, c)
    ensures Before(a, b)
  {
  }
}
