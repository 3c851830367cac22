// Cumulative reference tables: new rows join the workbook by key, repeated rows are skipped, and a
// row that contradicts the table stops everything before anything is saved.

module Merge {
  import opened Options
  import opened RuleKit

  type Cell = Option<string>

  /** A table row, or the item an input row stands for: column name to value. */
  type Row = map<string, Cell>

  /** What Decimal() makes of a text; an unreadable one raises. */
  datatype Reading = Unreadable | NotFinite | Finite(value: real)

  /** One sheet's way of being merged: its header, the columns an item fills, in the order they are
      compared, its key among them, and the columns compared as decimals. */
  datatype Sheet = Sheet(header: seq<string>, columns: seq<string>, key: string, amounts: set<string>,
                         decimal: string -> Reading)

  function Get(row: Row, column: string): Cell {
    if column in row then row[column] else None
  }

  /** str() of a cell: an empty one prints as None. */
  function Printed(cell: Cell): string {
    match cell case None => "None" case Some(s) => s
  }

  datatype Answer = Yes | No | Fails

  /** `previous == value` of one column. Of two amounts one is finite here, so infinities never agree. */
  function CompareCell(sheet: Sheet, column: string, previous: Cell, value: Cell): Answer {
    if column in sheet.amounts then
      var a, b := sheet.decimal(Printed(previous)), sheet.decimal(Printed(value));
      if a.Unreadable? || b.Unreadable? then Fails
      else if a.Finite? && a == b then Yes else No
    else if Text(previous) == Text(value) then Yes else No
  }

  /** Two amounts agree when both are the same finite number, two texts when they are equal but for white
      space at their ends; only an amount can make the comparison raise. */
  lemma CellsAgreeIff(sheet: Sheet, column: string, previous: Cell, value: Cell)
    ensures CompareCell(sheet, column, previous, value) == Yes <==>
            if column in sheet.amounts then
              exists x :: sheet.decimal(Printed(previous)) == Finite(x) == sheet.decimal(Printed(value))
            else Strip(Contents(previous)) == Strip(Contents(value))
    ensures CompareCell(sheet, column, previous, value) == Fails <==>
            column in sheet.amounts && Unreadable in {sheet.decimal(Printed(previous)), sheet.decimal(Printed(value))}
  {
  }

  /** An empty cell holds no text. */
  ghost function Contents(cell: Cell): string {
    match cell case None => "" case Some(s) => s
  }

  /** all() over the columns: the first one that does not agree decides, and may raise. */
  function Compare(sheet: Sheet, columns: seq<string>, previous: Row, item: Row): Answer {
    if columns == [] then Yes
    else
      var first := CompareCell(sheet, columns[0], Get(previous, columns[0]), Get(item, columns[0]));
      if first == Yes then Compare(sheet, columns[1..], previous, item) else first
  }

  /** An existing row says the same as an item in every column the item fills. */
  ghost predicate Same(sheet: Sheet, previous: Row, item: Row) {
    forall c :: c in sheet.columns ==> CompareCell(sheet, c, Get(previous, c), Get(item, c)) == Yes
  }

  /** So a row says the same as an item exactly when every text column is equal after trimming, and every
      amount is the same number. */
  lemma SameMeans(sheet: Sheet, previous: Row, item: Row)
    ensures Same(sheet, previous, item) <==>
            forall c :: c in sheet.columns ==>
              if c in sheet.amounts then
                exists x ::
                  sheet.decimal(Printed(Get(previous, c))) == Finite(x) == sheet.decimal(Printed(Get(item, c)))
              else Strip(Contents(Get(previous, c))) == Strip(Contents(Get(item, c)))
  {
    forall c | c in sheet.columns
      ensures CompareCell(sheet, c, Get(previous, c), Get(item, c)) == Yes <==>
              if c in sheet.amounts then
                exists x ::
                  sheet.decimal(Printed(Get(previous, c))) == Finite(x) == sheet.decimal(Printed(Get(item, c)))
              else Strip(Contents(Get(previous, c))) == Strip(Contents(Get(item, c)))
    {
      CellsAgreeIff(sheet, c, Get(previous, c), Get(item, c));
    }
  }

  predicate HasKey(sheet: Sheet, row: Row, item: Row) {
    Printed(Get(row, sheet.key)) == Printed(Get(item, sheet.key))
  }

  /** Keys compare as printed texts, an empty cell printing as None. */
  lemma HasKeyIff(sheet: Sheet, row: Row, item: Row)
    ensures HasKey(sheet, row, item) <==>
            (if sheet.key in row && row[sheet.key].Some? then row[sheet.key].value else "None") ==
            (if sheet.key in item && item[sheet.key].Some? then item[sheet.key].value else "None")
  {
  }

  /** The item as a table row: every header column, empty where the item has nothing. */
  function AsRow(sheet: Sheet, item: Row): Row {
    map c | c in sheet.header :: Get(item, c)
  }

  /** The row has the header's columns and no others, and under each what the item has there, or nothing. */
  lemma AsRowHas(sheet: Sheet, item: Row, c: string)
    ensures c in AsRow(sheet, item) <==> c in sheet.header
    ensures c in sheet.header ==> AsRow(sheet, item)[c] == if c in item then item[c] else None
  {
  }

  /** Every amount of the item is a finite number. */
  predicate ItemOk(sheet: Sheet, item: Row) {
    forall c :: c in sheet.columns && c in sheet.amounts ==> sheet.decimal(Printed(Get(item, c))).Finite?
  }

  /** An item is refused for its amounts alone, and only for one that is missing or no finite number. */
  lemma ItemOkIff(sheet: Sheet, item: Row)
    ensures ItemOk(sheet, item) <==>
            forall c :: c in sheet.columns && c in sheet.amounts ==>
              exists x :: sheet.decimal(if c in item && item[c].Some? then item[c].value else "None") == Finite(x)
  {
  }

  /** The table has every column the items fill. */
  predicate HeaderOk(sheet: Sheet) {
    forall c :: c in sheet.columns ==> c in sheet.header
  }

  predicate SheetOk(sheet: Sheet) {
    HeaderOk(sheet) && sheet.key in sheet.columns
  }

  // ----- what a merge is

  ghost predicate Represented(sheet: Sheet, table: seq<Row>, item: Row) {
    exists r :: r in table && HasKey(sheet, r, item) && Same(sheet, r, item)
  }

  ghost predicate KeyIn(sheet: Sheet, table: seq<Row>, item: Row) {
    exists r :: r in table && HasKey(sheet, r, item)
  }

  /** A row with the item's key cannot be compared with it, and none before it says the same. */
  ghost predicate Stuck(sheet: Sheet, table: seq<Row>, item: Row) {
    exists k :: StuckAt(sheet, table, item, k)
  }

  ghost predicate StuckAt(sheet: Sheet, table: seq<Row>, item: Row, k: int) {
    && 0 <= k < |table| && HasKey(sheet, table[k], item)
    && Compare(sheet, sheet.columns, table[k], item) == Fails
    && forall l :: 0 <= l < k && HasKey(sheet, table[l], item) ==> !Same(sheet, table[l], item)
  }

  /** Everything can be read and nothing contradicts anything: an item whose key the table has says what
      one of its rows says, and two items with a new key say the same. */
  ghost predicate Consistent(sheet: Sheet, table: seq<Row>, items: seq<Row>) {
    forall j :: 0 <= j < |items| ==> Fits(sheet, table, items, j)
  }

  ghost predicate Fits(sheet: Sheet, table: seq<Row>, items: seq<Row>, j: nat)
    requires j < |items|
  {
    ItemOk(sheet, items[j]) && !Stuck(sheet, table, items[j]) && Agrees(sheet, table, items, j)
  }

  /** Item `j` agrees with the table and with the items before it. */
  ghost predicate Agrees(sheet: Sheet, table: seq<Row>, items: seq<Row>, j: nat)
    requires j < |items|
  {
    if KeyIn(sheet, table, items[j]) then Represented(sheet, table, items[j])
    else forall i :: 0 <= i < j && HasKey(sheet, items[i], items[j]) ==> Same(sheet, items[i], items[j])
  }

  /** Every added row is one of the items, under a key nobody had. */
  ghost predicate AddedOk(sheet: Sheet, table: seq<Row>, items: seq<Row>, upTo: nat, added: seq<Row>)
    requires upTo <= |items|
  {
    && (forall k :: 0 <= k < |added| ==> FromItem(sheet, items, upTo, added[k]) && !KeyIn(sheet, table, added[k]))
    && (forall k, l :: 0 <= k < l < |added| ==> !HasKey(sheet, added[k], added[l]))
  }

  ghost predicate FromItem(sheet: Sheet, items: seq<Row>, upTo: nat, row: Row)
    requires upTo <= |items|
  {
    exists i :: 0 <= i < upTo && row == AsRow(sheet, items[i])
  }

  // ----- sameness

  lemma AsRowIsSame(sheet: Sheet, item: Row)
    requires SheetOk(sheet) && ItemOk(sheet, item)
    ensures HasKey(sheet, AsRow(sheet, item), item) && Same(sheet, AsRow(sheet, item), item)
    ensures forall c :: c in sheet.columns ==> Get(AsRow(sheet, item), c) == Get(item, c)
  {
  }

  lemma SameThrough(sheet: Sheet, a: Row, b: Row, c: Row)
    requires Same(sheet, a, b) && Same(sheet, b, c)
    ensures Same(sheet, a, c)
  {
  }

  lemma SameBack(sheet: Sheet, a: Row, b: Row)
    requires Same(sheet, a, b)
    ensures Same(sheet, b, a)
  {
  }

  /** Comparing stops at a column that cannot be read, or says whether all agree. */
  lemma {:induction false} CompareMeans(sheet: Sheet, columns: seq<string>, previous: Row, item: Row)
    ensures Compare(sheet, columns, previous, item) == Yes <==>
            forall c :: c in columns ==> CompareCell(sheet, c, Get(previous, c), Get(item, c)) == Yes
    ensures Compare(sheet, columns, previous, item) == Fails ==>
              exists c :: c in columns && CompareCell(sheet, c, Get(previous, c), Get(item, c)) == Fails
  {
    if columns != [] {
      CompareMeans(sheet, columns[1..], previous, item);
      assert columns == [columns[0]] + columns[1..];
    }
  }

  /** Two readable rows compare. */
  lemma {:induction false} ReadableCompares(sheet: Sheet, row: Row, item: Row)
    requires ItemOk(sheet, row) && ItemOk(sheet, item)
    ensures Compare(sheet, sheet.columns, row, item) != Fails
  {
    CompareMeans(sheet, sheet.columns, row, item);
  }

  /** Added rows never get in the way of a comparison. */
  lemma StuckInTable(sheet: Sheet, table: seq<Row>, items: seq<Row>, i: nat, news: seq<Row>, item: Row)
    requires SheetOk(sheet) && i <= |items| && AddedOk(sheet, table, items, i, news) && ItemOk(sheet, item)
    requires forall k :: 0 <= k < i ==> ItemOk(sheet, items[k])
    ensures Stuck(sheet, table + news, item) <==> Stuck(sheet, table, item)
  {
    var all := table + news;
    if k :| StuckAt(sheet, all, item, k) {
      if k >= |table| {
        var row := news[k - |table|];
        assert FromItem(sheet, items, i, row);
        ReadableCompares(sheet, row, item);
      } else {
        assert forall l :: 0 <= l < k ==> all[l] == table[l];
        assert StuckAt(sheet, table, item, k);
      }
    }
    if k :| StuckAt(sheet, table, item, k) {
      assert forall l :: 0 <= l <= k ==> all[l] == table[l];
      assert StuckAt(sheet, all, item, k);
    }
  }

  // ----- the loop

  /** After `i` items: what has been added, and that nothing so far contradicts anything. */
  ghost predicate SoFar(sheet: Sheet, table: seq<Row>, items: seq<Row>, i: nat, news: seq<Row>)
    requires i <= |items|
  {
    && AddedOk(sheet, table, items, i, news)
    && (forall k :: 0 <= k < i ==> Represented(sheet, table + news, items[k]))
    && (forall k :: 0 <= k < i ==> Fits(sheet, table, items, k))
    && ((forall k :: 0 <= k < i ==> Represented(sheet, table, items[k])) ==> news == [])
  }

  /** What a successful merge adds to the table. */
  ghost predicate Merged(sheet: Sheet, table: seq<Row>, items: seq<Row>, news: seq<Row>) {
    && AddedOk(sheet, table, items, |items|, news)
    && (forall i :: 0 <= i < |items| ==> Represented(sheet, table + news, items[i]))
    && ((forall i :: 0 <= i < |items| ==> Represented(sheet, table, items[i])) ==> news == [])
  }

  /** The rows the items add to the table; `ok` is false when the header lacks a column, an amount cannot
      be read, or an item contradicts the table. */
  method MergeSheet(sheet: Sheet, table: seq<Row>, items: seq<Row>) returns (ok: bool, news: seq<Row>)
    requires sheet.key in sheet.columns
    ensures ok <==> (forall c :: c in sheet.columns ==> c in sheet.header) && Consistent(sheet, table, items)
    ensures ok ==> Merged(sheet, table, items, news)
  {
    news := [];
    ok := HeaderOk(sheet);
    if !ok {
      return;
    }
    ok, news := MergeRows(sheet, table, items);
    if ok {
      AllMerged(sheet, table, items, news);
    }
  }

  method MergeRows(sheet: Sheet, table: seq<Row>, items: seq<Row>) returns (ok: bool, news: seq<Row>)
    requires SheetOk(sheet)
    ensures if ok then SoFar(sheet, table, items, |items|, news) else !Consistent(sheet, table, items)
  {
    news := [];
    NothingYet(sheet, table, items);
    for i := 0 to |items|
      invariant SoFar(sheet, table, items, i, news)
    {
      ok, news := MergeItem(sheet, table, items, i, news);
      if !ok {
        return;
      }
    }
    ok := true;
  }

  datatype Finding = Repeated | Conflicting | Unknown | Stopped

  /** The rows with the item's key, in order, until one says the same or cannot be compared. */
  method LookUp(sheet: Sheet, rows: seq<Row>, item: Row) returns (finding: Finding)
    ensures finding == Stopped <==> Stuck(sheet, rows, item)
    ensures finding == Repeated <==> !Stuck(sheet, rows, item) && Represented(sheet, rows, item)
    ensures finding == Unknown <==> !KeyIn(sheet, rows, item)
    ensures finding == Conflicting ==> KeyIn(sheet, rows, item) && !Represented(sheet, rows, item)
  {
    finding := Unknown;
    for k := 0 to |rows|
      invariant forall l :: 0 <= l < k && HasKey(sheet, rows[l], item) ==>
                  !Same(sheet, rows[l], item) && Compare(sheet, sheet.columns, rows[l], item) != Fails
      invariant finding == if exists l :: 0 <= l < k && HasKey(sheet, rows[l], item) then Conflicting else Unknown
    {
      if HasKey(sheet, rows[k], item) {
        CompareMeans(sheet, sheet.columns, rows[k], item);
        match Compare(sheet, sheet.columns, rows[k], item)
        case Yes =>
          NotStuckBefore(sheet, rows, item, k);
          return Repeated;
        case Fails =>
          assert StuckAt(sheet, rows, item, k);
          return Stopped;
        case No =>
          finding := Conflicting;
      }
    }
  }

  lemma {:induction false} NotStuckBefore(sheet: Sheet, rows: seq<Row>, item: Row, k: nat)
    requires k < |rows| && HasKey(sheet, rows[k], item) && Same(sheet, rows[k], item)
    requires forall l :: 0 <= l < k && HasKey(sheet, rows[l], item) ==>
               Compare(sheet, sheet.columns, rows[l], item) != Fails
    ensures !Stuck(sheet, rows, item) && Represented(sheet, rows, item)
  {
    CompareMeans(sheet, sheet.columns, rows[k], item);
    assert rows[k] in rows;
  }

  lemma Misfit(sheet: Sheet, table: seq<Row>, items: seq<Row>, i: nat)
    requires i < |items| && !Fits(sheet, table, items, i)
    ensures !Consistent(sheet, table, items)
  {
  }

  lemma StuckSoFar(sheet: Sheet, table: seq<Row>, items: seq<Row>, i: nat, news: seq<Row>)
    requires SheetOk(sheet) && i < |items| && SoFar(sheet, table, items, i, news) && ItemOk(sheet, items[i])
    ensures Stuck(sheet, table + news, items[i]) <==> Stuck(sheet, table, items[i])
  {
    forall k | 0 <= k < i
      ensures ItemOk(sheet, items[k])
    {
      assert Fits(sheet, table, items, k);
    }
    StuckInTable(sheet, table, items, i, news, items[i]);
  }

  /** One input row: unreadable, repeated, contradicting, or new. */
  method MergeItem(sheet: Sheet, table: seq<Row>, items: seq<Row>, i: nat, news: seq<Row>)
    returns (ok: bool, more: seq<Row>)
    requires SheetOk(sheet) && i < |items| && SoFar(sheet, table, items, i, news)
    ensures if ok then SoFar(sheet, table, items, i + 1, more) else !Consistent(sheet, table, items)
  {
    more := news;
    ok := ItemOk(sheet, items[i]);
    if !ok {
      Misfit(sheet, table, items, i);
      return;
    }
    StuckSoFar(sheet, table, items, i, news);
    var finding := LookUp(sheet, table + news, items[i]);
    match finding
    case Stopped =>
      Misfit(sheet, table, items, i);
      ok := false;
    case Repeated =>
      Skipped(sheet, table, items, i, news);
    case Conflicting =>
      Contradicted(sheet, table, items, i, news);
      ok := false;
    case Unknown =>
      Appended(sheet, table, items, i, news);
      more := news + [AsRow(sheet, items[i])];
  }

  lemma NothingYet(sheet: Sheet, table: seq<Row>, items: seq<Row>)
    ensures SoFar(sheet, table, items, 0, [])
  {
  }

  lemma AllMerged(sheet: Sheet, table: seq<Row>, items: seq<Row>, news: seq<Row>)
    requires SoFar(sheet, table, items, |items|, news)
    ensures Consistent(sheet, table, items) && Merged(sheet, table, items, news)
  {
  }

  lemma OnlyRowWithItsKey(sheet: Sheet, table: seq<Row>, items: seq<Row>, i: nat, news: seq<Row>, a: Row, b: Row)
    requires i <= |items| && AddedOk(sheet, table, items, i, news) && a in news && b in news && HasKey(sheet, a, b)
    ensures a == b
  {
  }

  /** An item stands for a row of the table, or for the one added row with its key. */
  lemma RepresentedWhere(sheet: Sheet, table: seq<Row>, items: seq<Row>, i: nat, news: seq<Row>, item: Row)
    returns (r: Row)
    requires i <= |items| && AddedOk(sheet, table, items, i, news) && Represented(sheet, table + news, item)
    ensures HasKey(sheet, r, item) && Same(sheet, r, item)
    ensures if KeyIn(sheet, table, item) then r in table else r in news
  {
    r :| r in table + news && HasKey(sheet, r, item) && Same(sheet, r, item);
    if r in news {
      var k :| 0 <= k < |news| && news[k] == r;
      assert !KeyIn(sheet, table, news[k]);
      if q :| q in table && HasKey(sheet, q, item) {
        assert HasKey(sheet, q, r);
      }
    }
  }

  lemma Grow(sheet: Sheet, rows: seq<Row>, more: seq<Row>, item: Row)
    requires Represented(sheet, rows, item)
    ensures Represented(sheet, rows + more, item)
  {
  }

  lemma MoreItems(sheet: Sheet, table: seq<Row>, items: seq<Row>, i: nat, news: seq<Row>)
    requires i < |items| && AddedOk(sheet, table, items, i, news)
    ensures AddedOk(sheet, table, items, i + 1, news)
  {
  }

  lemma SameKeySays(sheet: Sheet, table: seq<Row>, items: seq<Row>, i: nat, news: seq<Row>, earlier: Row, item: Row)
    requires i <= |items| && AddedOk(sheet, table, items, i, news)
    requires Represented(sheet, table + news, earlier) && Represented(sheet, table + news, item)
    requires HasKey(sheet, earlier, item) && !KeyIn(sheet, table, item)
    ensures Same(sheet, earlier, item)
  {
    assert !KeyIn(sheet, table, earlier) by {
      if r :| r in table && HasKey(sheet, r, earlier) {
        assert HasKey(sheet, r, item);
      }
    }
    var r := RepresentedWhere(sheet, table, items, i, news, item);
    var q := RepresentedWhere(sheet, table, items, i, news, earlier);
    OnlyRowWithItsKey(sheet, table, items, i, news, q, r);
    SameBack(sheet, r, earlier);
    SameThrough(sheet, earlier, r, item);
  }

  lemma KnownKeyIsRepresented(sheet: Sheet, table: seq<Row>, items: seq<Row>, i: nat, news: seq<Row>, item: Row)
    requires i <= |items| && AddedOk(sheet, table, items, i, news) && Represented(sheet, table + news, item)
    requires KeyIn(sheet, table, item)
    ensures Represented(sheet, table, item)
  {
  }

  lemma SkippedAgrees(sheet: Sheet, table: seq<Row>, items: seq<Row>, i: nat, news: seq<Row>)
    requires i < |items| && AddedOk(sheet, table, items, i, news) && Represented(sheet, table + news, items[i])
    requires forall k :: 0 <= k < i ==> Represented(sheet, table + news, items[k])
    ensures Agrees(sheet, table, items, i)
  {
    if KeyIn(sheet, table, items[i]) {
      KnownKeyIsRepresented(sheet, table, items, i, news, items[i]);
    } else {
      forall j | 0 <= j < i && HasKey(sheet, items[j], items[i])
        ensures Same(sheet, items[j], items[i])
      {
        SameKeySays(sheet, table, items, i, news, items[j], items[i]);
      }
    }
  }

  lemma Skipped(sheet: Sheet, table: seq<Row>, items: seq<Row>, i: nat, news: seq<Row>)
    requires i < |items| && SoFar(sheet, table, items, i, news) && Represented(sheet, table + news, items[i])
    requires ItemOk(sheet, items[i]) && !Stuck(sheet, table, items[i])
    ensures SoFar(sheet, table, items, i + 1, news)
  {
    SkippedAgrees(sheet, table, items, i, news);
    MoreItems(sheet, table, items, i, news);
    OneMore(sheet, table, items, i, news);
  }

  lemma OneMore(sheet: Sheet, table: seq<Row>, items: seq<Row>, i: nat, news: seq<Row>)
    requires i < |items| && AddedOk(sheet, table, items, i + 1, news)
    requires forall k :: 0 <= k < i ==> Represented(sheet, table + news, items[k])
    requires Represented(sheet, table + news, items[i])
    requires forall k :: 0 <= k < i ==> Fits(sheet, table, items, k)
    requires Fits(sheet, table, items, i)
    requires (forall k :: 0 <= k < i ==> Represented(sheet, table, items[k])) ==> news == []
    ensures SoFar(sheet, table, items, i + 1, news)
  {
  }

  lemma AppendedAdded(sheet: Sheet, table: seq<Row>, items: seq<Row>, i: nat, news: seq<Row>)
    requires SheetOk(sheet) && i < |items| && ItemOk(sheet, items[i])
    requires AddedOk(sheet, table, items, i, news) && !KeyIn(sheet, table + news, items[i])
    ensures AddedOk(sheet, table, items, i + 1, news + [AsRow(sheet, items[i])])
  {
    var row := AsRow(sheet, items[i]);
    var more := news + [row];
    AsRowIsSame(sheet, items[i]);
    MoreItems(sheet, table, items, i, news);
    assert FromItem(sheet, items, i + 1, row);
    assert forall x :: x in table || x in news ==> x in table + news;
    assert forall x :: x in table + news ==> !HasKey(sheet, x, row);
    forall k, l | 0 <= k < l < |more|
      ensures !HasKey(sheet, more[k], more[l])
    {
      if l == |news| {
        assert more[k] in news;
      }
    }
    forall k | 0 <= k < |more|
      ensures FromItem(sheet, items, i + 1, more[k]) && !KeyIn(sheet, table, more[k])
    {
      if k < |news| {
        assert more[k] == news[k];
      }
    }
  }

  lemma AppendedRepresents(sheet: Sheet, table: seq<Row>, items: seq<Row>, i: nat, news: seq<Row>)
    requires SheetOk(sheet) && i < |items| && ItemOk(sheet, items[i])
    requires forall k :: 0 <= k < i ==> Represented(sheet, table + news, items[k])
    ensures forall k :: 0 <= k < i + 1 ==> Represented(sheet, table + (news + [AsRow(sheet, items[i])]), items[k])
  {
    var row := AsRow(sheet, items[i]);
    AsRowIsSame(sheet, items[i]);
    assert table + (news + [row]) == table + news + [row];
    forall k | 0 <= k < i + 1
      ensures Represented(sheet, table + (news + [row]), items[k])
    {
      if k < i {
        Grow(sheet, table + news, [row], items[k]);
      } else {
        assert row in table + (news + [row]);
      }
    }
  }

  lemma NewKeyAgrees(sheet: Sheet, table: seq<Row>, items: seq<Row>, i: nat, news: seq<Row>)
    requires i < |items| && !KeyIn(sheet, table + news, items[i])
    requires forall k :: 0 <= k < i ==> Represented(sheet, table + news, items[k])
    ensures Agrees(sheet, table, items, i) && !Represented(sheet, table, items[i])
  {
  }

  lemma Appended(sheet: Sheet, table: seq<Row>, items: seq<Row>, i: nat, news: seq<Row>)
    requires SheetOk(sheet) && i < |items| && ItemOk(sheet, items[i]) && !Stuck(sheet, table, items[i])
    requires SoFar(sheet, table, items, i, news) && !KeyIn(sheet, table + news, items[i])
    ensures SoFar(sheet, table, items, i + 1, news + [AsRow(sheet, items[i])])
  {
    AppendedAdded(sheet, table, items, i, news);
    AppendedRepresents(sheet, table, items, i, news);
    NewKeyAgrees(sheet, table, items, i, news);
    NewRow(sheet, table, items, i, news + [AsRow(sheet, items[i])]);
  }

  lemma NewRow(sheet: Sheet, table: seq<Row>, items: seq<Row>, i: nat, more: seq<Row>)
    requires i < |items| && AddedOk(sheet, table, items, i + 1, more)
    requires forall k :: 0 <= k < i + 1 ==> Represented(sheet, table + more, items[k])
    requires forall k :: 0 <= k < i ==> Fits(sheet, table, items, k)
    requires Fits(sheet, table, items, i) && !Represented(sheet, table, items[i])
    ensures SoFar(sheet, table, items, i + 1, more)
  {
  }

  lemma NotSame(sheet: Sheet, rows: seq<Row>, r: Row, earlier: Row, item: Row)
    requires r in rows && HasKey(sheet, r, item) && Same(sheet, r, earlier) && !Represented(sheet, rows, item)
    ensures !Same(sheet, earlier, item)
  {
  }

  lemma Contradicted(sheet: Sheet, table: seq<Row>, items: seq<Row>, i: nat, news: seq<Row>)
    requires SheetOk(sheet) && i < |items| && SoFar(sheet, table, items, i, news)
    requires KeyIn(sheet, table + news, items[i]) && !Represented(sheet, table + news, items[i])
    ensures !Consistent(sheet, table, items)
  {
    var item := items[i];
    if KeyIn(sheet, table, item) {
      if Represented(sheet, table, item) {
        Grow(sheet, table, news, item);
      }
    } else {
      var r :| r in table + news && HasKey(sheet, r, item);
      assert r in news;
      var k :| 0 <= k < |news| && news[k] == r;
      assert FromItem(sheet, items, i, news[k]);
      var j :| 0 <= j < i && r == AsRow(sheet, items[j]);
      assert Fits(sheet, table, items, j);
      AsRowIsSame(sheet, items[j]);
      NotSame(sheet, table + news, r, items[j], item);
      assert HasKey(sheet, items[j], items[i]);
    }
    assert !Fits(sheet, table, items, i);
  }

  // ----- the whole preparation

  datatype Workbook = Workbook(suppliers: seq<Row>, orders: seq<Row>)

  class Output {
    var saved: Option<Workbook>

    constructor ()
      ensures saved == None
    {
      saved := None;
    }

    /** Both sheets, or nothing: the new workbook is saved after the last row. */
    method Prepare(suppliers: Sheet, orders: Sheet, book: Workbook, newSuppliers: seq<Row>, newOrders: seq<Row>)
      returns (ok: bool)
      requires suppliers.key in suppliers.columns && orders.key in orders.columns
      modifies this
      ensures ok <==>
                && (forall c :: c in suppliers.columns ==> c in suppliers.header)
                && (forall c :: c in orders.columns ==> c in orders.header)
                && Consistent(suppliers, book.suppliers, newSuppliers) && Consistent(orders, book.orders, newOrders)
      ensures !ok ==> saved == old(saved)
      ensures ok ==>
                exists a, b ::
                  && Merged(suppliers, book.suppliers, newSuppliers, a)
                  && Merged(orders, book.orders, newOrders, b)
                  && saved == Some(Workbook(book.suppliers + a, book.orders + b))
    {
      var a, b;
      ok, a := MergeSheet(suppliers, book.suppliers, newSuppliers);
      if !ok {
        return;
      }
      ok, b := MergeSheet(orders, book.orders, newOrders);
      if !ok {
        return;
      }
      saved := Some(Workbook(book.suppliers + a, book.orders + b));
    }
  }

  /** Items that are already represented agree with the table and among themselves. */
  lemma RepresentedIsConsistent(sheet: Sheet, table: seq<Row>, items: seq<Row>)
    requires forall i :: 0 <= i < |items| ==>
               Represented(sheet, table, items[i]) && ItemOk(sheet, items[i]) && !Stuck(sheet, table, items[i])
    ensures Consistent(sheet, table, items)
  {
  }

  /** Merging the same items into the result succeeds and adds nothing. */
  method MergeTwice(sheet: Sheet, table: seq<Row>, items: seq<Row>)
    returns (ok: bool, news: seq<Row>, again: bool, more: seq<Row>)
    requires sheet.key in sheet.columns
    ensures ok <==> (forall c :: c in sheet.columns ==> c in sheet.header) && Consistent(sheet, table, items)
    ensures ok ==> Merged(sheet, table, items, news)
    ensures ok ==> again && Merged(sheet, table + news, items, more) && more == []
  {
    ok, news := MergeSheet(sheet, table, items);
    again, more := false, [];
    if ok {
      again, more := MergeSheet(sheet, table + news, items);
      AddsNothing(sheet, table, items, news, again, more);
    }
  }

  /** Whoever merges the same items into the result of a merge succeeds and adds nothing. */
  lemma AddsNothing(sheet: Sheet, table: seq<Row>, items: seq<Row>, news: seq<Row>, again: bool, more: seq<Row>)
    requires SheetOk(sheet) && Consistent(sheet, table, items) && Merged(sheet, table, items, news)
    requires again <==> Consistent(sheet, table + news, items)
    requires again ==> Merged(sheet, table + news, items, more)
    ensures again && more == []
  {
    forall i | 0 <= i < |items|
      ensures ItemOk(sheet, items[i]) && !Stuck(sheet, table + news, items[i])
    {
      ReadableAgain(sheet, table, items, news, i);
    }
    RepresentedIsConsistent(sheet, table + news, items);
  }

  lemma ReadableAgain(sheet: Sheet, table: seq<Row>, items: seq<Row>, news: seq<Row>, i: nat)
    requires SheetOk(sheet) && Consistent(sheet, table, items) && AddedOk(sheet, table, items, |items|, news)
    requires i < |items|
    ensures ItemOk(sheet, items[i]) && !Stuck(sheet, table + news, items[i])
  {
    forall k | 0 <= k < |items|
      ensures ItemOk(sheet, items[k]) && !Stuck(sheet, table, items[k])
    {
      assert Fits(sheet, table, items, k);
    }
    StuckInTable(sheet, table, items, |items|, news, items[i]);
  }
}
