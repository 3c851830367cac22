// The inbox's order: overdue cases, then those about to be, then the big ones, then the rest.

module Triage {
  import opened Options
  import opened Sorting

  const PAYMENT_TERM_DAYS := 30
  const SOON_DAYS := 7

  /** A case waiting on the manager. Days are day numbers; a case nobody has read has no values. */
  datatype Item = Item(id: int, read: bool, amount: Option<real>, issued: Option<int>, reviewPending: bool)

  datatype Row = Row(item: Item, daysLeft: Option<int>, overdue: bool, soon: bool, large: bool, reviewer: bool,
                     unread: bool, score: int)

  function AmountOf(item: Item): Option<real> {
    if item.read then item.amount else None
  }

  function DaysLeft(item: Item, today: int): Option<int> {
    if item.read && item.issued.Some? then Some(item.issued.value + PAYMENT_TERM_DAYS - today) else None
  }

  function OneAmount(item: Item): seq<real> {
    match AmountOf(item) case None => [] case Some(a) => [a]
  }

  function Amounts(items: seq<Item>): seq<real> {
    if items == [] then [] else OneAmount(items[0]) + Amounts(items[1..])
  }

  predicate Larger(a: real, b: real) {
    a >= b
  }

  /** The amount from which a case counts as big: the one a fifth of the way down; None is infinity. */
  function LargeFrom(items: seq<Item>): Option<real> {
    SortPermutes(Larger, Amounts(items));
    var sorted := Sort(Larger, Amounts(items));
    if |sorted| >= 5 then Some(sorted[|sorted| / 5]) else None
  }

  function Capped(days: int): int {
    if -days < 365 then -days else 365
  }

  function Bonus(large: bool, reviewer: bool, unread: bool): int {
    (if large then 200 else 0) + (if reviewer then 50 else 0) + (if unread then 25 else 0)
  }

  function RowOf(item: Item, today: int, largeFrom: Option<real>): Row {
    var days, amount := DaysLeft(item, today), AmountOf(item);
    var overdue := days.Some? && days.value < 0;
    var soon := days.Some? && 0 <= days.value <= SOON_DAYS;
    var large := amount.Some? && largeFrom.Some? && amount.value >= largeFrom.value;
    Row(item, days, overdue, soon, large, item.reviewPending, !item.read,
        (if overdue then 1000 + Capped(days.value) else 0)
        + (if soon then 500 + (SOON_DAYS - days.value) else 0)
        + Bonus(large, item.reviewPending, !item.read))
  }

  function Rows(items: seq<Item>, today: int, largeFrom: Option<real>): seq<Row> {
    if items == [] then [] else [RowOf(items[0], today, largeFrom)] + Rows(items[1..], today, largeFrom)
  }

  function AmountOrZero(row: Row): real {
    match AmountOf(row.item) case None => 0.0 case Some(a) => a
  }

  /** The comparison of the list: score, then amount, then age of the case. */
  predicate First(a: Row, b: Row) {
    || a.score > b.score
    || (a.score == b.score && AmountOrZero(a) > AmountOrZero(b))
    || (a.score == b.score && AmountOrZero(a) == AmountOrZero(b) && a.item.id <= b.item.id)
  }

  function Triaged(items: seq<Item>, today: int): seq<Row> {
    Sort(First, Rows(items, today, LargeFrom(items)))
  }

  lemma FirstIsOrder()
    ensures IsOrder(First) && forall r: Row :: First(r, r)
  {
  }

  ghost predicate DistinctIds(items: seq<Item>) {
    forall x, y :: x in items && y in items && x.id == y.id ==> x == y
  }

  // ----- the list is the cases, in an order of its own

  lemma {:induction false} RowsAre(items: seq<Item>, today: int, largeFrom: Option<real>)
    ensures |Rows(items, today, largeFrom)| == |items|
    ensures forall i :: 0 <= i < |items| ==> Rows(items, today, largeFrom)[i] == RowOf(items[i], today, largeFrom)
  {
    if items != [] {
      RowsAre(items[1..], today, largeFrom);
    }
  }

  /** Each case is in the list once, with its own flags, and the list is ordered. */
  lemma {:induction false} TriageIsAPermutation(items: seq<Item>, today: int)
    ensures multiset(Triaged(items, today)) == multiset(Rows(items, today, LargeFrom(items)))
    ensures |Triaged(items, today)| == |items| && Ordered(First, Triaged(items, today))
    ensures forall row :: row in Triaged(items, today) ==>
              row.item in items && row == RowOf(row.item, today, LargeFrom(items))
  {
    var rows := Rows(items, today, LargeFrom(items));
    RowsAre(items, today, LargeFrom(items));
    SortPermutes(First, rows);
    FirstIsOrder();
    SortOrders(First, rows);
    forall row | row in Triaged(items, today)
      ensures row.item in items && row == RowOf(row.item, today, LargeFrom(items))
    {
      MultisetMember(Triaged(items, today), rows, row);
    }
  }

  lemma {:induction false} AppendAmounts(a: seq<Item>, b: seq<Item>)
    ensures Amounts(a + b) == Amounts(a) + Amounts(b)
  {
    if a == [] {
      assert a + b == b;
    } else {
      assert (a + b)[0] == a[0] && (a + b)[1..] == a[1..] + b;
      AppendAmounts(a[1..], b);
      assert Amounts(a + b) == OneAmount(a[0]) + (Amounts(a[1..]) + Amounts(b));
    }
  }

  lemma {:induction false} AppendRows(a: seq<Item>, b: seq<Item>, today: int, largeFrom: Option<real>)
    ensures Rows(a + b, today, largeFrom) == Rows(a, today, largeFrom) + Rows(b, today, largeFrom)
  {
    RowsAre(a, today, largeFrom);
    RowsAre(b, today, largeFrom);
    RowsAre(a + b, today, largeFrom);
  }

  lemma {:induction false} TakeOutRows(items: seq<Item>, k: nat, today: int, largeFrom: Option<real>)
    requires k < |items|
    ensures multiset(Rows(items, today, largeFrom)) ==
            multiset(Rows([items[k]], today, largeFrom)) + multiset(Rows(items[..k] + items[k + 1..], today, largeFrom))
  {
    var before, it, after := items[..k], [items[k]], items[k + 1..];
    assert items == before + it + after;
    AppendRows(before + it, after, today, largeFrom);
    AppendRows(before, it, today, largeFrom);
    AppendRows(before, after, today, largeFrom);
  }

  lemma {:induction false} TakeOutAmounts(items: seq<Item>, k: nat)
    requires k < |items|
    ensures multiset(Amounts(items)) == multiset(Amounts([items[k]])) + multiset(Amounts(items[..k] + items[k + 1..]))
  {
    var before, it, after := items[..k], [items[k]], items[k + 1..];
    assert items == before + it + after;
    AppendAmounts(before + it, after);
    AppendAmounts(before, it);
    AppendAmounts(before, after);
  }

  lemma {:induction false} PermuteAmounts(items: seq<Item>, others: seq<Item>)
    requires multiset(items) == multiset(others)
    ensures multiset(Amounts(items)) == multiset(Amounts(others))
  {
    if items == [] {
      assert |others| == |multiset(others)| == |multiset(items)|;
    } else {
      var k := RemoveSame(items, others);
      PermuteAmounts(items[1..], others[..k] + others[k + 1..]);
      TakeOutAmounts(others, k);
      AppendAmounts([items[0]], items[1..]);
      assert items == [items[0]] + items[1..];
    }
  }

  lemma {:induction false} PermuteRows(items: seq<Item>, others: seq<Item>, today: int, largeFrom: Option<real>)
    requires multiset(items) == multiset(others)
    ensures multiset(Rows(items, today, largeFrom)) == multiset(Rows(others, today, largeFrom))
  {
    if items == [] {
      assert |others| == |multiset(others)| == |multiset(items)|;
    } else {
      var k := RemoveSame(items, others);
      PermuteRows(items[1..], others[..k] + others[k + 1..], today, largeFrom);
      TakeOutRows(others, k, today, largeFrom);
      AppendRows([items[0]], items[1..], today, largeFrom);
      assert items == [items[0]] + items[1..];
    }
  }

  lemma LargeFromPermutes(items: seq<Item>, others: seq<Item>)
    requires multiset(items) == multiset(others)
    ensures LargeFrom(items) == LargeFrom(others)
  {
    PermuteAmounts(items, others);
    SortIgnoresInputOrder(Larger, Amounts(items), Amounts(others));
  }

  lemma {:induction false} RowsAreDecided(items: seq<Item>, today: int, largeFrom: Option<real>)
    requires DistinctIds(items)
    ensures Decided(First, Rows(items, today, largeFrom))
  {
    var rows := Rows(items, today, largeFrom);
    RowsAre(items, today, largeFrom);
    forall x, y | x in rows && y in rows && First(x, y) && First(y, x)
      ensures x == y
    {
      var i :| 0 <= i < |rows| && rows[i] == x;
      var j :| 0 <= j < |rows| && rows[j] == y;
      assert x.item == items[i] && y.item == items[j];
    }
  }

  /** What the flags say of the case: overdue from the 31st day after the issue date on, soon in the eight
      days up to the 30th. */
  lemma FlagsMean(item: Item, today: int, largeFrom: Option<real>)
    ensures var row := RowOf(item, today, largeFrom);
            && row.item == item && row.unread == !item.read && row.reviewer == item.reviewPending
            && (row.overdue <==> item.read && item.issued.Some? && today - item.issued.value >= 31)
            && (row.soon <==> item.read && item.issued.Some? && 23 <= today - item.issued.value <= 30)
            && (row.large <==>
                item.read && item.amount.Some? && largeFrom.Some? && item.amount.value >= largeFrom.value)
  {
  }

  /** The score in full: a thousand and the days past the term, a year of them at most; five hundred and the
      days of the last week already gone; and so much for each other flag. */
  lemma ScoreIs(item: Item, today: int, largeFrom: Option<real>)
    ensures var row := RowOf(item, today, largeFrom);
            row.score ==
            (if row.overdue then
               1000 + (if today - item.issued.value - 30 < 365 then today - item.issued.value - 30 else 365)
             else if row.soon then 500 + (today - item.issued.value - 23)
             else 0)
            + (if row.large then 200 else 0) + (if row.reviewer then 50 else 0) + (if row.unread then 25 else 0)
  {
  }

  /** The order cases come in does not matter. */
  lemma TriageIgnoresInputOrder(items: seq<Item>, others: seq<Item>, today: int)
    requires multiset(items) == multiset(others) && DistinctIds(items)
    ensures Triaged(items, today) == Triaged(others, today)
  {
    LargeFromPermutes(items, others);
    PermuteRows(items, others, today, LargeFrom(items));
    RowsAreDecided(items, today, LargeFrom(items));
    FirstIsOrder();
    SortIgnoresInputOrder(First, Rows(items, today, LargeFrom(items)), Rows(others, today, LargeFrom(items)));
  }

  // ----- tiers

  function Tier(row: Row): nat {
    if row.overdue then 0 else if row.soon then 1 else if row.large then 2 else 3
  }

  /** Every overdue case precedes every soon one, then the big ones, then the rest. */
  lemma TiersAreInOrder(items: seq<Item>, today: int, i: nat, j: nat)
    requires i < j < |Triaged(items, today)|
    ensures Tier(Triaged(items, today)[i]) <= Tier(Triaged(items, today)[j])
    ensures var a, b := Triaged(items, today)[i], Triaged(items, today)[j];
            && (b.overdue ==> a.overdue) && (b.soon ==> a.overdue || a.soon)
            && (b.large ==> a.overdue || a.soon || a.large)
  {
    TriageIsAPermutation(items, today);
    var a, b := Triaged(items, today)[i], Triaged(items, today)[j];
    assert First(a, b);
    assert a == RowOf(a.item, today, LargeFrom(items)) && b == RowOf(b.item, today, LargeFrom(items));
  }

  /** How late a case of the two dated tiers is, or how near its term: days, a year at most. */
  function Lateness(row: Row): int
    requires row.daysLeft.Some?
  {
    if row.daysLeft.value < -365 then 365 else -row.daysLeft.value
  }

  /** What the flags beside the date weigh. */
  ghost function Weight(row: Row): int {
    (if row.large then 200 else 0) + (if row.reviewer then 50 else 0) + (if row.unread then 25 else 0)
  }

  /** The amount of a case that has been read; nothing otherwise. */
  ghost function Worth(item: Item): real {
    if item.read && item.amount.Some? then item.amount.value else 0.0
  }

  /** Inside a dated tier the older or closer case goes first exactly when its extra days, up to a year,
      outweigh the other's other flags; a tie goes by amount and then by number. */
  lemma OlderFirstIff(a: Item, b: Item, today: int, largeFrom: Option<real>)
    requires Tier(RowOf(a, today, largeFrom)) == Tier(RowOf(b, today, largeFrom)) <= 1
    ensures var x, y := RowOf(a, today, largeFrom), RowOf(b, today, largeFrom);
            var ahead := Lateness(x) - Lateness(y);
            var owed := Weight(y) - Weight(x);
            First(x, y) <==>
              || ahead > owed
              || (ahead == owed && Worth(a) > Worth(b))
              || (ahead == owed && Worth(a) == Worth(b) && a.id <= b.id)
  {
  }

  /** So a case one day late with a review pending goes before one that is eleven days late. */
  lemma OlderIsNotAlwaysFirst()
    ensures var late, reviewed := Item(1, true, None, Some(-41), false), Item(2, true, None, Some(-31), true);
            var list := Triaged([late, reviewed], 0);
            && list == [RowOf(reviewed, 0, None), RowOf(late, 0, None)]
            && list[0].overdue && list[1].overdue && list[1].daysLeft.value < list[0].daysLeft.value
  {
    var late, reviewed := Item(1, true, None, Some(-41), false), Item(2, true, None, Some(-31), true);
    var items := [late, reviewed];
    assert items[1..] == [reviewed] && [reviewed][1..] == [];
    assert Amounts([reviewed]) == [] && Amounts(items) == [];
    assert LargeFrom(items) == None;
    assert Rows([reviewed], 0, None) == [RowOf(reviewed, 0, None)];
    var rows := [RowOf(late, 0, None), RowOf(reviewed, 0, None)];
    assert Rows(items, 0, None) == rows;
    assert rows[1..] == [RowOf(reviewed, 0, None)] && rows[1..][1..] == [];
    assert Sort(First, rows[1..]) == rows[1..];
    assert Insert(First, rows[0], rows[1..]) == [rows[1], rows[0]];
  }

  // ----- how many are big

  function CountFrom(amounts: seq<real>, from: real, strictly: bool): nat {
    if amounts == [] then 0
    else
      CountFrom(amounts[1..], from, strictly)
      + if amounts[0] > from || (!strictly && amounts[0] == from) then 1 else 0
  }

  lemma {:induction false} CountPermutes(a: seq<real>, b: seq<real>, from: real, strictly: bool)
    requires multiset(a) == multiset(b)
    ensures CountFrom(a, from, strictly) == CountFrom(b, from, strictly)
  {
    assert |a| == |multiset(a)| == |multiset(b)| == |b|;
    if a != [] {
      var k := RemoveSame(a, b);
      CountPermutes(a[1..], b[..k] + b[k + 1..], from, strictly);
      CountTakeOut(b, k, from, strictly);
    }
  }

  lemma {:induction false} CountTakeOut(b: seq<real>, k: nat, from: real, strictly: bool)
    requires k < |b|
    ensures CountFrom(b, from, strictly) ==
            CountFrom(b[..k] + b[k + 1..], from, strictly) + if b[k] > from || (!strictly && b[k] == from) then 1 else 0
  {
    if k > 0 {
      CountTakeOut(b[1..], k - 1, from, strictly);
      assert (b[..k] + b[k + 1..])[1..] == b[1..][..k - 1] + b[1..][k..];
    } else {
      assert b[..0] + b[1..] == b[1..];
    }
  }

  lemma {:induction false} CountInOrder(s: seq<real>, k: nat)
    requires k < |s| && forall i, j :: 0 <= i < j < |s| ==> s[i] >= s[j]
    ensures CountFrom(s, s[k], false) >= k + 1 && CountFrom(s, s[k], true) <= k
    decreases |s|
  {
    if k > 0 {
      CountInOrder(s[1..], k - 1);
    } else {
      NoneAbove(s[1..], s[0]);
    }
  }

  lemma {:induction false} NoneAbove(s: seq<real>, from: real)
    requires forall i :: 0 <= i < |s| ==> s[i] <= from
    ensures CountFrom(s, from, true) == 0
  {
    if s != [] {
      NoneAbove(s[1..], from);
    }
  }

  /** With five amounts or more, at least a fifth of them and one more reach the mark, and no more than a
      fifth are above it. */
  lemma {:induction false} ShareOfLarge(items: seq<Item>)
    requires |Amounts(items)| >= 5
    ensures LargeFrom(items).Some?
    ensures CountFrom(Amounts(items), LargeFrom(items).value, false) >= |Amounts(items)| / 5 + 1
    ensures CountFrom(Amounts(items), LargeFrom(items).value, true) <= |Amounts(items)| / 5
  {
    var amounts := Amounts(items);
    var sorted := Sort(Larger, amounts);
    SortPermutes(Larger, amounts);
    SortOrders(Larger, amounts);
    forall i, j | 0 <= i < j < |sorted|
      ensures sorted[i] >= sorted[j]
    {
      assert Larger(sorted[i], sorted[j]);
    }
    CountInOrder(sorted, |sorted| / 5);
    CountPermutes(sorted, amounts, sorted[|sorted| / 5], false);
    CountPermutes(sorted, amounts, sorted[|sorted| / 5], true);
  }

  /** The large flag counts the amounts that reach the mark. */
  lemma {:induction false} LargeFlagsAreCounted(items: seq<Item>, today: int, largeFrom: real)
    ensures Flagged(Rows(items, today, Some(largeFrom))) == CountFrom(Amounts(items), largeFrom, false)
  {
    if items != [] {
      LargeFlagsAreCounted(items[1..], today, largeFrom);
      var rest := Amounts(items[1..]);
      match AmountOf(items[0])
      case None => assert Amounts(items) == rest;
      case Some(a) => assert Amounts(items) == [a] + rest && ([a] + rest)[1..] == rest;
    }
  }

  function Flagged(rows: seq<Row>): nat {
    if rows == [] then 0 else Flagged(rows[1..]) + if rows[0].large then 1 else 0
  }
}
