// The parser accepts exactly the amounts of the grammar, and reads each as what it denotes.

module AmountGrammar {
  import opened Options
  import opened RuleKit
  import opened Texts
  import opened Amounts

  // ----- strings

  lemma {:induction false} SplitOne(s: string, sep: char)
    requires |Split(s, sep)| == 1
    ensures sep !in s
  {
    if s != "" {
      SplitOne(s[1..], sep);
      assert s == [s[0]] + s[1..];
    }
  }

  lemma {:induction false} SplitTwo(s: string, sep: char)
    requires |Split(s, sep)| == 2
    ensures var parts := Split(s, sep);
            s == parts[0] + [sep] + parts[1] && sep !in parts[0] && sep !in parts[1]
  {
    if s[0] == sep {
      SplitOne(s[1..], sep);
      SplitWhole(s[1..], sep);
      assert s == "" + [sep] + s[1..];
    } else {
      SplitTwo(s[1..], sep);
      assert s == [s[0]] + s[1..];
    }
  }

  lemma DigitsHaveNoSeparator(s: string, sep: char)
    requires (forall c :: c in s ==> IsDigit(c)) && !IsDigit(sep)
    ensures sep !in s
  {
  }

  // ----- groups of three

  lemma {:induction false} GroupsAreGrouped(groups: seq<string>, thousands: char)
    requires AreGroups(groups) && |groups| >= 2 && !IsDigit(thousands)
    ensures Grouped(Separated(groups, thousands), thousands)
    decreases |groups|
  {
    var front, last := groups[..|groups| - 1], groups[|groups| - 1];
    var s := Separated(groups, thousands);
    assert s == Separated(front, thousands) + [thousands] + last;
    assert s[|s| - 3..] == last && s[..|s| - 4] == Separated(front, thousands);
    if |groups| > 2 {
      GroupsAreGrouped(front, thousands);
    } else {
      assert front == [groups[0]];
    }
  }

  lemma {:induction false} WithoutJoined(front: string, last: string, sep: char)
    requires sep !in last
    ensures Without(front + [sep] + last, sep) == Without(front, sep) + last
  {
    var mark := [sep];
    assert Without(mark, sep) == "" by {
      assert mark[1..] == "";
    }
    WithoutAppend(front, mark, sep);
    assert Without(front + mark, sep) == Without(front, sep);
    WithoutAppend(front + mark, last, sep);
    WithoutAbsent(last, sep);
  }

  lemma {:induction false} GroupsConcat(groups: seq<string>, thousands: char)
    requires AreGroups(groups) && !IsDigit(thousands)
    ensures Without(Separated(groups, thousands), thousands) == Concat(groups)
    ensures AllDigits(Concat(groups))
    ensures forall c :: c in Separated(groups, thousands) ==> IsDigit(c) || c == thousands
    decreases |groups|
  {
    if |groups| == 1 {
      WithoutAbsent(groups[0], thousands);
      assert groups[..0] == [] && "" + groups[0] == groups[0];
    } else {
      var front, last := groups[..|groups| - 1], groups[|groups| - 1];
      GroupsConcat(front, thousands);
      WithoutJoined(Separated(front, thousands), last, thousands);
    }
  }

  lemma {:induction false} GroupedHasGroups(left: string, thousands: char) returns (groups: seq<string>)
    requires Grouped(left, thousands)
    ensures AreGroups(groups) && |groups| >= 2 && left == Separated(groups, thousands)
  {
    var front, last := left[..|left| - 4], left[|left| - 3..];
    assert left == front + [thousands] + last;
    if IsHead(front) {
      groups := [front, last];
      assert groups[..1] == [front];
    } else {
      var more := GroupedHasGroups(front, thousands);
      groups := more + [last];
      assert groups[..|groups| - 1] == more;
    }
  }

  // ----- parser and grammar agree

  ghost predicate IsUnsigned(u: string) {
    u != "" && IsDigit(u[0]) && forall c :: c in u ==> IsAmountChar(c)
  }

  lemma WholeIsRead(u: string, cents: nat)
    requires DenotesWhole(u, cents)
    ensures CentsOf(u) == Some(cents)
  {
  }

  lemma PlainIsRead(u: string, units: string, sep: char, decimals: string, cents: nat)
    requires DenotesPlain(u, units, sep, decimals, cents)
    ensures CentsOf(u) == Some(cents)
  {
    var other := if sep == ',' then '.' else ',';
    DigitsHaveNoSeparator(units, sep);
    DigitsHaveNoSeparator(decimals, sep);
    DigitsHaveNoSeparator(units, other);
    DigitsHaveNoSeparator(decimals, other);
    assert other !in u && u[|units|] == sep;
    SplitAtFirst(units, decimals, sep);
    SplitWhole(decimals, sep);
  }

  lemma GroupedIsRead(u: string, groups: seq<string>, sep: char, decimals: string, cents: nat)
    requires DenotesGrouped(u, groups, sep, decimals, cents)
    ensures CentsOf(u) == Some(cents)
  {
    var thousands := if sep == ',' then '.' else ',';
    var left := Separated(groups, thousands);
    GroupsAreRead(groups, thousands);
    DigitsHaveNoSeparator(decimals, sep);
    DigitsHaveNoSeparator(decimals, thousands);
    CentsOfGroups(u, left, sep, thousands, decimals);
  }

  lemma {:induction false} GroupsAreRead(groups: seq<string>, thousands: char)
    requires AreGroups(groups) && |groups| >= 2 && !IsDigit(thousands)
    ensures Grouped(Separated(groups, thousands), thousands) && thousands in Separated(groups, thousands)
    ensures DigitsValue(Without(Separated(groups, thousands), thousands)) == DigitsValue(Concat(groups))
  {
    GroupsAreGrouped(groups, thousands);
    GroupsConcat(groups, thousands);
  }

  /** The decimal separator is the last one, and cuts the text into the groups and the decimals. */
  lemma {:induction false} LastSeparator(u: string, left: string, sep: char, thousands: char, decimals: string)
    requires u == left + [sep] + decimals && sep != thousands
    requires sep !in decimals && thousands !in decimals && thousands in left
    ensures RFind(u, sep) == |left| && 0 <= RFind(u, thousands) < |left|
    ensures u[..|left|] == left && u[|left| + 1..] == decimals
    ensures sep in u && thousands in u
  {
    assert u[|left|] == sep;
    assert forall j :: 0 <= j < |left| ==> u[j] == left[j];
    assert forall j :: |left| < j < |u| ==> u[j] == decimals[j - |left| - 1];
  }

  /** What the parser makes of a text with both separators, the decimal one last. */
  lemma {:induction false} CentsOfGroups(u: string, left: string, sep: char, thousands: char, decimals: string)
    requires u == left + [sep] + decimals
    requires (sep == ',' && thousands == '.') || (sep == '.' && thousands == ',')
    requires sep !in decimals && thousands !in decimals && thousands in left
    requires Grouped(left, thousands) && |decimals| == 2
    ensures CentsOf(u) == Some(DigitsValue(Without(left, thousands)) * 100 + DigitsValue(decimals))
  {
    LastSeparator(u, left, sep, thousands, decimals);
  }

  lemma DenotedIsRead(u: string, cents: nat)
    requires Denotes(u, cents)
    ensures CentsOf(u) == Some(cents)
  {
    if DenotesWhole(u, cents) {
      WholeIsRead(u, cents);
    } else if exists units, sep, decimals :: DenotesPlain(u, units, sep, decimals, cents) {
      var units, sep, decimals :| DenotesPlain(u, units, sep, decimals, cents);
      PlainIsRead(u, units, sep, decimals, cents);
    } else {
      var groups, sep, decimals :| DenotesGrouped(u, groups, sep, decimals, cents);
      GroupedIsRead(u, groups, sep, decimals, cents);
    }
  }

  /** After the last separator of both kinds there are only digits. */
  lemma DigitsAfterLast(u: string, at: nat)
    requires IsUnsigned(u) && at < |u|
    requires forall j :: at < j < |u| ==> u[j] != ',' && u[j] != '.'
    ensures forall c :: c in u[at + 1..] ==> IsDigit(c)
  {
    forall c | c in u[at + 1..]
      ensures IsDigit(c)
    {
      var j :| 0 <= j < |u| - at - 1 && u[at + 1..][j] == c;
      assert u[at + 1 + j] in u;
    }
  }

  lemma GroupedReadingDenotes(u: string, cents: nat)
    requires IsUnsigned(u) && ',' in u && '.' in u && CentsOf(u) == Some(cents)
    ensures Denotes(u, cents)
  {
    var sep := if RFind(u, ',') > RFind(u, '.') then ',' else '.';
    var thousands := if sep == ',' then '.' else ',';
    var at := RFind(u, sep);
    var left, right := u[..at], u[at + 1..];
    assert u == left + [sep] + right;
    DigitsAfterLast(u, at);
    var groups := GroupedHasGroups(left, thousands);
    GroupsConcat(groups, thousands);
    GroupedForm(u, groups, sep, right, cents);
  }

  lemma GroupedForm(u: string, groups: seq<string>, sep: char, decimals: string, cents: nat)
    requires DenotesGrouped(u, groups, sep, decimals, cents)
    ensures Denotes(u, cents)
  {
  }

  lemma PlainReadingDenotes(u: string, cents: nat)
    requires IsUnsigned(u) && !(',' in u && '.' in u) && CentsOf(u) == Some(cents)
    ensures Denotes(u, cents)
  {
    if ',' in u || '.' in u {
      var sep := if ',' in u then ',' else '.';
      SplitTwo(u, sep);
      var parts := Split(u, sep);
      assert parts[0] != "" by {
        assert u[0] == (parts[0] + [sep])[0];
      }
      assert forall c :: c in parts[0] || c in parts[1] ==> c in u;
      assert DenotesPlain(u, parts[0], sep, parts[1], cents);
    } else {
      assert DenotesWhole(u, cents);
    }
  }

  /** The parser reads an unsigned text as an amount exactly when the grammar says so, and as no other
      amount: no text has two values. */
  lemma ParserIsTheGrammar(u: string, cents: nat)
    requires IsUnsigned(u)
    ensures CentsOf(u) == Some(cents) <==> Denotes(u, cents)
  {
    if Denotes(u, cents) {
      DenotedIsRead(u, cents);
    }
    if CentsOf(u) == Some(cents) {
      if ',' in u && '.' in u {
        GroupedReadingDenotes(u, cents);
      } else {
        PlainReadingDenotes(u, cents);
      }
    }
  }

  /** A text that is, after an optional sign, an unsigned amount the grammar gives `cents`. */
  ghost predicate Reads(s: string, sign: string, u: string, cents: nat) {
    && s == sign + u && sign in ["", "+", "-"]
    && IsUnsigned(u) && Denotes(u, cents) && cents < LIMIT
  }

  lemma SignComesOff(sign: string, u: string)
    requires sign in ["", "+", "-"] && u != "" && IsDigit(u[0])
    ensures Unsigned(sign + u) == u && (IsNegative(sign + u) <==> sign == "-")
  {
    var s := sign + u;
    if sign == "" {
      assert s == u;
    } else {
      assert s[1..] == u;
    }
  }

  /** What is read is an amount of the grammar with its sign ... */
  lemma OkIsAmount(s: string) returns (sign: string, u: string, cents: nat)
    requires MoneyOf(s).Ok?
    ensures Reads(s, sign, u, cents) && MoneyOf(s) == Ok(Canonical(sign == "-", cents))
  {
    sign := SplitSign(s);
    u, cents := Unsigned(s), CentsOf(Unsigned(s)).value;
    ParserIsTheGrammar(u, cents);
  }

  lemma SplitSign(s: string) returns (sign: string)
    requires LooksLikeAmount(s)
    ensures s == sign + Unsigned(s) && sign in ["", "+", "-"] && (IsNegative(s) <==> sign == "-")
    ensures IsUnsigned(Unsigned(s))
  {
    if s[0] == '+' {
      sign := "+";
    } else if s[0] == '-' {
      sign := "-";
    } else {
      sign := "";
    }
    assert s == sign + Unsigned(s);
  }

  /** ... and every such amount is read. */
  lemma AmountIsOk(s: string, sign: string, u: string, cents: nat)
    requires Reads(s, sign, u, cents)
    ensures MoneyOf(s) == Ok(Canonical(sign == "-", cents))
  {
    SignComesOff(sign, u);
    ParserIsTheGrammar(u, cents);
  }

  /** So a text is accepted exactly when it is one: letters, a second sign or a stray mark refuse it. */
  lemma AcceptedIff(s: string)
    ensures MoneyOf(s).Ok? <==> exists sign, u, cents :: Reads(s, sign, u, cents)
  {
    if MoneyOf(s).Ok? {
      var sign, u, cents := OkIsAmount(s);
    }
    if sign, u, cents :| Reads(s, sign, u, cents) {
      AmountIsOk(s, sign, u, cents);
    }
  }

  lemma NoTextHasTwoValues(u: string, a: nat, b: nat)
    requires Denotes(u, a) && Denotes(u, b)
    ensures a == b
  {
    DenotedIsRead(u, a);
    DenotedIsRead(u, b);
  }

  /** A lone separator before three digits says neither thousands nor decimals: refused. */
  lemma LoneSeparatorBeforeThreeIsRefused(units: string, sep: char, three: string)
    requires (sep == ',' || sep == '.') && AllDigits(units) && IsGroup(three)
    ensures MoneyOf(units + [sep] + three) == Invalid
  {
    var u := units + [sep] + three;
    DigitsHaveNoSeparator(units, sep);
    DigitsHaveNoSeparator(three, sep);
    SplitAtFirst(units, three, sep);
    SplitWhole(three, sep);
    assert u[0] == units[0] && IsDigit(u[0]);
    assert u[|units|] == sep;
    DigitsHaveNoSeparator(units, if sep == ',' then '.' else ',');
    DigitsHaveNoSeparator(three, if sep == ',' then '.' else ',');
  }
}
