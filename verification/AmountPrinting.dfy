// Round trips: every way of printing an amount of cents is read back as that amount's canonical
// text, and the canonical text as itself.

module AmountPrinting {
  import opened RuleKit
  import opened Texts
  import opened Amounts
  import opened AmountGrammar
  import opened AmountCleaning

  // ----- printing

  function ThreeDigits(n: nat): string
    requires n < 1000
  {
    [Digit(n / 100), Digit(n / 10 % 10), Digit(n % 10)]
  }

  function GroupsOf(n: nat): seq<string> {
    if n < 1000 then [Digits(n)] else GroupsOf(n / 1000) + [ThreeDigits(n % 1000)]
  }

  /** 1802.90, with either separator. */
  function Plain(cents: nat, sep: char): string {
    Digits(cents / 100) + [sep] + TwoDigits(cents % 100)
  }

  /** 1.802,90 or 1,802.90: groups of three, and the other separator before the decimals. */
  function InGroups(cents: nat, sep: char): string {
    Separated(GroupsOf(cents / 100), if sep == ',' then '.' else ',') + [sep] + TwoDigits(cents % 100)
  }

  lemma ValueOfTwo(n: nat)
    requires n < 100
    ensures AllDigits(TwoDigits(n)) && Value(TwoDigits(n)) == n
  {
    var s := TwoDigits(n);
    assert s[..1] == [Digit(n / 10)] && s[..1][..0] == "";
    assert Value(s[..1]) == n / 10;
  }

  lemma {:induction false} DigitsAtMostThree(n: nat)
    requires n < 1000
    ensures |Digits(n)| <= 3
  {
    assert n >= 10 ==> Digits(n) == Digits(n / 10) + [Digit(n % 10)];
    assert n >= 100 ==> Digits(n / 10) == Digits(n / 100) + [Digit(n / 10 % 10)];
  }

  lemma {:induction false} ValueAppend(s: string, d: nat)
    requires (forall c :: c in s ==> IsDigit(c)) && d < 10
    ensures Value(s + [Digit(d)]) == Value(s) * 10 + d
  {
    assert (s + [Digit(d)])[..|s|] == s;
  }

  lemma {:induction false} ValueAppendThree(s: string, n: nat)
    requires (forall c :: c in s ==> IsDigit(c)) && n < 1000
    ensures Value(s + ThreeDigits(n)) == Value(s) * 1000 + n
  {
    var hundreds := s + [Digit(n / 100)];
    var tens := hundreds + [Digit(n / 10 % 10)];
    ValueAppend(s, n / 100);
    ValueAppend(hundreds, n / 10 % 10);
    ValueAppend(tens, n % 10);
    assert s + ThreeDigits(n) == tens + [Digit(n % 10)];
    assert n == n / 100 * 100 + n / 10 % 10 * 10 + n % 10;
  }

  lemma {:induction false} OneMoreGroup(groups: seq<string>, n: nat)
    requires AreGroups(groups) && n < 1000
    ensures AreGroups(groups + [ThreeDigits(n)])
    ensures Concat(groups + [ThreeDigits(n)]) == Concat(groups) + ThreeDigits(n)
  {
  }

  lemma {:induction false} GroupsDenote(n: nat)
    ensures AreGroups(GroupsOf(n)) && AllDigits(Concat(GroupsOf(n))) && Value(Concat(GroupsOf(n))) == n
    ensures n >= 1000 ==> |GroupsOf(n)| >= 2
  {
    var groups := GroupsOf(n);
    if n < 1000 {
      DigitsAtMostThree(n);
      ValueOfDigits(n);
      assert groups[..0] == [] && "" + Digits(n) == Digits(n);
    } else {
      GroupsDenote(n / 1000);
      OneMoreGroup(GroupsOf(n / 1000), n % 1000);
      ValueAppendThree(Concat(GroupsOf(n / 1000)), n % 1000);
    }
  }

  lemma PlainDenotes(cents: nat, sep: char)
    requires sep == ',' || sep == '.'
    ensures Denotes(Plain(cents, sep), cents) && IsUnsigned(Plain(cents, sep))
  {
    ValueOfDigits(cents / 100);
    ValueOfTwo(cents % 100);
    assert DenotesPlain(Plain(cents, sep), Digits(cents / 100), sep, TwoDigits(cents % 100), cents);
    assert Plain(cents, sep)[0] == Digits(cents / 100)[0];
  }

  lemma {:induction false} GroupsAreAmount(n: nat, thousands: char)
    requires thousands == ',' || thousands == '.'
    ensures IsUnsigned(Separated(GroupsOf(n), thousands))
  {
    GroupsDenote(n);
    GroupsConcat(GroupsOf(n), thousands);
    StartsWithHead(GroupsOf(n), thousands);
  }

  lemma {:induction false} StartsWithHead(groups: seq<string>, thousands: char)
    requires AreGroups(groups)
    ensures Separated(groups, thousands) != "" && IsDigit(Separated(groups, thousands)[0])
    decreases |groups|
  {
    if |groups| > 1 {
      StartsWithHead(groups[..|groups| - 1], thousands);
    } else {
      assert groups[0][0] in groups[0];
    }
  }

  lemma InGroupsDenotes(cents: nat, sep: char)
    requires sep == ',' || sep == '.'
    ensures Denotes(InGroups(cents, sep), cents) && IsUnsigned(InGroups(cents, sep))
  {
    var thousands := if sep == ',' then '.' else ',';
    GroupsDenote(cents / 100);
    GroupsAreAmount(cents / 100, thousands);
    ValueOfTwo(cents % 100);
    assert InGroups(cents, sep)[0] == Separated(GroupsOf(cents / 100), thousands)[0];
    if cents / 100 >= 1000 {
      GroupedForm(InGroups(cents, sep), GroupsOf(cents / 100), sep, TwoDigits(cents % 100), cents);
    } else {
      PlainDenotes(cents, sep);
    }
  }

  // ----- what the amount is wrapped in

  datatype Sign = NoSign | Plus | Minus | TypographicMinus | Parentheses

  function Opening(sign: Sign): string {
    match sign
    case NoSign => "" case Plus => "+" case Minus => "-" case TypographicMinus => ['\U{2212}'] case Parentheses => "("
  }

  function Closing(sign: Sign): string {
    if sign == Parentheses then ")" else ""
  }

  predicate Negates(sign: Sign) {
    sign in {Minus, TypographicMinus, Parentheses}
  }

  /** A currency code in any case, a currency symbol, or nothing. */
  predicate IsMark(m: string) {
    m == "" || (|m| == 3 && Lower(m) in CODES) || (|m| == 1 && m[0] in SYMBOLS)
  }

  function Pre(m: string, spaced: bool): string {
    m + Space(m, spaced)
  }

  function Post(m: string, spaced: bool): string {
    Space(m, spaced) + m
  }

  function Space(m: string, spaced: bool): string {
    if spaced && m != "" then " " else ""
  }

  /** Where currency marks may stand: around the sign and inside it, on both sides. */
  datatype Marks = Marks(before: string, spaceBefore: bool, inner: string, spaceInner: bool,
                         innerAfter: string, spaceInnerAfter: bool, after: string, spaceAfter: bool)

  predicate MarksOk(m: Marks) {
    IsMark(m.before) && IsMark(m.inner) && IsMark(m.innerAfter) && IsMark(m.after)
  }

  function Written(sign: Sign, m: Marks, u: string): string {
    Pre(m.before, m.spaceBefore)
    + (Opening(sign) + (Pre(m.inner, m.spaceInner) + u + Post(m.innerAfter, m.spaceInnerAfter)) + Closing(sign))
    + Post(m.after, m.spaceAfter)
  }

  predicate IsMoneyChar(c: char) {
    || IsAmountChar(c) || 'a' <= c <= 'z' || 'A' <= c <= 'Z' || c in SYMBOLS
    || c in ['+', '-', '\U{2212}', '(', ')', ' ']
  }

  /** NFKC leaves plain characters alone. */
  ghost predicate KeepsMoneyChars(nfkc: string -> string) {
    forall s :: (forall c :: c in s ==> IsMoneyChar(c)) ==> nfkc(s) == s
  }

  /** Single spaces inside and none outside. */
  ghost predicate Tidy(s: string) {
    && s != "" && s[0] != ' ' && s[|s| - 1] != ' '
    && (forall i :: 0 <= i < |s| ==> IsMoneyChar(s[i]))
    && (forall i :: 0 <= i < |s| - 1 ==> !(s[i] == ' ' && s[i + 1] == ' '))
  }

  lemma OnlySpaceIsSpace(c: char)
    requires IsMoneyChar(c)
    ensures IsSpace(c) <==> c == ' '
    ensures !IsInvisible(c)
  {
  }

  lemma CleanKeeps(nfkc: string -> string, s: string)
    requires KeepsMoneyChars(nfkc) && Tidy(s)
    ensures CleanText(nfkc, s) == s
  {
    forall i | 0 <= i < |s|
      ensures (IsSpace(s[i]) <==> s[i] == ' ') && !IsInvisible(s[i])
    {
      OnlySpaceIsSpace(s[i]);
    }
    OneSpaceKeeps(s);
    NothingInvisible(s);
    forall c | c in s
      ensures IsMoneyChar(c)
    {
      var i :| 0 <= i < |s| && s[i] == c;
    }
    assert nfkc(s) == s;
    OnlySpaceIsSpace(s[0]);
    OnlySpaceIsSpace(s[|s| - 1]);
  }

  lemma MarkIsTidy(m: string)
    requires IsMark(m) && m != ""
    ensures Tidy(m)
  {
  }

  lemma TidyBoth(a: string, b: string)
    requires Tidy(a) && Tidy(b)
    ensures Tidy(a + b) && Tidy(a + " " + b)
  {
  }

  lemma TidySigned(sign: Sign, x: string)
    requires Tidy(x)
    ensures Tidy(Opening(sign) + x + Closing(sign))
  {
  }

  lemma TidyWritten(sign: Sign, m: Marks, u: string)
    requires MarksOk(m) && Tidy(u)
    ensures Tidy(Written(sign, m, u))
  {
    var x := TidyMarked(m.inner, m.spaceInner, u, m.innerAfter, m.spaceInnerAfter);
    TidySigned(sign, x);
    var z := TidyMarked(m.before, m.spaceBefore, Opening(sign) + x + Closing(sign), m.after, m.spaceAfter);
  }

  lemma TidyPre(a: string, spaced: bool, x: string)
    requires IsMark(a) && Tidy(x)
    ensures Tidy(Pre(a, spaced) + x)
  {
    if a == "" {
      assert Pre(a, spaced) + x == x;
    } else {
      MarkIsTidy(a);
      TidyBoth(a, x);
      if spaced {
        assert Pre(a, spaced) == a + " ";
      } else {
        assert Pre(a, spaced) == a;
      }
    }
  }

  lemma TidyPost(x: string, b: string, spaced: bool)
    requires IsMark(b) && Tidy(x)
    ensures Tidy(x + Post(b, spaced))
  {
    if b == "" {
      assert x + Post(b, spaced) == x;
    } else {
      MarkIsTidy(b);
      TidyBoth(x, b);
      if spaced {
        assert x + Post(b, spaced) == x + " " + b;
      } else {
        assert Post(b, spaced) == b;
      }
    }
  }

  lemma TidyMarked(a: string, spaceA: bool, u: string, b: string, spaceB: bool) returns (x: string)
    requires IsMark(a) && IsMark(b) && Tidy(u)
    ensures x == Pre(a, spaceA) + u + Post(b, spaceB) && Tidy(x)
  {
    x := Pre(a, spaceA) + u + Post(b, spaceB);
    TidyPre(a, spaceA, u);
    TidyPost(Pre(a, spaceA) + u, b, spaceB);
  }

  // ----- unwrapping

  lemma {:induction false} ReplaceAppend(a: string, b: string, from: char, to: char)
    ensures Replace(a + b, from, to) == Replace(a, from, to) + Replace(b, from, to)
  {
    if a == "" {
      assert a + b == b;
    } else {
      assert (a + b)[0] == a[0] && (a + b)[1..] == a[1..] + b;
      ReplaceAppend(a[1..], b, from, to);
      Regroup([if a[0] == from then to else a[0]], Replace(a[1..], from, to), Replace(b, from, to));
    }
  }

  lemma {:induction false} ReplaceAbsent(s: string, from: char, to: char)
    requires from !in s
    ensures Replace(s, from, to) == s
  {
    if s != "" {
      ReplaceAbsent(s[1..], from, to);
      assert s == [s[0]] + s[1..];
    }
  }

  /** Characters no currency mark starts with. */
  predicate IsInert(c: char) {
    LowerChar(c) !in ['e', 'u', 'g'] && c !in SYMBOLS
  }

  lemma {:induction false} InertGoesFirst(s: string)
    requires s != "" && IsInert(s[0])
    ensures WithoutMarks(s) == [s[0]] + WithoutMarks(s[1..])
  {
  }

  lemma {:induction false} InertStays(a: string, rest: string)
    requires forall i :: 0 <= i < |a| ==> IsInert(a[i])
    ensures WithoutMarks(a + rest) == a + WithoutMarks(rest)
  {
    if a == "" {
      assert a + rest == rest;
    } else {
      assert (a + rest)[0] == a[0] && (a + rest)[1..] == a[1..] + rest;
      InertGoesFirst(a + rest);
      InertStays(a[1..], rest);
      Regroup([a[0]], a[1..], WithoutMarks(rest));
      assert [a[0]] + a[1..] == a;
    }
  }

  lemma {:induction false} MarkGoes(m: string, rest: string)
    requires IsMark(m)
    ensures WithoutMarks(m + rest) == WithoutMarks(rest)
  {
    var s := m + rest;
    if m == "" {
      assert s == rest;
    } else if |m| == 3 {
      assert s[..3] == m && s[3..] == rest;
    } else {
      assert s[0] == m[0] && s[1..] == rest;
      if |s| >= 3 {
        assert Lower(s[..3])[0] == LowerChar(m[0]) == m[0];
      }
    }
  }

  lemma {:induction false} PreGoes(m: string, spaced: bool, rest: string)
    requires IsMark(m)
    ensures WithoutMarks(Pre(m, spaced) + rest) == Space(m, spaced) + WithoutMarks(rest)
  {
    assert Pre(m, spaced) + rest == m + (Space(m, spaced) + rest);
    MarkGoes(m, Space(m, spaced) + rest);
    InertStays(Space(m, spaced), rest);
  }

  lemma {:induction false} PostGoes(m: string, spaced: bool, rest: string)
    requires IsMark(m)
    ensures WithoutMarks(Post(m, spaced) + rest) == Space(m, spaced) + WithoutMarks(rest)
  {
    assert Post(m, spaced) + rest == Space(m, spaced) + (m + rest);
    InertStays(Space(m, spaced), m + rest);
    MarkGoes(m, rest);
  }

  /** The marks gone, only spaces are left where they stood. */
  function Unmarked(sign: Sign, m: Marks, u: string): string {
    Space(m.before, m.spaceBefore)
    + (Opening(sign) + (Space(m.inner, m.spaceInner) + (u + (Space(m.innerAfter, m.spaceInnerAfter)
                                                             + (Closing(sign) + Space(m.after, m.spaceAfter))))))
  }

  lemma Reassociate(a: string, b: string, c: string, d: string, e: string, f: string, g: string)
    ensures a + (b + (c + d + e) + f) + g == a + (b + (c + (d + (e + (f + g)))))
  {
  }

  lemma {:induction false} InnerMarksGo(m: Marks, u: string, rest: string)
    requires MarksOk(m) && IsUnsigned(u)
    ensures WithoutMarks(Pre(m.inner, m.spaceInner) + (u + (Post(m.innerAfter, m.spaceInnerAfter) + rest)))
         == Space(m.inner, m.spaceInner) + (u + (Space(m.innerAfter, m.spaceInnerAfter) + WithoutMarks(rest)))
  {
    PostGoes(m.innerAfter, m.spaceInnerAfter, rest);
    AmountChars(u);
    InertStays(u, Post(m.innerAfter, m.spaceInnerAfter) + rest);
    PreGoes(m.inner, m.spaceInner, u + (Post(m.innerAfter, m.spaceInnerAfter) + rest));
  }

  lemma ClosingMarkGoes(sign: Sign, m: Marks)
    requires MarksOk(m)
    ensures WithoutMarks(Closing(sign) + Post(m.after, m.spaceAfter)) == Closing(sign) + Space(m.after, m.spaceAfter)
  {
    InertStays(Closing(sign), Post(m.after, m.spaceAfter));
    PostGoes(m.after, m.spaceAfter, "");
    assert Post(m.after, m.spaceAfter) + "" == Post(m.after, m.spaceAfter);
    assert Space(m.after, m.spaceAfter) + "" == Space(m.after, m.spaceAfter);
  }

  lemma MarksGo(sign: Sign, m: Marks, u: string)
    requires MarksOk(m) && IsUnsigned(u) && sign != TypographicMinus
    ensures WithoutMarks(Written(sign, m, u)) == Unmarked(sign, m, u)
  {
    var rest := Closing(sign) + Post(m.after, m.spaceAfter);
    var inner := Pre(m.inner, m.spaceInner) + (u + (Post(m.innerAfter, m.spaceInnerAfter) + rest));
    Reassociate(Pre(m.before, m.spaceBefore), Opening(sign), Pre(m.inner, m.spaceInner), u,
                Post(m.innerAfter, m.spaceInnerAfter), Closing(sign), Post(m.after, m.spaceAfter));
    PreGoes(m.before, m.spaceBefore, Opening(sign) + inner);
    InsideMarksGo(sign, m, u);
  }

  lemma {:induction false} InsideMarksGo(sign: Sign, m: Marks, u: string)
    requires MarksOk(m) && IsUnsigned(u) && sign != TypographicMinus
    ensures WithoutMarks(Opening(sign)
                         + (Pre(m.inner, m.spaceInner)
                            + (u + (Post(m.innerAfter, m.spaceInnerAfter)
                                    + (Closing(sign) + Post(m.after, m.spaceAfter))))))
         == Opening(sign)
            + (Space(m.inner, m.spaceInner)
               + (u + (Space(m.innerAfter, m.spaceInnerAfter)
                       + (Closing(sign) + Space(m.after, m.spaceAfter)))))
  {
    var rest := Closing(sign) + Post(m.after, m.spaceAfter);
    InertStays(Opening(sign), Pre(m.inner, m.spaceInner) + (u + (Post(m.innerAfter, m.spaceInnerAfter) + rest)));
    InnerMarksGo(m, u, rest);
    ClosingMarkGoes(sign, m);
  }

  lemma AmountChars(u: string)
    requires IsUnsigned(u)
    ensures forall i :: 0 <= i < |u| ==> IsInert(u[i]) && IsAmountChar(u[i])
  {
  }

  lemma {:induction false} StripTakesSpaces(s: string)
    requires forall i :: 0 <= i < |s| ==> IsMoneyChar(s[i])
    ensures Without(Strip(s), ' ') == Without(s, ' ')
    ensures forall c :: c in Strip(s) ==> c in s
    decreases |s|
  {
    if s != "" && IsSpace(s[0]) {
      OnlySpaceIsSpace(s[0]);
      StripTakesSpaces(s[1..]);
    } else if s != "" && IsSpace(s[|s| - 1]) {
      OnlySpaceIsSpace(s[|s| - 1]);
      StripTakesSpaces(s[..|s| - 1]);
      assert s == s[..|s| - 1] + " ";
      WithoutAppend(s[..|s| - 1], " ", ' ');
      assert " "[1..] == "" && Without(" ", ' ') == "";
    }
  }

  lemma SpaceGoes(m: string, spaced: bool)
    ensures Without(Space(m, spaced), ' ') == ""
  {
  }

  lemma {:induction false} WithoutSix(a: string, b: string, c: string, d: string, e: string, f: string, x: char)
    ensures Without(a + (b + (c + (d + (e + f)))), x) ==
            Without(a, x) + (Without(b, x) + (Without(c, x) + (Without(d, x) + (Without(e, x) + Without(f, x)))))
  {
    WithoutAppend(e, f, x);
    WithoutAppend(d, e + f, x);
    WithoutAppend(c, d + (e + f), x);
    WithoutAppend(b, c + (d + (e + f)), x);
    WithoutAppend(a, b + (c + (d + (e + f))), x);
  }

  lemma SpacesGo(sign: Sign, m: Marks, u: string)
    requires IsUnsigned(u)
    ensures Without(Unmarked(sign, m, u), ' ') == Opening(sign) + (u + Closing(sign))
  {
    AmountChars(u);
    WithoutAbsent(u, ' ');
    WithoutAbsent(Opening(sign), ' ');
    WithoutAbsent(Closing(sign), ' ');
    SpaceGoes(m.before, m.spaceBefore);
    SpaceGoes(m.inner, m.spaceInner);
    SpaceGoes(m.innerAfter, m.spaceInnerAfter);
    SpaceGoes(m.after, m.spaceAfter);
    WithoutAppend(Closing(sign), Space(m.after, m.spaceAfter), ' ');
    WithoutSix(Space(m.before, m.spaceBefore), Opening(sign), Space(m.inner, m.spaceInner), u,
               Space(m.innerAfter, m.spaceInnerAfter), Closing(sign) + Space(m.after, m.spaceAfter), ' ');
    DropEmpty(Opening(sign), u, Closing(sign));
  }

  lemma DropEmpty(a: string, b: string, c: string)
    ensures "" + (a + ("" + (b + ("" + (c + ""))))) == a + (b + c)
  {
  }

  lemma MarkHasNoMinus(m: string, spaced: bool)
    requires IsMark(m)
    ensures '\U{2212}' !in Pre(m, spaced) && '\U{2212}' !in Post(m, spaced)
    ensures '(' !in Space(m, spaced)
  {
  }

  lemma {:induction false} ReplaceFive(a: string, b: string, c: string, d: string, e: string, from: char, to: char)
    ensures Replace(a + (b + c + d) + e, from, to) ==
            Replace(a, from, to) + (Replace(b, from, to) + Replace(c, from, to) + Replace(d, from, to))
            + Replace(e, from, to)
  {
    ReplaceAppend(a + (b + c + d), e, from, to);
    ReplaceAppend(a, b + c + d, from, to);
    ReplaceAppend(b + c, d, from, to);
    ReplaceAppend(b, c, from, to);
  }

  lemma InnerHasNoMinus(m: Marks, u: string)
    requires MarksOk(m) && IsUnsigned(u)
    ensures '\U{2212}' !in Pre(m.inner, m.spaceInner) + u + Post(m.innerAfter, m.spaceInnerAfter)
  {
    MarkHasNoMinus(m.inner, m.spaceInner);
    MarkHasNoMinus(m.innerAfter, m.spaceInnerAfter);
    AmountChars(u);
  }

  lemma SignIsPlain(sign: Sign)
    ensures var plain := if sign == TypographicMinus then Minus else sign;
            && Replace(Opening(sign), '\U{2212}', '-') == Opening(plain)
            && Replace(Closing(sign), '\U{2212}', '-') == Closing(plain)
  {
  }

  /** The typographic minus becomes a plain one, and nothing else changes. */
  lemma MinusIsPlain(sign: Sign, m: Marks, u: string)
    requires MarksOk(m) && IsUnsigned(u)
    ensures Replace(Written(sign, m, u), '\U{2212}', '-') ==
            Written(if sign == TypographicMinus then Minus else sign, m, u)
  {
    var x := Pre(m.inner, m.spaceInner) + u + Post(m.innerAfter, m.spaceInnerAfter);
    InnerHasNoMinus(m, u);
    MarkHasNoMinus(m.before, m.spaceBefore);
    MarkHasNoMinus(m.after, m.spaceAfter);
    ReplaceFive(Pre(m.before, m.spaceBefore), Opening(sign), x, Closing(sign), Post(m.after, m.spaceAfter),
                '\U{2212}', '-');
    ReplaceAbsent(Pre(m.before, m.spaceBefore), '\U{2212}', '-');
    ReplaceAbsent(x, '\U{2212}', '-');
    ReplaceAbsent(Post(m.after, m.spaceAfter), '\U{2212}', '-');
    SignIsPlain(sign);
  }

  lemma UnsignedIsTidy(u: string)
    requires IsUnsigned(u)
    ensures Tidy(u)
  {
    AmountChars(u);
  }

  predicate AllMoney(s: string) {
    forall i :: 0 <= i < |s| ==> IsMoneyChar(s[i])
  }

  lemma SevenPieces(a: string, b: string, c: string, d: string, e: string, f: string, g: string)
    requires AllMoney(a) && AllMoney(b) && AllMoney(c) && AllMoney(d) && AllMoney(e) && AllMoney(f) && AllMoney(g)
    ensures AllMoney(a + (b + (c + (d + (e + (f + g))))))
    ensures '(' !in a && '(' !in b && '(' !in c && '(' !in d && '(' !in e && '(' !in f && '(' !in g ==>
              '(' !in a + (b + (c + (d + (e + (f + g)))))
  {
  }

  lemma UnmarkedChars(sign: Sign, m: Marks, u: string)
    requires MarksOk(m) && IsUnsigned(u)
    ensures AllMoney(Unmarked(sign, m, u))
    ensures sign != Parentheses ==> '(' !in Unmarked(sign, m, u)
  {
    AmountChars(u);
    SevenPieces(Space(m.before, m.spaceBefore), Opening(sign), Space(m.inner, m.spaceInner), u,
                Space(m.innerAfter, m.spaceInnerAfter), Closing(sign), Space(m.after, m.spaceAfter));
  }

  lemma {:induction false} StripParentheses(before: string, middle: string, after: string)
    requires before in ["", " "] && after in ["", " "]
    ensures Strip(before + ("(" + middle + ")") + after) == "(" + middle + ")"
  {
    var core := "(" + middle + ")";
    assert !IsSpace('(') && !IsSpace(')');
    assert Strip(core) == core;
    assert Strip(core + after) == core by {
      if after == " " {
        assert (core + " ")[..|core + " "| - 1] == core;
      } else {
        assert core + after == core;
      }
    }
    if before == " " {
      assert (before + core + after)[1..] == core + after;
    } else {
      assert before + core + after == core + after;
    }
  }

  lemma {:induction false} MiddleSpacesGo(m: Marks, u: string)
    requires IsUnsigned(u)
    ensures Without("-" + (Space(m.inner, m.spaceInner) + (u + Space(m.innerAfter, m.spaceInnerAfter))), ' ') == "-" + u
  {
    var left, right := Space(m.inner, m.spaceInner), Space(m.innerAfter, m.spaceInnerAfter);
    AmountChars(u);
    WithoutAbsent(u, ' ');
    WithoutAbsent("-", ' ');
    SpaceGoes(m.inner, m.spaceInner);
    SpaceGoes(m.innerAfter, m.spaceInnerAfter);
    WithoutAppend("-", left + (u + right), ' ');
    WithoutAppend(left, u + right, ' ');
    WithoutAppend(u, right, ' ');
    assert u + "" == u && "" + u == u;
  }

  lemma WithParentheses(m: Marks, u: string)
    requires IsUnsigned(u)
    ensures Without(Unwrapped(Strip(Unmarked(Parentheses, m, u))), ' ') == "-" + u
  {
    var middle := Space(m.inner, m.spaceInner) + (u + Space(m.innerAfter, m.spaceInnerAfter));
    RegroupParentheses(Space(m.before, m.spaceBefore), Space(m.inner, m.spaceInner), u,
                       Space(m.innerAfter, m.spaceInnerAfter), Space(m.after, m.spaceAfter));
    StripParentheses(Space(m.before, m.spaceBefore), middle, Space(m.after, m.spaceAfter));
    UnwrapParentheses(middle);
    MiddleSpacesGo(m, u);
  }

  lemma UnwrapParentheses(middle: string)
    ensures Unwrapped("(" + middle + ")") == "-" + middle
  {
  }

  lemma RegroupParentheses(a: string, b: string, c: string, d: string, e: string)
    ensures a + ("(" + (b + (c + (d + (")" + e))))) == a + ("(" + (b + (c + d)) + ")") + e
  {
  }

  function SignText(sign: Sign): string {
    if Negates(sign) then "-" else if sign == Plus then "+" else ""
  }

  lemma UnmarkedReduces(sign: Sign, m: Marks, u: string)
    requires MarksOk(m) && IsUnsigned(u) && sign != TypographicMinus
    ensures Without(Unwrapped(Strip(Unmarked(sign, m, u))), ' ') == SignText(sign) + u
  {
    if sign == Parentheses {
      WithParentheses(m, u);
    } else {
      UnmarkedChars(sign, m, u);
      StripTakesSpaces(Unmarked(sign, m, u));
      assert Unwrapped(Strip(Unmarked(sign, m, u))) == Strip(Unmarked(sign, m, u));
      SpacesGo(sign, m, u);
      assert u + "" == u;
    }
  }

  /** However it is wrapped, an amount reduces to its sign and its digits. */
  lemma ReducesToAmount(nfkc: string -> string, sign: Sign, m: Marks, u: string)
    requires KeepsMoneyChars(nfkc) && MarksOk(m) && IsUnsigned(u)
    ensures Reduced(nfkc, Written(sign, m, u)) == SignText(sign) + u
  {
    var plain := if sign == TypographicMinus then Minus else sign;
    UnsignedIsTidy(u);
    TidyWritten(sign, m, u);
    CleanKeeps(nfkc, Written(sign, m, u));
    MinusIsPlain(sign, m, u);
    MarksGo(plain, m, u);
    UnmarkedReduces(plain, m, u);
  }

  // ----- the round trips

  lemma SignedAmount(sign: Sign, u: string, cents: nat)
    requires IsUnsigned(u) && Denotes(u, cents)
    ensures MoneyOf(SignText(sign) + u) == if cents < LIMIT then Ok(Canonical(Negates(sign), cents)) else Invalid
  {
    SignTextComesOff(sign, u);
    DenotedIsRead(u, cents);
  }

  lemma SignTextComesOff(sign: Sign, u: string)
    requires IsUnsigned(u)
    ensures var s := SignText(sign) + u;
            Unsigned(s) == u && LooksLikeAmount(s) && (IsNegative(s) <==> Negates(sign))
  {
    var s := SignText(sign) + u;
    if SignText(sign) == "" {
      assert s == u;
    } else {
      assert s[1..] == u;
    }
  }

  /** Any amount, in either convention or none, with any sign and any currency marks, is read as its
      canonical text; 27 integer digits or more are refused. */
  lemma EveryPrintingIsRead(nfkc: string -> string, sign: Sign, m: Marks, cents: nat, sep: char)
    requires KeepsMoneyChars(nfkc) && MarksOk(m) && (sep == ',' || sep == '.')
    ensures var read := if cents < LIMIT then Ok(Canonical(Negates(sign), cents)) else Invalid;
            && Money(nfkc, Written(sign, m, Plain(cents, sep))) == read
            && Money(nfkc, Written(sign, m, InGroups(cents, sep))) == read
  {
    PlainDenotes(cents, sep);
    InGroupsDenotes(cents, sep);
    ReducesToAmount(nfkc, sign, m, Plain(cents, sep));
    ReducesToAmount(nfkc, sign, m, InGroups(cents, sep));
    SignedAmount(sign, Plain(cents, sep), cents);
    SignedAmount(sign, InGroups(cents, sep), cents);
  }

  const BARE := Marks("", false, "", false, "", false, "", false)

  /** Reading a canonical text again changes nothing; a negative zero keeps its sign. */
  lemma MoneyIsIdempotent(nfkc: string -> string, value: string)
    requires KeepsMoneyChars(nfkc) && Money(nfkc, value).Ok?
    ensures Money(nfkc, Money(nfkc, value).text) == Money(nfkc, value)
  {
    var s := Reduced(nfkc, value);
    var cents := CentsOf(Unsigned(s)).value;
    var sign := if IsNegative(s) then Minus else NoSign;
    EveryPrintingIsRead(nfkc, sign, BARE, cents, '.');
    CanonicalIsWritten(sign, cents);
  }

  lemma CanonicalIsWritten(sign: Sign, cents: nat)
    requires sign == Minus || sign == NoSign
    ensures Written(sign, BARE, Plain(cents, '.')) == Canonical(sign == Minus, cents)
  {
    var minus := if sign == Minus then "-" else "";
    BareIsWritten(sign, Plain(cents, '.'));
    assert minus + Plain(cents, '.') == minus + Digits(cents / 100) + "." + TwoDigits(cents % 100);
  }

  lemma BareIsWritten(sign: Sign, u: string)
    requires sign == Minus || sign == NoSign
    ensures Written(sign, BARE, u) == (if sign == Minus then "-" else "") + u
  {
    assert Pre("", false) == "" && Post("", false) == "" && Closing(sign) == "";
    assert "" + u + "" == u;
  }
}
