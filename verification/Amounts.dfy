// The amount parser: two grouping conventions, signs, parentheses and currency marks in, one
// canonical text out.

module Amounts {
  import opened Options
  import opened RuleKit
  import opened Texts

  /** A refusal is Python's ValueError. */
  datatype Result = Ok(text: string) | Invalid

  // ----- what the text of an amount may be wrapped in

  predicate IsInvisible(c: char) {
    c in ['\U{200b}', '\U{200c}', '\U{200d}', '\U{feff}', '\U{2060}', '\U{ad}']
  }

  function WithoutInvisible(s: string): string {
    if s == "" then "" else (if IsInvisible(s[0]) then "" else [s[0]]) + WithoutInvisible(s[1..])
  }

  /** Every run of blanks other than line ends becomes one space. */
  function OneSpace(s: string): string {
    if s == "" then ""
    else if IsSpace(s[0]) && s[0] != '\n' then
      if |s| > 1 && IsSpace(s[1]) && s[1] != '\n' then OneSpace(s[1..]) else " " + OneSpace(s[1..])
    else [s[0]] + OneSpace(s[1..])
  }

  /** `nfkc` is Unicode's compatibility normalisation, whatever it does. */
  function CleanText(nfkc: string -> string, value: string): string {
    Strip(OneSpace(nfkc(WithoutInvisible(value))))
  }

  function Replace(s: string, from: char, to: char): string {
    if s == "" then "" else [if s[0] == from then to else s[0]] + Replace(s[1..], from, to)
  }

  const SYMBOLS := ['€', '$', '£']
  const CODES := ["eur", "usd", "gbp"]

  /** The currency marks, taken out from left to right. */
  function WithoutMarks(s: string): string {
    if s == "" then ""
    else if |s| >= 3 && Lower(s[..3]) in CODES then WithoutMarks(s[3..])
    else if s[0] in SYMBOLS then WithoutMarks(s[1..])
    else [s[0]] + WithoutMarks(s[1..])
  }

  /** A leading and a closing parenthesis are a minus sign. */
  function Unwrapped(s: string): string {
    if s != "" && s[0] == '(' && s[|s| - 1] == ')' then "-" + s[1..|s| - 1] else s
  }

  /** The bare signed amount. */
  function Reduced(nfkc: string -> string, value: string): string {
    Without(Unwrapped(Strip(WithoutMarks(Replace(CleanText(nfkc, value), '\U{2212}', '-')))), ' ')
  }

  // ----- the amount itself

  predicate IsAmountChar(c: char) {
    IsDigit(c) || c == '.' || c == ','
  }

  /** One optional sign, a digit, and then digits, dots and commas. */
  predicate LooksLikeAmount(s: string) {
    var u := Unsigned(s);
    u != "" && IsDigit(u[0]) && forall c :: c in u ==> IsAmountChar(c)
  }

  function Unsigned(s: string): string {
    if s != "" && (s[0] == '+' || s[0] == '-') then s[1..] else s
  }

  predicate IsNegative(s: string) {
    s != "" && s[0] == '-'
  }

  /** The last index of a character, or -1. */
  function RFind(s: string, c: char): (i: int)
    ensures -1 <= i < |s|
    ensures i >= 0 ==> s[i] == c
    ensures forall j :: i < j < |s| ==> s[j] != c
    ensures i == -1 <==> c !in s
  {
    if s == "" then -1
    else if s[|s| - 1] == c then |s| - 1
    else
      var i := RFind(s[..|s| - 1], c);
      assert s == s[..|s| - 1] + [s[|s| - 1]];
      i
  }

  predicate IsHead(s: string) {
    AllDigits(s) && |s| <= 3
  }

  predicate IsGroup(s: string) {
    AllDigits(s) && |s| == 3
  }

  /** One to three digits, then at least one separated group of three. */
  predicate Grouped(s: string, thousands: char) {
    && |s| > 4
    && IsGroup(s[|s| - 3..])
    && s[|s| - 4] == thousands
    && (IsHead(s[..|s| - 4]) || Grouped(s[..|s| - 4], thousands))
  }

  function DigitsValue(s: string): nat {
    if forall c :: c in s ==> IsDigit(c) then Value(s) else 0
  }

  /** The cents an unsigned amount denotes, or None when its separators do not say. */
  function CentsOf(u: string): Option<nat> {
    if ',' in u && '.' in u then
      var decimal := if RFind(u, ',') > RFind(u, '.') then ',' else '.';
      var thousands := if decimal == ',' then '.' else ',';
      var at := RFind(u, decimal);
      var left, right := u[..at], u[at + 1..];
      if !Grouped(left, thousands) || |right| != 2 then None
      else Some(DigitsValue(Without(left, thousands)) * 100 + DigitsValue(right))
    else if ',' in u || '.' in u then
      var sep := if ',' in u then ',' else '.';
      var parts := Split(u, sep);
      if |parts| != 2 || |parts[1]| !in [1, 2] then None
      else Some(DigitsValue(parts[0]) * 100 + DigitsValue(parts[1]) * if |parts[1]| == 1 then 10 else 1)
    else Some(DigitsValue(u) * 100)
  }

  function TwoDigits(n: nat): string
    requires n < 100
  {
    [Digit(n / 10), Digit(n % 10)]
  }

  /** The canonical text: a sign if negative, the units without leading zeros, two decimals. */
  function Canonical(negative: bool, cents: nat): string {
    (if negative then "-" else "") + Digits(cents / 100) + "." + TwoDigits(cents % 100)
  }

  // Decimal's quantize refuses a result of more than 28 digits.
  const LIMIT: nat := 10000000000000000000000000000

  function Money(nfkc: string -> string, value: string): Result {
    MoneyOf(Reduced(nfkc, value))
  }

  function MoneyOf(s: string): Result {
    if !LooksLikeAmount(s) then Invalid
    else
      match CentsOf(Unsigned(s))
      case None => Invalid
      case Some(cents) => if cents < LIMIT then Ok(Canonical(IsNegative(s), cents)) else Invalid
  }

  // ----- what an amount means, said without the parser

  function Concat(groups: seq<string>): string {
    if groups == [] then "" else Concat(groups[..|groups| - 1]) + groups[|groups| - 1]
  }

  function Separated(groups: seq<string>, sep: char): string {
    if groups == [] then ""
    else if |groups| == 1 then groups[0]
    else Separated(groups[..|groups| - 1], sep) + [sep] + groups[|groups| - 1]
  }

  ghost predicate AreGroups(groups: seq<string>) {
    && |groups| >= 1 && 1 <= |groups[0]| <= 3 && (forall c :: c in groups[0] ==> '0' <= c <= '9')
    && forall i :: 1 <= i < |groups| ==> |groups[i]| == 3 && forall c :: c in groups[i] ==> '0' <= c <= '9'
  }

  /** A whole number. */
  ghost predicate DenotesWhole(u: string, cents: nat) {
    AllDigits(u) && cents == Value(u) * 100
  }

  /** Digits, one separator of either kind, one or two decimals. */
  ghost predicate DenotesPlain(u: string, units: string, sep: char, decimals: string, cents: nat) {
    && (sep == ',' || sep == '.')
    && AllDigits(units) && AllDigits(decimals) && |decimals| <= 2
    && u == units + [sep] + decimals
    && cents == Value(units) * 100 + Value(decimals) * if |decimals| == 1 then 10 else 1
  }

  /** Groups of three under one separator, two decimals under the other. */
  ghost predicate DenotesGrouped(u: string, groups: seq<string>, sep: char, decimals: string, cents: nat) {
    && (sep == ',' || sep == '.')
    && AreGroups(groups) && |groups| >= 2 && AllDigits(decimals) && |decimals| == 2
    && u == Separated(groups, if sep == ',' then '.' else ',') + [sep] + decimals
    && Concat(groups) != "" && (forall c :: c in Concat(groups) ==> IsDigit(c))
    && cents == Value(Concat(groups)) * 100 + Value(decimals)
  }

  ghost predicate Denotes(u: string, cents: nat) {
    || DenotesWhole(u, cents)
    || (exists units, sep, decimals :: DenotesPlain(u, units, sep, decimals, cents))
    || (exists groups, sep, decimals :: DenotesGrouped(u, groups, sep, decimals, cents))
  }
}
