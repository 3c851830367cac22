// Texts as the hiring generator prints them and its policy reads them back: decimal integers,
// separated lists, lower case.

module Texts {
  import opened RuleKit

  // ----- integers

  function Digit(n: nat): char
    requires n < 10
  {
    '0' + n as char
  }

  predicate IsDigit(c: char) {
    '0' <= c <= '9'
  }

  function DigitValue(c: char): nat
    requires IsDigit(c)
  {
    (c - '0') as nat
  }

  function Digits(n: nat): (s: string)
    ensures s != "" && forall c :: c in s ==> IsDigit(c)
  {
    if n < 10 then [Digit(n)] else Digits(n / 10) + [Digit(n % 10)]
  }

  predicate AllDigits(s: string) {
    s != "" && forall c :: c in s ==> IsDigit(c)
  }

  /** The number a run of digits denotes. */
  function Value(s: string): nat
    requires forall c :: c in s ==> IsDigit(c)
  {
    if s == "" then 0 else Value(s[..|s| - 1]) * 10 + DigitValue(s[|s| - 1])
  }

  lemma {:induction false} ValueOfDigits(n: nat)
    ensures Value(Digits(n)) == n
  {
    if n >= 10 {
      ValueOfDigits(n / 10);
      assert Digits(n)[..|Digits(n)| - 1] == Digits(n / 10);
    }
  }

  /** str(n) of a Python integer. */
  function Str(n: int): string {
    if n < 0 then "-" + Digits(-n) else Digits(n)
  }

  predicate ReadsAsInt(s: string) {
    AllDigits(s) || (s != "" && s[0] == '-' && AllDigits(s[1..]))
  }

  /** int(s) of a text that reads as an integer; any other text makes Python raise. */
  function IntOf(s: string): int
    requires ReadsAsInt(s)
  {
    if AllDigits(s) then Value(s) else -(Value(s[1..]) as int)
  }

  /** Digits, perhaps after one minus sign, read as their number with that sign. */
  lemma IntOfMeans(s: string) returns (sign: string, digits: string)
    requires ReadsAsInt(s)
    ensures s == sign + digits && AllDigits(digits) && sign in ["", "-"]
    ensures IntOf(s) == if sign == "-" then -(Value(digits) as int) else Value(digits)
  {
    if AllDigits(s) {
      sign, digits := "", s;
    } else {
      sign, digits := "-", s[1..];
    }
  }

  lemma IntOfStr(n: int)
    ensures ReadsAsInt(Str(n)) && IntOf(Str(n)) == n
  {
    ValueOfDigits(if n < 0 then -n else n);
    if n < 0 {
      assert Str(n)[1..] == Digits(-n);
      assert '-' in Str(n);
    }
  }

  // ----- separated lists

  function Split(s: string, sep: char): (parts: seq<string>)
    ensures parts != []
  {
    if s == "" then [""]
    else if s[0] == sep then [""] + Split(s[1..], sep)
    else
      var rest := Split(s[1..], sep);
      [[s[0]] + rest[0]] + rest[1..]
  }

  /** The parts joined by `sep` and a space, as the generator prints lists. */
  function Join(parts: seq<string>, sep: char): string {
    if parts == [] then ""
    else if |parts| == 1 then parts[0]
    else parts[0] + [sep, ' '] + Join(parts[1..], sep)
  }

  function Stripped(parts: seq<string>): seq<string> {
    if parts == [] then [] else [Strip(parts[0])] + Stripped(parts[1..])
  }

  /** A list item: no separator inside, no space around. */
  predicate IsItem(s: string, sep: char) {
    sep !in s && Strip(s) == s
  }

  predicate AllItems(parts: seq<string>, sep: char) {
    forall i :: 0 <= i < |parts| ==> IsItem(parts[i], sep)
  }

  lemma {:induction false} SplitAtFirst(x: string, rest: string, sep: char)
    requires sep !in x
    ensures Split(x + [sep] + rest, sep) == [x] + Split(rest, sep)
  {
    if x == "" {
      assert x + [sep] + rest == [sep] + rest;
    } else {
      SplitAtFirst(x[1..], rest, sep);
      assert (x + [sep] + rest)[1..] == x[1..] + [sep] + rest;
      assert x == [x[0]] + x[1..];
    }
  }

  lemma {:induction false} SplitWhole(x: string, sep: char)
    requires sep !in x
    ensures Split(x, sep) == [x]
  {
    if x != "" {
      SplitWhole(x[1..], sep);
      assert x == [x[0]] + x[1..];
    }
  }

  // Splitting a joined list leaves a space in front of every item but the first.
  lemma {:induction false} JoinTail(parts: seq<string>, sep: char)
    requires |parts| >= 2
    ensures [' '] + Join(parts, sep) == ([' '] + parts[0]) + [sep] + ([' '] + Join(parts[1..], sep))
  {
    assert Join(parts, sep) == parts[0] + [sep, ' '] + Join(parts[1..], sep);
    assert [sep, ' '] == [sep] + [' '];
  }

  lemma {:induction false} SplitJoinTail(parts: seq<string>, sep: char)
    requires parts != [] && sep != ' ' && AllItems(parts, sep)
    ensures Stripped(Split([' '] + Join(parts, sep), sep)) == parts
    decreases |parts|
  {
    var first := [' '] + parts[0];
    assert sep !in first;
    assert Strip(first) == parts[0] by {
      assert first[1..] == parts[0];
    }
    if |parts| == 1 {
      SplitWhole(first, sep);
      assert parts == [parts[0]];
    } else {
      SplitJoinTail(parts[1..], sep);
      var rest := [' '] + Join(parts[1..], sep);
      JoinTail(parts, sep);
      SplitAtFirst(first, rest, sep);
      assert parts == [parts[0]] + parts[1..];
    }
  }

  /** Splitting and stripping undoes joining. */
  lemma {:induction false} SplitJoin(parts: seq<string>, sep: char)
    requires parts != [] && sep != ' ' && AllItems(parts, sep)
    ensures Stripped(Split(Join(parts, sep), sep)) == parts
  {
    if |parts| == 1 {
      SplitWhole(parts[0], sep);
      assert parts == [parts[0]];
    } else {
      SplitJoinTail(parts[1..], sep);
      var rest := [' '] + Join(parts[1..], sep);
      assert Join(parts, sep) == parts[0] + [sep] + rest;
      SplitAtFirst(parts[0], rest, sep);
      assert parts == [parts[0]] + parts[1..];
    }
  }

  // ----- what stands before a mark

  function IndexOf(s: string, mark: char): nat {
    if s == "" || s[0] == mark then 0 else 1 + IndexOf(s[1..], mark)
  }

  lemma {:induction false} IndexOfFirst(a: string, b: string, mark: char)
    requires mark !in a
    ensures IndexOf(a + [mark] + b, mark) == |a|
  {
    if a != "" {
      assert a[0] in a && a == [a[0]] + a[1..];
      IndexOfFirst(a[1..], b, mark);
      assert (a + [mark] + b)[1..] == a[1..] + [mark] + b;
    }
  }

  /** The first mark tells what comes before it and after it. */
  lemma FirstTells(a: string, b: string, c: string, d: string, mark: char)
    requires mark !in a && mark !in c && a + [mark] + b == c + [mark] + d
    ensures a == c && b == d
  {
    IndexOfFirst(a, b, mark);
    IndexOfFirst(c, d, mark);
    var s, t := a + [mark] + b, c + [mark] + d;
    assert s[..|a|] == a && t[..|c|] == c;
    assert s[|a| + 1..] == b && t[|c| + 1..] == d;
  }

  /** One past the last mark; the length where there is none. */
  function PastLast(s: string, mark: char): nat {
    if s == "" || s[|s| - 1] == mark then |s| else PastLast(s[..|s| - 1], mark)
  }

  lemma {:induction false} PastLastMark(a: string, b: string, mark: char)
    requires mark !in b
    ensures PastLast(a + [mark] + b, mark) == |a| + 1
    decreases |b|
  {
    var s := a + [mark] + b;
    if b != "" {
      assert s[|s| - 1] == b[|b| - 1] && s[..|s| - 1] == a + [mark] + b[..|b| - 1];
      PastLastMark(a, b[..|b| - 1], mark);
    }
  }

  /** So does the last one, when there is none after it. */
  lemma LastTells(a: string, b: string, c: string, d: string, mark: char)
    requires mark !in b && mark !in d && a + [mark] + b == c + [mark] + d
    ensures a == c && b == d
  {
    PastLastMark(a, b, mark);
    PastLastMark(c, d, mark);
    var s, t := a + [mark] + b, c + [mark] + d;
    assert s[..|a|] == a && t[..|c|] == c;
    assert s[|a| + 1..] == b && t[|c| + 1..] == d;
  }

  // ----- lower case

  function LowerChar(c: char): char {
    if 'A' <= c <= 'Z' then c + ('a' - 'A') else c
  }

  const CAPITALS := "ABCDEFGHIJKLMNOPQRSTUVWXYZ"
  const SMALL := "abcdefghijklmnopqrstuvwxyz"

  /** Each capital becomes its small letter, and nothing else changes. */
  lemma LowerCharIs(c: char)
    ensures forall k :: 0 <= k < 26 && c == CAPITALS[k] ==> LowerChar(c) == SMALL[k]
    ensures c !in CAPITALS ==> LowerChar(c) == c
  {
    if 'A' <= c <= 'Z' {
      assert CAPITALS[c as int - 'A' as int] == c;
    }
  }

  function Lower(s: string): (t: string)
    ensures |t| == |s| && forall i :: 0 <= i < |s| ==> t[i] == LowerChar(s[i])
  {
    if s == "" then "" else [LowerChar(s[0])] + Lower(s[1..])
  }

  predicate IsLower(s: string) {
    forall c :: c in s ==> LowerChar(c) == c
  }

  lemma {:induction false} LowerOfLower(s: string)
    requires IsLower(s)
    ensures Lower(s) == s
  {
  }
}
