// The helpers every rule of the v3 pack carries: comparable texts, keys and accounts, amounts in
// cents, and the one-cent tolerance.

module RuleKit {
  import opened Options

  /** What the rules take from Python: the upper case of one character (it may be several), which
      characters are letters, and which texts read as a finite decimal. */
  datatype Platform = Platform(upper: char -> string, alpha: char -> bool, decimal: string -> Option<real>)

  /** A rule fires, passes, or raises because a printed amount cannot be read. */
  datatype Verdict = Passes | Fires | Raises

  datatype Supplier = Supplier(id: Option<string>, nif: Option<string>, iban: Option<string>)

  datatype Order = Order(purchaseOrder: Option<string>, totalAmount: Option<string>)

  /** A published rate; its two dates are day numbers, None when they are not real dates. */
  datatype Rate = Rate(currency: Option<string>, asOf: Option<int>, validUntil: Option<int>,
                       eurPerUnit: Option<string>, tolerancePct: Option<string>)

  /** The symbols of one invoice; `date` is a day number, None when it is not a real date. */
  datatype Invoice = Invoice(issuerNif: Option<string>, iban: Option<string>,
                             currency: Option<string>, purchaseOrder: Option<string>,
                             base: Option<string>, vatRate: Option<string>,
                             vatAmount: Option<string>, total: Option<string>, date: Option<int>)

  // ----- texts

  predicate IsSpace(c: char) {
    || '\t' <= c <= '\r' || '\U{1c}' <= c <= ' ' || c == '\U{85}' || c == '\U{a0}' || c == '\U{1680}'
    || '\U{2000}' <= c <= '\U{200a}' || c == '\U{2028}' || c == '\U{2029}' || c == '\U{202f}'
    || c == '\U{205f}' || c == '\U{3000}'
  }

  function Strip(s: string): string {
    if s != "" && IsSpace(s[0]) then Strip(s[1..])
    else if s != "" && IsSpace(s[|s| - 1]) then Strip(s[..|s| - 1])
    else s
  }

  function Text(v: Option<string>): string {
    match v
    case None => ""
    case Some(s) => Strip(s)
  }

  predicate Empty(v: Option<string>) {
    Text(v) == ""
  }

  function Upper(py: Platform, s: string): string {
    if s == "" then "" else py.upper(s[0]) + Upper(py, s[1..])
  }

  function Without(s: string, c: char): string {
    if s == "" then "" else (if s[0] == c then "" else [s[0]]) + Without(s[1..], c)
  }

  lemma {:induction false} WithoutAppend(a: string, b: string, c: char)
    ensures Without(a + b, c) == Without(a, c) + Without(b, c)
  {
    if a == "" {
      assert a + b == b;
    } else {
      var first := if a[0] == c then "" else [a[0]];
      WithoutAppend(a[1..], b, c);
      assert (a + b)[0] == a[0] && (a + b)[1..] == a[1..] + b;
      assert Without(a + b, c) == first + Without(a[1..] + b, c);
      assert first + (Without(a[1..], c) + Without(b, c)) == first + Without(a[1..], c) + Without(b, c);
    }
  }

  lemma {:induction false} WithoutAbsent(s: string, c: char)
    requires c !in s
    ensures Without(s, c) == s
  {
    if s != "" {
      WithoutAbsent(s[1..], c);
      assert s == [s[0]] + s[1..];
    }
  }

  /** Upper case without spaces, hyphens and dots: how tax numbers and orders compare. */
  function Key(py: Platform, v: Option<string>): string {
    Without(Without(Without(Upper(py, Text(v)), ' '), '-'), '.')
  }

  function Iban(py: Platform, v: Option<string>): string {
    Without(Upper(py, Text(v)), ' ')
  }

  predicate InEuros(py: Platform, v: Option<string>) {
    Upper(py, Text(v)) in ["", "EUR"]
  }

  function Number(py: Platform, v: Option<string>): Option<real> {
    py.decimal(Text(v))
  }

  // ----- amounts

  function Abs(x: real): real {
    if x < 0.0 then -x else x
  }

  /** ROUND_HALF_UP of Python's decimal module: to the nearest integer, ties away from zero. */
  function HalfUp(x: real): int {
    if x >= 0.0 then (x + 0.5).Floor else -(0.5 - x).Floor
  }

  function Cents(x: real): int {
    HalfUp(x * 100.0)
  }

  /** An amount quantized to whole cents. */
  function Quantize(x: real): real {
    Cents(x) as real / 100.0
  }

  predicate Matches(one: real, other: real) {
    -1 <= Cents(one) - Cents(other) <= 1
  }

  /** HalfUp is the nearest integer, and of two nearest ones the one further from zero. */
  lemma HalfUpIsNearest(x: real, n: int)
    ensures n == HalfUp(x) <==>
            && Abs(n as real - x) <= 0.5
            && (Abs(n as real - x) == 0.5 ==> Abs(n as real) > Abs(x))
  {
  }

  lemma CentsOddAndMonotone(x: real, y: real)
    ensures Cents(-x) == -Cents(x)
    ensures x <= y ==> Cents(x) <= Cents(y)
  {
  }

  /** The tolerance in money: two amounts that match are less than two cents apart. */
  lemma MatchesBound(a: real, b: real)
    requires Matches(a, b)
    ensures Abs(a - b) < 0.02
  {
  }

  /** Up to one cent apart, exactly one pair of amounts does not match: half a cent either side of
      zero, which round away from each other. */
  lemma MatchesWithinACent(a: real, b: real)
    requires Abs(a - b) <= 0.01
    ensures Matches(a, b) <==> !(a == 0.005 && b == -0.005) && !(a == -0.005 && b == 0.005)
  {
  }

  /** Against a whole number of cents the tolerance is a cent and a half. */
  lemma MatchesWholeCents(a: real, n: int)
    requires Matches(a, n as real / 100.0)
    ensures Abs(a - n as real / 100.0) <= 0.015
  {
    HalfUpIsNearest(a * 100.0, Cents(a));
    HalfUpIsNearest(n as real, n);
    assert (n as real / 100.0) * 100.0 == n as real;
  }

  /** Two cents is the least such bound: amounts with fractions of a cent match as close to it as one likes. */
  lemma TwoCentsIsTight(slack: real) returns (a: real, b: real)
    requires 0.0 < slack <= 0.01
    ensures Matches(a, b) && 0.02 - slack < Abs(a - b) < 0.02
  {
    a, b := 0.005, 0.025 - slack / 2.0;
    HalfUpIsNearest(a * 100.0, 1);
    HalfUpIsNearest(b * 100.0, 2);
  }

  /** Among whole cents the tolerance is one cent, exactly. */
  lemma WholeCentsMatchIff(m: int, n: int)
    ensures Matches(m as real / 100.0, n as real / 100.0) <==> Abs(m as real / 100.0 - n as real / 100.0) <= 0.01
  {
    assert m as real / 100.0 * 100.0 == m as real && n as real / 100.0 * 100.0 == n as real;
    HalfUpIsNearest(m as real, m);
    HalfUpIsNearest(n as real, n);
  }
}
