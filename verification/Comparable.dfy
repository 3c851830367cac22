// What makes two printed texts compare as one: spaces, hyphens and dots do not count, and nothing
// else is forgotten.

module Comparable {
  import opened Options
  import opened RuleKit

  /** A missing text reads as an empty one. */
  function Raw(v: Option<string>): string {
    match v case None => "" case Some(s) => s
  }

  /** Without the three separators. */
  function Plain(s: string): string {
    Without(Without(Without(s, ' '), '-'), '.')
  }

  /** Upper-casing leaves separators alone. */
  ghost predicate KeepsSeparators(py: Platform) {
    py.upper(' ') == " " && py.upper('-') == "-" && py.upper('.') == "."
  }

  ghost predicate AllSpace(s: string) {
    forall i :: 0 <= i < |s| ==> IsSpace(s[i])
  }

  /** The only white space in it is the plain one. */
  ghost predicate OnlyBlanks(s: string) {
    forall i :: 0 <= i < |s| && IsSpace(s[i]) ==> s[i] == ' '
  }

  ghost predicate InCapitals(py: Platform, s: string) {
    forall i :: 0 <= i < |s| ==> py.upper(s[i]) == [s[i]]
  }

  const WHITE_SPACE: string :=
    ['\t', '\n', '\U{0b}', '\U{0c}', '\r', '\U{1c}', '\U{1d}', '\U{1e}', '\U{1f}', ' ', '\U{85}', '\U{a0}',
     '\U{1680}', '\U{2000}', '\U{2001}', '\U{2002}', '\U{2003}', '\U{2004}', '\U{2005}', '\U{2006}', '\U{2007}',
     '\U{2008}', '\U{2009}', '\U{200a}', '\U{2028}', '\U{2029}', '\U{202f}', '\U{205f}', '\U{3000}']

  /** The characters Python's strip takes off. */
  lemma WhiteSpaceIs(c: char)
    ensures IsSpace(c) <==> c in WHITE_SPACE
  {
    assert IsSpace(c) ==> WHITE_SPACE[PlaceOf(c)] == c;
  }

  /** Where a white space character stands in the list. */
  ghost function PlaceOf(c: char): (k: nat)
    ensures k < |WHITE_SPACE|
  {
    var n := c as int;
    if 9 <= n <= 13 then n - 9
    else if 28 <= n <= 32 then n - 28 + 5
    else if n == 0x85 then 10
    else if n == 0xa0 then 11
    else if n == 0x1680 then 12
    else if 0x2000 <= n <= 0x200a then n - 0x2000 + 13
    else if n == 0x2028 then 24
    else if n == 0x2029 then 25
    else if n == 0x202f then 26
    else if n == 0x205f then 27
    else 28
  }

  // ----- what the helpers do to a text

  lemma PlainAppend(a: string, b: string)
    ensures Plain(a + b) == Plain(a) + Plain(b)
  {
    WithoutAppend(a, b, ' ');
    WithoutAppend(Without(a, ' '), Without(b, ' '), '-');
    WithoutAppend(Without(Without(a, ' '), '-'), Without(Without(b, ' '), '-'), '.');
  }

  lemma {:induction false} UpperAppend(py: Platform, a: string, b: string)
    ensures Upper(py, a + b) == Upper(py, a) + Upper(py, b)
  {
    if a == "" {
      assert a + b == b;
    } else {
      UpperAppend(py, a[1..], b);
      assert (a + b)[1..] == a[1..] + b;
    }
  }

  lemma {:induction false} CapitalsStay(py: Platform, s: string)
    requires InCapitals(py, s)
    ensures Upper(py, s) == s
  {
    if s != "" {
      CapitalsStay(py, s[1..]);
      assert s == [s[0]] + s[1..];
    }
  }

  /** Taking a character out leaves none of it, and all others in their order. */
  lemma {:induction false} WithoutGone(s: string, c: char)
    ensures c !in Without(s, c)
    ensures forall d :: d in Without(s, c) ==> d in s
    ensures forall d :: d != c ==> multiset(Without(s, c))[d] == multiset(s)[d]
  {
    if s != "" {
      WithoutGone(s[1..], c);
      assert s == [s[0]] + s[1..];
    }
  }

  lemma FrameFront(c: string, before: string, core: string, after: string)
    ensures c + (before + core + after) == (c + before) + core + after
  {
  }

  lemma FrameBack(c: string, before: string, core: string, after: string)
    ensures (before + core + after) + c == before + core + (after + c)
  {
  }

  /** Stripping takes white space off both ends, and nothing else. */
  lemma {:induction false} StripIs(s: string) returns (before: string, after: string)
    ensures s == before + Strip(s) + after && AllSpace(before) && AllSpace(after)
    ensures Strip(s) != "" ==> !IsSpace(Strip(s)[0]) && !IsSpace(Strip(s)[|Strip(s)| - 1])
    decreases |s|
  {
    before, after := "", "";
    if s != "" && IsSpace(s[0]) {
      before, after := StripIs(s[1..]);
      assert s == [s[0]] + s[1..];
      FrameFront([s[0]], before, Strip(s), after);
      before := [s[0]] + before;
    } else if s != "" && IsSpace(s[|s| - 1]) {
      before, after := StripIs(s[..|s| - 1]);
      assert s == s[..|s| - 1] + [s[|s| - 1]];
      FrameBack([s[|s| - 1]], before, Strip(s), after);
      after := after + [s[|s| - 1]];
    }
  }

  lemma {:induction false} AllStripped(s: string)
    requires AllSpace(s)
    ensures Strip(s) == ""
  {
    if s != "" {
      AllStripped(s[1..]);
    }
  }

  lemma {:induction false} StripBack(core: string, after: string)
    requires AllSpace(after) && core != "" && !IsSpace(core[0]) && !IsSpace(core[|core| - 1])
    ensures Strip(core + after) == core
    decreases |after|
  {
    var s := core + after;
    if after == "" {
      assert s == core;
    } else {
      assert s[..|s| - 1] == core + after[..|after| - 1];
      StripBack(core, after[..|after| - 1]);
    }
  }

  lemma {:induction false} StripCore(before: string, core: string, after: string)
    requires AllSpace(before) && AllSpace(after)
    requires core != "" ==> !IsSpace(core[0]) && !IsSpace(core[|core| - 1])
    ensures Strip(before + core + after) == core
  {
    var s := before + core + after;
    if before != "" {
      assert s[1..] == before[1..] + core + after;
      StripCore(before[1..], core, after);
    } else if core == "" {
      assert s == after;
      AllStripped(after);
    } else {
      assert s == core + after;
      StripBack(core, after);
    }
  }

  lemma {:induction false} WithoutEnds(s: string, c: char)
    requires s != "" && s[0] != c && s[|s| - 1] != c
    ensures var t := Without(s, c); t != "" && t[0] == s[0] && t[|t| - 1] == s[|s| - 1]
  {
    var front, last := s[..|s| - 1], [s[|s| - 1]];
    assert s == front + last;
    WithoutAppend(front, last, c);
    assert last[1..] == "" && Without(last, c) == last;
  }

  lemma {:induction false} WithoutKeepsSpace(s: string, c: char)
    requires AllSpace(s)
    ensures AllSpace(Without(s, c))
  {
    WithoutGone(s, c);
    forall i | 0 <= i < |Without(s, c)|
      ensures IsSpace(Without(s, c)[i])
    {
      assert Without(s, c)[i] in s;
    }
  }

  /** Whether spaces go first or the ends are stripped first does not matter. */
  lemma {:induction false} StripWithout(s: string)
    ensures Without(Strip(s), ' ') == Strip(Without(s, ' '))
  {
    var before, after := StripIs(s);
    var core := Strip(s);
    WithoutAppend(before + core, after, ' ');
    WithoutAppend(before, core, ' ');
    WithoutKeepsSpace(before, ' ');
    WithoutKeepsSpace(after, ' ');
    if core != "" {
      WithoutEnds(core, ' ');
    }
    StripCore(Without(before, ' '), Without(core, ' '), Without(after, ' '));
  }

  lemma {:induction false} UpperWithout(py: Platform, s: string, c: char)
    requires py.upper(c) == [c]
    ensures Without(Upper(py, s), c) == Without(Upper(py, Without(s, c)), c)
  {
    if s != "" {
      var first := if s[0] == c then "" else [s[0]];
      UpperWithout(py, s[1..], c);
      WithoutAppend(py.upper(s[0]), Upper(py, s[1..]), c);
      UpperAppend(py, first, Without(s[1..], c));
      WithoutAppend(Upper(py, first), Upper(py, Without(s[1..], c)), c);
      if s[0] == c {
        assert [c][1..] == "" && Without([c], c) == "";
      } else {
        assert first[1..] == "" && Upper(py, first) == py.upper(s[0]) + "";
        assert py.upper(s[0]) + "" == py.upper(s[0]);
      }
    }
  }

  /** An amount with white space around it reads as the amount. */
  lemma AmountsAreStripped(py: Platform, before: string, amount: string, after: string)
    requires AllSpace(before) && AllSpace(after)
    requires amount != "" ==> !IsSpace(amount[0]) && !IsSpace(amount[|amount| - 1])
    ensures Number(py, Some(before + amount + after)) == py.decimal(amount)
  {
    StripCore(before, amount, after);
  }

  // ----- spaces

  /** Two texts that differ only in spaces. */
  ghost predicate SpacedAlike(v: Option<string>, w: Option<string>) {
    Without(Raw(v), ' ') == Without(Raw(w), ' ')
  }

  lemma {:induction false} TextSpacedAlike(py: Platform, v: Option<string>, w: Option<string>)
    requires KeepsSeparators(py) && SpacedAlike(v, w)
    ensures Without(Upper(py, Text(v)), ' ') == Without(Upper(py, Text(w)), ' ')
    ensures Empty(v) <==> Empty(w)
  {
    StripWithout(Raw(v));
    StripWithout(Raw(w));
    UpperWithout(py, Text(v), ' ');
    UpperWithout(py, Text(w), ' ');
    EmptyWithout(Raw(v));
    EmptyWithout(Raw(w));
  }

  lemma {:induction false} EmptyWithout(s: string)
    ensures Strip(s) == "" <==> Strip(Without(s, ' ')) == ""
  {
    StripWithout(s);
    var before, after := StripIs(s);
    if Strip(s) != "" {
      WithoutEnds(Strip(s), ' ');
    }
  }

  /** Spaces do not count in an account or a key, and none is left in them. */
  lemma SpacesDoNotCount(py: Platform, v: Option<string>, w: Option<string>)
    requires KeepsSeparators(py) && SpacedAlike(v, w)
    ensures Iban(py, v) == Iban(py, w) && Key(py, v) == Key(py, w)
    ensures ' ' !in Iban(py, v)
  {
    TextSpacedAlike(py, v, w);
    WithoutGone(Upper(py, Text(v)), ' ');
  }

  // ----- hyphens and dots

  lemma {:induction false} BlanksGo(s: string)
    requires AllSpace(s) && OnlyBlanks(s)
    ensures Plain(s) == ""
  {
    if s != "" {
      BlanksGo(s[1..]);
      assert s == [s[0]] + s[1..];
      PlainAppend([s[0]], s[1..]);
      assert [s[0]] == " " && " "[1..] == "";
      assert Without(" ", ' ') == "" && Plain(" ") == "";
    }
  }

  lemma {:induction false} PlainStrip(s: string)
    requires OnlyBlanks(s)
    ensures Plain(Strip(s)) == Plain(s)
  {
    var before, after := StripIs(s);
    assert forall i :: 0 <= i < |before| ==> before[i] == s[i];
    assert forall i :: 0 <= i < |after| ==> after[i] == s[|s| - |after| + i];
    BlanksGo(before);
    BlanksGo(after);
    PlainAppend(before + Strip(s), after);
    PlainAppend(before, Strip(s));
  }

  lemma {:induction false} UpperPlain(py: Platform, s: string)
    requires KeepsSeparators(py)
    ensures Plain(Upper(py, s)) == Plain(Upper(py, Plain(s)))
  {
    var t := Without(s, ' ');
    var u := Without(t, '-');
    UpperWithout(py, s, ' ');
    UpperWithout(py, t, '-');
    UpperWithout(py, u, '.');
    WithoutTwice(Upper(py, t), ' ', '-');
    WithoutTwice(Upper(py, u), ' ', '-');
    WithoutThrice(Upper(py, u));
    WithoutThrice(Upper(py, Plain(s)));
  }

  /** The order in which two characters are taken out does not matter. */
  lemma {:induction false} WithoutTwice(s: string, c: char, d: char)
    ensures Without(Without(s, c), d) == Without(Without(s, d), c)
  {
    if s != "" {
      var rest := s[1..];
      WithoutTwice(rest, c, d);
      WithoutAppend(if s[0] == c then "" else [s[0]], Without(rest, c), d);
      WithoutAppend(if s[0] == d then "" else [s[0]], Without(rest, d), c);
      assert [s[0]][1..] == "";
    }
  }

  lemma {:induction false} WithoutThrice(s: string)
    ensures Plain(s) == Without(Without(Without(s, '.'), ' '), '-')
  {
    WithoutTwice(Without(s, ' '), '-', '.');
    WithoutTwice(s, ' ', '.');
  }

  /** Two tax numbers or orders that differ only in separators: in spaces alone, whatever else is in
      them, or in all three where the only white space is the plain one. */
  ghost predicate SeparatedAlike(v: Option<string>, w: Option<string>) {
    || SpacedAlike(v, w)
    || (OnlyBlanks(Raw(v)) && OnlyBlanks(Raw(w)) && Plain(Raw(v)) == Plain(Raw(w)))
  }

  lemma SeparatorsDoNotCount(py: Platform, v: Option<string>, w: Option<string>)
    requires KeepsSeparators(py) && SeparatedAlike(v, w)
    ensures Key(py, v) == Key(py, w)
  {
    if SpacedAlike(v, w) {
      SpacesDoNotCount(py, v, w);
    } else {
      PlainStrip(Raw(v));
      PlainStrip(Raw(w));
      UpperPlain(py, Text(v));
      UpperPlain(py, Text(w));
    }
  }

  lemma NoSeparatorIsLeft(py: Platform, v: Option<string>)
    ensures ' ' !in Key(py, v) && '-' !in Key(py, v) && '.' !in Key(py, v)
  {
    var s := Upper(py, Text(v));
    WithoutGone(s, ' ');
    WithoutGone(Without(s, ' '), '-');
    WithoutGone(Without(Without(s, ' '), '-'), '.');
  }

  lemma PlainAbsent(s: string)
    requires ' ' !in s && '-' !in s && '.' !in s
    ensures Plain(s) == s
  {
    WithoutAbsent(s, ' ');
    WithoutAbsent(s, '-');
    WithoutAbsent(s, '.');
  }

  /** A hyphen counts after all where it keeps a tab from being stripped. */
  lemma TabsHoldOn(py: Platform)
    requires KeepsSeparators(py) && InCapitals(py, "A	")
    ensures Plain("A	") == Plain("A	-") && Key(py, Some("A	")) != Key(py, Some("A	-"))
  {
    var tab, hyphen := "A	", "-";
    assert "A	-" == tab + hyphen && tab == "" + "A" + "	";
    StripCore("", "A", "	");
    StripCore("", "A	-", "");
    assert Strip("A	-") == "A	-" by {
      assert "" + "A	-" + "" == "A	-";
    }
    PlainAppend(tab, hyphen);
    UpperAppend(py, tab, hyphen);
    assert hyphen[1..] == "" && Upper(py, hyphen) == hyphen && Plain(hyphen) == "";
    CapitalsStay(py, tab);
    CapitalsStay(py, "A") by {
      assert tab[0] == 'A';
    }
    PlainAbsent("A");
    PlainAbsent(tab);
  }

  // ----- and nothing else is forgotten

  /** Texts in capitals keep everything but their separators and the white space at their ends: so two of
      them are one account, or one key, exactly when those are all that sets them apart. */
  lemma {:induction false} CapitalsAreKept(py: Platform, s: string)
    requires InCapitals(py, s)
    ensures Iban(py, Some(s)) == Strip(Without(s, ' '))
    ensures Key(py, Some(s)) == Plain(Strip(s))
    ensures OnlyBlanks(s) ==> Key(py, Some(s)) == Plain(s)
  {
    var before, after := StripIs(s);
    forall i | 0 <= i < |Strip(s)|
      ensures py.upper(Strip(s)[i]) == [Strip(s)[i]]
    {
      assert Strip(s)[i] == s[|before| + i];
    }
    CapitalsStay(py, Strip(s));
    StripWithout(s);
    if OnlyBlanks(s) {
      PlainStrip(s);
    }
  }
}
