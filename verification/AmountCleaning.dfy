// What the cleaning of a text forgets: invisible characters, and which blanks, and how many, stand
// between two words.

module AmountCleaning {
  import opened RuleKit
  import opened Amounts
  import Comparable

  // ----- invisible characters

  /** Zero-width spaces and joiners, the byte order mark and the soft hyphen. */
  lemma InvisibleOnes(c: char)
    ensures IsInvisible(c) <==>
            || c == '\U{200b}' || c == '\U{200c}' || c == '\U{200d}' || c == '\U{2060}'
            || c == '\U{feff}' || c == '\U{ad}'
  {
  }

  lemma {:induction false} InvisibleAppend(a: string, b: string)
    ensures WithoutInvisible(a + b) == WithoutInvisible(a) + WithoutInvisible(b)
  {
    if a == "" {
      assert a + b == b;
    } else {
      assert (a + b)[0] == a[0] && (a + b)[1..] == a[1..] + b;
      InvisibleAppend(a[1..], b);
      Regroup(if IsInvisible(a[0]) then "" else [a[0]], WithoutInvisible(a[1..]), WithoutInvisible(b));
    }
  }

  lemma Regroup(a: string, b: string, c: string)
    ensures a + (b + c) == (a + b) + c
  {
  }

  lemma {:induction false} NothingInvisible(s: string)
    requires forall i :: 0 <= i < |s| ==> !IsInvisible(s[i])
    ensures WithoutInvisible(s) == s
  {
    if s != "" {
      NothingInvisible(s[1..]);
      assert s == [s[0]] + s[1..];
    }
  }

  /** An invisible character anywhere in a text changes nothing of what is read. */
  lemma InvisibleDoesNotCount(nfkc: string -> string, a: string, c: char, b: string)
    requires IsInvisible(c)
    ensures CleanText(nfkc, a + [c] + b) == CleanText(nfkc, a + b)
    ensures Money(nfkc, a + [c] + b) == Money(nfkc, a + b)
  {
    InvisibleAppend(a + [c], b);
    InvisibleAppend(a, [c]);
    InvisibleAppend(a, b);
    assert [c][1..] == "" && WithoutInvisible([c]) == "";
    assert WithoutInvisible(a) + "" == WithoutInvisible(a);
  }

  // ----- blanks

  /** White space other than a line's end. */
  ghost predicate IsBlank(c: char) {
    IsSpace(c) && c != '\n'
  }

  ghost predicate AllBlank(s: string) {
    forall i :: 0 <= i < |s| ==> IsBlank(s[i])
  }

  lemma {:induction false} BlankGoes(c: char, rest: string)
    requires IsBlank(c) && rest != "" && IsBlank(rest[0])
    ensures OneSpace([c] + rest) == OneSpace(rest)
  {
    assert ([c] + rest)[1..] == rest;
  }

  /** What a character becomes depends only on whether a blank follows it. */
  lemma {:induction false} SameAfter(x: char, s: string, t: string)
    requires s != "" && t != "" && (IsBlank(s[0]) <==> IsBlank(t[0])) && OneSpace(s) == OneSpace(t)
    ensures OneSpace([x] + s) == OneSpace([x] + t)
  {
    assert ([x] + s)[1..] == s && ([x] + t)[1..] == t;
  }

  /** What is before makes no difference to that. */
  lemma {:induction false} SameInFront(a: string, s: string, t: string)
    requires s != "" && t != "" && (IsBlank(s[0]) <==> IsBlank(t[0])) && OneSpace(s) == OneSpace(t)
    ensures OneSpace(a + s) == OneSpace(a + t)
  {
    if a == "" {
      assert a + s == s && a + t == t;
    } else {
      SameInFront(a[1..], s, t);
      SameAfter(a[0], a[1..] + s, a[1..] + t);
      assert a + s == [a[0]] + (a[1..] + s) && a + t == [a[0]] + (a[1..] + t);
    }
  }

  lemma {:induction false} BlankIsSpace(a: string, c: char, b: string)
    requires IsBlank(c)
    ensures OneSpace(a + ([c] + b)) == OneSpace(a + (" " + b))
  {
    assert ([c] + b)[1..] == b && (" " + b)[1..] == b;
    SameInFront(a, [c] + b, " " + b);
  }

  lemma {:induction false} BlanksAreOne(a: string, c: char, d: char, b: string)
    requires IsBlank(c) && IsBlank(d)
    ensures OneSpace(a + ([c, d] + b)) == OneSpace(a + ([d] + b))
  {
    BlankGoes(c, [d] + b);
    assert [c, d] + b == [c] + ([d] + b);
    SameInFront(a, [c, d] + b, [d] + b);
  }

  /** A run of blanks, however long and of whatever kind, is one space. */
  lemma {:induction false} RunIsOneSpace(a: string, run: string, b: string)
    requires run != "" && AllBlank(run)
    ensures OneSpace(a + (run + b)) == OneSpace(a + (" " + b))
    decreases |run|
  {
    if |run| == 1 {
      assert run == [run[0]];
      BlankIsSpace(a, run[0], b);
    } else {
      BlanksAreOne(a, run[0], run[1], run[2..] + b);
      assert [run[0], run[1]] + (run[2..] + b) == run + b;
      assert [run[1]] + (run[2..] + b) == run[1..] + b;
      RunIsOneSpace(a, run[1..], b);
    }
  }

  /** Line ends and everything that is no blank stay, and single spaces too. */
  lemma {:induction false} OneSpaceKeeps(s: string)
    requires forall i :: 0 <= i < |s| ==> (IsBlank(s[i]) <==> s[i] == ' ')
    requires forall i :: 0 <= i < |s| - 1 ==> !(s[i] == ' ' && s[i + 1] == ' ')
    ensures OneSpace(s) == s
  {
    if s != "" {
      OneSpaceKeeps(s[1..]);
      assert s == [s[0]] + s[1..];
    }
  }

  /** A cleaned text has no white space at its ends. */
  lemma CleanedEnds(nfkc: string -> string, value: string)
    ensures var s := CleanText(nfkc, value); s != "" ==> !IsSpace(s[0]) && !IsSpace(s[|s| - 1])
  {
    var before, after := Comparable.StripIs(OneSpace(nfkc(WithoutInvisible(value))));
  }

  /** Texts that Unicode normalises to the same but for a run of blanks are cleaned, and read, alike. */
  lemma {:induction false} BlanksDoNotCount(nfkc: string -> string, v: string, w: string, a: string, run: string,
                                            b: string)
    requires run != "" && AllBlank(run)
    requires nfkc(WithoutInvisible(v)) == a + (run + b) && nfkc(WithoutInvisible(w)) == a + (" " + b)
    ensures CleanText(nfkc, v) == CleanText(nfkc, w) && Money(nfkc, v) == Money(nfkc, w)
  {
    RunIsOneSpace(a, run, b);
  }
}
