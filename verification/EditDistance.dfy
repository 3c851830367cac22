// Single-character edits between two identifiers.
//
// An edit script is what a person would call "the differences": keep a character, insert one,
// delete one, put another in its place. `Distance` is the recurrence behind the two-row loop, and
// the lemmas show that it is the cheapest of all scripts and a metric on strings.

module EditDistance {

  import opened Options

  datatype Edit = Keep | Insert(c: char) | Delete | Substitute(c: char)

  function Last<T>(s: seq<T>): T
    requires s != []
  {
    s[|s| - 1]
  }

  function Front<T>(s: seq<T>): seq<T>
    requires s != []
  {
    s[..|s| - 1]
  }

  /** What a script makes of `s`: None when it does not consume `s` exactly. */
  function Run(script: seq<Edit>, s: string): Option<string> {
    if script == [] then
      if s == "" then Some("") else None
    else
      match Last(script)
      case Insert(c) => Append(Run(Front(script), s), [c])
      case Keep => if s == "" then None else Append(Run(Front(script), Front(s)), [Last(s)])
      case Delete => if s == "" then None else Run(Front(script), Front(s))
      case Substitute(c) => if s == "" then None else Append(Run(Front(script), Front(s)), [c])
  }

  function Append(r: Option<string>, t: string): Option<string> {
    match r
    case None => None
    case Some(s) => Some(s + t)
  }

  /** Every edit costs one; keeping a character is free. */
  function Cost(script: seq<Edit>): nat {
    if script == [] then 0 else Cost(Front(script)) + if Last(script).Keep? then 0 else 1
  }

  function Min(a: nat, b: nat): nat {
    if a <= b then a else b
  }

  /** The recurrence of the Levenshtein distance, on the last characters. */
  function Distance(a: string, b: string): nat
    decreases |a| + |b|
  {
    if a == "" then |b|
    else if b == "" then |a|
    else Min(Min(Distance(Front(a), b) + 1, Distance(a, Front(b)) + 1),
             Distance(Front(a), Front(b)) + if Last(a) != Last(b) then 1 else 0)
  }

  // ----- the distance is the cost of the cheapest script

  lemma {:induction false} DeleteStep(a: string, b: string)
    requires a != ""
    ensures Distance(a, b) <= Distance(Front(a), b) + 1
  {
  }

  lemma {:induction false} InsertStep(a: string, b: string)
    requires b != ""
    ensures Distance(a, b) <= Distance(a, Front(b)) + 1
  {
  }

  lemma {:induction false} SubstituteStep(a: string, b: string)
    requires a != "" && b != ""
    ensures Distance(a, b) <= Distance(Front(a), Front(b)) + if Last(a) != Last(b) then 1 else 0
  {
  }

  /** No script that turns `a` into `b` is cheaper than the distance. */
  lemma {:induction false} DistanceIsLowerBound(script: seq<Edit>, a: string, b: string)
    requires Run(script, a) == Some(b)
    ensures Distance(a, b) <= Cost(script)
    decreases |script|
  {
    if script == [] {
      return;
    }
    var rest := Front(script);
    match Last(script)
    case Insert(c) =>
      assert Front(b) == Run(rest, a).value;
      DistanceIsLowerBound(rest, a, Front(b));
      InsertStep(a, b);
    case Keep =>
      assert Front(b) == Run(rest, Front(a)).value;
      DistanceIsLowerBound(rest, Front(a), Front(b));
      SubstituteStep(a, b);
    case Delete =>
      DistanceIsLowerBound(rest, Front(a), b);
      DeleteStep(a, b);
    case Substitute(c) =>
      assert Front(b) == Run(rest, Front(a)).value;
      DistanceIsLowerBound(rest, Front(a), Front(b));
      SubstituteStep(a, b);
  }

  /** A script that costs exactly the distance. */
  ghost function CheapestScript(a: string, b: string): (script: seq<Edit>)
    ensures Run(script, a) == Some(b)
    ensures Cost(script) == Distance(a, b)
    decreases |a| + |b|
  {
    if a == "" && b == "" then []
    else if b != "" && (a == "" || Distance(a, b) == Distance(a, Front(b)) + 1) then
      var rest := CheapestScript(a, Front(b));
      assert Front(rest + [Insert(Last(b))]) == rest;
      assert Front(b) + [Last(b)] == b;
      rest + [Insert(Last(b))]
    else if b == "" || Distance(a, b) == Distance(Front(a), b) + 1 then
      var rest := CheapestScript(Front(a), b);
      assert Front(rest + [Delete]) == rest;
      rest + [Delete]
    else
      var rest := CheapestScript(Front(a), Front(b));
      var edit := if Last(a) == Last(b) then Keep else Substitute(Last(b));
      assert Front(rest + [edit]) == rest;
      assert Front(b) + [Last(b)] == b;
      rest + [edit]
  }

  /** `n` is the cost of the cheapest script from `a` to `b`. */
  ghost predicate IsCheapest(n: nat, a: string, b: string) {
    && (exists script :: Run(script, a) == Some(b) && Cost(script) == n)
    && (forall script :: Run(script, a) == Some(b) ==> n <= Cost(script))
  }

  lemma {:induction false} DistanceIsCheapest(a: string, b: string)
    ensures IsCheapest(Distance(a, b), a, b)
  {
    var best := CheapestScript(a, b);
    assert Run(best, a) == Some(b) && Cost(best) == Distance(a, b);
    forall script | Run(script, a) == Some(b)
      ensures Distance(a, b) <= Cost(script)
    {
      DistanceIsLowerBound(script, a, b);
    }
  }

  // ----- the distance is a metric

  lemma {:induction false} ZeroOnlyWhenEqual(a: string, b: string)
    ensures Distance(a, b) == 0 <==> a == b
    decreases |a| + |b|
  {
    if a != "" && b != "" {
      ZeroOnlyWhenEqual(Front(a), Front(b));
      assert a == Front(a) + [Last(a)] && b == Front(b) + [Last(b)];
    }
  }

  lemma {:induction false} Symmetric(a: string, b: string)
    ensures Distance(a, b) == Distance(b, a)
    decreases |a| + |b|
  {
    if a != "" && b != "" {
      Symmetric(Front(a), b);
      Symmetric(a, Front(b));
      Symmetric(Front(a), Front(b));
    }
  }

  lemma {:induction false} Triangle(a: string, b: string, c: string)
    ensures Distance(a, c) <= Distance(a, b) + Distance(b, c)
    decreases |a| + |b| + |c|
  {
    if a != "" && (b == "" || Distance(a, b) == Distance(Front(a), b) + 1) {
      Triangle(Front(a), b, c);
      DeleteStep(a, c);
    } else if c != "" && (b == "" || Distance(b, c) == Distance(b, Front(c)) + 1) {
      Triangle(a, b, Front(c));
      InsertStep(a, c);
    } else if b != "" {
      TriangleThroughLast(a, b, c);
    }
  }

  // The last character of `b` takes part in both distances.
  lemma {:induction false} TriangleThroughLast(a: string, b: string, c: string)
    requires b != ""
    requires a != "" ==> Distance(a, b) != Distance(Front(a), b) + 1
    requires c != "" ==> Distance(b, c) != Distance(b, Front(c)) + 1
    ensures Distance(a, c) <= Distance(a, b) + Distance(b, c)
    decreases |a| + |b| + |c|, 0
  {
    var inserted := a == "" || Distance(a, b) == Distance(a, Front(b)) + 1;
    var deleted := c == "" || Distance(b, c) == Distance(Front(b), c) + 1;
    if inserted && deleted {
      Triangle(a, Front(b), c);
    } else if inserted {
      Triangle(a, Front(b), Front(c));
      InsertStep(a, c);
    } else if deleted {
      Triangle(Front(a), Front(b), c);
      DeleteStep(a, c);
    } else {
      Triangle(Front(a), Front(b), Front(c));
      SubstituteStep(a, c);
    }
  }

  // ----- the two-row loop

  /** The distances from `one` to the prefixes of `other` up to length `upTo`. */
  ghost predicate IsRow(row: seq<nat>, one: string, other: string, upTo: nat)
    requires upTo <= |other|
  {
    && |row| == upTo + 1
    && forall j :: 0 <= j <= upTo ==> row[j] == Distance(one, other[..j])
  }

  function NextCell(above: nat, left: nat, diagonal: nat, differ: bool): nat {
    Min(Min(above + 1, left + 1), diagonal + if differ then 1 else 0)
  }

  lemma FirstRow(row: seq<nat>, other: string)
    requires |row| == |other| + 1 && forall j :: 0 <= j <= |other| ==> row[j] == j
    ensures IsRow(row, "", other, |other|)
  {
  }

  lemma ExtendRow(previous: seq<nat>, current: seq<nat>, one: string, other: string, i: nat, j: nat)
    requires i < |one| && j < |other|
    requires IsRow(previous, one[..i], other, |other|)
    requires IsRow(current, one[..i + 1], other, j)
    ensures IsRow(current + [NextCell(previous[j + 1], current[j], previous[j], one[i] != other[j])],
                  one[..i + 1], other, j + 1)
  {
    assert Front(one[..i + 1]) == one[..i] && Front(other[..j + 1]) == other[..j];
  }

  /** The rolling rows, as R03 and R17 write them. */
  method Differences(one: string, other: string) returns (edits: nat)
    ensures edits == Distance(one, other)
  {
    if one == other {
      ZeroOnlyWhenEqual(one, other);
      return 0;
    }
    var previous: seq<nat> := seq(|other| + 1, (j: nat) => j);
    FirstRow(previous, other);
    assert one[..0] == "";
    for i := 0 to |one|
      invariant IsRow(previous, one[..i], other, |other|)
    {
      var current: seq<nat> := [i + 1];
      assert other[..0] == "";
      for j := 0 to |other|
        invariant IsRow(current, one[..i + 1], other, j)
      {
        ExtendRow(previous, current, one, other, i, j);
        current := current
          + [NextCell(previous[j + 1], current[j], previous[j], one[i] != other[j])];
      }
      previous := current;
    }
    assert one[..|one|] == one && other[..|other|] == other;
    return previous[|previous| - 1];
  }
}
