// The population copier: the base repeated up to a size, every copy with purchase orders of its own.

module Copies {
  import opened Options
  import opened RuleKit
  import opened Texts
  import opened Comparable

  datatype Symbols = Symbols(name: string, order: Option<string>)

  /** Copy `c` of an entry; copy 0 is the entry itself. */
  function CopyOf(c: nat, s: Symbols): Symbols {
    if c == 0 then s
    else
      Symbols("c" + Digits(c) + "-" + s.name,
              if s.order.Some? && s.order.value != "" then Some(s.order.value + "-C" + Digits(c)) else s.order)
  }

  // ----- places: a position holds an entry of a copy

  /** The number of the copy that position `i` belongs to: Python's i // b, by subtraction. */
  function CopyNumber(i: nat, b: nat): nat
    requires b > 0
  {
    if i < b then 0 else 1 + CopyNumber(i - b, b)
  }

  /** The entry of the base that position `i` repeats: i % b. */
  function EntryNumber(i: nat, b: nat): (j: nat)
    requires b > 0
    ensures j < b
  {
    if i < b then i else EntryNumber(i - b, b)
  }

  lemma {:induction false} Quotient(i: nat, b: nat)
    requires b > 0
    ensures i / b == CopyNumber(i, b) && i % b == EntryNumber(i, b)
  {
    if i >= b {
      Quotient(i - b, b);
      OneMore(i - b, b);
    } else {
      Small(i, b);
    }
  }

  lemma Small(i: nat, b: nat)
    requires i < b
    ensures i / b == 0 && i % b == i
  {
  }

  lemma OneMore(i: nat, b: nat)
    requires b > 0
    ensures (i + b) / b == i / b + 1 && (i + b) % b == i % b
  {
    var q, r := i / b, i % b;
    assert i + b == q * b + r + b == (q + 1) * b + r;
    Unique(i + b, b, q + 1, r);
  }

  lemma Unique(i: nat, b: nat, q: nat, r: nat)
    requires r < b && i == q * b + r
    ensures i / b == q && i % b == r
  {
    var p := i / b;
    assert i == p * b + i % b;
    assert (q + 1) * b == q * b + b && (p + 1) * b == p * b + b;
    SmallerFactor(p, q + 1, b);
    SmallerFactor(q, p + 1, b);
  }

  lemma SmallerFactor(x: nat, y: nat, b: nat)
    requires x * b < y * b
    ensures x < y
  {
  }

  lemma {:induction false} SamePlace(i: nat, k: nat, b: nat)
    requires b > 0 && CopyNumber(i, b) == CopyNumber(k, b) && EntryNumber(i, b) == EntryNumber(k, b)
    ensures i == k
  {
    if i >= b {
      SamePlace(i - b, k - b, b);
    }
  }

  /** Where the copy of position `i` keeps entry `l`; in whole copies it is always there. */
  lemma {:induction false} PlaceInCopy(n: nat, i: nat, l: nat, b: nat) returns (k: nat)
    requires l < b && i < n && EntryNumber(n, b) == 0 && l != EntryNumber(i, b)
    ensures k < n && k != i && CopyNumber(k, b) == CopyNumber(i, b) && EntryNumber(k, b) == l
  {
    if i < b {
      k := l;
    } else {
      k := PlaceInCopy(n - b, i - b, l, b);
      k := k + b;
    }
  }

  // ----- the copier

  /** The first `|out|` entries of the endless repetition of the base. */
  ghost predicate AreCopies(base: seq<Symbols>, out: seq<Symbols>) {
    base != [] &&
    forall k :: 0 <= k < |out| ==> out[k] == CopyOf(CopyNumber(k, |base|), base[EntryNumber(k, |base|)])
  }

  lemma OneMoreCopy(base: seq<Symbols>, out: seq<Symbols>, s: Symbols)
    requires AreCopies(base, out) && s == CopyOf(|out| / |base|, base[|out| % |base|])
    ensures AreCopies(base, out + [s])
  {
    Quotient(|out|, |base|);
  }

  method MakeCopies(base: seq<Symbols>, n: nat) returns (out: seq<Symbols>)
    requires base != []
    ensures |out| == n && AreCopies(base, out)
  {
    out := [];
    for i := 0 to n
      invariant |out| == i && AreCopies(base, out)
    {
      var c, s := i / |base|, base[i % |base|];
      if c != 0 {
        var order := s.order;
        if order.Some? && order.value != "" {
          order := Some(order.value + "-C" + Digits(c));
        }
        s := Symbols("c" + Digits(c) + "-" + s.name, order);
      }
      OneMoreCopy(base, out, s);
      out := out + [s];
    }
  }

  // ----- keys of copies

  /** Upper-casing leaves the marks of a copy alone. */
  ghost predicate PlainUpper(py: Platform) {
    py.upper('C') == "C" && py.upper('-') == "-" && forall c :: IsDigit(c) ==> py.upper(c) == [c]
  }

  ghost predicate HasOrder(s: Symbols) {
    s.order.Some? && s.order.value != ""
  }

  lemma {:induction false} DigitsStay(py: Platform, s: string)
    requires PlainUpper(py) && forall c :: c in s ==> IsDigit(c)
    ensures Upper(py, s) == s
    ensures Without(s, ' ') == Without(s, '-') == Without(s, '.') == s
  {
    if s != "" {
      assert s[0] in s && s == [s[0]] + s[1..];
      DigitsStay(py, s[1..]);
    }
  }

  function LeftStrip(s: string): string {
    if s != "" && IsSpace(s[0]) then LeftStrip(s[1..]) else s
  }

  /** A mark after a text keeps the spaces that end the text from being stripped. */
  lemma {:induction false} StripMarked(o: string, mark: string)
    requires mark != "" && !IsSpace(mark[0]) && !IsSpace(mark[|mark| - 1])
    ensures Strip(o + mark) == LeftStrip(o) + mark
  {
    if o == "" {
      assert o + mark == mark && LeftStrip(o) + mark == mark;
    } else if IsSpace(o[0]) {
      assert (o + mark)[1..] == o[1..] + mark;
      StripMarked(o[1..], mark);
    }
  }

  /** The key of an order stripped only in front: what the key of its copies begins with. */
  function Stem(py: Platform, s: Symbols): string {
    if s.order.None? then "" else Plain(Upper(py, LeftStrip(s.order.value)))
  }

  lemma {:induction false} SpaceEnding(s: string) returns (ending: string)
    ensures LeftStrip(s) == Strip(s) + ending
    decreases |s|
  {
    if s != "" && IsSpace(s[0]) {
      ending := SpaceEnding(s[1..]);
    } else if s != "" && IsSpace(s[|s| - 1]) {
      var shorter := SpaceEnding(s[..|s| - 1]);
      ending := shorter + [s[|s| - 1]];
      assert s == s[..|s| - 1] + [s[|s| - 1]];
    } else {
      ending := "";
    }
  }

  lemma {:induction false} MarkKey(py: Platform, c: nat)
    requires PlainUpper(py)
    ensures Plain(Upper(py, "-C" + Digits(c))) == "C" + Digits(c)
  {
    var d := Digits(c);
    DigitsStay(py, d);
    UpperAppend(py, "-C", d);
    assert "-C"[1..] == "C" && "C"[1..] == "";
    assert Upper(py, "C") == "C" && Upper(py, "-C") == "-C";
    PlainAppend("-C", d);
    assert Without("-C", ' ') == "-C" by {
      assert Without("C", ' ') == "C";
    }
    assert Without("-C", '-') == "C" by {
      assert Without("C", '-') == "C";
    }
    assert Without("C", '.') == "C";
  }

  /** The key of a copy is the stem of its order, a C and the copy's number. */
  lemma {:induction false} CopyKey(py: Platform, c: nat, s: Symbols)
    requires PlainUpper(py) && c > 0 && HasOrder(s)
    ensures Key(py, CopyOf(c, s).order) == Stem(py, s) + "C" + Digits(c)
  {
    var o, mark := s.order.value, "-C" + Digits(c);
    assert CopyOf(c, s).order == Some(o + mark) by {
      assert o + "-C" + Digits(c) == o + mark;
    }
    StripMarked(o, mark) by {
      assert mark[|mark| - 1] == Digits(c)[|Digits(c)| - 1];
    }
    MarkedKey(py, LeftStrip(o), c);
  }

  lemma {:induction false} MarkedKey(py: Platform, o: string, c: nat)
    requires PlainUpper(py)
    ensures Plain(Upper(py, o + ("-C" + Digits(c)))) == Plain(Upper(py, o)) + "C" + Digits(c)
  {
    var mark := "-C" + Digits(c);
    UpperAppend(py, o, mark);
    PlainAppend(Upper(py, o), Upper(py, mark));
    MarkKey(py, c);
    assert Plain(Upper(py, o)) + ("C" + Digits(c)) == Plain(Upper(py, o)) + "C" + Digits(c);
  }

  // ----- which entries claim the same order

  /** Two entries claim the same, real order. */
  ghost predicate Share(py: Platform, a: Symbols, b: Symbols) {
    Key(py, a.order) != "" && Key(py, a.order) == Key(py, b.order)
  }

  /** Two entries whose copies claim the same order. */
  ghost predicate CopiesShare(py: Platform, a: Symbols, b: Symbols) {
    HasOrder(a) && HasOrder(b) && Stem(py, a) == Stem(py, b)
  }

  /** An entry whose order already reads as that of copy `d` of another. */
  ghost predicate ReadsAsCopy(py: Platform, a: Symbols, d: nat, b: Symbols) {
    d > 0 && HasOrder(b) && Key(py, a.order) == Stem(py, b) + "C" + Digits(d)
  }

  lemma OrderlessKey(py: Platform, c: nat, s: Symbols)
    requires !HasOrder(s)
    ensures Key(py, CopyOf(c, s).order) == Key(py, s.order) == ""
  {
  }

  lemma {:induction false} NoCInDigits(n: nat)
    ensures 'C' !in Digits(n)
  {
  }

  lemma NumberedShare(py: Platform, c: nat, a: Symbols, d: nat, b: Symbols)
    requires PlainUpper(py) && c > 0 && d > 0
    ensures Share(py, CopyOf(c, a), CopyOf(d, b)) <==> c == d && CopiesShare(py, a, b)
  {
    if HasOrder(a) && HasOrder(b) {
      CopyKey(py, c, a);
      CopyKey(py, d, b);
      if Stem(py, a) + ['C'] + Digits(c) == Stem(py, b) + ['C'] + Digits(d) {
        NoCInDigits(c);
        NoCInDigits(d);
        LastTells(Stem(py, a), Digits(c), Stem(py, b), Digits(d), 'C');
        ValueOfDigits(c);
        ValueOfDigits(d);
      }
    } else {
      NoneShared(py, c, a, d, b);
    }
  }

  lemma NoneShared(py: Platform, c: nat, a: Symbols, d: nat, b: Symbols)
    requires !HasOrder(a) || !HasOrder(b)
    ensures !Share(py, CopyOf(c, a), CopyOf(d, b))
  {
    if !HasOrder(a) {
      OrderlessKey(py, c, a);
    } else {
      OrderlessKey(py, d, b);
    }
  }

  lemma BaseShares(py: Platform, a: Symbols, d: nat, b: Symbols)
    requires PlainUpper(py) && d > 0
    ensures Share(py, a, CopyOf(d, b)) <==> ReadsAsCopy(py, a, d, b)
    ensures Share(py, CopyOf(d, b), a) <==> ReadsAsCopy(py, a, d, b)
  {
    if HasOrder(b) {
      CopyKey(py, d, b);
    } else {
      OrderlessKey(py, d, b);
    }
  }

  /** Which copies share an order. Between different copies only an order of the base itself can be met:
      the last C of a copy's key tells its number. */
  lemma CopyShare(py: Platform, c: nat, a: Symbols, d: nat, b: Symbols)
    requires PlainUpper(py)
    ensures Share(py, CopyOf(c, a), CopyOf(d, b)) <==>
            if c == d then if c == 0 then Share(py, a, b) else CopiesShare(py, a, b)
            else if c == 0 then ReadsAsCopy(py, a, d, b)
            else d == 0 && ReadsAsCopy(py, b, c, a)
  {
    if c > 0 && d > 0 {
      NumberedShare(py, c, a, d, b);
    } else if c == 0 && d > 0 {
      BaseShares(py, a, d, b);
    } else if c > 0 {
      BaseShares(py, b, c, a);
    }
  }

  // ----- what copying promises, and when it keeps it

  /** Copying never joins or parts two different entries: their orders share a stem exactly when they
      share a key that is not empty. */
  ghost predicate StemsTellOrders(py: Platform, base: seq<Symbols>) {
    forall j, k :: 0 <= j < |base| && 0 <= k < |base| && j != k ==>
      (CopiesShare(py, base[j], base[k]) <==> Share(py, base[j], base[k]))
  }

  /** No order of the base reads as that of a copy within `n` entries. */
  ghost predicate NoneReadsAsCopy(py: Platform, base: seq<Symbols>, n: nat)
    requires base != []
  {
    forall j, p :: 0 <= j < |base| && 0 <= p < n ==>
      !ReadsAsCopy(py, base[j], CopyNumber(p, |base|), base[EntryNumber(p, |base|)])
  }

  /** The promise of the copier: two entries of the population share an order exactly when they are
      copies with one number of entries that do. */
  ghost predicate SharingIsKept(py: Platform, base: seq<Symbols>, out: seq<Symbols>)
    requires base != []
  {
    forall i, k :: 0 <= i < |out| && 0 <= k < |out| && i != k ==> KeptAt(py, base, out, i, k)
  }

  ghost predicate KeptAt(py: Platform, base: seq<Symbols>, out: seq<Symbols>, i: nat, k: nat)
    requires base != [] && i < |out| && k < |out|
  {
    Share(py, out[i], out[k]) <==>
      && CopyNumber(i, |base|) == CopyNumber(k, |base|)
      && Share(py, base[EntryNumber(i, |base|)], base[EntryNumber(k, |base|)])
  }

  lemma SharesInside(py: Platform, base: seq<Symbols>, out: seq<Symbols>, i: nat, k: nat)
    requires PlainUpper(py) && AreCopies(base, out) && StemsTellOrders(py, base)
    requires NoneReadsAsCopy(py, base, |out|) && i < |out| && k < |out| && i != k
    ensures KeptAt(py, base, out, i, k)
  {
    var b := |base|;
    CopyShare(py, CopyNumber(i, b), base[EntryNumber(i, b)], CopyNumber(k, b), base[EntryNumber(k, b)]);
    if CopyNumber(i, b) == CopyNumber(k, b) && EntryNumber(i, b) == EntryNumber(k, b) {
      SamePlace(i, k, b);
    }
  }

  /** Once there is a copy beside the base, who shares an order with whom is kept exactly when stems tell
      orders apart and no order already reads as a copy's. */
  lemma SharingIsKeptIff(py: Platform, base: seq<Symbols>, out: seq<Symbols>)
    requires PlainUpper(py) && AreCopies(base, out) && |out| >= 2 * |base|
    ensures SharingIsKept(py, base, out) <==>
            StemsTellOrders(py, base) && NoneReadsAsCopy(py, base, |out|)
  {
    if StemsTellOrders(py, base) && NoneReadsAsCopy(py, base, |out|) {
      forall i, k | 0 <= i < |out| && 0 <= k < |out| && i != k
        ensures KeptAt(py, base, out, i, k)
      {
        SharesInside(py, base, out, i, k);
      }
    }
    if SharingIsKept(py, base, out) {
      forall j, k | 0 <= j < |base| && 0 <= k < |base| && j != k
        ensures CopiesShare(py, base[j], base[k]) <==> Share(py, base[j], base[k])
      {
        FirstCopyTells(py, base, out, j, k);
      }
      forall j, p | 0 <= j < |base| && 0 <= p < |out|
        ensures !ReadsAsCopy(py, base[j], CopyNumber(p, |base|), base[EntryNumber(p, |base|)])
      {
        BaseEntryTells(py, base, out, j, p);
      }
    }
  }

  lemma FirstCopyTells(py: Platform, base: seq<Symbols>, out: seq<Symbols>, j: nat, k: nat)
    requires PlainUpper(py) && AreCopies(base, out) && |out| >= 2 * |base|
    requires SharingIsKept(py, base, out) && j < |base| && k < |base| && j != k
    ensures CopiesShare(py, base[j], base[k]) <==> Share(py, base[j], base[k])
  {
    var b := |base|;
    CopyShare(py, 1, base[j], 1, base[k]);
    assert CopyNumber(b + j, b) == 1 == CopyNumber(b + k, b);
    assert EntryNumber(b + j, b) == j && EntryNumber(b + k, b) == k;
    assert KeptAt(py, base, out, b + j, b + k);
  }

  lemma {:induction false} BaseEntryTells(py: Platform, base: seq<Symbols>, out: seq<Symbols>, j: nat, p: nat)
    requires PlainUpper(py) && AreCopies(base, out) && SharingIsKept(py, base, out)
    requires j < |base| <= |out| && p < |out|
    ensures !ReadsAsCopy(py, base[j], CopyNumber(p, |base|), base[EntryNumber(p, |base|)])
  {
    var c, entry := CopyNumber(p, |base|), base[EntryNumber(p, |base|)];
    if c > 0 {
      BaseShares(py, base[j], c, entry);
      assert out[j] == base[j] && KeptAt(py, base, out, j, p);
    }
  }

  /** Orders without spaces at their end that are more than separators are told apart by their stems. */
  lemma TrimmedOrdersAreTold(py: Platform, base: seq<Symbols>)
    requires forall j :: 0 <= j < |base| && HasOrder(base[j]) ==>
               Strip(base[j].order.value) == base[j].order.value && Key(py, base[j].order) != ""
    ensures StemsTellOrders(py, base)
  {
    forall j | 0 <= j < |base|
      ensures HasOrder(base[j]) ==> Stem(py, base[j]) == Key(py, base[j].order) != ""
      ensures !HasOrder(base[j]) ==> Key(py, base[j].order) == ""
    {
      if HasOrder(base[j]) {
        StrippedInFront(base[j].order.value);
      } else {
        OrderlessKey(py, 0, base[j]);
      }
    }
  }

  lemma {:induction false} StrippedInFront(s: string)
    requires Strip(s) == s
    ensures LeftStrip(s) == s
  {
    var ending := SpaceEnding(s);
    LeftStripShrinks(s);
    assert |LeftStrip(s)| == |s| + |ending|;
    assert ending == "";
  }

  lemma {:induction false} LeftStripShrinks(s: string)
    ensures |LeftStrip(s)| <= |s|
  {
    if s != "" && IsSpace(s[0]) {
      LeftStripShrinks(s[1..]);
    }
  }

  ghost predicate IsDuplicate(py: Platform, entries: seq<Symbols>, i: nat)
    requires i < |entries|
  {
    exists k :: 0 <= k < |entries| && k != i && Share(py, entries[i], entries[k])
  }

  /** The copies of entry `j` share an order with those of another entry. */
  ghost predicate StemShared(py: Platform, base: seq<Symbols>, j: nat)
    requires j < |base|
  {
    exists k :: 0 <= k < |base| && k != j && CopiesShare(py, base[j], base[k])
  }

  /** An order of the base reads as that of copy `c` of entry `j`. */
  ghost predicate IsReadAs(py: Platform, base: seq<Symbols>, c: nat, j: nat)
    requires j < |base|
  {
    exists l :: 0 <= l < |base| && ReadsAsCopy(py, base[l], c, base[j])
  }

  /** Entry `j` itself reads as some copy within `n` entries. */
  ghost predicate ReadsAsSome(py: Platform, base: seq<Symbols>, n: nat, j: nat)
    requires j < |base|
  {
    exists p :: 0 <= p < n && ReadsAsCopy(py, base[j], CopyNumber(p, |base|), base[EntryNumber(p, |base|)])
  }

  /** Positions `i` and `k` are copies with one number whose entries share an order, as such copies do. */
  ghost predicate Meet(py: Platform, base: seq<Symbols>, i: nat, k: nat)
    requires base != []
  {
    var c, one, other := CopyNumber(i, |base|), base[EntryNumber(i, |base|)], base[EntryNumber(k, |base|)];
    k != i && CopyNumber(k, |base|) == c && if c == 0 then Share(py, one, other) else CopiesShare(py, one, other)
  }

  /** What makes position `i` of `n` entries a duplicate, said of the base. */
  ghost predicate Doubled(py: Platform, base: seq<Symbols>, n: nat, i: nat)
    requires base != []
  {
    var c, j := CopyNumber(i, |base|), EntryNumber(i, |base|);
    (exists k :: 0 <= k < n && Meet(py, base, i, k))
    || if c == 0 then ReadsAsSome(py, base, n, j) else IsReadAs(py, base, c, j)
  }

  lemma DuplicateIsDoubled(py: Platform, base: seq<Symbols>, out: seq<Symbols>, i: nat)
    requires PlainUpper(py) && AreCopies(base, out) && i < |out| && IsDuplicate(py, out, i)
    ensures Doubled(py, base, |out|, i)
  {
    var b := |base|;
    var k: nat :| k < |out| && k != i && Share(py, out[i], out[k]);
    CopyShare(py, CopyNumber(i, b), base[EntryNumber(i, b)], CopyNumber(k, b), base[EntryNumber(k, b)]);
    if CopyNumber(i, b) == CopyNumber(k, b) {
      assert Meet(py, base, i, k);
    }
  }

  lemma MeetingIsDuplicate(py: Platform, base: seq<Symbols>, out: seq<Symbols>, i: nat, k: nat)
    requires PlainUpper(py) && AreCopies(base, out) && i < |out| && k < |out| && Meet(py, base, i, k)
    ensures IsDuplicate(py, out, i)
  {
    var b := |base|;
    CopyShare(py, CopyNumber(i, b), base[EntryNumber(i, b)], CopyNumber(k, b), base[EntryNumber(k, b)]);
  }

  lemma {:induction false} SharerElsewhere(py: Platform, base: seq<Symbols>, out: seq<Symbols>, j: nat, p: nat)
    requires PlainUpper(py) && AreCopies(base, out) && j < |base| && j < |out| && p < |out|
    requires ReadsAsCopy(py, base[j], CopyNumber(p, |base|), base[EntryNumber(p, |base|)])
    ensures IsDuplicate(py, out, j) && IsDuplicate(py, out, p)
  {
    BaseShares(py, base[j], CopyNumber(p, |base|), base[EntryNumber(p, |base|)]);
    assert out[j] == base[j] && j != p;
  }

  lemma DoubledIsDuplicate(py: Platform, base: seq<Symbols>, out: seq<Symbols>, i: nat)
    requires PlainUpper(py) && AreCopies(base, out) && i < |out| && Doubled(py, base, |out|, i)
    ensures IsDuplicate(py, out, i)
  {
    var b := |base|;
    var c, j := CopyNumber(i, b), EntryNumber(i, b);
    if k: nat :| k < |out| && Meet(py, base, i, k) {
      MeetingIsDuplicate(py, base, out, i, k);
    } else if c == 0 {
      var p :| 0 <= p < |out| && ReadsAsCopy(py, base[j], CopyNumber(p, b), base[EntryNumber(p, b)]);
      SharerElsewhere(py, base, out, j, p);
    } else {
      var l :| 0 <= l < b && ReadsAsCopy(py, base[l], c, base[j]);
      SharerElsewhere(py, base, out, l, i);
    }
  }

  /** An entry is a duplicate exactly when its place says so: of any base, however many copies. */
  lemma DuplicateMeans(py: Platform, base: seq<Symbols>, out: seq<Symbols>, i: nat)
    requires PlainUpper(py) && AreCopies(base, out) && i < |out|
    ensures IsDuplicate(py, out, i) <==> Doubled(py, base, |out|, i)
  {
    if IsDuplicate(py, out, i) {
      DuplicateIsDoubled(py, base, out, i);
    }
    if Doubled(py, base, |out|, i) {
      DoubledIsDuplicate(py, base, out, i);
    }
  }

  /** The promise about the rate: every entry of the population is a duplicate exactly when its original is. */
  ghost predicate RateIsKept(py: Platform, base: seq<Symbols>, out: seq<Symbols>)
    requires base != []
  {
    forall i :: 0 <= i < |out| ==>
      (IsDuplicate(py, out, i) <==> IsDuplicate(py, base, EntryNumber(i, |base|)))
  }

  ghost predicate PlacesKeepTheRate(py: Platform, base: seq<Symbols>, n: nat)
    requires base != []
  {
    forall i :: 0 <= i < n ==> (Doubled(py, base, n, i) <==> IsDuplicate(py, base, EntryNumber(i, |base|)))
  }

  /** The duplicate rule fires at the base's rate exactly when keys and stems of the base say so: for every
      base and every number of entries, a last copy cut short among them. */
  lemma RateIsKeptIff(py: Platform, base: seq<Symbols>, out: seq<Symbols>)
    requires PlainUpper(py) && AreCopies(base, out)
    ensures RateIsKept(py, base, out) <==> PlacesKeepTheRate(py, base, |out|)
  {
    forall i | 0 <= i < |out|
      ensures IsDuplicate(py, out, i) <==> Doubled(py, base, |out|, i)
    {
      DuplicateMeans(py, base, out, i);
    }
  }

  /** In whole copies nobody's twin is cut off. */
  lemma {:induction false} WholeCopiesMeet(py: Platform, base: seq<Symbols>, n: nat, i: nat)
    requires base != [] && EntryNumber(n, |base|) == 0 && i < n
    ensures (exists k :: 0 <= k < n && Meet(py, base, i, k)) <==>
            if CopyNumber(i, |base|) == 0 then IsDuplicate(py, base, EntryNumber(i, |base|))
            else StemShared(py, base, EntryNumber(i, |base|))
  {
    var b := |base|;
    var c, j := CopyNumber(i, b), EntryNumber(i, b);
    if k: nat :| k < n && Meet(py, base, i, k) {
      if EntryNumber(k, b) == j {
        SamePlace(i, k, b);
      }
    }
    if l: nat :| l < b && l != j && if c == 0 then Share(py, base[j], base[l]) else CopiesShare(py, base[j], base[l]) {
      var k := PlaceInCopy(n, i, l, b);
      assert Meet(py, base, i, k);
    }
  }

  /** Only duplicates read as copies; and an entry is a duplicate exactly when its copies are met, by those of
      another entry or by an order that reads as theirs. */
  ghost predicate StemsKeepTheRate(py: Platform, base: seq<Symbols>, n: nat)
    requires base != []
  {
    && (forall j :: 0 <= j < |base| && ReadsAsSome(py, base, n, j) ==> IsDuplicate(py, base, j))
    && (forall p :: |base| <= p < n ==>
          var c, j := CopyNumber(p, |base|), EntryNumber(p, |base|);
          IsDuplicate(py, base, j) <==> StemShared(py, base, j) || IsReadAs(py, base, c, j))
  }

  /** For whole copies the condition is one on the base alone. */
  lemma WholeRateIsKeptIff(py: Platform, base: seq<Symbols>, out: seq<Symbols>)
    requires PlainUpper(py) && AreCopies(base, out) && |out| % |base| == 0
    ensures RateIsKept(py, base, out) <==> StemsKeepTheRate(py, base, |out|)
  {
    RateIsKeptIff(py, base, out);
    Quotient(|out|, |base|);
    forall i | 0 <= i < |out|
      ensures Doubled(py, base, |out|, i) <==>
              var c, j := CopyNumber(i, |base|), EntryNumber(i, |base|);
              if c == 0 then IsDuplicate(py, base, j) || ReadsAsSome(py, base, |out|, j)
              else StemShared(py, base, j) || IsReadAs(py, base, c, j)
      ensures CopyNumber(i, |base|) == 0 <==> i < |base|
    {
      WholeCopiesMeet(py, base, |out|, i);
    }
    if RateIsKept(py, base, out) {
      forall j | 0 <= j < |base| && ReadsAsSome(py, base, |out|, j)
        ensures IsDuplicate(py, base, j)
      {
        assert Doubled(py, base, |out|, j) && EntryNumber(j, |base|) == j;
      }
    }
  }

  /** A copy cut off after its first entry loses that entry's twins: the rate is not kept if it had any. */
  lemma OneEntryOver(py: Platform, base: seq<Symbols>, out: seq<Symbols>)
    requires PlainUpper(py) && AreCopies(base, out) && |out| == |base| + 1
    requires NoneReadsAsCopy(py, base, |out|)
    ensures RateIsKept(py, base, out) ==> !IsDuplicate(py, base, 0)
  {
    var last := |base|;
    DuplicateMeans(py, base, out, last);
    assert CopyNumber(last, |base|) == 1 && EntryNumber(last, |base|) == 0;
    assert forall k :: 0 <= k < |out| ==> !Meet(py, base, last, k);
  }

  /** Two entries with the order "1" and one copy: the copy is no duplicate, though its original is. */
  lemma CutCopyIsNoDuplicate(py: Platform)
    requires PlainUpper(py)
    ensures var base := [Symbols("a", Some("1")), Symbols("b", Some("1"))];
            IsDuplicate(py, base, 0) && !RateIsKept(py, base, base + [CopyOf(1, base[0])])
  {
    var base := [Symbols("a", Some("1")), Symbols("b", Some("1"))];
    assert Strip("1") == "1" && "1"[1..] == "";
    assert Upper(py, "1") == "1" + "" == "1";
    assert Key(py, Some("1")) == "1";
    NoCNoCopy(py, base, 3);
    assert Share(py, base[0], base[1]);
    OneEntryOver(py, base, base + [CopyOf(1, base[0])]);
  }

  /** Where no order reads as a copy's, and there is a copy, the rate is kept exactly when entries with a
      shared stem are the duplicates. */
  lemma RateIsKeptByStems(py: Platform, base: seq<Symbols>, out: seq<Symbols>)
    requires PlainUpper(py) && AreCopies(base, out) && |out| % |base| == 0 && |out| >= 2 * |base|
    requires NoneReadsAsCopy(py, base, |out|)
    ensures RateIsKept(py, base, out) <==>
            forall j :: 0 <= j < |base| ==> (StemShared(py, base, j) <==> IsDuplicate(py, base, j))
  {
    WholeRateIsKeptIff(py, base, out);
    forall p | |base| <= p < |out|
      ensures !IsReadAs(py, base, CopyNumber(p, |base|), EntryNumber(p, |base|))
    {
    }
    if RateIsKept(py, base, out) {
      forall j | 0 <= j < |base|
        ensures StemShared(py, base, j) <==> IsDuplicate(py, base, j)
      {
        var p := |base| + j;
        assert EntryNumber(p, |base|) == j && |base| <= p < |out|;
      }
    }
  }

  /** Stems that tell orders apart are enough: the duplicate rule fires at the base's rate. */
  lemma CopiesKeepDuplicates(py: Platform, base: seq<Symbols>, out: seq<Symbols>, i: nat)
    requires PlainUpper(py) && AreCopies(base, out) && |out| % |base| == 0 && i < |out|
    requires StemsTellOrders(py, base) && NoneReadsAsCopy(py, base, |out|)
    ensures IsDuplicate(py, out, i) <==> IsDuplicate(py, base, i % |base|)
  {
    DuplicateMeans(py, base, out, i);
    Quotient(|out|, |base|);
    WholeCopiesMeet(py, base, |out|, i);
    Quotient(i, |base|);
  }

  /** No order reads as a copy's when none holds a C. */
  lemma NoCNoCopy(py: Platform, base: seq<Symbols>, n: nat)
    requires base != [] && forall j :: 0 <= j < |base| ==> 'C' !in Key(py, base[j].order)
    ensures NoneReadsAsCopy(py, base, n)
  {
    forall j, p | 0 <= j < |base| && 0 <= p < n
      ensures !ReadsAsCopy(py, base[j], CopyNumber(p, |base|), base[EntryNumber(p, |base|)])
    {
      var c, entry := CopyNumber(p, |base|), base[EntryNumber(p, |base|)];
      assert (Stem(py, entry) + "C" + Digits(c))[|Stem(py, entry)|] == 'C';
    }
  }

  /** The rate is not kept for orders that are all separators: "-" claims no order, but its copies all
      claim the order C1. */
  lemma SeparatorOrdersBecomeDuplicates(py: Platform)
    requires PlainUpper(py)
    ensures var base := [Symbols("a", Some("-")), Symbols("b", Some("-"))];
            && !IsDuplicate(py, base, 0)
            && IsDuplicate(py, base + [CopyOf(1, base[0]), CopyOf(1, base[1])], 2)
  {
    var base := [Symbols("a", Some("-")), Symbols("b", Some("-"))];
    var all := base + [CopyOf(1, base[0]), CopyOf(1, base[1])];
    assert Strip("-") == "-" && "-"[1..] == "";
    assert Upper(py, "-") == "-" + "" == "-";
    assert Without("-", ' ') == "-" && Without("-", '-') == "" && Plain("-") == "";
    CopyKey(py, 1, base[0]);
    CopyKey(py, 1, base[1]);
    assert Share(py, all[2], all[3]);
  }
}
