// The duplicate-order rule, by scanning everyone else (R16) and by an index of purchase orders built
// once.

module OrderIndex {
  import opened Options
  import opened RuleKit

  datatype Entry = Entry(id: nat, instance: string, order: Option<string>)

  // ----- R16, by scanning

  /** The other instances that claim this order, in their order. */
  function Twins(py: Platform, order: string, others: seq<Entry>): seq<string> {
    if others == [] then []
    else
      Twins(py, order, others[..|others| - 1])
      + if Key(py, others[|others| - 1].order) == order then [Strip(others[|others| - 1].instance)] else []
  }

  function R16(py: Platform, entry: Entry, others: seq<Entry>): Verdict {
    var order := Key(py, entry.order);
    if order == "" then Passes else if Twins(py, order, others) != [] then Fires else Passes
  }

  /** R16 fires exactly when the invoice has an order that somebody else has too. */
  lemma {:induction false} R16FiresIff(py: Platform, entry: Entry, others: seq<Entry>)
    ensures R16(py, entry, others) == Fires <==>
            Key(py, entry.order) != "" && exists o :: o in others && Key(py, o.order) == Key(py, entry.order)
    ensures R16(py, entry, others) in {Fires, Passes}
  {
    SomeTwin(py, Key(py, entry.order), others);
  }

  lemma {:induction false} SomeTwin(py: Platform, order: string, others: seq<Entry>)
    ensures Twins(py, order, others) != [] <==> exists o :: o in others && Key(py, o.order) == order
  {
    if others != [] {
      var front, last := others[..|others| - 1], others[|others| - 1];
      SomeTwin(py, order, front);
      assert forall o :: o in others <==> o in front || o == last;
    }
  }

  // ----- the index

  function Bucket(py: Platform, order: string, population: seq<Entry>): seq<string> {
    if population == [] then []
    else
      var last := population[|population| - 1];
      Bucket(py, order, population[..|population| - 1]) + if Key(py, last.order) == order then [last.instance] else []
  }

  ghost predicate IsIndex(py: Platform, population: seq<Entry>, index: map<string, seq<string>>) {
    && "" !in index
    && forall k :: k != "" ==> (if k in index then index[k] else []) == Bucket(py, k, population)
  }

  method BuildIndex(py: Platform, population: seq<Entry>) returns (index: map<string, seq<string>>)
    ensures IsIndex(py, population, index)
  {
    index := map[];
    for i := 0 to |population|
      invariant IsIndex(py, population[..i], index)
    {
      assert population[..i + 1][..i] == population[..i];
      var k := Key(py, population[i].order);
      if k != "" {
        index := index[k := (if k in index then index[k] else []) + [population[i].instance]];
      }
    }
    assert population[..|population|] == population;
  }

  /** The rule that reads the index: more than one name under this order. */
  function Indexed(py: Platform, entry: Entry, index: map<string, seq<string>>): Verdict {
    var order := Key(py, entry.order);
    var names := if order != "" && order in index then index[order] else [];
    if |names| > 1 then Fires else Passes
  }

  // ----- the two agree

  function Others(population: seq<Entry>, id: nat): seq<Entry> {
    if population == [] then []
    else
      var last := population[|population| - 1];
      Others(population[..|population| - 1], id) + if last.id != id then [last] else []
  }

  lemma {:induction false} OthersOfStranger(population: seq<Entry>, id: nat)
    requires forall i :: 0 <= i < |population| ==> population[i].id != id
    ensures Others(population, id) == population
  {
    if population != [] {
      OthersOfStranger(population[..|population| - 1], id);
    }
  }

  lemma {:induction false} OthersAppend(a: seq<Entry>, b: seq<Entry>, id: nat)
    ensures Others(a + b, id) == Others(a, id) + Others(b, id)
  {
    if b == [] {
      assert a + b == a;
    } else {
      var front, last := b[..|b| - 1], b[|b| - 1];
      assert (a + b)[..|a + b| - 1] == a + front && (a + b)[|a + b| - 1] == last;
      OthersAppend(a, front, id);
      var more := if last.id != id then [last] else [];
      assert Others(a, id) + (Others(front, id) + more) == Others(a, id) + Others(front, id) + more;
    }
  }

  lemma {:induction false} BucketAppend(py: Platform, order: string, a: seq<Entry>, b: seq<Entry>)
    ensures Bucket(py, order, a + b) == Bucket(py, order, a) + Bucket(py, order, b)
  {
    if b == [] {
      assert a + b == a;
    } else {
      var front, last := b[..|b| - 1], b[|b| - 1];
      assert (a + b)[..|a + b| - 1] == a + front && (a + b)[|a + b| - 1] == last;
      BucketAppend(py, order, a, front);
      var more := if Key(py, last.order) == order then [last.instance] else [];
      assert Bucket(py, order, a) + (Bucket(py, order, front) + more) ==
             Bucket(py, order, a) + Bucket(py, order, front) + more;
    }
  }

  lemma {:induction false} TwinsAreTheBucket(py: Platform, order: string, entries: seq<Entry>)
    ensures |Twins(py, order, entries)| == |Bucket(py, order, entries)|
    ensures forall i :: 0 <= i < |Twins(py, order, entries)| ==>
              Twins(py, order, entries)[i] == Strip(Bucket(py, order, entries)[i])
  {
    if entries != [] {
      TwinsAreTheBucket(py, order, entries[..|entries| - 1]);
    }
  }

  lemma {:induction false} BucketAround(py: Platform, order: string, before: seq<Entry>, entry: Entry,
                                        after: seq<Entry>)
    requires Key(py, entry.order) == order
    ensures Bucket(py, order, before + [entry] + after) ==
            Bucket(py, order, before) + [entry.instance] + Bucket(py, order, after)
  {
    BucketAppend(py, order, before + [entry], after);
    assert (before + [entry])[..|before|] == before;
  }

  lemma {:induction false} OthersWithoutSelf(before: seq<Entry>, entry: Entry)
    ensures Others(before + [entry], entry.id) == Others(before, entry.id)
  {
  }

  lemma {:induction false} OthersAround(before: seq<Entry>, entry: Entry, after: seq<Entry>)
    requires forall i :: 0 <= i < |before| ==> before[i].id != entry.id
    requires forall i :: 0 <= i < |after| ==> after[i].id != entry.id
    ensures Others(before + [entry] + after, entry.id) == before + after
  {
    OthersAppend(before + [entry], after, entry.id);
    OthersWithoutSelf(before, entry);
    OthersOfStranger(before, entry.id);
    OthersOfStranger(after, entry.id);
  }

  ghost predicate UniqueIds(population: seq<Entry>) {
    forall j, k :: 0 <= j < k < |population| ==> population[j].id != population[k].id
  }

  /** A bucket is the entry's own name between the names of its twins. */
  ghost predicate TwinsOf(entry: Entry, twins: seq<string>, bucket: seq<string>) {
    exists at :: 0 <= at < |bucket| && bucket[at] == entry.instance
                 && AreStripped(twins, bucket[..at] + bucket[at + 1..])
  }

  ghost predicate AreStripped(twins: seq<string>, names: seq<string>) {
    |twins| == |names| && forall t :: 0 <= t < |twins| ==> twins[t] == Strip(names[t])
  }

  lemma NamesAround(entry: Entry, left: seq<string>, right: seq<string>, twins: seq<string>)
    requires AreStripped(twins, left + right)
    ensures TwinsOf(entry, twins, left + [entry.instance] + right)
  {
    var bucket := left + [entry.instance] + right;
    assert bucket[|left|] == entry.instance;
    assert bucket[..|left|] + bucket[|left| + 1..] == left + right;
  }

  lemma {:induction false} TwinsAround(py: Platform, order: string, before: seq<Entry>, entry: Entry, after: seq<Entry>)
    requires Key(py, entry.order) == order
    ensures TwinsOf(entry, Twins(py, order, before + after), Bucket(py, order, before + [entry] + after))
    ensures |Twins(py, order, before + after)| == |Bucket(py, order, before + [entry] + after)| - 1
  {
    BucketAround(py, order, before, entry, after);
    BucketAppend(py, order, before, after);
    TwinsAreTheBucket(py, order, before + after);
    assert AreStripped(Twins(py, order, before + after), Bucket(py, order, before + after));
    NamesAround(entry, Bucket(py, order, before), Bucket(py, order, after), Twins(py, order, before + after));
  }

  /** With unique ids the scan is the index: an entry's bucket is its own name among those of its twins,
      and the two rules fire together. */
  lemma {:induction false} IndexAgreesWithScan(py: Platform, population: seq<Entry>,
                                               i: nat, index: map<string, seq<string>>)
    requires i < |population| && IsIndex(py, population, index) && UniqueIds(population)
    ensures var entry, order := population[i], Key(py, population[i].order);
            var others := Others(population, entry.id);
            && Indexed(py, entry, index) == R16(py, entry, others)
            && (order != "" ==> order in index && TwinsOf(entry, Twins(py, order, others), index[order]))
  {
    var entry, order := population[i], Key(py, population[i].order);
    var before, after := population[..i], population[i + 1..];
    assert population == before + [entry] + after;
    OthersAround(before, entry, after);
    if order != "" {
      TwinsAround(py, order, before, entry, after);
    }
  }
}
