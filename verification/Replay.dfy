// Deciding a seeded population and deciding it again: a ledger of decisions that only grows.

module Replay {
  import opened Options

  /** One engine decision; the ledger is in the order of their numbers. */
  datatype Decision = Decision(instance: nat, verdict: string, execution: nat)

  datatype Status = Pending | Decided

  /** An instance with its reading: the hash of its file and its symbols. */
  datatype Instance = Instance(id: nat, name: string, hash: string, symbols: string)

  /** What the seed says of a document: its reading, and what should be decided, if it says. */
  datatype Reference = Reference(hash: string, symbols: string, expected: Option<string>, reasons: set<string>)

  /** The last decision of an instance: what a dictionary filled in order keeps. */
  function Latest(decisions: seq<Decision>, instance: nat): Option<Decision> {
    if decisions == [] then None
    else if decisions[|decisions| - 1].instance == instance then Some(decisions[|decisions| - 1])
    else Latest(decisions[..|decisions| - 1], instance)
  }

  /** The new decisions of a second pass: one for every instance whose verdict has changed. */
  function Changes(decisions: seq<Decision>, instances: seq<Instance>, verdicts: nat -> string, execution: nat)
    : seq<Decision>
  {
    if instances == [] then []
    else
      var item := instances[|instances| - 1];
      Changes(decisions, instances[..|instances| - 1], verdicts, execution)
      + if Stands(decisions, item, verdicts) then [] else [Decision(item.id, verdicts(item.id), execution)]
  }

  /** The instance's latest decision is its present verdict. */
  predicate Stands(decisions: seq<Decision>, item: Instance, verdicts: nat -> string) {
    var latest := Latest(decisions, item.id);
    latest.Some? && latest.value.verdict == verdicts(item.id)
  }

  ghost predicate Distinct(instances: seq<Instance>) {
    forall i, j :: 0 <= i < j < |instances| ==> instances[i].id != instances[j].id
  }

  function Unchanged(decisions: seq<Decision>, instances: seq<Instance>, verdicts: nat -> string): nat {
    if instances == [] then 0
    else
      Unchanged(decisions, instances[..|instances| - 1], verdicts)
      + if Stands(decisions, instances[|instances| - 1], verdicts) then 1 else 0
  }

  // ----- what a second pass does to the ledger

  lemma {:induction false} LatestAfter(decisions: seq<Decision>, more: seq<Decision>, instance: nat)
    ensures Latest(decisions + more, instance) ==
            if Latest(more, instance).Some? then Latest(more, instance) else Latest(decisions, instance)
  {
    if more == [] {
      assert decisions + more == decisions;
    } else {
      LatestAfter(decisions, more[..|more| - 1], instance);
      assert (decisions + more)[..|decisions + more| - 1] == decisions + more[..|more| - 1];
    }
  }

  /** A selected instance whose verdict has changed. */
  ghost predicate HasChanged(decisions: seq<Decision>, item: Instance, verdicts: nat -> string, instance: nat) {
    item.id == instance && !Stands(decisions, item, verdicts)
  }

  ghost predicate IsChanged(decisions: seq<Decision>, instances: seq<Instance>, verdicts: nat -> string,
                            instance: nat) {
    exists i :: 0 <= i < |instances| && HasChanged(decisions, instances[i], verdicts, instance)
  }

  lemma {:induction false} ChangesOf(decisions: seq<Decision>, instances: seq<Instance>, verdicts: nat -> string,
                                     execution: nat, instance: nat)
    requires Distinct(instances)
    ensures Latest(Changes(decisions, instances, verdicts, execution), instance) ==
            if IsChanged(decisions, instances, verdicts, instance)
            then Some(Decision(instance, verdicts(instance), execution)) else None
  {
    if instances != [] {
      var front, item := instances[..|instances| - 1], instances[|instances| - 1];
      ChangesOf(decisions, front, verdicts, execution, instance);
      LastOne(decisions, front, item, verdicts, instance);
      assert instances == front + [item];
      var before := Changes(decisions, front, verdicts, execution);
      var last := [Decision(item.id, verdicts(item.id), execution)];
      LatestAfter(before, last, instance);
      assert last[..0] == [];
      assert before + [] == before;
    }
  }

  lemma LastOne(decisions: seq<Decision>, front: seq<Instance>, item: Instance, verdicts: nat -> string, instance: nat)
    ensures IsChanged(decisions, front + [item], verdicts, instance) <==>
            IsChanged(decisions, front, verdicts, instance) || HasChanged(decisions, item, verdicts, instance)
  {
    var all := front + [item];
    if IsChanged(decisions, front, verdicts, instance) {
      var i :| 0 <= i < |front| && HasChanged(decisions, front[i], verdicts, instance);
      assert all[i] == front[i];
    }
    assert all[|front|] == item;
  }

  /** After a second pass the latest decision of every selected instance is its present verdict, and no
      other instance's has changed. */
  lemma {:induction false} LatestIsTheVerdict(decisions: seq<Decision>, instances: seq<Instance>,
                                              verdicts: nat -> string, execution: nat, instance: nat)
    requires Distinct(instances)
    ensures var after := decisions + Changes(decisions, instances, verdicts, execution);
            && (forall i :: 0 <= i < |instances| && instances[i].id == instance ==>
                  Stands(after, instances[i], verdicts))
            && ((forall i :: 0 <= i < |instances| ==> instances[i].id != instance) ==>
                  Latest(after, instance) == Latest(decisions, instance))
  {
    LatestAfter(decisions, Changes(decisions, instances, verdicts, execution), instance);
    ChangesOf(decisions, instances, verdicts, execution, instance);
    forall i | 0 <= i < |instances| && instances[i].id == instance
      ensures IsChanged(decisions, instances, verdicts, instance) || Stands(decisions, instances[i], verdicts)
    {
      if !Stands(decisions, instances[i], verdicts) {
        assert HasChanged(decisions, instances[i], verdicts, instance);
      }
    }
  }

  lemma {:induction false} StandingChangesNothing(decisions: seq<Decision>, instances: seq<Instance>,
                                                  verdicts: nat -> string, execution: nat)
    requires forall i :: 0 <= i < |instances| ==> Stands(decisions, instances[i], verdicts)
    ensures Changes(decisions, instances, verdicts, execution) == []
  {
    if instances != [] {
      StandingChangesNothing(decisions, instances[..|instances| - 1], verdicts, execution);
    }
  }

  lemma {:induction false} ChangedPlusUnchanged(decisions: seq<Decision>, instances: seq<Instance>,
                                                verdicts: nat -> string, execution: nat)
    ensures |Changes(decisions, instances, verdicts, execution)| + Unchanged(decisions, instances, verdicts) ==
            |instances|
  {
    if instances != [] {
      ChangedPlusUnchanged(decisions, instances[..|instances| - 1], verdicts, execution);
    }
  }

  /** The same verdicts a second time add nothing. */
  lemma {:induction false} SecondPassAddsNothing(decisions: seq<Decision>, instances: seq<Instance>,
                                                 verdicts: nat -> string, execution: nat, again: nat)
    requires Distinct(instances)
    ensures Changes(decisions + Changes(decisions, instances, verdicts, execution), instances, verdicts, again) == []
  {
    var after := decisions + Changes(decisions, instances, verdicts, execution);
    forall i | 0 <= i < |instances|
      ensures Stands(after, instances[i], verdicts)
    {
      LatestIsTheVerdict(decisions, instances, verdicts, execution, instances[i].id);
    }
    StandingChangesNothing(after, instances, verdicts, again);
  }

  // ----- the selection

  function Selected(instances: seq<Instance>, names: set<string>): (selected: seq<Instance>)
    ensures forall item :: item in selected <==> item in instances && item.name in names
  {
    if instances == [] then []
    else
      var front, last := instances[..|instances| - 1], instances[|instances| - 1];
      assert forall item :: item in instances <==> item in front || item == last;
      Selected(front, names) + if last.name in names then [last] else []
  }

  lemma {:induction false} SelectedIsDistinct(instances: seq<Instance>, names: set<string>)
    requires Distinct(instances)
    ensures Distinct(Selected(instances, names))
  {
    if instances != [] {
      var front, last := instances[..|instances| - 1], instances[|instances| - 1];
      SelectedIsDistinct(front, names);
      forall item | item in Selected(front, names)
        ensures item.id != last.id
      {
        var i :| 0 <= i < |front| && front[i] == item;
      }
    }
  }

  /** As many instances as names, and all of them. */
  predicate IsPopulation(selected: seq<Instance>, names: set<string>) {
    |selected| == |names| && (set i | 0 <= i < |selected| :: selected[i].name) == names
  }

  /** Still pending, and read as the seed has it; a document the seed does not know makes the pass raise. */
  predicate ReadAsSeeded(statuses: map<nat, Status>, seed: map<string, Reference>, item: Instance) {
    && item.name in seed && item.id in statuses && statuses[item.id] == Pending
    && item.hash == seed[item.name].hash && item.symbols == seed[item.name].symbols
  }

  /** The verdict and its reasons are the expected ones, where the seed expects any. */
  predicate AsExpected(reference: Reference, verdict: string, reasons: set<string>) {
    && (reference.expected in {None, Some("")} || reference.expected == Some(verdict))
    && (reference.reasons == {} || reference.reasons == reasons)
  }

  /** The decision the seed expects; empty where it expects none. */
  ghost function ExpectedOf(reference: Reference): string {
    match reference.expected case None => "" case Some(verdict) => verdict
  }

  /** Pending, with the seed's hash and symbols, and decided as the seed expects, where it does: with its verdict
      unless that is empty, for its reasons unless there are none. */
  ghost predicate FitsTheSeed(statuses: map<nat, Status>, seed: map<string, Reference>, item: Instance,
                              verdict: string, reasons: set<string>) {
    && item.name in seed && item.id in statuses && statuses[item.id] != Decided
    && var reference := seed[item.name];
    && item.hash == reference.hash && item.symbols == reference.symbols
    && (ExpectedOf(reference) != "" ==> verdict == ExpectedOf(reference))
    && (reference.reasons != {} ==> reasons == reference.reasons)
  }

  lemma FitsMeans(statuses: map<nat, Status>, seed: map<string, Reference>, item: Instance, verdict: string,
                  reasons: set<string>)
    ensures FitsTheSeed(statuses, seed, item, verdict, reasons) <==>
            ReadAsSeeded(statuses, seed, item) && AsExpected(seed[item.name], verdict, reasons)
  {
  }

  lemma {:induction false} PopulationMeans(instances: seq<Instance>, names: set<string>)
    ensures IsPopulation(Selected(instances, names), names) <==>
            && |Selected(instances, names)| == |names|
            && forall name :: name in names ==> exists item :: item in instances && item.name == name
  {
    var selected := Selected(instances, names);
    var found := set i | 0 <= i < |selected| :: selected[i].name;
    forall i | 0 <= i < |selected|
      ensures selected[i].name in names
    {
      assert selected[i] in selected;
    }
    assert found <= names;
    forall name | name in names
      ensures name in found <==> exists item :: item in instances && item.name == name
    {
      if item :| item in instances && item.name == name {
        assert item in selected;
        var i :| 0 <= i < |selected| && selected[i] == item;
      }
      if name in found {
        var i :| 0 <= i < |selected| && selected[i].name == name;
        assert selected[i] in selected;
      }
    }
  }

  /** What the two loops test of the selection, said of the instances and the seed. */
  lemma {:induction false} DecidableIff(statuses: map<nat, Status>, seed: map<string, Reference>,
                                        instances: seq<Instance>, names: set<string>, verdicts: nat -> string,
                                        reasons: nat -> set<string>)
    ensures var selected := Selected(instances, names);
            (&& IsPopulation(selected, names)
             && forall item :: item in selected ==>
                  && ReadAsSeeded(statuses, seed, item)
                  && AsExpected(seed[item.name], verdicts(item.id), reasons(item.id)))
            <==>
            (&& |selected| == |names|
             && (forall name :: name in names ==> exists item :: item in instances && item.name == name)
             && (forall item :: item in instances && item.name in names ==>
                   FitsTheSeed(statuses, seed, item, verdicts(item.id), reasons(item.id))))
  {
    PopulationMeans(instances, names);
    forall item: Instance
      ensures FitsTheSeed(statuses, seed, item, verdicts(item.id), reasons(item.id)) <==>
              ReadAsSeeded(statuses, seed, item) && AsExpected(seed[item.name], verdicts(item.id), reasons(item.id))
    {
      FitsMeans(statuses, seed, item, verdicts(item.id), reasons(item.id));
    }
  }

  // ----- the ledger

  class Ledger {
    var decisions: seq<Decision>
    var statuses: map<nat, Status>

    constructor (statuses: map<nat, Status>)
      ensures decisions == [] && this.statuses == statuses
    {
      decisions, this.statuses := [], statuses;
    }

    /** First decisions of the named instances of a process: the population as named, every instance pending
        and read as seeded, every verdict and its reasons as expected, or nothing is kept. */
    method Decide(instances: seq<Instance>, names: set<string>, seed: map<string, Reference>,
                  verdicts: nat -> string, reasons: nat -> set<string>, execution: nat) returns (ok: bool)
      requires Distinct(instances)
      modifies this
      ensures ok <==>
                && |Selected(instances, names)| == |names|
                && (forall name :: name in names ==> exists item :: item in instances && item.name == name)
                && (forall item :: item in instances && item.name in names ==>
                      FitsTheSeed(old(statuses), seed, item, verdicts(item.id), reasons(item.id)))
      ensures !ok ==> decisions == old(decisions) && statuses == old(statuses)
      ensures ok ==> FirstDecisions(old(decisions), old(statuses), Selected(instances, names), verdicts, execution)
    {
      var selected := Selected(instances, names);
      SelectedIsDistinct(instances, names);
      DecidableIff(statuses, seed, instances, names, verdicts, reasons);
      ok := IsPopulation(selected, names);
      if !ok {
        return;
      }
      ok := ReadSelected(selected, seed);
      if ok {
        ok := DecideSelected(selected, seed, verdicts, reasons, execution);
      }
    }

    /** The first loop: every instance pending and read as seeded. */
    method ReadSelected(selected: seq<Instance>, seed: map<string, Reference>) returns (ok: bool)
      ensures ok <==> forall item :: item in selected ==> ReadAsSeeded(statuses, seed, item)
    {
      for i := 0 to |selected|
        invariant forall k :: 0 <= k < i ==> ReadAsSeeded(statuses, seed, selected[k])
      {
        if !ReadAsSeeded(statuses, seed, selected[i]) {
          assert selected[i] in selected;
          return false;
        }
      }
      ok := true;
    }

    /** What a first pass leaves behind. */
    ghost predicate FirstDecisions(before: seq<Decision>, were: map<nat, Status>, selected: seq<Instance>,
                                   verdicts: nat -> string, execution: nat)
      reads this
    {
      && before <= decisions && |decisions| == |before| + |selected|
      && (forall i :: 0 <= i < |selected| ==>
            && decisions[|before| + i] == Decision(selected[i].id, verdicts(selected[i].id), execution)
            && selected[i].id in statuses && statuses[selected[i].id] == Decided)
      && (forall id :: id in were && (forall i :: 0 <= i < |selected| ==> selected[i].id != id) ==>
            id in statuses && statuses[id] == were[id])
    }

    /** The second loop: nothing is kept unless it comes to its end. */
    method DecideSelected(selected: seq<Instance>, seed: map<string, Reference>, verdicts: nat -> string,
                          reasons: nat -> set<string>, execution: nat) returns (ok: bool)
      requires Distinct(selected) && forall k :: 0 <= k < |selected| ==> selected[k].name in seed
      modifies this
      ensures ok <==> forall item :: item in selected ==>
                        item.name in seed && AsExpected(seed[item.name], verdicts(item.id), reasons(item.id))
      ensures !ok ==> decisions == old(decisions) && statuses == old(statuses)
      ensures ok ==> FirstDecisions(old(decisions), old(statuses), selected, verdicts, execution)
    {
      var more: seq<Decision> := [];
      var marked: map<nat, Status> := statuses;
      for i := 0 to |selected|
        invariant |more| == i
        invariant forall k :: 0 <= k < i ==>
                    && more[k] == Decision(selected[k].id, verdicts(selected[k].id), execution)
                    && selected[k].id in marked && marked[selected[k].id] == Decided
                    && AsExpected(seed[selected[k].name], verdicts(selected[k].id), reasons(selected[k].id))
        invariant forall id :: id in statuses && (forall k :: 0 <= k < i ==> selected[k].id != id) ==>
                    id in marked && marked[id] == statuses[id]
      {
        var item := selected[i];
        if !AsExpected(seed[item.name], verdicts(item.id), reasons(item.id)) {
          assert item in selected;
          return false;
        }
        more := more + [Decision(item.id, verdicts(item.id), execution)];
        marked := marked[item.id := Decided];
      }
      decisions, statuses := decisions + more, marked;
      ok := true;
    }

    /** Decide again: a new decision only where the verdict has changed. An instance that was never
        decided stops the pass, and nothing of it is kept. */
    method Reprocess(instances: seq<Instance>, verdicts: nat -> string, execution: nat)
      returns (ok: bool, changed: seq<string>)
      requires Distinct(instances)
      modifies this
      ensures ok <==> forall i :: 0 <= i < |instances| ==> Latest(old(decisions), instances[i].id).Some?
      ensures statuses == old(statuses)
      ensures !ok ==> decisions == old(decisions)
      ensures ok ==> decisions == old(decisions) + Changes(old(decisions), instances, verdicts, execution)
      ensures ok ==> |changed| + Unchanged(old(decisions), instances, verdicts) == |instances|
      ensures ok ==> forall i :: 0 <= i < |instances| ==> Stands(decisions, instances[i], verdicts)
    {
      var latest := LatestOf(decisions);
      var more: seq<Decision> := [];
      changed := [];
      for i := 0 to |instances|
        invariant more == Changes(decisions, instances[..i], verdicts, execution)
        invariant |changed| == |more|
        invariant forall k :: 0 <= k < i ==> Latest(decisions, instances[k].id).Some?
      {
        var item := instances[i];
        assert instances[..i + 1][..i] == instances[..i];
        if item.id !in latest {
          return false, [];
        }
        if latest[item.id].verdict != verdicts(item.id) {
          more := more + [Decision(item.id, verdicts(item.id), execution)];
          changed := changed + [item.name];
        }
      }
      assert instances[..|instances|] == instances;
      ChangedPlusUnchanged(decisions, instances, verdicts, execution);
      forall i | 0 <= i < |instances|
        ensures Stands(decisions + more, instances[i], verdicts)
      {
        LatestIsTheVerdict(decisions, instances, verdicts, execution, instances[i].id);
      }
      decisions := decisions + more;
      ok := true;
    }
  }

  /** The dictionary of last decisions. */
  method LatestOf(decisions: seq<Decision>) returns (latest: map<nat, Decision>)
    ensures forall i: nat ::
              && (i in latest <==> Latest(decisions, i).Some?)
              && (i in latest ==> latest[i] == Latest(decisions, i).value)
  {
    latest := map[];
    for k := 0 to |decisions|
      invariant forall i: nat ::
                  && (i in latest <==> Latest(decisions[..k], i).Some?)
                  && (i in latest ==> latest[i] == Latest(decisions[..k], i).value)
    {
      assert decisions[..k + 1][..k] == decisions[..k];
      latest := latest[decisions[k].instance := decisions[k]];
    }
    assert decisions[..|decisions|] == decisions;
  }
}
