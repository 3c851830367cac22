// Migration 0008: the price of an event moves into its data and, on the way back, out again.

module Migration {
  import opened Options

  datatype Json =
    | Null | Bool(b: bool) | Number(r: real) | Text(s: string) | Array(items: seq<Json>)
    | Object(fields: map<string, Json>)

  /** A row of the events table: SQL NULL is None. */
  datatype Event = Event(id: int, instance: Option<int>, process: Option<int>, data: Option<Json>, cost: Option<real>,
                         duration: Option<int>)

  const COST := "legacy_cost_usd"
  const MIGRATED := "legacy_cost_migrated_0008"
  const WAS_NULL := "legacy_cost_data_was_null_0008"

  /** `data ? key` and `data -> key` of an object; other values have no keys. */
  function Field(data: Option<Json>, key: string): Option<Json> {
    match data
    case Some(Object(fields)) => if key in fields then Some(fields[key]) else None
    case _ => None
  }

  /** `data ->> key = 'true'`: the text of a boolean and of a string read the same. */
  predicate SaysTrue(data: Option<Json>, key: string) {
    Field(data, key) in {Some(Bool(true)), Some(Text("true"))}
  }

  /** The guard: a priced event whose data could not take the new keys, or has one of them already. */
  predicate Conflicts(e: Event) {
    && e.cost.Some? && e.data.Some?
    && (!e.data.value.Object? || Field(e.data, COST).Some? || Field(e.data, MIGRATED).Some?
        || Field(e.data, WAS_NULL).Some?)
  }

  /** A conflict is a price beside data that is no object or has one of the three keys. */
  lemma ConflictsIff(e: Event)
    ensures Conflicts(e) <==>
            e.cost != None
            && match e.data
               case None => false
               case Some(Object(fields)) => COST in fields || MIGRATED in fields || WAS_NULL in fields
               case Some(_) => true
  {
  }

  function Upgraded(e: Event): Event
    requires !Conflicts(e)
  {
    if e.cost == None then e
    else
      var fields := if e.data == None then map[] else e.data.value.fields;
      var marked := fields[COST := Number(e.cost.value)][MIGRATED := Bool(true)];
      e.(data := Some(Object(if e.data == None then marked[WAS_NULL := Bool(true)] else marked)), cost := None)
  }

  /** `(data ->> 'legacy_cost_usd')::numeric`: absent and null read as NULL; a text that is no number, a
      boolean, a list or an object makes the statement fail. `numeric` is the reading of a text. */
  function CostIn(numeric: string -> Option<real>, data: Option<Json>): Option<Option<real>> {
    match Field(data, COST)
    case None => Some(None)
    case Some(Null) => Some(None)
    case Some(Number(r)) => Some(Some(r))
    case Some(Text(s)) => (match numeric(s) case None => None case Some(r) => Some(Some(r)))
    case Some(_) => None
  }

  /** The row after the downgrade's update; None when its cast fails. */
  function Downgraded(numeric: string -> Option<real>, e: Event): Option<Event> {
    if !SaysTrue(e.data, MIGRATED) then Some(e.(cost := None))
    else
      match CostIn(numeric, e.data)
      case None => None
      case Some(cost) =>
        Some(e.(cost := cost,
                data := if SaysTrue(e.data, WAS_NULL) then None
                        else Some(Object(e.data.value.fields - {COST, MIGRATED, WAS_NULL}))))
  }

  /** `reference NOT IN (SELECT id ...)`: unknown, so false, of a NULL reference, unless there are no ids at
      all: over no rows it is true of everything. */
  predicate NotIn(reference: Option<int>, ids: set<int>) {
    ids == {} || (reference.Some? && reference.value !in ids)
  }

  /** Events of instances and processes that are gone are deleted on the way back. */
  predicate Referenced(e: Event, instances: set<int>, processes: set<int>) {
    !NotIn(e.instance, instances) && !NotIn(e.process, processes)
  }

  // ----- what the two updates do to a row

  /** The keys a priced row's data gets, and nothing else of it changes. */
  ghost predicate Carries(fields: map<string, Json>, cost: real, data: Option<Json>) {
    && COST in fields && fields[COST] == Number(cost)
    && MIGRATED in fields && fields[MIGRATED] == Bool(true)
    && (WAS_NULL in fields <==> data == None) && (WAS_NULL in fields ==> fields[WAS_NULL] == Bool(true))
    && fields - {COST, MIGRATED, WAS_NULL} == if data.Some? && data.value.Object? then data.value.fields else map[]
  }

  /** A row is marked when its data is an object with the marker, as a boolean or as a text. */
  lemma MarkedIff(e: Event, key: string)
    ensures SaysTrue(e.data, key) <==>
            exists fields ::
              e.data == Some(Object(fields)) && key in fields && fields[key] in {Bool(true), Text("true")}
  {
  }

  /** The price read on the way back: none where the key is absent or null, a number or a numeric text
      otherwise; anything else makes the cast fail. */
  lemma CostInMeans(numeric: string -> Option<real>, fields: map<string, Json>)
    ensures CostIn(numeric, Some(Object(fields))) ==
            if COST !in fields || fields[COST] == Null then Some(None)
            else if fields[COST].Number? then Some(Some(fields[COST].r))
            else if fields[COST].Text? && numeric(fields[COST].s).Some? then Some(numeric(fields[COST].s))
            else None
  {
  }

  /** Upwards a priced row's price goes into its data; another row stays, and no row has a price any more. */
  lemma UpgradedMeans(e: Event)
    requires !Conflicts(e)
    ensures var up := Upgraded(e);
            && up.cost == None && up.(data := e.data, cost := e.cost) == e
            && match e.cost
               case None => up.data == e.data
               case Some(cost) => up.data.Some? && up.data.value.Object? && Carries(up.data.value.fields, cost, e.data)
  {
    if e.cost.Some? {
      var before := if e.data == None then map[] else e.data.value.fields;
      var fields := Upgraded(e).data.value.fields;
      assert fields - {COST, MIGRATED, WAS_NULL} == before;
    }
  }

  /** Downwards a marked row gets the price its data carries, where it can be read, and loses the three keys,
      or its whole data where there had been none; another row only gets an empty price. */
  lemma DowngradedMeans(numeric: string -> Option<real>, e: Event)
    ensures match Downgraded(numeric, e)
            case None => SaysTrue(e.data, MIGRATED) && CostIn(numeric, e.data) == None
            case Some(down) =>
              && down.(data := e.data, cost := e.cost) == e
              && if !SaysTrue(e.data, MIGRATED) then down.cost == None && down.data == e.data
                 else
                   && CostIn(numeric, e.data) == Some(down.cost)
                   && (SaysTrue(e.data, WAS_NULL) ==> down.data == None)
                   && (!SaysTrue(e.data, WAS_NULL) ==>
                         && down.data.Some? && down.data.value.Object? && e.data.Some? && e.data.value.Object?
                         && down.data.value.fields == e.data.value.fields - {COST, MIGRATED, WAS_NULL})
  {
  }

  // ----- one row there and back

  /** A row comes back exactly as it was, or, if it had no price and carried the migration's own marker,
      does not come back. */
  lemma RowRoundTrip(numeric: string -> Option<real>, e: Event)
    requires !Conflicts(e)
    ensures Downgraded(numeric, Upgraded(e)) == Some(e) <==> !(e.cost == None && SaysTrue(e.data, MIGRATED))
  {
    var up := Upgraded(e);
    if e.cost.Some? {
      assert SaysTrue(up.data, MIGRATED) && Field(up.data, COST) == Some(Number(e.cost.value));
      if e.data.Some? {
        assert !SaysTrue(up.data, WAS_NULL);
        assert up.data.value.fields - {COST, MIGRATED, WAS_NULL} == e.data.value.fields;
      }
    } else if SaysTrue(e.data, MIGRATED) {
      assert MIGRATED in e.data.value.fields;
    }
  }

  // ----- the table

  class Events {
    var rows: seq<Event>
    // Prices are a column only before the upgrade.
    var hasCost: bool

    constructor (rows: seq<Event>)
      ensures this.rows == rows && hasCost
    {
      this.rows, hasCost := rows, true;
    }

    /** Refuses as a whole when one row conflicts. */
    method Upgrade() returns (ok: bool)
      requires hasCost
      modifies this
      ensures ok <==> forall i :: 0 <= i < |old(rows)| ==> !Conflicts(old(rows)[i])
      ensures !ok ==> rows == old(rows) && hasCost
      ensures ok ==> !hasCost && |rows| == |old(rows)|
      ensures ok ==> forall i :: 0 <= i < |rows| ==> !Conflicts(old(rows)[i]) && rows[i] == Upgraded(old(rows)[i])
    {
      for i := 0 to |rows|
        invariant forall k :: 0 <= k < i ==> !Conflicts(rows[k])
      {
        if Conflicts(rows[i]) {
          return false;
        }
      }
      var before := rows;
      var after: seq<Event> := [];
      for i := 0 to |before|
        invariant |after| == i
        invariant forall k :: 0 <= k < i ==> after[k] == Upgraded(before[k])
      {
        after := after + [Upgraded(before[i])];
      }
      rows, hasCost, ok := after, false, true;
    }

    /** Fails as a whole when one cast fails; keeps only rows whose instance and process exist. */
    method Downgrade(numeric: string -> Option<real>, instances: set<int>, processes: set<int>) returns (ok: bool)
      requires !hasCost
      modifies this
      ensures ok <==> forall i :: 0 <= i < |old(rows)| ==> Downgraded(numeric, old(rows)[i]).Some?
      ensures !ok ==> rows == old(rows) && !hasCost
      ensures ok ==> hasCost && rows == Kept(numeric, old(rows), instances, processes)
    {
      var after: seq<Event> := [];
      for i := 0 to |rows|
        invariant forall k :: 0 <= k < i ==> Downgraded(numeric, rows[k]).Some?
        invariant after == Kept(numeric, rows[..i], instances, processes)
      {
        assert rows[..i + 1][..i] == rows[..i];
        var e := Downgraded(numeric, rows[i]);
        if e == None {
          return false;
        }
        if Referenced(e.value, instances, processes) {
          after := after + [e.value];
        }
      }
      assert rows[..|rows|] == rows;
      rows, hasCost, ok := after, true, true;
    }
  }

  /** The rows after a downgrade, in order. */
  function Kept(numeric: string -> Option<real>, rows: seq<Event>, instances: set<int>, processes: set<int>): seq<Event>
  {
    if rows == [] then []
    else
      var e := Downgraded(numeric, rows[|rows| - 1]);
      Kept(numeric, rows[..|rows| - 1], instances, processes)
      + if e.Some? && Referenced(e.value, instances, processes) then [e.value] else []
  }

  lemma {:induction false} KeptAtMost(numeric: string -> Option<real>, rows: seq<Event>,
                                      instances: set<int>, processes: set<int>)
    ensures |Kept(numeric, rows, instances, processes)| <= |rows|
  {
    if rows != [] {
      KeptAtMost(numeric, rows[..|rows| - 1], instances, processes);
    }
  }

  ghost predicate AllCome(numeric: string -> Option<real>, before: seq<Event>, rows: seq<Event>,
                          instances: set<int>, processes: set<int>)
    requires |before| == |rows|
  {
    forall i :: 0 <= i < |rows| ==>
      Downgraded(numeric, rows[i]) == Some(before[i]) && Referenced(before[i], instances, processes)
  }

  /** The kept rows are the former ones exactly when every row comes back as its own. */
  lemma {:induction false} KeptIff(numeric: string -> Option<real>, before: seq<Event>, rows: seq<Event>,
                                   instances: set<int>, processes: set<int>)
    requires |before| == |rows|
    ensures Kept(numeric, rows, instances, processes) == before <==>
            AllCome(numeric, before, rows, instances, processes)
  {
    if rows != [] {
      var n := |rows| - 1;
      KeptIff(numeric, before[..n], rows[..n], instances, processes);
      KeptAtMost(numeric, rows[..n], instances, processes);
      assert before == before[..n] + [before[n]];
      var front, kept := Kept(numeric, rows[..n], instances, processes), Kept(numeric, rows, instances, processes);
      if kept == before {
        assert kept[..n] == front && kept[n] == before[n];
      }
    }
  }

  /** A row that survives the way there and back. */
  ghost predicate ComesBack(e: Event, instances: set<int>, processes: set<int>) {
    && (match e.instance case None => instances != {} case Some(id) => id in instances)
    && (match e.process case None => processes != {} case Some(id) => id in processes)
    && !(e.cost == None && SaysTrue(e.data, MIGRATED))
  }

  /** On a database without instances every event is deleted on the way back, those that never referred to
      one included: they do not come back, whatever they hold. */
  lemma {:induction false} NothingComesBackWithoutInstances(numeric: string -> Option<real>, e: Event,
                                                            processes: set<int>)
    requires !Conflicts(e)
    ensures Kept(numeric, [Upgraded(e)], {}, processes) == []
    ensures !ComesBack(e, {}, processes)
  {
    assert [Upgraded(e)][..0] == [];
  }

  /** An event without references comes back exactly when there is an instance and a process. */
  lemma UnreferencedComesBackIff(e: Event, instances: set<int>, processes: set<int>)
    requires e.instance == None && e.process == None && e.cost.Some?
    ensures ComesBack(e, instances, processes) <==> instances != {} && processes != {}
  {
  }

  /** An upgrade the guard lets through is undone exactly when every row comes back: no unpriced row carries
      the migration's marker, every reference is found, and where a row has none the table is not empty. */
  method ThereAndBack(table: Events, numeric: string -> Option<real>, instances: set<int>, processes: set<int>)
    returns (up: bool, down: bool)
    requires table.hasCost
    modifies table
    ensures up <==> forall i :: 0 <= i < |old(table.rows)| ==> !Conflicts(old(table.rows)[i])
    ensures !up ==> table.hasCost && table.rows == old(table.rows)
    ensures up ==>
              (down && table.rows == old(table.rows) <==>
               forall i :: 0 <= i < |old(table.rows)| ==> ComesBack(old(table.rows)[i], instances, processes))
  {
    ghost var before := table.rows;
    up := table.Upgrade();
    down := false;
    if up {
      forall i | 0 <= i < |table.rows|
        ensures Downgraded(numeric, table.rows[i]) == Some(before[i]) && Referenced(before[i], instances, processes)
                <==> ComesBack(before[i], instances, processes)
      {
        RowRoundTrip(numeric, before[i]);
      }
      KeptIff(numeric, before, table.rows, instances, processes);
      down := table.Downgrade(numeric, instances, processes);
    }
  }
}
