// Restoring the cached trace of an example: the recorded spans come back under fresh identifiers,
// as the same forest, marked as a replay.

module TraceReplay {
  import opened Options

  datatype Json = Text(s: string) | Number(n: int) | Flag(b: bool)

  /** A recorded event; identifiers are the strings it was exported with. */
  datatype Event = Event(id: int, trace: string, span: string, parent: Option<string>, step: string,
                         data: map<string, Json>)

  /** A restored event; identifiers are drawn fresh. */
  datatype Row = Row(trace: nat, span: nat, parent: Option<nat>, step: string, data: map<string, Json>)

  const MARKS := {"demo_seed", "cached_replay", "source_event_id", "source_trace_id", "provider_calls_this_deployment"}

  /** The recorded data with the replay's own marks over it. */
  function Marked(event: Event): map<string, Json> {
    event.data["demo_seed" := Flag(true)]["cached_replay" := Flag(true)]["source_event_id" := Number(event.id)]
      ["source_trace_id" := Text(event.trace)]["provider_calls_this_deployment" := Number(0)]
  }

  /** Random identifiers, none given twice. */
  class Source {
    var next: nat

    constructor ()
      ensures next == 0
    {
      next := 0;
    }

    method Draw() returns (id: nat)
      modifies this
      ensures id == old(next) && next == old(next) + 1
    {
      id, next := next, next + 1;
    }
  }

  // ----- the same forest

  ghost predicate SameTraces(events: seq<Event>, rows: seq<Row>) {
    |rows| == |events| &&
    forall i, j :: 0 <= i < |rows| && 0 <= j < |rows| ==>
      (rows[i].trace == rows[j].trace <==> events[i].trace == events[j].trace)
  }

  ghost predicate SameSpans(events: seq<Event>, rows: seq<Row>) {
    |rows| == |events| &&
    forall i, j :: 0 <= i < |rows| && 0 <= j < |rows| ==>
      (rows[i].span == rows[j].span <==> events[i].span == events[j].span)
  }

  ghost predicate SameParents(events: seq<Event>, rows: seq<Row>) {
    |rows| == |events| &&
    forall i, j :: 0 <= i < |rows| && 0 <= j < |rows| ==>
      (rows[i].parent == Some(rows[j].span) <==> events[i].parent == Some(events[j].span))
  }

  ghost predicate IsRecorded(events: seq<Event>, span: Option<string>) {
    exists j :: 0 <= j < |events| && span == Some(events[j].span)
  }

  /** What was opened outside the example becomes a root; nothing else does. */
  ghost predicate SameRoots(events: seq<Event>, rows: seq<Row>) {
    |rows| == |events| &&
    forall i :: 0 <= i < |rows| ==> (rows[i].parent == None <==> !IsRecorded(events, events[i].parent))
  }

  ghost predicate KeepsData(events: seq<Event>, rows: seq<Row>) {
    |rows| == |events| &&
    forall i :: 0 <= i < |rows| ==>
      && rows[i].step == events[i].step
      && rows[i].data.Keys == events[i].data.Keys + MARKS
      && (forall k :: k in events[i].data && k !in MARKS ==> rows[i].data[k] == events[i].data[k])
      && IsMarked(events[i], rows[i].data)
  }

  /** The replay says what it is: a cached run, of which event, without any provider call of today. */
  ghost predicate IsMarked(event: Event, data: map<string, Json>) {
    && MARKS <= data.Keys
    && data["demo_seed"] == Flag(true) && data["cached_replay"] == Flag(true)
    && data["source_event_id"] == Number(event.id) && data["source_trace_id"] == Text(event.trace)
    && data["provider_calls_this_deployment"] == Number(0)
  }

  // ----- the two passes

  /** A dictionary that gives different names different identifiers. */
  ghost predicate OneToOne(names: map<string, nat>, below: nat) {
    && (forall a :: a in names ==> names[a] < below)
    && (forall a, b :: a in names && b in names && names[a] == names[b] ==> a == b)
  }

  method Replay(source: Source, events: seq<Event>) returns (rows: seq<Row>)
    modifies source
    ensures SameTraces(events, rows) && SameSpans(events, rows)
    ensures SameParents(events, rows) && SameRoots(events, rows)
    ensures KeepsData(events, rows)
    ensures forall i :: 0 <= i < |rows| ==> old(source.next) <= rows[i].trace && old(source.next) <= rows[i].span
  {
    var traces, spans := NameAll(source, events);
    rows := RestoreAll(traces, spans, events);
    assert IsRestored(events, rows, traces, spans);
    ForestIsKept(events, rows, traces, spans);
    RootsAreKept(events, rows, traces, spans);
    DataIsKept(events, rows, traces, spans);
  }

  /** First pass: every trace and every span gets its identifier before any row is made. */
  method NameAll(source: Source, events: seq<Event>) returns (traces: map<string, nat>, spans: map<string, nat>)
    modifies source
    ensures OneToOne(traces, source.next) && OneToOne(spans, source.next)
    ensures forall i :: 0 <= i < |events| ==> events[i].trace in traces && events[i].span in spans
    ensures forall name :: name in spans ==> IsRecorded(events, Some(name))
    ensures (forall name :: name in traces ==> old(source.next) <= traces[name])
    ensures (forall name :: name in spans ==> old(source.next) <= spans[name])
  {
    traces, spans := map[], map[];
    ghost var start := source.next;
    for i := 0 to |events|
      invariant source.next >= start
      invariant OneToOne(traces, source.next) && OneToOne(spans, source.next)
      invariant forall k :: 0 <= k < i ==> events[k].trace in traces && events[k].span in spans
      invariant forall name :: name in spans ==> IsRecorded(events, Some(name))
      invariant forall name :: name in traces ==> start <= traces[name]
      invariant forall name :: name in spans ==> start <= spans[name]
    {
      var moreTraces := NameFrom(source, start, traces, events[i].trace);
      traces := moreTraces;
      var moreSpans := NameFrom(source, start, spans, events[i].span);
      spans := moreSpans;
    }
  }

  /** Second pass: the rows. */
  method RestoreAll(traces: map<string, nat>, spans: map<string, nat>, events: seq<Event>) returns (rows: seq<Row>)
    requires forall i :: 0 <= i < |events| ==> events[i].trace in traces && events[i].span in spans
    ensures |rows| == |events|
    ensures forall i :: 0 <= i < |events| ==> rows[i] == Restored(traces, spans, events[i])
  {
    rows := [];
    for i := 0 to |events|
      invariant |rows| == i
      invariant forall k :: 0 <= k < i ==> rows[k] == Restored(traces, spans, events[k])
    {
      rows := rows + [Restored(traces, spans, events[i])];
    }
  }

  /** setdefault: draw an identifier, keep it only for a name not seen before. */
  method NameFrom(source: Source, ghost start: nat, names: map<string, nat>, name: string)
    returns (more: map<string, nat>)
    requires OneToOne(names, source.next) && start <= source.next
    requires forall a :: a in names ==> start <= names[a]
    modifies source
    ensures OneToOne(more, source.next) && source.next == old(source.next) + 1
    ensures more.Keys == names.Keys + {name} && forall a :: a in names ==> more[a] == names[a]
    ensures forall a :: a in more ==> start <= more[a]
  {
    var id := source.Draw();
    more := if name in names then names else names[name := id];
  }

  function Restored(traces: map<string, nat>, spans: map<string, nat>, event: Event): Row
    requires event.trace in traces && event.span in spans
  {
    Row(traces[event.trace], spans[event.span],
        if event.parent.Some? && event.parent.value in spans then Some(spans[event.parent.value]) else None,
        event.step, Marked(event))
  }

  ghost predicate IsRestored(events: seq<Event>, rows: seq<Row>, traces: map<string, nat>, spans: map<string, nat>) {
    && |rows| == |events|
    && (forall i :: 0 <= i < |events| ==>
          events[i].trace in traces && events[i].span in spans && rows[i] == Restored(traces, spans, events[i]))
    && (forall a, b :: a in traces && b in traces && traces[a] == traces[b] ==> a == b)
    && (forall a, b :: a in spans && b in spans && spans[a] == spans[b] ==> a == b)
    && (forall name :: name in spans ==> IsRecorded(events, Some(name)))
  }

  lemma RestoredData(event: Event)
    ensures Marked(event).Keys == event.data.Keys + MARKS
    ensures forall k :: k in event.data && k !in MARKS ==> Marked(event)[k] == event.data[k]
    ensures IsMarked(event, Marked(event))
  {
  }

  lemma DataIsKept(events: seq<Event>, rows: seq<Row>, traces: map<string, nat>, spans: map<string, nat>)
    requires IsRestored(events, rows, traces, spans)
    ensures KeepsData(events, rows)
  {
    forall i | 0 <= i < |rows|
      ensures rows[i].data == Marked(events[i])
    {
      RestoredData(events[i]);
    }
    forall i | 0 <= i < |rows|
      ensures rows[i].data.Keys == events[i].data.Keys + MARKS
      ensures forall k :: k in events[i].data && k !in MARKS ==> rows[i].data[k] == events[i].data[k]
      ensures IsMarked(events[i], rows[i].data)
    {
      RestoredData(events[i]);
    }
  }

  lemma RootsAreKept(events: seq<Event>, rows: seq<Row>, traces: map<string, nat>, spans: map<string, nat>)
    requires IsRestored(events, rows, traces, spans)
    ensures SameRoots(events, rows)
  {
  }

  /** Renaming one to one keeps the forest, whatever order parents and children come in. */
  lemma ForestIsKept(events: seq<Event>, rows: seq<Row>, traces: map<string, nat>, spans: map<string, nat>)
    requires IsRestored(events, rows, traces, spans)
    ensures SameTraces(events, rows) && SameSpans(events, rows) && SameParents(events, rows)
  {
  }
}
