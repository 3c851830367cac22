// The recorder itself: the context variable, the spans and their shared lists of rows, and the
// breaker, updated in place. Each operation does exactly what the state machine says.

module SpanRecorder {
  import opened Options
  import opened SpanModel

  class Recorder {
    var spans: seq<Span>
    var current: map<nat, Option<nat>>
    var lists: map<nat, seq<Row>>
    var unreachableUntil: int
    ghost var ended: map<nat, seq<Row>>
    ghost var endedAt: map<nat, int>
    ghost var visits: seq<Visit>
    ghost var clock: int

    ghost function View(): State
      reads this
    {
      State(spans, current, lists, ended, endedAt, visits, clock, unreachableUntil)
    }

    constructor ()
      ensures View() == START
    {
      spans, current, lists, unreachableUntil := [], map[0 := None], map[], 0;
      ended, endedAt, visits, clock := map[], map[], [], 0;
    }

    /** A task or thread starts with a copy of the context it is made in. */
    method StartTask(context: nat, child: nat)
      requires Enabled(View(), Fork(context, child))
      modifies this
      ensures View() == Next(old(View()), Fork(context, child))
    {
      current := current[child := current[context]];
    }

    method EndTask(context: nat)
      requires Enabled(View(), Finish(context))
      modifies this
      ensures View() == Next(old(View()), Finish(context))
    {
      current := current - {context};
    }

    /** Entering `with span(...)`: the new span is the context's current one. */
    method Enter(context: nat, parent: Option<nat>, step: string, values: Values) returns (id: nat)
      requires Enabled(View(), Begin(context, parent, step, values))
      modifies this
      ensures View() == Next(old(View()), Begin(context, parent, step, values))
      ensures id == old(|spans|)
    {
      id := |spans|;
      var inherited := current[context];
      var above := if parent.Some? then parent else inherited;
      var span := Span(step, if above.Some? then spans[above.value].trace else id, above, inherited,
                       if inherited.Some? then spans[inherited.value].root else id, context,
                       NO_LINKS, map[], false, true);
      if inherited == None {
        lists := lists[id := []];
      }
      if above.Some? {
        span := span.(links := span.links + Only(spans[above.value].links, INHERITED));
      } else {
        assert NO_LINKS + map[] == NO_LINKS;
      }
      span := SetOn(span, values);
      spans := spans + [span];
      current := current[context := Some(id)];
    }

    method SetValues(i: nat, values: Values)
      requires Enabled(View(), Set(i, values))
      modifies this
      ensures View() == Next(old(View()), Set(i, values))
    {
      spans := spans[i := SetOn(spans[i], values)];
    }

    /** Leaving the block, normally or with an exception: mark, restore, add the row, and write when
        nothing was there before. */
    method Leave(context: nat, raised: Option<string>, now: int, database: Database)
      requires Enabled(View(), End(context, raised, now, database))
      modifies this
      ensures View() == Next(old(View()), End(context, raised, now, database))
    {
      var i := current[context].value;
      var span := spans[i];
      if raised.Some? {
        span := span.(error := true, data := span.data["error" := Word(Shown(raised.value))]);
      }
      span := span.(open := false);
      spans := spans[i := span];
      current := current[context := span.inherited];
      lists := lists[span.root := (if span.root in lists then lists[span.root] else []) + [RowOf(i, span)]];
      clock := now;
      if span.inherited == None {
        Write(span.root, now, database);
      }
    }

    /** One insert per local trace, and none while the database is known to be unreachable. */
    method Write(root: nat, now: int, database: Database)
      requires root in lists
      modifies this
      ensures View() == AfterWrite(old(View()), root, old(lists)[root], now, database)
    {
      ended, endedAt := ended[root := lists[root]], endedAt[root := now];
      if now < unreachableUntil {
        return;
      }
      visits := visits + [Visit(now, database, root, lists[root], Inserted(spans, lists[root]))];
      if database.Unreachable? {
        clock := now + database.waited;
        unreachableUntil := now + database.waited + RETRY_AFTER;
      } else {
        clock := now;
      }
    }
  }
}
