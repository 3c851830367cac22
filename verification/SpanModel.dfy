// The trace of every step, as a state machine: contexts open and close spans, a span's row joins
// the list its outermost span started, and that list is written when the outermost span ends.

module SpanModel {
  import opened Options

  datatype Value = Null | Number(n: int) | Word(s: string)

  const LINKS := {"instance_id", "process_id", "rule_id", "norm_rule_id"}
  const INHERITED := {"process_id", "rule_id", "norm_rule_id"}
  const RETRY_AFTER := 30

  type Values = map<string, Value>

  const NO_LINKS: Values := map k | k in LINKS :: Null

  /** A finished span's row. Its data is the span's own dictionary, shared (`shares`), or NULL where that was
      empty when the span ended; its links are copies. */
  datatype Row = Row(span: nat, trace: nat, parent: Option<nat>, step: string, error: bool, shares: bool,
                     links: Values)

  /** A span. Spans are numbered as they open; the number stands for the random identifier, and a
      trace is named after the span that started it. `inherited` is what the context held before,
      `root` the outermost span whose list of rows this one shares. */
  datatype Span = Span(step: string, trace: nat, parent: Option<nat>, inherited: Option<nat>, root: nat,
                       context: nat, links: Values, data: Values, error: bool, open: bool)

  /** How a visit goes; an unreachable database is noticed after some waiting. */
  datatype Database = Up | Unreachable(waited: nat) | Refusing

  /** One visit to the database, the list it came with, and the data of its rows at that moment. */
  datatype Visit = Visit(time: int, database: Database, root: nat, rows: seq<Row>, data: seq<Option<Values>>)

  datatype State = State(spans: seq<Span>, current: map<nat, Option<nat>>, lists: map<nat, seq<Row>>,
                         ended: map<nat, seq<Row>>, endedAt: map<nat, int>, visits: seq<Visit>, clock: int,
                         unreachableUntil: int)

  const START := State([], map[0 := None], map[], map[], map[], [], 0, 0)

  // ----- one span

  function Only(values: Values, keys: set<string>): Values {
    map k | k in values && k in keys :: values[k]
  }

  /** Keyword values are links when they have a link's name, data otherwise. */
  function SetOn(span: Span, values: Values): Span {
    span.(links := span.links + Only(values, LINKS), data := span.data + (values - LINKS))
  }

  function RowOf(i: nat, span: Span): Row {
    Row(i, span.trace, span.parent, span.step, span.error, span.data != map[], span.links)
  }

  /** What a row's data is now. */
  function DataOf(spans: seq<Span>, row: Row): Option<Values> {
    if row.shares && row.span < |spans| then Some(spans[row.span].data) else None
  }

  function Inserted(spans: seq<Span>, rows: seq<Row>): (data: seq<Option<Values>>)
    ensures |data| == |rows|
  {
    seq(|rows|, k requires 0 <= k < |rows| => DataOf(spans, rows[k]))
  }

  // ----- the steps

  datatype Step =
    | Fork(context: nat, child: nat)
    | Finish(context: nat)
    | Begin(context: nat, parent: Option<nat>, step: string, values: Values)
    | Set(span: nat, values: Values)
    | End(context: nat, raised: Option<string>, now: int, database: Database)

  /** A new context copies the current span of the one it is made in. */
  function AfterFork(s: State, context: nat, child: nat): State
    requires context in s.current
  {
    s.(current := s.current[child := s.current[context]])
  }

  function NewSpan(s: State, context: nat, parent: Option<nat>, step: string, values: Values): Span
    requires context in s.current
    requires parent.Some? ==> parent.value < |s.spans|
    requires s.current[context].Some? ==> s.current[context].value < |s.spans|
  {
    var inherited := s.current[context];
    var above := if parent.Some? then parent else inherited;
    SetOn(Span(step,
               if above.Some? then s.spans[above.value].trace else |s.spans|,
               above,
               inherited,
               if inherited.Some? then s.spans[inherited.value].root else |s.spans|,
               context,
               NO_LINKS + if above.Some? then Only(s.spans[above.value].links, INHERITED) else map[],
               map[], false, true),
          values)
  }

  function AfterBegin(s: State, context: nat, parent: Option<nat>, step: string, values: Values): State
    requires context in s.current
    requires parent.Some? ==> parent.value < |s.spans|
    requires s.current[context].Some? ==> s.current[context].value < |s.spans|
  {
    var id := |s.spans|;
    s.(spans := s.spans + [NewSpan(s, context, parent, step, values)],
       current := s.current[context := Some(id)],
       lists := if s.current[context].Some? then s.lists else s.lists[id := []])
  }

  /** The span as it closes: an exception marks it before its row is made. */
  function Closing(span: Span, raised: Option<string>): Span {
    match raised
    case None => span.(open := false)
    case Some(message) => span.(open := false, error := true, data := span.data["error" := Word(Shown(message))])
  }

  function Shown(message: string): string {
    if |message| <= 1000 then message else message[..1000]
  }

  function ListOf(s: State, root: nat): seq<Row> {
    if root in s.lists then s.lists[root] else []
  }

  /** Leave the context, add the row, and write the list if nothing was there before. */
  function AfterEnd(s: State, i: nat, raised: Option<string>, now: int, database: Database): State
    requires i < |s.spans|
  {
    var span := Closing(s.spans[i], raised);
    var rows := ListOf(s, span.root) + [RowOf(i, span)];
    var closed := s.(spans := s.spans[i := span],
                     current := s.current[span.context := span.inherited],
                     lists := s.lists[span.root := rows],
                     clock := now);
    if span.inherited.Some? then closed else AfterWrite(closed, span.root, rows, now, database)
  }

  /** One visit per local trace, none while the database is known to be unreachable. */
  function AfterWrite(s: State, root: nat, rows: seq<Row>, now: int, database: Database): State {
    var ended := s.(ended := s.ended[root := rows], endedAt := s.endedAt[root := now]);
    if now < s.unreachableUntil then ended
    else
      ended.(visits := s.visits + [Visit(now, database, root, rows, Inserted(s.spans, rows))],
             clock := now + Waited(database), unreachableUntil := Breaker(s.unreachableUntil, now, database))
  }

  function Waited(database: Database): nat {
    if database.Unreachable? then database.waited else 0
  }

  /** Once the waiting is over, no visits for a while. */
  function Breaker(until: int, now: int, database: Database): int {
    if database.Unreachable? then now + database.waited + RETRY_AFTER else until
  }

  /** What a program can do next: contexts leave only their own spans, innermost first, and a task
      ends after its `with` blocks. */
  ghost predicate Enabled(s: State, step: Step) {
    match step
    case Fork(context, child) => context in s.current && child !in s.current
    case Finish(context) =>
      context in s.current
      && (s.current[context].Some? ==>
            s.current[context].value < |s.spans| && s.spans[s.current[context].value].context != context)
    case Begin(context, parent, _, _) =>
      && context in s.current
      && (parent.Some? ==> parent.value < |s.spans|)
      && (s.current[context].Some? ==> s.current[context].value < |s.spans|)
    case Set(i, _) => i < |s.spans|
    case End(context, _, now, _) =>
      && context in s.current && s.current[context].Some? && s.current[context].value < |s.spans|
      && s.spans[s.current[context].value].context == context
      && s.spans[s.current[context].value].open
      && now >= s.clock
  }

  function Next(s: State, step: Step): State
    requires Enabled(s, step)
  {
    match step
    case Fork(context, child) => AfterFork(s, context, child)
    case Finish(context) => s.(current := s.current - {context})
    case Begin(context, parent, name, values) => AfterBegin(s, context, parent, name, values)
    case Set(i, values) => s.(spans := s.spans[i := SetOn(s.spans[i], values)])
    case End(context, raised, now, database) => AfterEnd(s, s.current[context].value, raised, now, database)
  }

  /** Everything started inside the ending span has been waited for. */
  ghost predicate Joined(s: State, step: Step) {
    step.End? && step.context in s.current && s.current[step.context].Some? ==>
      var i := s.current[step.context];
      && (forall c :: c in s.current && c != step.context ==> s.current[c] != i)
      && (forall j :: 0 <= j < |s.spans| && s.spans[j].open ==> s.spans[j].inherited != i)
  }

  /** A run: every step possible when it is taken. */
  ghost predicate IsRun(s: State, steps: seq<Step>, t: State)
    decreases |steps|
  {
    if steps == [] then s == t
    else Enabled(s, steps[0]) && IsRun(Next(s, steps[0]), steps[1..], t)
  }

  /** A run in which no span outlives the one it was opened in. */
  ghost predicate IsJoinedRun(s: State, steps: seq<Step>, t: State)
    decreases |steps|
  {
    if steps == [] then s == t
    else
      Enabled(s, steps[0]) && Joined(s, steps[0]) && IsJoinedRun(Next(s, steps[0]), steps[1..], t)
  }

  // ----- what every run keeps

  ghost predicate SpanOk(s: State, i: nat)
    requires i < |s.spans|
  {
    var span := s.spans[i];
    && (span.parent.Some? ==> span.parent.value < i && span.trace == s.spans[span.parent.value].trace)
    && (span.parent == None ==> span.trace == i && span.inherited == None)
    && (match span.inherited
        case None => span.root == i
        case Some(p) => p < i && span.root == s.spans[p].root)
    && span.root <= i && span.root in s.lists
  }

  ghost predicate HasRow(rows: seq<Row>, i: nat) {
    exists k :: 0 <= k < |rows| && rows[k].span == i
  }

  ghost predicate Distinct(rows: seq<Row>) {
    forall j, k :: 0 <= j < k < |rows| ==> rows[j].span != rows[k].span
  }

  /** A row belongs to a closed span of this list and says of it what cannot change any more. */
  ghost predicate RowIsTrue(s: State, root: nat, row: Row) {
    && row.span < |s.spans|
    && var span := s.spans[row.span];
    && !span.open && span.root == root
    && row.trace == span.trace && row.parent == span.parent && row.step == span.step && row.error == span.error
    && (row.shares ==> span.data != map[])
  }

  /** Every closed span has its one row in its root's list, and only closed spans have rows. */
  ghost predicate RowsOk(s: State) {
    && (forall root :: root in s.lists ==> Distinct(s.lists[root]))
    && (forall root, k :: root in s.lists && 0 <= k < |s.lists[root]| ==>
          RowIsTrue(s, root, s.lists[root][k]))
    && (forall i :: 0 <= i < |s.spans| && !s.spans[i].open && s.spans[i].root in s.lists ==>
          HasRow(s.lists[s.spans[i].root], i))
  }

  /** What has been handed over for writing is the list as it was when the outermost span ended. */
  ghost predicate EndedOk(s: State) {
    && (forall root: nat :: root in s.ended <==> root < |s.spans| && s.spans[root].root == root && !s.spans[root].open)
    && (forall root :: root in s.ended && root in s.lists ==> s.ended[root] <= s.lists[root])
  }

  /** When the database may be tried again after it was not reached. */
  function RetryAt(visit: Visit): int
    requires visit.database.Unreachable?
  {
    visit.time + visit.database.waited + 30
  }

  ghost predicate VisitsOk(s: State) {
    && (forall k :: 0 <= k < |s.visits| ==>
          s.visits[k].root in s.ended && s.visits[k].rows == s.ended[s.visits[k].root] && s.visits[k].time <= s.clock)
    && (forall j, k :: 0 <= j < k < |s.visits| ==> s.visits[j].root != s.visits[k].root)
    && (forall j, k :: 0 <= j < k < |s.visits| && s.visits[j].database.Unreachable? ==>
          s.visits[k].time >= RetryAt(s.visits[j]))
    && (forall k :: 0 <= k < |s.visits| && s.visits[k].database.Unreachable? ==>
          s.unreachableUntil >= RetryAt(s.visits[k]))
  }

  ghost predicate Visited(s: State, root: nat) {
    exists k :: 0 <= k < |s.visits| && s.visits[k].root == root
  }

  /** The time falls between a visit that did not reach the database and the next one allowed. */
  ghost predicate InOutage(visits: seq<Visit>, time: int) {
    exists k :: OutageFrom(visits, k, time)
  }

  ghost predicate OutageFrom(visits: seq<Visit>, k: int, time: int) {
    0 <= k < |visits| && visits[k].database.Unreachable? && visits[k].time <= time < RetryAt(visits[k])
  }

  /** The breaker is open only after a visit that failed. */
  ghost predicate BreakerOk(s: State) {
    && s.clock >= 0
    && (s.unreachableUntil > 0 ==>
          exists k :: 0 <= k < |s.visits| && s.visits[k].database.Unreachable?
                      && RetryAt(s.visits[k]) == s.unreachableUntil)
  }

  /** Every list that was handed over came with a visit, unless that was inside an outage. */
  ghost predicate WrittenOk(s: State) {
    && s.endedAt.Keys == s.ended.Keys
    && forall root :: root in s.ended ==> Visited(s, root) || InOutage(s.visits, s.endedAt[root])
  }

  ghost predicate CurrentOk(s: State) {
    forall c :: c in s.current && s.current[c].Some? ==> s.current[c].value < |s.spans|
  }

  ghost predicate SpansOk(s: State) {
    forall i :: 0 <= i < |s.spans| ==> SpanOk(s, i)
  }

  ghost predicate ListsOk(s: State) {
    forall root :: root in s.lists ==> root < |s.spans|
  }

  ghost predicate Inv(s: State) {
    && CurrentOk(s) && SpansOk(s) && ListsOk(s)
    && RowsOk(s) && EndedOk(s) && VisitsOk(s) && BreakerOk(s) && WrittenOk(s)
  }

  /** A state with one more span, open, and perhaps an empty list of its own. */
  ghost predicate OpensTo(s: State, t: State) {
    && |t.spans| == |s.spans| + 1 && t.spans[..|s.spans|] == s.spans && t.spans[|s.spans|].open
    && (t.lists == s.lists || t.lists == s.lists[|s.spans| := []])
    && t.ended == s.ended && t.endedAt == s.endedAt && t.visits == s.visits
    && t.clock == s.clock && t.unreachableUntil == s.unreachableUntil
  }

  /** How the new span hangs from its parent and from what its context held. */
  ghost predicate Hangs(s: State, t: State, context: nat, span: Span) {
    && OpensTo(s, t) && t.spans == s.spans + [span]
    && context in s.current && span.inherited == s.current[context]
    && t.current == s.current[context := Some(|s.spans|)]
    && (match span.inherited
        case None => span.root == |s.spans| && t.lists == s.lists[|s.spans| := []]
        case Some(p) => p < |s.spans| && span.root == s.spans[p].root && t.lists == s.lists)
    && (match span.parent
        case None => span.trace == |s.spans| && span.inherited == None
        case Some(p) => p < |s.spans| && span.trace == s.spans[p].trace)
  }

  lemma BeginShape(s: State, context: nat, parent: Option<nat>, step: string, values: Values)
    requires Enabled(s, Begin(context, parent, step, values))
    ensures Hangs(s, AfterBegin(s, context, parent, step, values), context,
                  NewSpan(s, context, parent, step, values))
  {
  }

  lemma BeginKeepsInv(s: State, t: State, context: nat, span: Span)
    requires Inv(s) && Hangs(s, t, context, span)
    ensures Inv(t)
  {
    BeginKeepsSpans(s, t, context, span);
    BeginKeepsRows(s, t);
    BeginKeepsEnded(s, t);
  }

  lemma BeginKeepsSpans(s: State, t: State, context: nat, span: Span)
    requires SpansOk(s) && Hangs(s, t, context, span)
    ensures SpansOk(t)
  {
    forall i | 0 <= i < |t.spans|
      ensures SpanOk(t, i)
    {
      if i < |s.spans| {
        assert SpanOk(s, i);
      } else if span.inherited.Some? {
        assert SpanOk(s, span.inherited.value);
      }
    }
  }

  lemma SameSpansBefore(s: State, t: State)
    requires |s.spans| <= |t.spans| && t.spans[..|s.spans|] == s.spans
    ensures forall i :: 0 <= i < |s.spans| ==> t.spans[i] == s.spans[i]
  {
    forall i | 0 <= i < |s.spans|
      ensures t.spans[i] == s.spans[i]
    {
      assert t.spans[..|s.spans|][i] == t.spans[i];
    }
  }

  lemma BeginKeepsRows(s: State, t: State)
    requires RowsOk(s) && SpansOk(s) && ListsOk(s) && OpensTo(s, t)
    ensures RowsOk(t)
  {
    SameSpansBefore(s, t);
    BeginKeepsTrueRows(s, t);
    forall i | 0 <= i < |t.spans| && !t.spans[i].open && t.spans[i].root in t.lists
      ensures HasRow(t.lists[t.spans[i].root], i)
    {
      assert SpanOk(s, i) && HasRow(s.lists[s.spans[i].root], i);
    }
  }

  lemma BeginKeepsTrueRows(s: State, t: State)
    requires RowsOk(s) && ListsOk(s) && OpensTo(s, t)
    requires forall i :: 0 <= i < |s.spans| ==> t.spans[i] == s.spans[i]
    ensures forall root :: root in t.lists ==> Distinct(t.lists[root])
    ensures forall root, k :: root in t.lists && 0 <= k < |t.lists[root]| ==> RowIsTrue(t, root, t.lists[root][k])
  {
    forall root, k | root in t.lists && 0 <= k < |t.lists[root]|
      ensures RowIsTrue(t, root, t.lists[root][k])
    {
      assert root in s.lists && RowIsTrue(s, root, s.lists[root][k]);
    }
  }

  lemma BeginKeepsEnded(s: State, t: State)
    requires EndedOk(s) && VisitsOk(s) && BreakerOk(s) && WrittenOk(s) && OpensTo(s, t)
    ensures EndedOk(t) && VisitsOk(t) && BreakerOk(t) && WrittenOk(t)
  {
    SameSpansBefore(s, t);
    assert EndedOk(t);
    SameVisits(s, t);
  }

  /** What is said of visits and of what was handed over does not depend on spans. */
  lemma SameVisits(s: State, t: State)
    requires VisitsOk(s) && BreakerOk(s) && WrittenOk(s)
    requires t.ended == s.ended && t.endedAt == s.endedAt && t.visits == s.visits
    requires t.clock == s.clock && t.unreachableUntil == s.unreachableUntil
    ensures VisitsOk(t) && BreakerOk(t) && WrittenOk(t)
  {
    forall root | root in t.ended
      ensures Visited(t, root) || InOutage(t.visits, t.endedAt[root])
    {
      assert Visited(s, root) ==> Visited(t, root);
    }
  }

  /** A state in which span `i`, open or not, has other links and no less data. */
  ghost predicate SetsTo(s: State, i: nat, t: State) {
    && i < |s.spans| && |t.spans| == |s.spans|
    && t == s.(spans := s.spans[i := t.spans[i]])
    && t.spans[i] == s.spans[i].(links := t.spans[i].links, data := t.spans[i].data)
    && s.spans[i].data.Keys <= t.spans[i].data.Keys
  }

  lemma SetKeepsInv(s: State, i: nat, t: State)
    requires Inv(s) && SetsTo(s, i, t)
    ensures Inv(t)
  {
    SetKeepsSpans(s, i, t);
    SetKeepsRows(s, i, t);
    SetKeepsEnded(s, i, t);
  }

  lemma SetKeepsSpans(s: State, i: nat, t: State)
    requires SetsTo(s, i, t) && SpansOk(s)
    ensures SpansOk(t)
  {
    forall j | 0 <= j < |t.spans|
      ensures SpanOk(t, j)
    {
      assert SpanOk(s, j);
    }
  }

  lemma SetKeepsEnded(s: State, i: nat, t: State)
    requires SetsTo(s, i, t) && EndedOk(s) && VisitsOk(s) && BreakerOk(s) && WrittenOk(s)
    ensures EndedOk(t) && VisitsOk(t) && BreakerOk(t) && WrittenOk(t)
  {
    assert EndedOk(t);
    SameVisits(s, t);
  }

  lemma SetKeepsRows(s: State, i: nat, t: State)
    requires RowsOk(s) && SetsTo(s, i, t)
    ensures RowsOk(t)
  {
  }

  lemma AppendRow(rows: seq<Row>, row: Row)
    requires Distinct(rows) && forall k :: 0 <= k < |rows| ==> rows[k].span != row.span
    ensures Distinct(rows + [row]) && HasRow(rows + [row], row.span)
    ensures forall i :: HasRow(rows, i) ==> HasRow(rows + [row], i)
  {
    assert (rows + [row])[|rows|] == row;
    forall i | HasRow(rows, i)
      ensures HasRow(rows + [row], i)
    {
      var k :| 0 <= k < |rows| && rows[k].span == i;
      assert (rows + [row])[k].span == i;
    }
  }

  /** A state with span `i` closed and its row appended, before any writing. */
  ghost predicate ClosesTo(s: State, i: nat, span: Span, t: State)
    requires i < |s.spans|
  {
    && s.spans[i].open && s.spans[i].root in s.lists
    && span.root == s.spans[i].root && !span.open
    && span.parent == s.spans[i].parent && span.inherited == s.spans[i].inherited && span.trace == s.spans[i].trace
    && t.spans == s.spans[i := span]
    && t.lists == s.lists[span.root := s.lists[span.root] + [RowOf(i, span)]]
  }

  lemma CloseKeepsSpans(s: State, i: nat, span: Span, t: State)
    requires SpansOk(s) && i < |s.spans| && ClosesTo(s, i, span, t)
    ensures SpansOk(t)
  {
    forall j | 0 <= j < |t.spans|
      ensures SpanOk(t, j)
    {
      assert SpanOk(s, j);
    }
  }

  lemma CloseKeepsRows(s: State, i: nat, span: Span, t: State)
    requires RowsOk(s) && i < |s.spans| && ClosesTo(s, i, span, t)
    ensures RowsOk(t)
  {
    var rows := s.lists[span.root];
    forall k | 0 <= k < |rows|
      ensures rows[k].span != i
    {
      assert RowIsTrue(s, span.root, s.lists[span.root][k]);
    }
    AppendRow(rows, RowOf(i, span));
    forall root, k | root in t.lists && 0 <= k < |t.lists[root]|
      ensures RowIsTrue(t, root, t.lists[root][k])
    {
      if root != span.root || k < |rows| {
        assert t.lists[root][k] == s.lists[root][k] && RowIsTrue(s, root, s.lists[root][k]);
      }
    }
    forall j | 0 <= j < |t.spans| && !t.spans[j].open && t.spans[j].root in t.lists
      ensures HasRow(t.lists[t.spans[j].root], j)
    {
      if j != i {
        assert HasRow(s.lists[s.spans[j].root], j);
      }
    }
  }

  /** Only an outermost span hands its list over. */
  ghost predicate HandsOver(s: State, i: nat, span: Span, t: State) {
    if span.inherited.Some? then span.root != i && t.ended == s.ended
    else span.root == i && i in t.lists && t.ended == s.ended[i := t.lists[i]]
  }

  ghost predicate Visits(s: State, i: nat, span: Span, t: State, now: int, database: Database) {
    && t.endedAt == (if span.inherited.Some? then s.endedAt else s.endedAt[i := now])
    && if span.inherited.Some? || now < s.unreachableUntil then
      t.visits == s.visits && t.unreachableUntil == s.unreachableUntil && t.clock == now
    else
      && i in t.ended
      && t.visits == s.visits + [Visit(now, database, i, t.ended[i], Inserted(t.spans, t.ended[i]))]
      && t.unreachableUntil == Breaker(s.unreachableUntil, now, database)
      && t.clock == now + Waited(database)
  }

  lemma EndShape(s: State, i: nat, raised: Option<string>, now: int, database: Database)
    requires Inv(s) && i < |s.spans| && s.spans[i].open
    ensures var t, span := AfterEnd(s, i, raised, now, database), Closing(s.spans[i], raised);
            && ClosesTo(s, i, span, t) && HandsOver(s, i, span, t) && Visits(s, i, span, t, now, database)
            && t.current == s.current[span.context := span.inherited]
  {
    RootShape(s, i);
    EndCloses(s, i, raised, now, database);
    EndHandsOver(s, i, raised, now, database);
  }

  lemma RootShape(s: State, i: nat)
    requires Inv(s) && i < |s.spans|
    ensures s.spans[i].root in s.lists && (s.spans[i].inherited == None <==> s.spans[i].root == i)
  {
    assert SpanOk(s, i);
    if s.spans[i].inherited.Some? {
      assert SpanOk(s, s.spans[i].inherited.value);
    }
  }

  lemma EndCloses(s: State, i: nat, raised: Option<string>, now: int, database: Database)
    requires i < |s.spans| && s.spans[i].open && s.spans[i].root in s.lists
    ensures var t, span := AfterEnd(s, i, raised, now, database), Closing(s.spans[i], raised);
            ClosesTo(s, i, span, t) && t.current == s.current[span.context := span.inherited]
  {
  }

  lemma EndHandsOver(s: State, i: nat, raised: Option<string>, now: int, database: Database)
    requires i < |s.spans| && s.spans[i].root in s.lists
    requires s.spans[i].inherited == None <==> s.spans[i].root == i
    ensures var t, span := AfterEnd(s, i, raised, now, database), Closing(s.spans[i], raised);
            HandsOver(s, i, span, t) && Visits(s, i, span, t, now, database)
  {
  }

  lemma EndKeepsEnded(s: State, i: nat, span: Span, t: State)
    requires EndedOk(s) && SpansOk(s) && i < |s.spans| && ClosesTo(s, i, span, t) && HandsOver(s, i, span, t)
    ensures EndedOk(t)
  {
  }

  lemma EndKeepsVisits(s: State, i: nat, span: Span, t: State, now: int, database: Database)
    requires VisitsOk(s) && EndedOk(s) && i < |s.spans| && ClosesTo(s, i, span, t) && HandsOver(s, i, span, t)
    requires now >= s.clock && Visits(s, i, span, t, now, database)
    ensures VisitsOk(t)
  {
    assert i !in s.ended;
    if t.visits != s.visits {
      OneMoreVisit(s, i, t, t.visits[|s.visits|]);
    }
  }

  /** A visit for a list not handed over before, when visits are allowed. */
  lemma OneMoreVisit(s: State, i: nat, t: State, visit: Visit)
    requires VisitsOk(s) && i !in s.ended && t.visits == s.visits + [visit]
    requires i in t.ended && t.ended == s.ended[i := t.ended[i]]
    requires visit.root == i && visit.rows == t.ended[i]
    requires visit.time >= s.clock && visit.time >= s.unreachableUntil && t.clock >= visit.time
    requires t.unreachableUntil >= s.unreachableUntil
    requires visit.database.Unreachable? ==> t.unreachableUntil >= RetryAt(visit)
    ensures VisitsOk(t)
  {
    assert forall k :: 0 <= k < |s.visits| ==> t.visits[k] == s.visits[k];
  }

  lemma EndKeepsInv(s: State, i: nat, raised: Option<string>, now: int, database: Database)
    requires Inv(s) && i < |s.spans| && s.spans[i].open && now >= s.clock
    ensures Inv(AfterEnd(s, i, raised, now, database))
  {
    var t, span := AfterEnd(s, i, raised, now, database), Closing(s.spans[i], raised);
    EndShape(s, i, raised, now, database);
    ClosedInv(s, i, span, t, now, database);
  }

  lemma ClosedInv(s: State, i: nat, span: Span, t: State, now: int, database: Database)
    requires Inv(s) && i < |s.spans| && now >= s.clock
    requires ClosesTo(s, i, span, t) && HandsOver(s, i, span, t) && Visits(s, i, span, t, now, database)
    requires t.current == s.current[span.context := span.inherited]
    ensures Inv(t)
  {
    CloseKeepsSpans(s, i, span, t);
    CloseKeepsRows(s, i, span, t);
    EndKeepsEnded(s, i, span, t);
    EndKeepsVisits(s, i, span, t, now, database);
    EndKeepsWritten(s, i, span, t, now, database);
    CloseKeepsCurrent(s, i, span, t);
  }

  lemma CloseKeepsCurrent(s: State, i: nat, span: Span, t: State)
    requires CurrentOk(s) && SpansOk(s) && ListsOk(s) && i < |s.spans| && ClosesTo(s, i, span, t)
    requires t.current == s.current[span.context := span.inherited]
    ensures CurrentOk(t) && ListsOk(t)
  {
    assert SpanOk(s, i);
  }

  lemma MoreVisits(visits: seq<Visit>, more: seq<Visit>, time: int)
    requires visits <= more && InOutage(visits, time)
    ensures InOutage(more, time)
  {
    var k :| OutageFrom(visits, k, time);
    assert OutageFrom(more, k, time);
  }

  lemma OpenBreakerIsOutage(s: State, now: int)
    requires BreakerOk(s) && VisitsOk(s) && s.clock <= now < s.unreachableUntil
    ensures InOutage(s.visits, now)
  {
    var k :| 0 <= k < |s.visits| && s.visits[k].database.Unreachable? && RetryAt(s.visits[k]) == s.unreachableUntil;
    assert OutageFrom(s.visits, k, now);
  }

  lemma EndKeepsBreaker(s: State, i: nat, span: Span, t: State, now: int, database: Database)
    requires BreakerOk(s) && now >= s.clock && Visits(s, i, span, t, now, database)
    ensures BreakerOk(t)
  {
    if t.visits != s.visits {
      assert t.visits[|s.visits|].time == now;
      assert forall k :: 0 <= k < |s.visits| ==> t.visits[k] == s.visits[k];
    }
  }

  lemma EndKeepsWritten(s: State, i: nat, span: Span, t: State, now: int, database: Database)
    requires BreakerOk(s) && VisitsOk(s) && WrittenOk(s) && now >= s.clock
    requires HandsOver(s, i, span, t) && Visits(s, i, span, t, now, database)
    ensures BreakerOk(t) && WrittenOk(t)
  {
    EndKeepsBreaker(s, i, span, t, now, database);
    forall root | root in t.ended
      ensures Visited(t, root) || InOutage(t.visits, t.endedAt[root])
    {
      if span.inherited == None && root == i {
        if now < s.unreachableUntil {
          OpenBreakerIsOutage(s, now);
        } else {
          assert t.visits[|s.visits|].root == i;
        }
      } else if Visited(s, root) {
        var k :| 0 <= k < |s.visits| && s.visits[k].root == root;
        assert t.visits[k] == s.visits[k];
      } else {
        MoreVisits(s.visits, t.visits, s.endedAt[root]);
      }
    }
  }

  /** Every step keeps the invariant. */
  lemma NextKeepsInv(s: State, step: Step)
    requires Inv(s) && Enabled(s, step)
    ensures Inv(Next(s, step))
  {
    match step
    case Begin(context, parent, name, values) =>
      BeginShape(s, context, parent, name, values);
      BeginKeepsInv(s, Next(s, step), context, NewSpan(s, context, parent, name, values));
    case Set(i, values) => SetKeepsInv(s, i, Next(s, step));
    case End(context, raised, now, database) =>
      EndKeepsInv(s, s.current[context].value, raised, now, database);
    case Fork(context, child) => OnlyContextsChange(s, Next(s, step));
    case Finish(context) => OnlyContextsChange(s, Next(s, step));
  }

  lemma OnlyContextsChange(s: State, t: State)
    requires Inv(s) && t == s.(current := t.current) && CurrentOk(t)
    ensures Inv(t)
  {
    ContextsKeepSpans(s, t);
    SameVisits(s, t);
  }

  lemma ContextsKeepSpans(s: State, t: State)
    requires SpansOk(s) && RowsOk(s) && EndedOk(s) && t == s.(current := t.current)
    ensures SpansOk(t) && RowsOk(t) && EndedOk(t)
  {
    forall j | 0 <= j < |t.spans|
      ensures SpanOk(t, j)
    {
      assert SpanOk(s, j);
    }
    forall root, k | root in t.lists && 0 <= k < |t.lists[root]|
      ensures RowIsTrue(t, root, t.lists[root][k])
    {
      assert RowIsTrue(s, root, s.lists[root][k]);
    }
  }

  lemma {:induction false} RunKeepsInv(s: State, steps: seq<Step>, t: State)
    requires Inv(s) && IsRun(s, steps, t)
    ensures Inv(t)
    decreases |steps|
  {
    if steps != [] {
      NextKeepsInv(s, steps[0]);
      RunKeepsInv(Next(s, steps[0]), steps[1..], t);
    }
  }
}
