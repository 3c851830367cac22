// What whole runs of the span recorder promise: nothing is lost while tasks are waited for, and
// exactly what is lost when one is not.

module SpanRuns {
  import opened Options
  import opened SpanModel

  // ----- over any run, nothing written is rewritten

  /** What never changes once it is there. */
  ghost predicate Extends(s: State, t: State) {
    && SpansStay(s, t)
    && (forall root :: root in s.lists ==> root in t.lists && s.lists[root] <= t.lists[root])
    && (forall root :: root in s.ended ==> root in t.ended && t.ended[root] == s.ended[root])
    && (forall root :: root in s.endedAt ==> root in t.endedAt && t.endedAt[root] == s.endedAt[root])
    && s.visits <= t.visits && s.clock <= t.clock
  }

  ghost predicate SpansStay(s: State, t: State) {
    |s.spans| <= |t.spans| && forall i :: 0 <= i < |s.spans| ==> SameSpan(s.spans[i], t.spans[i])
  }

  ghost predicate SameSpan(a: Span, b: Span) {
    && a.step == b.step && a.trace == b.trace && a.parent == b.parent && a.inherited == b.inherited
    && a.root == b.root && a.context == b.context
    && a.data.Keys <= b.data.Keys
    && (!a.open ==> !b.open && a.error == b.error)
  }

  lemma EndExtends(s: State, i: nat, raised: Option<string>, now: int, database: Database)
    requires Inv(s) && i < |s.spans| && s.spans[i].open && now >= s.clock
    ensures Extends(s, AfterEnd(s, i, raised, now, database))
  {
    EndShape(s, i, raised, now, database);
    assert i !in s.ended;
    var t, span := AfterEnd(s, i, raised, now, database), Closing(s.spans[i], raised);
    ClosingExtends(s, i, span, t, now, database);
  }

  lemma ClosingExtends(s: State, i: nat, span: Span, t: State, now: int, database: Database)
    requires i < |s.spans| && i !in s.ended && s.endedAt.Keys == s.ended.Keys && now >= s.clock
    requires span.step == s.spans[i].step && span.context == s.spans[i].context
    requires s.spans[i].data.Keys <= span.data.Keys
    requires ClosesTo(s, i, span, t) && HandsOver(s, i, span, t) && Visits(s, i, span, t, now, database)
    ensures Extends(s, t)
  {
  }

  lemma BeginExtends(s: State, t: State)
    requires Inv(s) && OpensTo(s, t)
    ensures Extends(s, t)
  {
  }

  lemma SetExtends(s: State, i: nat, t: State)
    requires SetsTo(s, i, t)
    ensures Extends(s, t)
  {
  }

  lemma NextExtends(s: State, step: Step)
    requires Inv(s) && Enabled(s, step)
    ensures Extends(s, Next(s, step))
  {
    match step
    case End(context, raised, now, database) => EndExtends(s, s.current[context].value, raised, now, database);
    case Begin(context, parent, name, values) =>
      BeginShape(s, context, parent, name, values);
      BeginExtends(s, Next(s, step));
    case Set(i, values) => SetExtends(s, i, Next(s, step));
    case _ =>
  }

  lemma ExtendsThrough(r: State, s: State, t: State)
    requires Extends(r, s) && Extends(s, t)
    ensures Extends(r, t)
  {
  }

  lemma {:induction false} RunExtends(s: State, steps: seq<Step>, t: State)
    requires Inv(s) && IsRun(s, steps, t)
    ensures Inv(t) && Extends(s, t)
    decreases |steps|
  {
    if steps != [] {
      NextKeepsInv(s, steps[0]);
      NextExtends(s, steps[0]);
      RunExtends(Next(s, steps[0]), steps[1..], t);
      ExtendsThrough(s, Next(s, steps[0]), t);
    }
  }

  /** Whatever happens inside a span, its end gives the context back what it held before. */
  lemma {:induction false} EndRestoresContext(s: State, begin: Step, steps: seq<Step>, t: State, end: Step)
    requires Inv(s) && begin.Begin? && Enabled(s, begin)
    requires IsRun(Next(s, begin), steps, t)
    requires end.End? && end.context == begin.context && Enabled(t, end)
    requires t.current[end.context] == Some(|s.spans|)
    ensures var u := Next(t, end);
            begin.context in u.current && u.current[begin.context] == s.current[begin.context]
  {
    BeginRemembers(s, begin, steps, t);
    EndReturns(t, end);
  }

  lemma EndReturns(s: State, end: Step)
    requires end.End? && Enabled(s, end)
    ensures var u := Next(s, end);
            end.context in u.current
            && u.current[end.context] == s.spans[s.current[end.context].value].inherited
  {
  }

  lemma {:induction false} BeginRemembers(s: State, begin: Step, steps: seq<Step>, t: State)
    requires Inv(s) && begin.Begin? && Enabled(s, begin)
    requires IsRun(Next(s, begin), steps, t)
    ensures |s.spans| < |t.spans| && t.spans[|s.spans|].inherited == s.current[begin.context]
  {
    NextKeepsInv(s, begin);
    RunExtends(Next(s, begin), steps, t);
    BeginShape(s, begin.context, begin.parent, begin.step, begin.values);
    assert SameSpan(Next(s, begin).spans[|s.spans|], t.spans[|s.spans|]);
  }

  // ----- a row reaches its list's writing exactly when its span ends in time

  lemma InPrefix(rows: seq<Row>, more: seq<Row>, row: Row)
    requires rows <= more && row in rows
    ensures row in more
  {
    var k :| 0 <= k < |rows| && rows[k] == row;
    assert more[k] == row;
  }

  /** The row a span leaves behind when it ends. */
  function RowAtEnd(s: State, end: Step): Row
    requires end.End? && Enabled(s, end)
  {
    var i, raised := s.current[end.context].value, end.raised.Some?;
    var span := s.spans[i];
    Row(i, span.trace, span.parent, span.step, span.error || raised, span.data != map[] || raised, span.links)
  }

  lemma RowAtEndIs(s: State, end: Step)
    requires end.End? && Enabled(s, end)
    ensures var i := s.current[end.context].value;
            RowOf(i, Closing(s.spans[i], end.raised)) == RowAtEnd(s, end)
  {
    var i := s.current[end.context].value;
    assert end.raised.Some? ==> "error" in Closing(s.spans[i], end.raised).data;
  }

  /** A span that ends while its outermost span is open, or is itself the outermost, is in what that
      span hands over, whenever it does, with what it held when it ended. */
  lemma {:induction false} EndedInTime(s: State, end: Step, steps: seq<Step>, t: State)
    requires Inv(s) && end.End? && Enabled(s, end)
    requires IsRun(Next(s, end), steps, t)
    ensures var root := s.spans[s.current[end.context].value].root;
            root !in s.ended && root in t.ended ==> RowAtEnd(s, end) in t.ended[root]
  {
    var i := s.current[end.context].value;
    var root := s.spans[i].root;
    NextKeepsInv(s, end);
    EndShape(s, i, end.raised, end.now, end.database);
    RowAtEndIs(s, end);
    assert Next(s, end).lists[root][|s.lists[root]|] == RowAtEnd(s, end);
    if root !in s.ended {
      StaysInHand(Next(s, end), steps, t, root, RowAtEnd(s, end));
    }
  }

  lemma {:induction false} StaysInHand(s: State, steps: seq<Step>, t: State, root: nat, row: Row)
    requires Inv(s) && IsRun(s, steps, t)
    requires root in s.lists && row in s.lists[root]
    requires root in s.ended ==> row in s.ended[root]
    ensures root in t.ended ==> row in t.ended[root]
    decreases |steps|
  {
    if steps != [] {
      var next := Next(s, steps[0]);
      NextKeepsInv(s, steps[0]);
      NextExtends(s, steps[0]);
      InPrefix(s.lists[root], next.lists[root], row);
      if steps[0].End? && root !in s.ended && root in next.ended {
        EndShape(s, s.current[steps[0].context].value, steps[0].raised, steps[0].now, steps[0].database);
      }
      StaysInHand(next, steps[1..], t, root, row);
    }
  }

  /** A span that ends after its outermost span, as a task nobody waited for does, is in no writing,
      then or ever: its row joins a list that has already been handed over. */
  lemma {:induction false} EndedTooLate(s: State, end: Step, steps: seq<Step>, t: State)
    requires Inv(s) && end.End? && Enabled(s, end)
    requires IsRun(Next(s, end), steps, t)
    ensures var i := s.current[end.context].value;
            s.spans[i].root in s.ended ==>
              s.spans[i].root in t.ended && !HasRow(t.ended[s.spans[i].root], i)
  {
    var i := s.current[end.context].value;
    NextKeepsInv(s, end);
    NextExtends(s, end);
    RunExtends(Next(s, end), steps, t);
    if s.spans[i].root in s.ended {
      OpenIsNotHandedOver(s, i);
    }
  }

  lemma {:induction false} OneStepRun(s: State, step: Step, steps: seq<Step>, t: State)
    requires Enabled(s, step) && IsRun(Next(s, step), steps, t)
    ensures IsRun(s, [step] + steps, t)
  {
    assert ([step] + steps)[1..] == steps;
  }

  /** A request with its span, and a task started inside it, still without a span of its own. */
  lemma RequestStartsTask() returns (request: Step, fork: Step, s: State)
    ensures Enabled(START, request) && Enabled(Next(START, request), fork)
    ensures s == Next(Next(START, request), fork)
    ensures s.current == map[0 := Some(0), 1 := Some(0)] && |s.spans| == 1 && s.clock == 0
    ensures s.spans[0].open && s.spans[0].context == 0 && s.spans[0].root == 0 && s.spans[0].inherited == None
  {
    request, fork := Begin(0, None, "request", map[]), Fork(0, 1);
    s := Next(Next(START, request), fork);
  }

  /** The started task opens a span, and the request's span ends. */
  lemma RequestAnswers(s: State) returns (job: Step, answer: Step, t: State)
    requires s.current == map[0 := Some(0), 1 := Some(0)] && |s.spans| == 1 && s.clock == 0
    requires s.spans[0].open && s.spans[0].context == 0 && s.spans[0].root == 0 && s.spans[0].inherited == None
    ensures Enabled(s, job) && t == Next(s, job) && Enabled(t, answer)
    ensures var end, u := End(1, None, 0, Up), Next(t, answer);
            Enabled(u, end) && u.spans[u.current[1].value].root in u.ended
  {
    job, answer := Begin(1, None, "job", map[]), End(0, None, 0, Up);
    t := Next(s, job);
    assert t.spans[0] == s.spans[0] && t.spans[1].open && t.spans[1].root == 0 && t.spans[1].context == 1;
    assert t.current == map[0 := Some(0), 1 := Some(1)];
  }

  /** It happens: a request starts a task inside its span and ends before the span of that task does. */
  lemma TaskOutlivesItsTrace() returns (steps: seq<Step>, s: State, end: Step)
    ensures IsRun(START, steps, s) && end.End? && Enabled(s, end)
    ensures s.spans[s.current[end.context].value].root in s.ended
  {
    var request, fork, s2 := RequestStartsTask();
    var job, answer, s3 := RequestAnswers(s2);
    s := Next(s3, answer);
    end := End(1, None, 0, Up);
    OneStepRun(s3, answer, [], s);
    OneStepRun(s2, job, [answer] + [], s);
    OneStepRun(Next(START, request), fork, [job] + ([answer] + []), s);
    OneStepRun(START, request, [fork] + ([job] + ([answer] + [])), s);
    steps := [request] + ([fork] + ([job] + ([answer] + [])));
  }

  lemma OpenIsNotHandedOver(s: State, i: nat)
    requires Inv(s) && i < |s.spans| && s.spans[i].open && s.spans[i].root in s.ended
    ensures !HasRow(s.ended[s.spans[i].root], i)
  {
    var root := s.spans[i].root;
    assert SpanOk(s, i);
    forall k | 0 <= k < |s.ended[root]|
      ensures s.ended[root][k].span != i
    {
      assert s.ended[root][k] == s.lists[root][k] && RowIsTrue(s, root, s.lists[root][k]);
    }
  }

  // ----- when every task is waited for

  ghost predicate ContextsOpen(s: State) {
    forall c :: c in s.current && s.current[c].Some? ==>
      s.current[c].value < |s.spans| && s.spans[s.current[c].value].open
  }

  ghost predicate OutersOpen(s: State) {
    forall i :: 0 <= i < |s.spans| && s.spans[i].open && s.spans[i].inherited.Some? ==>
      s.spans[i].inherited.value < |s.spans| && s.spans[s.spans[i].inherited.value].open
  }

  /** No row comes after that of the span it was opened in. */
  ghost predicate InnerFirst(s: State, rows: seq<Row>) {
    forall j, k :: 0 <= j < k < |rows| && rows[k].span < |s.spans| ==>
      s.spans[rows[k].span].inherited != Some(rows[j].span)
  }

  ghost predicate ListsInnerFirst(s: State) {
    forall root :: root in s.lists ==> InnerFirst(s, s.lists[root])
  }

  /** A list that has been handed over is complete: every span of its trace is closed. */
  ghost predicate EndedWhole(s: State) {
    && (forall root :: root in s.ended ==> root in s.lists && s.ended[root] == s.lists[root])
    && (forall i :: 0 <= i < |s.spans| && s.spans[i].root in s.ended ==> !s.spans[i].open)
  }

  ghost predicate JoinedInv(s: State) {
    Inv(s) && ContextsOpen(s) && OutersOpen(s) && ListsInnerFirst(s) && EndedWhole(s)
  }

  lemma {:induction false} OpenSpanHasOpenChild(s: State, i: nat, j: nat) returns (child: nat)
    requires OutersOpen(s) && i < |s.spans| && j < |s.spans|
    requires SpansOk(s)
    requires s.spans[j].open && s.spans[j].root == i && j != i
    ensures child < |s.spans| && s.spans[child].open && s.spans[child].inherited == Some(i)
    decreases j
  {
    assert SpanOk(s, j);
    var p := s.spans[j].inherited.value;
    if p == i {
      child := j;
    } else {
      child := OpenSpanHasOpenChild(s, i, p);
    }
  }

  /** Span `i` ends, and nothing opened in it is still open or current anywhere. */
  ghost predicate EndsJoined(s: State, i: nat, span: Span, t: State)
    requires i < |s.spans|
  {
    && ClosesTo(s, i, span, t) && HandsOver(s, i, span, t)
    && t.current == s.current[span.context := span.inherited] && span.context == s.spans[i].context
    && (forall c :: c in s.current && c != span.context ==> s.current[c] != Some(i))
    && (forall j :: 0 <= j < |s.spans| && s.spans[j].open ==> s.spans[j].inherited != Some(i))
  }

  lemma EndKeepsContextsOpen(s: State, i: nat, span: Span, t: State)
    requires ContextsOpen(s) && OutersOpen(s) && i < |s.spans| && EndsJoined(s, i, span, t)
    requires SpanOk(s, i)
    ensures ContextsOpen(t) && OutersOpen(t)
  {
  }

  lemma EndKeepsInnerFirst(s: State, i: nat, span: Span, t: State)
    requires RowsOk(s) && OutersOpen(s) && ListsInnerFirst(s)
    requires i < |s.spans| && EndsJoined(s, i, span, t)
    ensures ListsInnerFirst(t)
  {
    assert forall j :: 0 <= j < |t.spans| ==> t.spans[j].inherited == s.spans[j].inherited;
    forall root | root in t.lists
      ensures InnerFirst(t, t.lists[root])
    {
      assert InnerFirst(s, s.lists[root]);
      if root == span.root {
        LastIsOuter(s, i, span);
      }
    }
  }

  /** The span that ends encloses none of the spans that ended before it in its list. */
  lemma LastIsOuter(s: State, i: nat, span: Span)
    requires RowsOk(s) && OutersOpen(s) && i < |s.spans| && s.spans[i].open && s.spans[i].root in s.lists
    requires span.root == s.spans[i].root && span.inherited == s.spans[i].inherited
    ensures forall k :: 0 <= k < |s.lists[span.root]| ==> span.inherited != Some(s.lists[span.root][k].span)
  {
  }

  lemma EndKeepsWhole(s: State, i: nat, span: Span, t: State)
    requires OutersOpen(s) && EndedWhole(s) && EndedOk(s) && i < |s.spans| && EndsJoined(s, i, span, t)
    requires SpansOk(s)
    ensures EndedWhole(t)
  {
    forall j | 0 <= j < |t.spans| && t.spans[j].root in t.ended
      ensures !t.spans[j].open
    {
      if j != i && s.spans[j].open && s.spans[j].root == i {
        var child := OpenSpanHasOpenChild(s, i, j);
      }
    }
  }

  lemma JoinedEnd(s: State, step: Step)
    requires JoinedInv(s) && step.End? && Enabled(s, step) && Joined(s, step)
    ensures JoinedInv(Next(s, step))
  {
    var i, t := s.current[step.context].value, Next(s, step);
    var span := Closing(s.spans[i], step.raised);
    NextKeepsInv(s, step);
    EndShape(s, i, step.raised, step.now, step.database);
    assert EndsJoined(s, i, span, t);
    assert SpanOk(s, i);
    EndKeepsContextsOpen(s, i, span, t);
    EndKeepsInnerFirst(s, i, span, t);
    EndKeepsWhole(s, i, span, t);
  }

  lemma BeginKeepsOpen(s: State, t: State, context: nat, span: Span)
    requires Inv(s) && ContextsOpen(s) && OutersOpen(s) && Hangs(s, t, context, span)
    ensures ContextsOpen(t) && OutersOpen(t)
  {
  }

  lemma BeginKeepsInnerFirst(s: State, t: State, context: nat, span: Span)
    requires Inv(s) && ListsInnerFirst(s) && Hangs(s, t, context, span)
    ensures ListsInnerFirst(t)
  {
  }

  lemma BeginKeepsWhole(s: State, t: State, context: nat, span: Span)
    requires EndedOk(s) && ContextsOpen(s) && EndedWhole(s) && Hangs(s, t, context, span)
    ensures EndedWhole(t)
  {
    forall i | 0 <= i < |s.spans|
      ensures t.spans[i] == s.spans[i]
    {
    }
    assert |s.spans| !in s.ended;
  }

  lemma JoinedBegin(s: State, step: Step)
    requires JoinedInv(s) && step.Begin? && Enabled(s, step)
    ensures JoinedInv(Next(s, step))
  {
    var t, span := Next(s, step), NewSpan(s, step.context, step.parent, step.step, step.values);
    BeginShape(s, step.context, step.parent, step.step, step.values);
    BeginKeepsInv(s, t, step.context, span);
    BeginKeepsOpen(s, t, step.context, span);
    BeginKeepsInnerFirst(s, t, step.context, span);
    BeginKeepsWhole(s, t, step.context, span);
  }

  lemma JoinedOther(s: State, step: Step)
    requires JoinedInv(s) && !step.Begin? && !step.End? && Enabled(s, step)
    ensures JoinedInv(Next(s, step))
  {
    NextKeepsInv(s, step);
    var t := Next(s, step);
    if step.Set? {
      SetKeepsJoined(s, step.span, t);
    } else {
      forall root | root in t.lists
        ensures InnerFirst(t, t.lists[root])
      {
        assert InnerFirst(s, s.lists[root]);
      }
    }
  }

  lemma SetKeepsJoined(s: State, i: nat, t: State)
    requires ContextsOpen(s) && OutersOpen(s) && EndedWhole(s) && ListsInnerFirst(s) && SetsTo(s, i, t)
    ensures ContextsOpen(t) && OutersOpen(t) && EndedWhole(t) && ListsInnerFirst(t)
  {
  }

  lemma NextKeepsJoinedInv(s: State, step: Step)
    requires JoinedInv(s) && Enabled(s, step) && Joined(s, step)
    ensures JoinedInv(Next(s, step))
  {
    if step.End? {
      JoinedEnd(s, step);
    } else if step.Begin? {
      JoinedBegin(s, step);
    } else {
      JoinedOther(s, step);
    }
  }

  lemma {:induction false} JoinedRunKeepsInv(s: State, steps: seq<Step>, t: State)
    requires JoinedInv(s) && IsJoinedRun(s, steps, t)
    ensures JoinedInv(t)
    decreases |steps|
  {
    if steps != [] {
      NextKeepsJoinedInv(s, steps[0]);
      JoinedRunKeepsInv(Next(s, steps[0]), steps[1..], t);
    }
  }

  ghost function RowIndex(rows: seq<Row>, i: nat): (k: nat)
    requires HasRow(rows, i)
    ensures k < |rows| && rows[k].span == i
  {
    var k: nat :| k < |rows| && rows[k].span == i;
    k
  }

  lemma StartJoined()
    ensures JoinedInv(START)
  {
  }

  lemma WholeList(t: State, root: nat, i: nat)
    requires JoinedInv(t) && root in t.ended && i < |t.spans| && t.spans[i].root == root
    ensures !t.spans[i].open && HasRow(t.ended[root], i)
    ensures RowIsTrue(t, root, t.ended[root][RowIndex(t.ended[root], i)])
  {
  }

  /** Both spans have a row, the inner one's first. */
  ghost predicate InnerBefore(rows: seq<Row>, i: nat, p: nat) {
    HasRow(rows, i) && HasRow(rows, p) && RowIndex(rows, i) < RowIndex(rows, p)
  }

  lemma InnerBeforeOuter(t: State, root: nat, i: nat, p: nat)
    requires JoinedInv(t) && root in t.ended
    requires i < |t.spans| && t.spans[i].root == root && t.spans[i].inherited == Some(p)
    ensures InnerBefore(t.ended[root], i, p)
  {
    assert SpanOk(t, i);
    WholeList(t, root, i);
    WholeList(t, root, p);
    InOrder(t, t.ended[root], i, p);
  }

  lemma InOrder(t: State, rows: seq<Row>, i: nat, p: nat)
    requires InnerFirst(t, rows) && HasRow(rows, i) && HasRow(rows, p)
    requires p < i < |t.spans| && t.spans[i].inherited == Some(p)
    ensures InnerBefore(rows, i, p)
  {
    var j, k := RowIndex(rows, p), RowIndex(rows, i);
    assert rows[j].span == p && rows[k].span == i;
  }

  /** Every span of the local trace is closed and has its row, once. */
  ghost predicate EverySpanOnce(t: State, root: nat)
    requires root in t.ended
  {
    && Distinct(t.ended[root])
    && forall i :: 0 <= i < |t.spans| && t.spans[i].root == root ==>
         && !t.spans[i].open && HasRow(t.ended[root], i)
         && RowIsTrue(t, root, t.ended[root][RowIndex(t.ended[root], i)])
  }

  ghost predicate InnerSpansFirst(t: State, root: nat)
    requires root in t.ended
  {
    forall i, p :: 0 <= i < |t.spans| && t.spans[i].root == root && t.spans[i].inherited == Some(p) ==>
      InnerBefore(t.ended[root], i, p)
  }

  /** The list came with one visit to the database and no second, with exactly its rows; or with none, where
      its outermost span ended inside an outage. */
  ghost predicate WrittenOnce(t: State, root: nat)
    requires root in t.ended && root in t.endedAt
  {
    && (Visited(t, root) || InOutage(t.visits, t.endedAt[root]))
    && (forall k :: 0 <= k < |t.visits| && t.visits[k].root == root ==> t.visits[k].rows == t.ended[root])
    && (forall j, k :: 0 <= j < k < |t.visits| ==> !(t.visits[j].root == root && t.visits[k].root == root))
  }

  lemma EverySpanHasOneRow(t: State, root: nat)
    requires JoinedInv(t) && root in t.ended
    ensures EverySpanOnce(t, root)
  {
  }

  lemma InnerSpansComeFirst(t: State, root: nat)
    requires JoinedInv(t) && root in t.ended
    ensures InnerSpansFirst(t, root)
  {
    forall i, p | 0 <= i < |t.spans| && t.spans[i].root == root && t.spans[i].inherited == Some(p)
      ensures InnerBefore(t.ended[root], i, p)
    {
      InnerBeforeOuter(t, root, i, p);
    }
  }

  /** While every visit reaches the database, every list that is handed over is written. */
  lemma {:induction false} WithoutOutageAllIsWritten(steps: seq<Step>, t: State, root: nat)
    requires IsRun(START, steps, t) && root in t.ended
    requires forall k :: 0 <= k < |steps| && steps[k].End? ==> !steps[k].database.Unreachable?
    ensures Visited(t, root)
  {
    StartJoined();
    RunKeepsInv(START, steps, t);
    NeverUnreachable(START, steps, t);
    assert !InOutage(t.visits, t.endedAt[root]);
  }

  ghost predicate AllReached(visits: seq<Visit>) {
    forall k :: 0 <= k < |visits| ==> !visits[k].database.Unreachable?
  }

  lemma {:induction false} NeverUnreachable(s: State, steps: seq<Step>, t: State)
    requires IsRun(s, steps, t) && AllReached(s.visits)
    requires forall k :: 0 <= k < |steps| && steps[k].End? ==> !steps[k].database.Unreachable?
    ensures AllReached(t.visits)
    decreases |steps|
  {
    if steps != [] {
      assert AllReached(Next(s, steps[0]).visits);
      NeverUnreachable(Next(s, steps[0]), steps[1..], t);
    }
  }

  /** After any run that waits for its tasks, a finished local trace was handed over once and whole:
      every span in exactly one row, inner spans before outer ones, and written in one visit to the
      database, with exactly those rows, unless that was in an outage. */
  lemma {:induction false} FinishedTraceIsWhole(steps: seq<Step>, t: State, root: nat)
    requires IsJoinedRun(START, steps, t)
    requires root < |t.spans| && t.spans[root].inherited == None && !t.spans[root].open
    ensures root in t.ended && root in t.endedAt
    ensures EverySpanOnce(t, root) && InnerSpansFirst(t, root) && WrittenOnce(t, root)
  {
    StartJoined();
    JoinedRunKeepsInv(START, steps, t);
    assert SpanOk(t, root);
    EverySpanHasOneRow(t, root);
    InnerSpansComeFirst(t, root);
  }

  // ----- an exception on its way out

  /** The span is closed as an error, its row says so and shares its data, and there is an error in it. */
  ghost predicate Failed(t: State, i: nat) {
    && i < |t.spans| && !t.spans[i].open && t.spans[i].error && "error" in t.spans[i].data
    && t.spans[i].root in t.lists
    && HasErrorRow(t.lists[t.spans[i].root], i)
  }

  ghost predicate HasErrorRow(rows: seq<Row>, i: nat) {
    exists k :: 0 <= k < |rows| && IsErrorRow(rows[k], i)
  }

  ghost predicate IsErrorRow(row: Row, i: nat) {
    row.span == i && row.error && row.shares
  }

  ghost predicate Says(t: State, i: nat, message: string) {
    && i < |t.spans| && "error" in t.spans[i].data
    && t.spans[i].data["error"] == Word(if |message| <= 1000 then message else message[..1000])
  }

  /** Nobody sets another error on the span. */
  ghost predicate LeavesError(steps: seq<Step>, i: nat) {
    forall k :: 0 <= k < |steps| && steps[k].Set? && steps[k].span == i ==> "error" !in steps[k].values
  }

  lemma FailedStays(s: State, t: State, i: nat)
    requires Extends(s, t) && Failed(s, i)
    ensures Failed(t, i)
  {
    assert SameSpan(s.spans[i], t.spans[i]);
    var root := s.spans[i].root;
    var k :| 0 <= k < |s.lists[root]| && IsErrorRow(s.lists[root][k], i);
    assert t.lists[root][k] == s.lists[root][k];
  }

  lemma NextLeavesMessage(s: State, step: Step, i: nat, message: string)
    requires Enabled(s, step) && Says(s, i, message) && !s.spans[i].open && LeavesError([step], i)
    ensures Says(Next(s, step), i, message) && !Next(s, step).spans[i].open
  {
    assert [step][0] == step;
  }

  lemma {:induction false} MessageStays(s: State, steps: seq<Step>, t: State, i: nat, message: string)
    requires IsRun(s, steps, t) && Says(s, i, message) && !s.spans[i].open && LeavesError(steps, i)
    ensures Says(t, i, message)
    decreases |steps|
  {
    if steps != [] {
      assert LeavesError([steps[0]], i);
      NextLeavesMessage(s, steps[0], i, message);
      MessageStays(Next(s, steps[0]), steps[1..], t, i, message);
    }
  }

  lemma RaisedFails(s: State, end: Step, message: string)
    requires Inv(s) && end.End? && end.raised == Some(message) && Enabled(s, end)
    ensures var i := s.current[end.context].value;
            Failed(Next(s, end), i) && Says(Next(s, end), i, message)
  {
    var i, t := s.current[end.context].value, Next(s, end);
    EndShape(s, i, end.raised, end.now, end.database);
    var rows := s.lists[s.spans[i].root];
    assert "error" in Closing(s.spans[i], end.raised).data;
    assert IsErrorRow(t.lists[s.spans[i].root][|rows|], i);
  }

  /** A span an exception leaves is an error from then on, whatever other contexts do, with the message
      unless somebody sets another one. */
  lemma {:induction false} RaisedEndIsError(s: State, end: Step, message: string, steps: seq<Step>, t: State)
    returns (i: nat)
    requires Inv(s) && end.End? && end.raised == Some(message) && Enabled(s, end)
    requires IsRun(Next(s, end), steps, t)
    ensures s.current[end.context] == Some(i) && Failed(t, i)
    ensures LeavesError(steps, i) ==> Says(t, i, message)
  {
    i := s.current[end.context].value;
    NextKeepsInv(s, end);
    RaisedFails(s, end, message);
    RunExtends(Next(s, end), steps, t);
    FailedStays(Next(s, end), t, i);
    if LeavesError(steps, i) {
      MessageStays(Next(s, end), steps, t, i, message);
    }
  }

  // ----- what a visit writes

  /** Beside each row the visit has what the row's span holds at that moment, or NULL where the span had no
      data when it ended. */
  ghost predicate Shows(t: State, visit: Visit) {
    && |visit.data| == |visit.rows|
    && forall k :: 0 <= k < |visit.rows| ==> ShownAt(t, visit, k)
  }

  ghost predicate ShownAt(t: State, visit: Visit, k: nat)
    requires k < |visit.rows| && k < |visit.data|
  {
    var row := visit.rows[k];
    row.span < |t.spans| && visit.data[k] == if row.shares then Some(t.spans[row.span].data) else None
  }

  /** The end of an outermost span visits with its whole list, and shows what the spans hold. */
  lemma VisitShowsItsSpans(s: State, end: Step)
    requires Inv(s) && end.End? && Enabled(s, end)
    requires Next(s, end).visits != s.visits
    ensures var t, root := Next(s, end), s.current[end.context].value;
            && |t.visits| == |s.visits| + 1 && s.visits <= t.visits && root in t.ended
            && var visit := t.visits[|s.visits|];
            && visit.root == root && visit.rows == t.ended[root]
            && visit.time == end.now && visit.database == end.database && Shows(t, visit)
  {
    var t, root := Next(s, end), s.current[end.context].value;
    EndShape(s, root, end.raised, end.now, end.database);
    NextKeepsInv(s, end);
    var visit := t.visits[|s.visits|];
    forall k | 0 <= k < |visit.rows|
      ensures ShownAt(t, visit, k)
    {
      assert t.ended[root][k] == t.lists[root][k] && RowIsTrue(t, root, t.lists[root][k]);
    }
  }

  /** The visit has this row, and beside it what its span holds. */
  ghost predicate ShownWith(t: State, visit: Visit, row: Row) {
    exists k :: 0 <= k < |visit.rows| && k < |visit.data| && visit.rows[k] == row && ShownAt(t, visit, k)
  }

  lemma RowIsShown(t: State, visit: Visit, row: Row)
    requires Shows(t, visit) && row in visit.rows
    ensures ShownWith(t, visit, row)
  {
    var k :| 0 <= k < |visit.rows| && visit.rows[k] == row;
    assert ShownAt(t, visit, k);
  }

  /** A span that ends in time is in the visit its outermost span makes: with the row it had when it ended, and
      with its data of that moment, if it had any. If an exception left it, the message is among them, unless
      somebody sets another one. */
  lemma {:induction false} EndedSpanIsWritten(s: State, end: Step, steps: seq<Step>, u: State, last: Step)
    returns (i: nat)
    requires Inv(s) && end.End? && Enabled(s, end) && IsRun(Next(s, end), steps, u)
    requires last.End? && Enabled(u, last) && Next(u, last).visits != u.visits
    requires s.spans[s.current[end.context].value].root == u.current[last.context].value
    requires s.spans[s.current[end.context].value].root !in s.ended
    ensures s.current[end.context] == Some(i) && i < |u.spans|
    ensures var t := Next(u, last);
            && |t.visits| == |u.visits| + 1
            && ShownWith(t, t.visits[|u.visits|], RowAtEnd(s, end))
            && (end.raised.Some? && LeavesError(steps, i) ==> Says(t, i, end.raised.value))
  {
    i := s.current[end.context].value;
    var t := Next(u, last);
    StillGood(s, end, steps, u);
    RowIsVisited(s, end, steps, u, last, s.spans[i].root);
    RowIsShown(t, t.visits[|u.visits|], RowAtEnd(s, end));
    if end.raised.Some? && LeavesError(steps, i) {
      MessageIsStillThere(s, end, steps, u, last, i);
    }
  }

  lemma {:induction false} StillGood(s: State, end: Step, steps: seq<Step>, u: State)
    requires Inv(s) && end.End? && Enabled(s, end) && IsRun(Next(s, end), steps, u)
    ensures Inv(u) && |s.spans| <= |u.spans|
  {
    var next := Next(s, end);
    NextKeepsInv(s, end);
    NextExtends(s, end);
    RunExtends(next, steps, u);
    ExtendsThrough(s, next, u);
  }

  lemma {:induction false} RowIsVisited(s: State, end: Step, steps: seq<Step>, u: State, last: Step, root: nat)
    requires Inv(s) && end.End? && Enabled(s, end) && IsRun(Next(s, end), steps, u) && Inv(u)
    requires last.End? && Enabled(u, last) && Next(u, last).visits != u.visits
    requires s.spans[s.current[end.context].value].root == root == u.current[last.context].value && root !in s.ended
    ensures var t := Next(u, last);
            |t.visits| == |u.visits| + 1 && Shows(t, t.visits[|u.visits|])
            && RowAtEnd(s, end) in t.visits[|u.visits|].rows
  {
    VisitShowsItsSpans(u, last);
    EndedInTimeThen(s, end, steps, u, last, root);
  }

  lemma {:induction false} MessageIsStillThere(s: State, end: Step, steps: seq<Step>, u: State, last: Step, i: nat)
    requires Inv(s) && end.End? && Enabled(s, end) && IsRun(Next(s, end), steps, u) && last.End? && Enabled(u, last)
    requires s.current[end.context] == Some(i) && end.raised.Some? && LeavesError(steps, i)
    ensures Says(Next(u, last), i, end.raised.value)
  {
    NextKeepsInv(s, end);
    RaisedFails(s, end, end.raised.value);
    MessageStays(Next(s, end), steps, u, i, end.raised.value);
    RunExtends(Next(s, end), steps, u);
    assert SameSpan(Next(s, end).spans[i], u.spans[i]);
    EndLeavesMessage(u, last, i, end.raised.value);
  }

  lemma {:induction false} EndedInTimeThen(s: State, end: Step, steps: seq<Step>, u: State, last: Step, root: nat)
    requires Inv(s) && end.End? && Enabled(s, end) && IsRun(Next(s, end), steps, u)
    requires Enabled(u, last) && s.spans[s.current[end.context].value].root == root
    requires root !in s.ended && root in Next(u, last).ended
    ensures RowAtEnd(s, end) in Next(u, last).ended[root]
  {
    RunThenStep(Next(s, end), steps, u, last);
    EndedInTime(s, end, steps + [last], Next(u, last));
  }

  lemma {:induction false} RunThenStep(s: State, steps: seq<Step>, u: State, last: Step)
    requires IsRun(s, steps, u) && Enabled(u, last)
    ensures IsRun(s, steps + [last], Next(u, last))
    decreases |steps|
  {
    if steps == [] {
      OneStepRun(s, last, [], Next(u, last));
      assert [last] + [] == steps + [last];
    } else {
      RunThenStep(Next(s, steps[0]), steps[1..], u, last);
      OneStepRun(s, steps[0], steps[1..] + [last], Next(u, last));
      assert [steps[0]] + (steps[1..] + [last]) == steps + [last];
    }
  }

  lemma EndLeavesMessage(s: State, end: Step, i: nat, message: string)
    requires end.End? && Enabled(s, end) && Says(s, i, message) && !s.spans[i].open
    ensures Says(Next(s, end), i, message)
  {
  }

  /** The outermost span's own row and data are in its visit too, with the message if an exception left it. */
  lemma OutermostSpanIsWritten(s: State, end: Step)
    requires Inv(s) && end.End? && Enabled(s, end) && Next(s, end).visits != s.visits
    ensures var t := Next(s, end);
            && |t.visits| == |s.visits| + 1
            && ShownWith(t, t.visits[|s.visits|], RowAtEnd(s, end))
            && (end.raised.Some? ==> Says(t, s.current[end.context].value, end.raised.value))
  {
    var t, root := Next(s, end), s.current[end.context].value;
    EndShape(s, root, end.raised, end.now, end.database);
    VisitShowsItsSpans(s, end);
    RowAtEndIs(s, end);
    assert t.lists[root][|s.lists[root]|] == RowAtEnd(s, end);
    RowIsShown(t, t.visits[|s.visits|], RowAtEnd(s, end));
    if end.raised.Some? {
      RaisedFails(s, end, end.raised.value);
    }
  }

  /** The state after the first `k` steps of a run. */
  ghost function StateAt(s: State, steps: seq<Step>, t: State, k: nat): State
    requires IsRun(s, steps, t) && k <= |steps|
    decreases k
  {
    if k == 0 then s else StateAt(Next(s, steps[0]), steps[1..], t, k - 1)
  }

  /** A run up to its `k`-th step is a run, and so is what is left after it. */
  lemma {:induction false} RunUpTo(s: State, steps: seq<Step>, t: State, k: nat)
    requires IsRun(s, steps, t) && k <= |steps|
    ensures IsRun(s, steps[..k], StateAt(s, steps, t, k))
    decreases k
  {
    if k > 0 {
      var next, rest := Next(s, steps[0]), steps[1..];
      RunUpTo(next, rest, t, k - 1);
      OneStepRun(s, steps[0], rest[..k - 1], StateAt(next, rest, t, k - 1));
      assert [steps[0]] + rest[..k - 1] == steps[..k];
    }
  }

  lemma {:induction false} RunFrom(s: State, steps: seq<Step>, t: State, k: nat)
    requires IsRun(s, steps, t) && k <= |steps|
    ensures IsRun(StateAt(s, steps, t, k), steps[k..], t)
    decreases k
  {
    if k > 0 {
      RunFrom(Next(s, steps[0]), steps[1..], t, k - 1);
      assert steps[1..][k - 1..] == steps[k..];
    } else {
      assert steps[0..] == steps;
    }
  }

  /** In any run, with any contexts in between: wherever an exception leaves a span, that span is an error
      at the end, its row with it. */
  lemma {:induction false} EveryRaisedEndIsError(s: State, steps: seq<Step>, t: State, k: nat) returns (i: nat)
    requires Inv(s) && IsRun(s, steps, t) && k < |steps| && steps[k].End? && steps[k].raised.Some?
    ensures var u := StateAt(s, steps, t, k);
            steps[k].context in u.current && u.current[steps[k].context] == Some(i)
    ensures Failed(t, i)
    ensures LeavesError(steps[k + 1..], i) ==> Says(t, i, steps[k].raised.value)
  {
    RunUpTo(s, steps, t, k);
    RunFrom(s, steps, t, k);
    assert steps[k..][0] == steps[k] && steps[k..][1..] == steps[k + 1..];
    RunKeepsInv(s, steps[..k], StateAt(s, steps, t, k));
    i := RaisedEndIsError(StateAt(s, steps, t, k), steps[k], steps[k].raised.value, steps[k + 1..], t);
  }

  /** An exception that crosses `with` blocks of one context, from the current span outwards. */
  ghost predicate IsCrossing(steps: seq<Step>, context: nat, message: string) {
    forall k :: 0 <= k < |steps| ==>
      steps[k].End? && steps[k].context == context && steps[k].raised == Some(message)
  }

  /** The span `k` blocks outwards from `i`. */
  ghost function Outward(s: State, i: Option<nat>, k: nat): Option<nat>
    decreases k
  {
    if k == 0 || i == None || i.value >= |s.spans| then i else Outward(s, s.spans[i.value].inherited, k - 1)
  }

  lemma {:induction false} OutwardIsStable(s: State, t: State, i: Option<nat>, k: nat)
    requires SpansOk(s) && SpansStay(s, t) && (i.Some? ==> i.value < |s.spans|)
    ensures Outward(s, i, k) == Outward(t, i, k)
    decreases k
  {
    if k > 0 && i.Some? {
      assert SameSpan(s.spans[i.value], t.spans[i.value]) && SpanOk(s, i.value);
      OutwardIsStable(s, t, s.spans[i.value].inherited, k - 1);
    }
  }

  ghost predicate FailedWith(t: State, i: Option<nat>, message: string) {
    i.Some? && Failed(t, i.value) && Says(t, i.value, message)
  }

  ghost predicate AllFailed(s: State, t: State, i: Option<nat>, depth: nat, message: string) {
    forall k: nat :: k < depth ==> FailedWith(t, Outward(s, i, k), message)
  }

  lemma OneMoreFailed(s: State, next: State, t: State, i: nat, depth: nat, message: string)
    requires SpansOk(s) && SpansStay(s, next) && i < |s.spans| && depth > 0
    requires FailedWith(t, Some(i), message)
    requires AllFailed(next, t, s.spans[i].inherited, depth - 1, message)
    ensures AllFailed(s, t, Some(i), depth, message)
  {
    forall k: nat | k < depth
      ensures FailedWith(t, Outward(s, Some(i), k), message)
    {
      if k > 0 {
        OneFurther(s, next, i, k);
      }
    }
  }

  lemma {:induction false} OneFurther(s: State, next: State, i: nat, k: nat)
    requires SpansOk(s) && SpansStay(s, next) && i < |s.spans| && k > 0
    ensures Outward(s, Some(i), k) == Outward(next, s.spans[i].inherited, k - 1)
  {
    assert SpanOk(s, i);
    OutwardIsStable(s, next, s.spans[i].inherited, k - 1);
  }

  lemma FirstCrossed(s: State, step: Step, message: string, rest: seq<Step>, t: State) returns (i: nat, next: State)
    requires Inv(s) && step.End? && step.raised == Some(message) && Enabled(s, step) && IsRun(Next(s, step), rest, t)
    requires forall k :: 0 <= k < |rest| ==> rest[k].End?
    ensures next == Next(s, step) && Inv(next) && Extends(s, next)
    ensures s.current[step.context] == Some(i) && i < |s.spans|
    ensures step.context in next.current && next.current[step.context] == s.spans[i].inherited
    ensures FailedWith(t, Some(i), message)
  {
    i := RaisedEndIsError(s, step, message, rest, t);
    next := Next(s, step);
    NextKeepsInv(s, step);
    NextExtends(s, step);
    EndShape(s, i, step.raised, step.now, step.database);
  }

  /** Every span the exception crosses on its way out is one of those, each the next one outwards. */
  lemma {:induction false} CrossedSpansAreErrors(s: State, context: nat, steps: seq<Step>, message: string, t: State)
    requires Inv(s) && IsCrossing(steps, context, message) && steps != [] && IsRun(s, steps, t)
    ensures context in s.current && AllFailed(s, t, s.current[context], |steps|, message)
    decreases |steps|
  {
    var i, next := FirstCrossed(s, steps[0], message, steps[1..], t);
    if |steps| > 1 {
      CrossedSpansAreErrors(next, context, steps[1..], message, t);
    }
    assert AllFailed(next, t, s.spans[i].inherited, |steps| - 1, message);
    OneMoreFailed(s, next, t, i, |steps|, message);
  }

  // ----- links

  ghost predicate LinksOk(s: State) {
    forall i :: 0 <= i < |s.spans| ==> s.spans[i].links.Keys == LINKS
  }

  lemma SetOnLinks(span: Span, values: Values)
    requires span.links.Keys == LINKS
    ensures SetOn(span, values).links.Keys == LINKS
    ensures forall k :: k in LINKS ==>
              SetOn(span, values).links[k] == if k in values then values[k] else span.links[k]
  {
  }

  /** Values that are no links join the data, over what was there; links join the links. */
  ghost predicate Holds(span: Span, before: Span, values: Values) {
    && (forall k :: k in span.data <==> k in before.data || (k in values && k !in LINKS))
    && (forall k :: k in span.data ==>
          span.data[k] == if k in values && k !in LINKS then values[k] else before.data[k])
    && (forall k :: k in span.links <==> k in before.links || (k in values && k in LINKS))
    && (forall k :: k in span.links ==>
          span.links[k] == if k in values && k in LINKS then values[k] else before.links[k])
  }

  /** Setting values on a span, closed or not, changes that, and nothing else of the trace. */
  lemma SetHolds(s: State, i: nat, values: Values)
    requires i < |s.spans|
    ensures var t := Next(s, Set(i, values));
            && |t.spans| == |s.spans| && Holds(t.spans[i], s.spans[i], values)
            && t.spans[i].(links := s.spans[i].links, data := s.spans[i].data) == s.spans[i]
            && (forall j :: 0 <= j < |s.spans| && j != i ==> t.spans[j] == s.spans[j])
            && t == s.(spans := t.spans)
  {
  }

  lemma OpeningLinks(above: Values)
    requires above.Keys == LINKS
    ensures (NO_LINKS + Only(above, INHERITED)).Keys == LINKS
    ensures (NO_LINKS + Only(above, INHERITED))["instance_id"] == Null
    ensures forall k :: k in INHERITED ==> (NO_LINKS + Only(above, INHERITED))[k] == above[k]
  {
  }

  ghost predicate LinksFrom(span: Span, above: Option<Values>, values: Values) {
    && span.links.Keys == LINKS
    && (forall k :: k in LINKS && k in values ==> span.links[k] == values[k])
    && ("instance_id" !in values ==> span.links["instance_id"] == Null)
    && (forall k :: k in INHERITED && k !in values ==>
          span.links[k] == match above case None => Null case Some(links) => if k in links then links[k] else Null)
  }

  lemma NewSpanLinks(s: State, context: nat, parent: Option<nat>, step: string, values: Values)
    requires LinksOk(s) && Enabled(s, Begin(context, parent, step, values))
    ensures var above := if parent.Some? then parent else s.current[context];
            LinksFrom(NewSpan(s, context, parent, step, values),
                      if above.Some? then Some(s.spans[above.value].links) else None, values)
  {
    var above := if parent.Some? then parent else s.current[context];
    var opening := NO_LINKS + if above.Some? then Only(s.spans[above.value].links, INHERITED) else map[];
    if above.Some? {
      OpeningLinks(s.spans[above.value].links);
    } else {
      assert opening == NO_LINKS;
    }
    SetOnLinks(NewSpan(s, context, parent, step, map[]).(links := opening), values);
  }

  lemma EndKeepsLinks(s: State, i: nat, raised: Option<string>, now: int, database: Database)
    requires LinksOk(s) && i < |s.spans|
    ensures LinksOk(AfterEnd(s, i, raised, now, database))
  {
    assert Closing(s.spans[i], raised).links == s.spans[i].links;
  }

  lemma BeginKeepsLinks(s: State, context: nat, parent: Option<nat>, step: string, values: Values)
    requires LinksOk(s) && Enabled(s, Begin(context, parent, step, values))
    ensures LinksOk(AfterBegin(s, context, parent, step, values))
  {
    NewSpanLinks(s, context, parent, step, values);
    BeginShape(s, context, parent, step, values);
  }

  lemma NextKeepsLinks(s: State, step: Step)
    requires LinksOk(s) && Enabled(s, step)
    ensures LinksOk(Next(s, step))
  {
    match step
    case Begin(context, parent, name, values) => BeginKeepsLinks(s, context, parent, name, values);
    case Set(i, values) => SetOnLinks(s.spans[i], values);
    case End(context, raised, now, database) => EndKeepsLinks(s, s.current[context].value, raised, now, database);
    case _ =>
  }

  lemma {:induction false} RunKeepsLinks(s: State, steps: seq<Step>, t: State)
    requires LinksOk(s) && IsRun(s, steps, t)
    ensures LinksOk(t)
    decreases |steps|
  {
    if steps != [] {
      NextKeepsLinks(s, steps[0]);
      RunKeepsLinks(Next(s, steps[0]), steps[1..], t);
    }
  }

  /** A new span belongs to its parent's trace, process, rule and norm rule unless it says otherwise;
      it never takes over the parent's instance. */
  lemma {:induction false} NewSpanBelongsToItsParent(steps: seq<Step>, s: State, begin: Step)
    requires IsRun(START, steps, s)
    requires begin.Begin? && Enabled(s, begin)
    ensures var span := Next(s, begin).spans[|s.spans|];
            var above := if begin.parent.Some? then begin.parent else s.current[begin.context];
            && span.parent == above
            && span.trace == (if above.Some? then s.spans[above.value].trace else |s.spans|)
            && LinksFrom(span, if above.Some? then Some(s.spans[above.value].links) else None, begin.values)
            && span.step == begin.step && span.context == begin.context && span.open && !span.error
            && (forall k :: k in span.data <==> k in begin.values && k !in LINKS)
            && (forall k :: k in span.data ==> span.data[k] == begin.values[k])
  {
    RunKeepsLinks(START, steps, s);
    NewSpanLinks(s, begin.context, begin.parent, begin.step, begin.values);
  }
}
