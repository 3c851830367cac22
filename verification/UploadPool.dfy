// The upload pool of the console: up to four cooperative workers share the next file index, the
// count of files read and the results. A worker runs without interruption from one reply of the
// server to its next request, so a reply is one step.

module UploadPool {
  import opened Options

  const UPLOAD_CONCURRENCY := 4

  /** What the server says about a document: whether it is new, and its instance and status. */
  datatype Upload = Upload(instance: nat, created: bool, status: string, name: string)

  /** A request is either file `file` of the list, or a second reading of an instance. */
  datatype Request = SendFile(file: nat) | Extract(instance: nat)

  datatype Reply = Reply(request: Request, upload: Upload)

  datatype Progress = Reading(index: nat, done: nat) | Read(index: nat, done: nat)

  /** A worker awaits a reply for its file, has run out of files, or has been stopped by an error. */
  datatype Worker =
    | Sending(index: nat)
    | Extracting(index: nat, instance: nat)
    | Finished
    | Failed(index: nat)

  datatype State = State(n: nat, next: nat, done: nat, results: seq<Option<Upload>>, progress: seq<Progress>,
                         replies: seq<Reply>, workers: seq<Worker>)

  datatype Step = Answer(worker: nat, upload: Upload) | Error(worker: nat)

  // ----- the steps

  function Empty(n: nat): State {
    State(n, 0, 0, seq(n, _ => None), [], [], [])
  }

  /** The head of a worker's loop: claim the next file and announce it, or stop. */
  function Claim(s: State, w: nat): State
    requires w < |s.workers|
  {
    if s.next < s.n then
      s.(workers := s.workers[w := Sending(s.next)], progress := s.progress + [Reading(s.next, s.done)],
         next := s.next + 1)
    else s.(workers := s.workers[w := Finished])
  }

  /** The workers start one after the other, each up to its first request. */
  function Started(s: State, count: nat): State {
    if count == 0 then s
    else
      var before := Started(s, count - 1);
      Claim(before.(workers := before.workers + [Finished]), |before.workers|)
  }

  function Start(n: nat): State {
    Started(Empty(n), if n < UPLOAD_CONCURRENCY then n else UPLOAD_CONCURRENCY)
  }

  predicate Holds(worker: Worker) {
    !worker.Finished?
  }

  predicate Waits(worker: Worker) {
    worker.Sending? || worker.Extracting?
  }

  function RequestOf(worker: Worker): Request
    requires Waits(worker)
  {
    match worker
    case Sending(i) => SendFile(i)
    case Extracting(_, instance) => Extract(instance)
  }

  /** The same file again, still pending: its reading is asked for once more. */
  predicate ReadAgain(worker: Worker, upload: Upload) {
    worker.Sending? && !upload.created && upload.status == "PENDING"
  }

  predicate Enabled(s: State, step: Step) {
    step.worker < |s.workers| && Waits(s.workers[step.worker])
  }

  /** The awaited file is one of the list; the invariant gives it. */
  predicate Ready(s: State, step: Step) {
    Enabled(s, step) && s.workers[step.worker].index < |s.results|
  }

  function Next(s: State, step: Step): State
    requires Ready(s, step)
  {
    var w, worker := step.worker, s.workers[step.worker];
    match step
    case Error(_) => s.(workers := s.workers[w := Failed(worker.index)])
    case Answer(_, upload) =>
      var heard := s.(replies := s.replies + [Reply(RequestOf(worker), upload)]);
      if ReadAgain(worker, upload) then
        heard.(workers := s.workers[w := Extracting(worker.index, upload.instance)])
      else Claim(Stored(heard, w, worker.index, upload), w)
  }

  /** The result is in its place, counted and announced; the worker has nothing in hand. */
  function Stored(s: State, w: nat, index: nat, upload: Upload): State
    requires index < |s.results| && w < |s.workers|
  {
    s.(results := s.results[index := Some(upload)], done := s.done + 1,
       progress := s.progress + [Read(index, s.done + 1)],
       workers := s.workers[w := Finished])
  }

  // ----- the invariant

  function Holders(workers: seq<Worker>): nat {
    if workers == [] then 0
    else Holders(workers[..|workers| - 1]) + if Holds(workers[|workers| - 1]) then 1 else 0
  }

  ghost predicate HeldBy(s: State, w: int, i: int) {
    0 <= w < |s.workers| && Holds(s.workers[w]) && s.workers[w].index == i
  }

  ghost predicate Held(s: State, i: int) {
    exists w :: HeldBy(s, w, i)
  }

  /** Every claimed file is in exactly one place: read, or with one worker. */
  ghost predicate Placed(s: State) {
    && |s.results| == s.n && s.next <= s.n
    && (forall w :: 0 <= w < |s.workers| && Holds(s.workers[w]) ==>
          s.workers[w].index < s.next && s.results[s.workers[w].index] == None)
    && (forall v, w :: 0 <= v < w < |s.workers| && Holds(s.workers[v]) && Holds(s.workers[w]) ==>
          s.workers[v].index != s.workers[w].index)
    && (forall i :: 0 <= i < s.next && s.results[i] == None ==> Held(s, i))
    && (forall i :: s.next <= i < s.n ==> s.results[i] == None)
  }

  ghost predicate AnnouncedAt(progress: seq<Progress>, j: int, i: int) {
    0 <= j < |progress| && progress[j].Reading? && progress[j].index == i
  }

  ghost predicate IsAnnounced(progress: seq<Progress>, i: int) {
    exists j :: AnnouncedAt(progress, j, i)
  }

  /** Reading comes before read, once each, and the read events are numbered 1, 2, 3, ... */
  ghost predicate WellTold(progress: seq<Progress>) {
    && (forall k :: 0 <= k < |progress| ==> ReadInTurn(progress, k))
    && (forall j, k :: 0 <= j < k < |progress| && progress[j].index == progress[k].index ==>
          progress[j].Reading? && progress[k].Read?)
  }

  ghost predicate ReadInTurn(progress: seq<Progress>, k: nat)
    requires k < |progress|
  {
    progress[k].Read? ==>
      IsAnnounced(progress[..k], progress[k].index) && progress[k].done == ReadsUpTo(progress[..k + 1])
  }

  /** Every claimed file is announced, and the events are those of the files read so far. */
  ghost predicate Told(progress: seq<Progress>, next: nat, done: nat) {
    && WellTold(progress) && ReadsUpTo(progress) == done && |progress| == next + done
    && (forall i :: 0 <= i < next ==> IsAnnounced(progress, i))
  }

  ghost predicate Announced(s: State) {
    && |s.results| == s.n && s.next <= s.n
    && Told(s.progress, s.next, s.done) && Known(s)
  }

  /** Only claimed files are told of, and only those with a result as read. */
  ghost predicate Known(s: State) {
    && |s.results| == s.n && s.next <= s.n
    && forall k :: 0 <= k < |s.progress| ==>
         s.progress[k].index < s.next && (s.progress[k].Read? ==> s.results[s.progress[k].index].Some?)
  }

  function ReadsUpTo(progress: seq<Progress>): nat {
    if progress == [] then 0
    else ReadsUpTo(progress[..|progress| - 1]) + if progress[|progress| - 1].Read? then 1 else 0
  }

  ghost predicate Heard(s: State, request: Request, upload: Upload) {
    Reply(request, upload) in s.replies
  }

  /** A result is the server's last word about its own file. */
  ghost predicate ComesFrom(s: State, i: nat, result: Upload) {
    exists first :: Heard(s, SendFile(i), first)
      && if !first.created && first.status == "PENDING" then Heard(s, Extract(first.instance), result)
         else result == first
  }

  ghost predicate Answered(s: State) {
    && (forall i :: 0 <= i < |s.results| && s.results[i].Some? ==> ComesFrom(s, i, s.results[i].value))
    && (forall w :: 0 <= w < |s.workers| && s.workers[w].Extracting? ==>
          AskedAgain(s, s.workers[w].index, s.workers[w].instance))
  }

  ghost predicate AskedAgain(s: State, i: nat, instance: nat) {
    exists first :: Heard(s, SendFile(i), first) && !first.created && first.status == "PENDING"
                    && first.instance == instance
  }

  /** All but worker `idle` stop only when there is no file left. */
  ghost predicate Counted(s: State, idle: int) {
    && s.next == s.done + Holders(s.workers)
    && |s.workers| <= UPLOAD_CONCURRENCY
    && (forall w :: 0 <= w < |s.workers| && w != idle && s.workers[w].Finished? ==> s.next == s.n)
  }

  ghost predicate InvBut(s: State, idle: int) {
    Placed(s) && Announced(s) && Answered(s) && Counted(s, idle)
  }

  ghost predicate Inv(s: State) {
    InvBut(s, -1)
  }

  // ----- progress

  lemma {:induction false} TellMore(progress: seq<Progress>, event: Progress)
    requires WellTold(progress)
    requires event.Reading? ==> forall k :: 0 <= k < |progress| ==> progress[k].index != event.index
    requires event.Read? ==>
               && IsAnnounced(progress, event.index)
               && event.done == ReadsUpTo(progress) + 1
               && forall k :: 0 <= k < |progress| && progress[k].index == event.index ==> progress[k].Reading?
    ensures WellTold(progress + [event])
  {
    var all := progress + [event];
    OneMoreRead(progress, event);
    forall k | 0 <= k < |all|
      ensures ReadInTurn(all, k)
    {
      if k < |progress| {
        assert ReadInTurn(progress, k);
        assert all[..k] == progress[..k] && all[..k + 1] == progress[..k + 1];
      } else {
        assert all[..k] == progress && all[..k + 1] == all;
      }
    }
  }

  lemma {:induction false} OneMoreRead(progress: seq<Progress>, event: Progress)
    ensures ReadsUpTo(progress + [event]) == ReadsUpTo(progress) + if event.Read? then 1 else 0
  {
  }

  lemma StillAnnounced(progress: seq<Progress>, event: Progress)
    ensures forall i :: IsAnnounced(progress, i) ==> IsAnnounced(progress + [event], i)
    ensures event.Reading? ==> IsAnnounced(progress + [event], event.index)
  {
    var all := progress + [event];
    forall i | IsAnnounced(progress, i)
      ensures IsAnnounced(all, i)
    {
      var j :| AnnouncedAt(progress, j, i);
      assert AnnouncedAt(all, j, i);
    }
    assert event.Reading? ==> AnnouncedAt(all, |progress|, event.index);
  }

  // ----- workers

  lemma {:induction false} HoldersUpdate(workers: seq<Worker>, w: nat, worker: Worker)
    requires w < |workers|
    ensures Holders(workers[w := worker]) ==
            Holders(workers) - (if Holds(workers[w]) then 1 else 0) + if Holds(worker) then 1 else 0
    decreases |workers|
  {
    var front := workers[..|workers| - 1];
    if w < |front| {
      HoldersUpdate(front, w, worker);
      assert workers[w := worker][..|workers| - 1] == front[w := worker];
    } else {
      assert workers[w := worker][..|workers| - 1] == front;
    }
  }

  lemma {:induction false} NoHolders(workers: seq<Worker>)
    ensures Holders(workers) == 0 <==> forall w :: 0 <= w < |workers| ==> !Holds(workers[w])
    ensures Holders(workers) <= |workers|
  {
    if workers != [] {
      NoHolders(workers[..|workers| - 1]);
    }
  }

  // ----- every step keeps the invariant

  /** Files held by the other workers stay held. */
  lemma KeepsHolding(s: State, t: State, w: nat, mine: int)
    requires w < |s.workers| == |t.workers| && t.workers == s.workers[w := t.workers[w]]
    requires Holds(s.workers[w]) ==> s.workers[w].index == mine
    ensures forall i :: i != mine && Held(s, i) ==> Held(t, i)
  {
    forall i | i != mine && Held(s, i)
      ensures Held(t, i)
    {
      var v :| HeldBy(s, v, i);
      assert HeldBy(t, v, i);
    }
  }

  /** Worker `w` changes and hears nothing new: all other words of the server stand. */
  lemma KeepsAnswers(s: State, t: State)
    requires Answered(s) && s.replies <= t.replies && |t.results| == |s.results|
    requires forall i :: 0 <= i < |s.results| ==>
               t.results[i] == s.results[i] || (t.results[i].Some? && ComesFrom(t, i, t.results[i].value))
    requires forall w :: 0 <= w < |t.workers| && t.workers[w].Extracting? ==>
               || (w < |s.workers| && t.workers[w] == s.workers[w])
               || AskedAgain(t, t.workers[w].index, t.workers[w].instance)
    ensures Answered(t)
  {
  }

  lemma ClaimKeepsPlaced(s: State, w: nat)
    requires Placed(s) && w < |s.workers| && s.workers[w] == Finished && s.next < s.n
    ensures Placed(Claim(s, w))
  {
    var t := Claim(s, w);
    assert HeldBy(t, w, s.next);
    KeepsHolding(s, t, w, s.next);
  }

  lemma ClaimKeepsAnnounced(s: State, w: nat)
    requires Announced(s) && w < |s.workers| && s.next < s.n
    ensures Announced(Claim(s, w))
  {
    ReadingTold(s.progress, s.next, s.done);
    ClaimKeepsKnown(s, w);
  }

  lemma ReadingTold(progress: seq<Progress>, next: nat, done: nat)
    requires Told(progress, next, done)
    requires forall k :: 0 <= k < |progress| ==> progress[k].index < next
    ensures Told(progress + [Reading(next, done)], next + 1, done)
  {
    TellMore(progress, Reading(next, done));
    OneMoreRead(progress, Reading(next, done));
    StillAnnounced(progress, Reading(next, done));
  }

  lemma ClaimKeepsKnown(s: State, w: nat)
    requires Known(s) && w < |s.workers| && s.next < s.n
    ensures Known(Claim(s, w))
  {
  }

  lemma ClaimKeepsInv(s: State, w: nat)
    requires InvBut(s, w) && w < |s.workers| && s.workers[w] == Finished
    ensures Inv(Claim(s, w))
  {
    if s.next < s.n {
      ClaimKeepsPlaced(s, w);
      ClaimKeepsAnnounced(s, w);
      KeepsAnswers(s, Claim(s, w));
      HoldersUpdate(s.workers, w, Sending(s.next));
    } else {
      assert s.workers[w := Finished] == s.workers;
      assert Claim(s, w) == s;
    }
  }

  lemma StoredKeepsPlaced(s: State, w: nat, upload: Upload)
    requires Placed(s) && w < |s.workers| && Holds(s.workers[w])
    ensures Placed(Stored(s, w, s.workers[w].index, upload))
  {
    KeepsHolding(s, Stored(s, w, s.workers[w].index, upload), w, s.workers[w].index);
  }

  lemma StoredKeepsAnnounced(s: State, w: nat, index: nat, upload: Upload)
    requires Announced(s) && w < |s.workers| && index < s.next && s.results[index] == None
    ensures Announced(Stored(s, w, index, upload))
  {
    StoredTells(s, w, index, upload);
    StoredKeepsKnown(s, w, index, upload);
  }

  lemma StoredKeepsKnown(s: State, w: nat, index: nat, upload: Upload)
    requires Known(s) && w < |s.workers| && index < s.next
    ensures Known(Stored(s, w, index, upload))
  {
    var t := Stored(s, w, index, upload);
    forall k | 0 <= k < |t.progress|
      ensures t.progress[k].index < t.next
      ensures t.progress[k].Read? ==> t.results[t.progress[k].index].Some?
    {
      if k < |s.progress| {
        assert t.progress[k] == s.progress[k];
      }
    }
  }

  lemma NotYetRead(s: State, index: nat)
    requires Known(s) && index < s.next && s.results[index] == None
    ensures forall k :: 0 <= k < |s.progress| && s.progress[k].index == index ==> s.progress[k].Reading?
  {
  }

  lemma StoredTells(s: State, w: nat, index: nat, upload: Upload)
    requires Announced(s) && w < |s.workers| && index < s.next && s.results[index] == None
    ensures var t := Stored(s, w, index, upload); Told(t.progress, t.next, t.done)
  {
    NotYetRead(s, index);
    ReadTold(s.progress, s.next, s.done, index);
  }

  lemma ReadTold(progress: seq<Progress>, next: nat, done: nat, index: nat)
    requires Told(progress, next, done) && index < next
    requires forall k :: 0 <= k < |progress| && progress[k].index == index ==> progress[k].Reading?
    ensures Told(progress + [Read(index, done + 1)], next, done + 1)
  {
    TellMore(progress, Read(index, done + 1));
    OneMoreRead(progress, Read(index, done + 1));
    StillAnnounced(progress, Read(index, done + 1));
  }

  lemma StoredKeepsInv(s: State, w: nat, upload: Upload)
    requires Inv(s) && w < |s.workers| && Holds(s.workers[w])
    requires ComesFrom(s, s.workers[w].index, upload)
    ensures InvBut(Stored(s, w, s.workers[w].index, upload), w)
  {
    var t := Stored(s, w, s.workers[w].index, upload);
    StoredKeepsPlaced(s, w, upload);
    StoredKeepsAnnounced(s, w, s.workers[w].index, upload);
    assert Heard(s, SendFile(0), upload) == Heard(t, SendFile(0), upload);
    SameRepliesSameOrigin(s, t, s.workers[w].index, upload);
    KeepsAnswers(s, t);
    HoldersUpdate(s.workers, w, Finished);
  }

  lemma SameRepliesSameOrigin(s: State, t: State, i: nat, upload: Upload)
    requires s.replies <= t.replies && ComesFrom(s, i, upload)
    ensures ComesFrom(t, i, upload)
  {
  }

  /** Worker `w` still holds its file, in another way. */
  lemma ChangeKeepsInv(s: State, t: State, w: nat, worker: Worker)
    requires Inv(s) && w < |s.workers| && Holds(s.workers[w]) && Holds(worker)
    requires worker.index == s.workers[w].index
    requires s.replies <= t.replies && t == s.(workers := s.workers[w := worker], replies := t.replies)
    requires worker.Extracting? ==> AskedAgain(t, worker.index, worker.instance)
    ensures Inv(t)
  {
    KeepsHolding(s, t, w, worker.index);
    assert Held(t, worker.index) by {
      assert HeldBy(t, w, worker.index);
    }
    KeepsAnswers(s, t);
    HoldersUpdate(s.workers, w, worker);
  }

  lemma HeardKeepsInv(s: State, t: State)
    requires Inv(s) && s.replies <= t.replies && t == s.(replies := t.replies)
    ensures Inv(t)
  {
    KeepsAnswers(s, t);
    forall i | Held(s, i) ensures Held(t, i) {
      var w :| HeldBy(s, w, i);
      assert HeldBy(t, w, i);
    }
  }

  lemma AnswerKeepsInv(s: State, w: nat, upload: Upload)
    requires Inv(s) && Enabled(s, Answer(w, upload))
    ensures Ready(s, Answer(w, upload))
    ensures Inv(Next(s, Answer(w, upload)))
  {
    var worker := s.workers[w];
    var heard := s.(replies := s.replies + [Reply(RequestOf(worker), upload)]);
    HeardKeepsInv(s, heard);
    assert heard.replies[|s.replies|] == Reply(RequestOf(worker), upload);
    assert Heard(heard, RequestOf(worker), upload);
    if ReadAgain(worker, upload) {
      var again := Extracting(worker.index, upload.instance);
      var t := heard.(workers := s.workers[w := again]);
      assert AskedAgain(t, worker.index, upload.instance) by {
        assert Heard(t, SendFile(worker.index), upload);
      }
      ChangeKeepsInv(heard, t, w, again);
    } else {
      if worker.Extracting? {
        assert AskedAgain(heard, worker.index, worker.instance);
      }
      assert ComesFrom(heard, worker.index, upload);
      StoredKeepsInv(heard, w, upload);
      ClaimKeepsInv(Stored(heard, w, worker.index, upload), w);
    }
  }

  lemma NextKeepsInv(s: State, step: Step)
    requires Inv(s) && Enabled(s, step)
    ensures Ready(s, step)
    ensures Inv(Next(s, step))
  {
    match step
    case Answer(w, upload) => AnswerKeepsInv(s, w, upload);
    case Error(w) => ChangeKeepsInv(s, Next(s, step), w, Failed(s.workers[w].index));
  }

  lemma EmptyInv(n: nat)
    ensures Inv(Empty(n))
  {
  }

  lemma {:induction false} StartedInv(n: nat, count: nat)
    requires count <= UPLOAD_CONCURRENCY && count <= n
    ensures var s := Started(Empty(n), count);
            Inv(s) && |s.workers| == count && s.n == n && s.next == count
    decreases count
  {
    if count == 0 {
      EmptyInv(n);
    } else {
      StartedInv(n, count - 1);
      StartOneMore(Started(Empty(n), count - 1));
    }
  }

  lemma StartOneMore(before: State)
    requires Inv(before) && before.next < before.n && |before.workers| < UPLOAD_CONCURRENCY
    ensures var s := Claim(before.(workers := before.workers + [Finished]), |before.workers|);
            Inv(s) && |s.workers| == |before.workers| + 1 && s.n == before.n && s.next == before.next + 1
  {
    OneMoreWorker(before, before.(workers := before.workers + [Finished]));
    ClaimKeepsInv(before.(workers := before.workers + [Finished]), |before.workers|);
  }

  lemma OneMoreWorker(before: State, s: State)
    requires Inv(before) && s == before.(workers := before.workers + [Finished])
    requires |s.workers| <= UPLOAD_CONCURRENCY
    ensures InvBut(s, |before.workers|)
  {
    forall i | Held(before, i) ensures Held(s, i) {
      var w :| HeldBy(before, w, i);
      assert HeldBy(s, w, i);
    }
    assert s.workers[..|s.workers| - 1] == before.workers;
    KeepsAnswers(before, s);
  }

  // ----- whole runs

  /** A run in any interleaving: the server answers, or fails, whichever worker it likes. */
  ghost predicate IsRun(s: State, steps: seq<Step>, t: State)
    decreases |steps|
  {
    if steps == [] then s == t
    else
      && Ready(s, steps[0])
      && IsRun(Next(s, steps[0]), steps[1..], t)
  }

  function Weight(workers: seq<Worker>): nat {
    if workers == [] then 0
    else
      Weight(workers[..|workers| - 1])
      + match workers[|workers| - 1] case Sending(_) => 2 case Extracting(_, _) => 1 case _ => 0
  }

  lemma {:induction false} WeightUpdate(workers: seq<Worker>, w: nat, worker: Worker)
    requires w < |workers|
    ensures Weight(workers[w := worker]) == Weight(workers) - Weight([workers[w]]) + Weight([worker])
    decreases |workers|
  {
    var front := workers[..|workers| - 1];
    assert [worker][..0] == [] && [workers[w]][..0] == [];
    if w < |front| {
      WeightUpdate(front, w, worker);
      assert workers[w := worker][..|workers| - 1] == front[w := worker];
    } else {
      assert workers[w := worker][..|workers| - 1] == front;
    }
  }

  /** Replies the pool can still get: two for a file nobody has claimed. */
  function Measure(s: State): int {
    2 * (s.n - s.next) + Weight(s.workers)
  }

  lemma NextDecreases(s: State, step: Step)
    requires Inv(s) && Ready(s, step)
    ensures 0 <= Measure(Next(s, step)) < Measure(s)
    ensures Next(s, step).n == s.n && |Next(s, step).workers| == |s.workers|
  {
    NextKeepsInv(s, step);
    StepWeighs(s, step);
  }

  lemma StepWeighs(s: State, step: Step)
    requires Ready(s, step) && s.next <= s.n
    ensures Measure(Next(s, step)) < Measure(s)
  {
    var w, t := step.worker, Next(s, step);
    assert t.workers == s.workers[w := t.workers[w]];
    WeightUpdate(s.workers, w, t.workers[w]);
    assert [t.workers[w]][..0] == [] && [s.workers[w]][..0] == [];
  }

  /** Every run keeps the invariant, and is no longer than the measure it uses up: the pool stops. */
  lemma {:induction false} RunKeepsInv(s: State, steps: seq<Step>, t: State)
    requires Inv(s) && IsRun(s, steps, t)
    ensures Inv(t) && t.n == s.n && |t.workers| == |s.workers|
    ensures |steps| <= Measure(s) - Measure(t)
    ensures 0 <= Measure(t)
    decreases |steps|
  {
    if steps != [] {
      NextKeepsInv(s, steps[0]);
      NextDecreases(s, steps[0]);
      RunKeepsInv(Next(s, steps[0]), steps[1..], t);
    }
  }

  lemma StartIsInv(n: nat)
    ensures Inv(Start(n)) && Start(n).n == n
    ensures |Start(n).workers| == if n < UPLOAD_CONCURRENCY then n else UPLOAD_CONCURRENCY
    ensures Measure(Start(n)) <= 2 * n
  {
    StartedInv(n, if n < UPLOAD_CONCURRENCY then n else UPLOAD_CONCURRENCY);
    WeightBound(Start(n).workers);
  }

  lemma {:induction false} WeightBound(workers: seq<Worker>)
    ensures Weight(workers) <= 2 * |workers|
  {
    if workers != [] {
      WeightBound(workers[..|workers| - 1]);
    }
  }

  /** The numbers the read events carry, in order. */
  function ReadNumbers(progress: seq<Progress>): seq<nat> {
    if progress == [] then []
    else
      var last := progress[|progress| - 1];
      ReadNumbers(progress[..|progress| - 1]) + if last.Read? then [last.done] else []
  }

  lemma {:induction false} ReadsAreNumbered(progress: seq<Progress>)
    requires forall k :: 0 <= k < |progress| && progress[k].Read? ==> progress[k].done == ReadsUpTo(progress[..k + 1])
    ensures ReadNumbers(progress) == seq(ReadsUpTo(progress), (k: nat) => k + 1)
  {
    if progress != [] {
      var front := progress[..|progress| - 1];
      forall k | 0 <= k < |front| && front[k].Read?
        ensures front[k].done == ReadsUpTo(front[..k + 1])
      {
        assert front[..k + 1] == progress[..k + 1];
      }
      ReadsAreNumbered(front);
      assert progress[..|progress|] == progress;
    }
  }

  lemma {:induction false} WellToldIsNumbered(progress: seq<Progress>)
    requires WellTold(progress)
    ensures ReadNumbers(progress) == seq(ReadsUpTo(progress), (k: nat) => k + 1)
  {
    forall k | 0 <= k < |progress| && progress[k].Read?
      ensures progress[k].done == ReadsUpTo(progress[..k + 1])
    {
      assert ReadInTurn(progress, k);
    }
    ReadsAreNumbered(progress);
  }

  ghost predicate Resolved(t: State) {
    forall w :: 0 <= w < |t.workers| ==> t.workers[w].Finished?
  }

  ghost predicate Quiet(t: State) {
    forall w :: 0 <= w < |t.workers| ==> !Waits(t.workers[w])
  }

  ghost predicate Rejected(t: State) {
    exists w :: 0 <= w < |t.workers| && t.workers[w].Failed?
  }

  /** Whatever the interleaving, no more than four files (or all, if fewer) are out at once; whoever waits
      can still be answered, or fail; and no run is longer than two replies a file. So the pool stops. */
  lemma {:induction false} PoolIsBounded(n: nat, steps: seq<Step>, t: State)
    requires IsRun(Start(n), steps, t)
    ensures Holders(t.workers) <= UPLOAD_CONCURRENCY && Holders(t.workers) <= n
    ensures |steps| <= 2 * n
    ensures forall step :: Enabled(t, step) ==> Ready(t, step)
    ensures |steps| == 2 * n ==> Quiet(t)
  {
    StartIsInv(n);
    RunKeepsInv(Start(n), steps, t);
    NoHolders(t.workers);
    if w :| 0 <= w < |t.workers| && Waits(t.workers[w]) {
      NextDecreases(t, Error(w));
    }
  }

  /** Two replies a file do happen: one file, known and still pending. */
  lemma TwoRepliesHappen() returns (steps: seq<Step>, t: State)
    ensures IsRun(Start(1), steps, t) && |steps| == 2 && Resolved(t)
  {
    var known := Upload(7, false, "PENDING", "a.pdf");
    var s := Start(1);
    assert Started(Empty(1), 0) == Empty(1);
    var again := Next(s, Answer(0, known));
    t := Next(again, Answer(0, known));
    steps := [Answer(0, known), Answer(0, known)];
    assert IsRun(again, steps[1..], t) by {
      assert steps[1..][1..] == [];
    }
  }

  /** When the pool resolves, every file has its own result, and the console has been told: reading
      before read, read numbered 1 to n, two events a file. */
  lemma {:induction false} SuccessIsComplete(n: nat, steps: seq<Step>, t: State)
    requires IsRun(Start(n), steps, t) && Resolved(t)
    ensures |t.results| == n
    ensures forall i :: 0 <= i < n ==> t.results[i].Some? && ComesFrom(t, i, t.results[i].value)
    ensures |t.progress| == 2 * n && WellTold(t.progress)
    ensures ReadNumbers(t.progress) == seq(n, (k: nat) => k + 1)
  {
    StartIsInv(n);
    RunKeepsInv(Start(n), steps, t);
    AllFinished(t);
    ResultsAreAnswers(t);
    WellToldIsNumbered(t.progress);
  }

  lemma AllFinished(t: State)
    requires Inv(t) && Resolved(t) && (t.n > 0 ==> t.workers != [])
    ensures t.next == t.n == t.done
    ensures forall i :: 0 <= i < t.n ==> t.results[i].Some?
  {
    NoHolders(t.workers);
    assert t.n > 0 ==> t.workers[0].Finished?;
    NobodyHolds(t);
  }

  lemma ResultsAreAnswers(t: State)
    requires Inv(t)
    ensures forall i :: 0 <= i < |t.results| && t.results[i].Some? ==> ComesFrom(t, i, t.results[i].value)
    ensures Told(t.progress, t.next, t.done)
  {
  }

  /** The inbox's test, `progress.length >= files.length * 2`, is true exactly when every file has been
      read; and it never becomes true once an upload has failed. */
  lemma {:induction false} ProgressTestIsExact(n: nat, steps: seq<Step>, t: State)
    requires IsRun(Start(n), steps, t)
    ensures |t.progress| >= 2 * n <==> t.done == n
    ensures t.done == n <==> forall i :: 0 <= i < |t.results| ==> t.results[i].Some?
    ensures Rejected(t) ==> |t.progress| < 2 * n
  {
    StartIsInv(n);
    RunKeepsInv(Start(n), steps, t);
    NoHolders(t.workers);
    if t.done == n {
      NobodyHolds(t);
    } else {
      var i := SomeUnread(t);
    }
  }

  lemma NobodyHolds(t: State)
    requires Inv(t) && Holders(t.workers) == 0
    ensures forall i :: 0 <= i < t.next ==> t.results[i].Some?
  {
    NoHolders(t.workers);
    assert forall w, i :: !HeldBy(t, w, i);
  }

  lemma SomeUnread(t: State) returns (i: nat)
    requires Inv(t) && t.done < t.n
    ensures i < |t.results| && t.results[i] == None
  {
    NoHolders(t.workers);
    if t.next < t.n {
      i := t.next;
    } else {
      var w :| 0 <= w < |t.workers| && Holds(t.workers[w]);
      i := t.workers[w].index;
    }
  }

  ghost predicate FailedOn(t: State, i: nat) {
    exists w :: 0 <= w < |t.workers| && t.workers[w] == Failed(i)
  }

  lemma UnreadMeansFailed(t: State, i: nat)
    requires Inv(t) && Quiet(t) && i < t.next
    ensures t.results[i] == None <==> FailedOn(t, i)
  {
  }

  /** A failed upload rejects the pool but stops only its own worker. When all has gone quiet and some
      worker ran out of files, the files without a result are exactly the ones that failed. */
  lemma {:induction false} FailureLosesOnlyItsFile(n: nat, steps: seq<Step>, t: State, idle: nat)
    requires IsRun(Start(n), steps, t) && Quiet(t)
    requires idle < |t.workers| && t.workers[idle].Finished?
    ensures |t.results| == n
    ensures forall i :: 0 <= i < n ==> (t.results[i] == None <==> FailedOn(t, i))
    ensures n - t.done == Holders(t.workers) < UPLOAD_CONCURRENCY
  {
    StartIsInv(n);
    RunKeepsInv(Start(n), steps, t);
    forall i | 0 <= i < n
      ensures t.results[i] == None <==> FailedOn(t, i)
    {
      UnreadMeansFailed(t, i);
    }
    HoldersUpdate(t.workers, idle, Failed(0));
    NoHolders(t.workers[idle := Failed(0)]);
  }

  // ----- the shared variables, updated in place

  class Pool {
    const n: nat
    var next: nat
    var done: nat
    var results: seq<Option<Upload>>
    var progress: seq<Progress>
    var workers: seq<Worker>
    ghost var replies: seq<Reply>

    ghost function View(): State
      reads this
    {
      State(n, next, done, results, progress, replies, workers)
    }

    /** The workers are started one after the other. */
    constructor (n: nat)
      ensures View() == Start(n) && this.n == n
    {
      this.n := n;
      next, done, results, progress, workers := 0, 0, seq(n, _ => None), [], [];
      replies := [];
      new;
      var count := if n < UPLOAD_CONCURRENCY then n else UPLOAD_CONCURRENCY;
      for k := 0 to count
        invariant View() == Started(Empty(n), k)
      {
        workers := workers + [Finished];
        Loop(|workers| - 1);
      }
    }

    /** The head of a worker's loop. */
    method Loop(w: nat)
      requires w < |workers|
      modifies this
      ensures View() == Claim(old(View()), w)
    {
      if next < n {
        var index := next;
        next := next + 1;
        progress := progress + [Reading(index, done)];
        workers := workers[w := Sending(index)];
      } else {
        workers := workers[w := Finished];
      }
    }

    /** A reply wakes its worker, which runs until its next request. */
    method Resume(w: nat, upload: Upload)
      requires Ready(View(), Answer(w, upload))
      modifies this
      ensures View() == Next(old(View()), Answer(w, upload))
    {
      var worker := workers[w];
      replies := replies + [Reply(RequestOf(worker), upload)];
      if ReadAgain(worker, upload) {
        workers := workers[w := Extracting(worker.index, upload.instance)];
        return;
      }
      results := results[worker.index := Some(upload)];
      done := done + 1;
      progress := progress + [Read(worker.index, done)];
      workers := workers[w := Finished];
      Loop(w);
    }

    /** A rejected request ends its worker; the others do not notice. */
    method Reject(w: nat)
      requires Ready(View(), Error(w))
      modifies this
      ensures View() == Next(old(View()), Error(w))
    {
      workers := workers[w := Failed(workers[w].index)];
    }
  }
}
