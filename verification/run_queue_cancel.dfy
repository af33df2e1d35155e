/** Cancellation, order and shutdown of the run queue, over every schedule. */
module RunQueueCancel {
  import opened JsonValues
  import opened RunQueue
  import opened RunQueueLaws

  // ---------------------------------------------------------------- order and seriality

  lemma EmptyQueueIsFine()
    ensures Invariant(Initial())
  {
  }

  /** `a` is what is left of `b` after leaving some of it out. */
  ghost predicate Subsequence(a: seq<string>, b: seq<string>)
    decreases |b|
  {
    a == [] ||
    (b != [] &&
     (Subsequence(a, b[..|b| - 1]) ||
      (a[|a| - 1] == b[|b| - 1] && Subsequence(a[..|a| - 1], b[..|b| - 1]))))
  }

  lemma SubsequenceLast(a: seq<string>, b: seq<string>, x: string)
    requires Subsequence(a, b)
    ensures Subsequence(a, b + [x]) && Subsequence(a + [x], b + [x])
  {
    assert (b + [x])[..|b|] == b && (a + [x])[..|a|] == a;
  }

  lemma {:induction false} SubsequencePrefix(a: seq<string>, b: seq<string>, c: seq<string>)
    requires Subsequence(a, b) && b <= c
    ensures Subsequence(a, c)
    decreases |c|
  {
    if |b| < |c| {
      SubsequencePrefix(a, b, c[..|c| - 1]);
      SubsequenceLast(a, c[..|c| - 1], c[|c| - 1]);
      assert c[..|c| - 1] + [c[|c| - 1]] == c;
    } else {
      assert b == c;
    }
  }

  predicate YetToStart(w: Worker) {
    Busy(w) && !Launched(w.at)
  }

  /** The runs the worker took, without the one it has yet to start. */
  function Passed(w: Worker, taken: seq<string>): seq<string> {
    if YetToStart(w) && taken != [] then taken[..|taken| - 1] else taken
  }

  ghost predicate StartedInOrder(s: State) {
    Subsequence(s.trace.started, Passed(s.worker, s.line.taken))
  }

  lemma YetToStartSteps(w: Worker, queue: seq<Item>, shutdown: bool, wanted: bool, outcome: Outcome)
    ensures var v := WorkerMoves(w, queue, shutdown, wanted, outcome);
      && (YetToStart(v) <==> (if YetToStart(w) then v.at != Clear && !Launched(v.at)
                              else w.at == Getting && queue != [] && queue[0].Run?))
      && (w.at == Preparing && !outcome.RaisedOther? ==> YetToStart(w) && !YetToStart(v))
  {
  }

  lemma TraceStep(s: State, outcome: Outcome)
    ensures Worked(s, outcome).trace.started
      == s.trace.started + (if s.worker.at == Preparing && !outcome.RaisedOther? then [s.worker.current] else [])
  {
    hide WorkerWrites, WorkerMoves, Taken;
  }

  /** One step of the worker passes at most the run it is busy with, and starts no other. */
  lemma PassedStep(s: State, outcome: Outcome)
    requires Fifo(s.line) && Known(s)
    ensures var t := Worked(s, outcome);
      var was, now := Passed(s.worker, s.line.taken), Passed(t.worker, t.line.taken);
      || (t.trace.started == s.trace.started && (now == was || now == was + [s.worker.current]))
      || (t.trace.started == s.trace.started + [s.worker.current] && now == was + [s.worker.current])
  {
    YetToStartIsBusy(s.worker);
    hide Fifo, WorkerWrites, WorkerMoves, Taken, YetToStart, Busy, Launched;
    var taken, t := s.line.taken, Worked(s, outcome);
    TraceStep(s, outcome);
    YetToStartSteps(s.worker, s.line.queue, s.shutdown, s.worker.current in s.records.requests, outcome);
    if YetToStart(s.worker) {
      assert t.line.taken == taken && taken == taken[..|taken| - 1] + [s.worker.current];
    } else if s.worker.at == Getting {
      TakenStep(s.line);
    }
  }

  lemma YetToStartIsBusy(w: Worker)
    ensures YetToStart(w) ==> Busy(w) && w.at != Getting
  {
  }

  lemma StartedInOrderKept(s: State, e: Event)
    requires Fifo(s.line) && Known(s) && StartedInOrder(s)
    ensures StartedInOrder(Next(s, e))
  {
    hide Fifo, Known, Worked, CancelWrites, CancelMoves;
    if e.Work? {
      PassedStep(s, e.outcome);
      SubsequenceLast(s.trace.started, Passed(s.worker, s.line.taken), s.worker.current);
    }
  }

  lemma {:induction false} StartedInOrderAlways(s: State, schedule: seq<Event>)
    requires Invariant(s) && StartedInOrder(s)
    ensures StartedInOrder(After(s, schedule))
    decreases |schedule|
  {
    hide Fifo, Known, Serial, Honest, OnRecord, ActiveIsCurrent, StartedInOrder, Next;
    if schedule != [] {
      StartedInOrderKept(s, schedule[0]);
      InvariantKept(s, schedule[0]);
      StartedInOrderAlways(Next(s, schedule[0]), schedule[1..]);
    }
  }

  lemma StartedAsPut(s: State)
    requires Fifo(s.line) && StartedInOrder(s)
    ensures Subsequence(s.trace.started, s.line.put)
  {
    SubsequencePrefix(s.trace.started, Passed(s.worker, s.line.taken), s.line.put);
  }

  /** In every reachable state: runs are taken in the order they were put, and of those taken the ones that
      are handed to the runtime are handed over in that order, none twice and at most one at a time; only
      the worker's current run can read "running", and a run the worker is through with has a final status,
      in memory and on disk. */
  lemma ServedInOrder(schedule: seq<Event>)
    ensures var s := After(Initial(), schedule);
      && s.line.taken <= s.line.put
      && Subsequence(s.trace.started, s.line.put)
      && s.trace.ended <= s.trace.started
      && |s.trace.started| <= |s.trace.ended| + 1
      && Distinct(s.trace.started)
      && (forall id :: id in s.trace.started ==> id in s.line.taken)
      && (forall id :: id in s.records.status && s.records.status[id] == Running ==>
            Busy(s.worker) && s.worker.current == id)
      && (forall id :: Finished(s, id) ==>
            && id in s.records.status && Final(s.records.status[id])
            && id in s.records.disk && Final(s.records.disk[id]))
  {
    EmptyQueueIsFine();
    InvariantAlways(Initial(), schedule);
    StartedInOrderAlways(Initial(), schedule);
    var s := After(Initial(), schedule);
    StartedAsPut(s);
    hide After, Subsequence, StartedInOrder;
    forall id | id in s.records.status ensures HonestAbout(s, id) {
      HonestHere(s, id);
    }
    forall id | Finished(s, id) ensures id in s.records.status {
      TakenIsKnown(s, id);
    }
  }

  // ---------------------------------------------------------------- cancelled before it was taken

  /** A run that will not be, or has not been, handed to the runtime. */
  ghost predicate Spared(s: State, id: string) {
    && id in s.records.status && id in s.records.disk
    && id !in s.trace.started
    && (id !in s.line.taken ==> id in s.records.requests)
    && (Busy(s.worker) && s.worker.current == id ==>
          match s.worker.at
          case PreCheck => id in s.records.requests
          case MarkCancelled => true
          case PersistCancelled => s.records.status[id] == Cancelled
          case Clear => s.records.status[id] == Cancelled && s.records.disk[id] == Cancelled
          case _ => false)
    && (Finished(s, id) ==> s.records.status[id] == Cancelled && s.records.disk[id] == Cancelled)
  }

  lemma SparedCurrent(s: State, outcome: Outcome)
    requires Busy(s.worker) && s.worker.current in s.line.taken && Spared(s, s.worker.current)
    ensures Spared(Worked(s, outcome), s.worker.current)
  {
  }

  lemma SparedWork(s: State, outcome: Outcome, id: string)
    requires Fifo(s.line) && Known(s) && Spared(s, id)
    ensures Spared(Worked(s, outcome), id)
  {
    hide Fifo, Worked;
    if Busy(s.worker) {
      CurrentIsKnown(s);
    }
    if Busy(s.worker) && s.worker.current == id {
      SparedCurrent(s, outcome);
    } else {
      OtherUntouched(s, outcome, id);
    }
  }

  lemma SparedKept(s: State, e: Event, id: string)
    requires Invariant(s) && Spared(s, id)
    ensures Spared(Next(s, e), id)
  {
    hide Fifo, Serial, Honest, OnRecord, ActiveIsCurrent, Worked, CancelMoves;
    if e.Work? {
      SparedWork(s, e.outcome, id);
    }
  }

  lemma {:induction false} SparedAlways(s: State, schedule: seq<Event>, id: string)
    requires Invariant(s) && Spared(s, id)
    ensures Spared(After(s, schedule), id)
    decreases |schedule|
  {
    hide Invariant, Next, Spared;
    if schedule != [] {
      SparedKept(s, schedule[0], id);
      InvariantKept(s, schedule[0]);
      SparedAlways(Next(s, schedule[0]), schedule[1..], id);
    }
  }

  /** A run whose cancellation is on record before the worker takes it never reaches the runtime, and
      ends as cancelled. */
  lemma CancelledBeforeTakenNeverRuns(before: seq<Event>, after: seq<Event>, id: string)
    requires var s := After(Initial(), before);
      id in s.records.status && id in s.records.requests && id !in s.line.taken
    ensures var t := After(After(Initial(), before), after);
      && id !in t.trace.started
      && (Finished(t, id) ==>
            && id in t.records.status && t.records.status[id] == Cancelled
            && id in t.records.disk && t.records.disk[id] == Cancelled)
  {
    EmptyQueueIsFine();
    InvariantAlways(Initial(), before);
    SparedAlways(After(Initial(), before), after, id);
  }

  /** In particular, once a call of cancel has returned without refusing while its run was waiting,
      the run never reaches the runtime. */
  lemma ReturnedCancelHolds(before: seq<Event>, after: seq<Event>, k: nat)
    requires var s := After(Initial(), before);
      k < |s.cancels| && s.cancels[k].at == Done && s.cancels[k].id !in s.line.taken
    ensures var s := After(Initial(), before);
      s.cancels[k].id !in After(s, after).trace.started
  {
    EmptyQueueIsFine();
    InvariantAlways(Initial(), before);
    CancelledBeforeTakenNeverRuns(before, after, After(Initial(), before).cancels[k].id);
  }

  // ---------------------------------------------------------------- cancelled before the post-run check

  predicate BeforeCheck(at: WorkerAt) {
    at == PreCheck || at == MarkCancelled || at == PersistCancelled || at == MarkRunning || at == PersistRunning ||
    at == Activate || at == Preparing || at == Executing || at.PostCheck?
  }

  /** The worker has not looked at the outcome of this run yet. */
  predicate Unchecked(s: State, id: string) {
    id !in s.line.taken || (Busy(s.worker) && s.worker.current == id && BeforeCheck(s.worker.at))
  }

  predicate Stopped(st: Status) {
    st == Cancelled || st == Error
  }

  /** A run that can only end as cancelled or error. */
  ghost predicate Doomed(s: State, id: string) {
    && id in s.records.status && id in s.records.disk
    && (Unchecked(s, id) ==> id in s.records.requests)
    && (Busy(s.worker) && s.worker.current == id ==>
          match s.worker.at
          case PersistCancelled => s.records.status[id] == Cancelled
          case Marking(verdict) => Stopped(verdict)
          case PersistFinal => Stopped(s.records.status[id])
          case Deactivate => Stopped(s.records.status[id]) && Stopped(s.records.disk[id])
          case Clear => Stopped(s.records.status[id]) && Stopped(s.records.disk[id])
          case _ => true)
    && (Finished(s, id) ==> Stopped(s.records.status[id]) && Stopped(s.records.disk[id]))
  }

  lemma DoomedCurrent(s: State, outcome: Outcome)
    requires Busy(s.worker) && s.worker.current in s.line.taken && Doomed(s, s.worker.current)
    ensures Doomed(Worked(s, outcome), s.worker.current)
  {
  }

  lemma DoomedWork(s: State, outcome: Outcome, id: string)
    requires Fifo(s.line) && Known(s) && Doomed(s, id)
    ensures Doomed(Worked(s, outcome), id)
  {
    hide Fifo, Worked;
    if Busy(s.worker) {
      CurrentIsKnown(s);
    }
    if Busy(s.worker) && s.worker.current == id {
      DoomedCurrent(s, outcome);
    } else {
      OtherUntouched(s, outcome, id);
    }
  }

  lemma DoomedKept(s: State, e: Event, id: string)
    requires Invariant(s) && Doomed(s, id)
    ensures Doomed(Next(s, e), id)
  {
    hide Fifo, Serial, Honest, OnRecord, ActiveIsCurrent, Worked, CancelMoves;
    if e.Work? {
      DoomedWork(s, e.outcome, id);
    }
  }

  lemma {:induction false} DoomedAlways(s: State, schedule: seq<Event>, id: string)
    requires Invariant(s) && Doomed(s, id)
    ensures Doomed(After(s, schedule), id)
    decreases |schedule|
  {
    hide Invariant, Next, Doomed;
    if schedule != [] {
      DoomedKept(s, schedule[0], id);
      InvariantKept(s, schedule[0]);
      DoomedAlways(Next(s, schedule[0]), schedule[1..], id);
    }
  }

  /** A request on record before the post-run check decides the outcome: when the worker is through
      with the run, its status is and stays cancelled or error, whatever the runtime returned and
      whatever the status showed in between. */
  lemma CancelledBeforeCheckNeverCompletes(before: seq<Event>, after: seq<Event>, id: string)
    requires var s := After(Initial(), before);
      id in s.records.status && id in s.records.requests && Unchecked(s, id)
    ensures var t := After(After(Initial(), before), after);
      Finished(t, id) ==>
        && id in t.records.status && Stopped(t.records.status[id])
        && id in t.records.disk && Stopped(t.records.disk[id])
  {
    EmptyQueueIsFine();
    InvariantAlways(Initial(), before);
    var s := After(Initial(), before);
    HonestHere(s, id);
    DoomedAlways(s, after, id);
  }

  // ---------------------------------------------------------------- a finished run that changes its status

  /** A call of cancel that is past its last look at the status and will write. */
  predicate WillMark(c: Canceller) {
    c.at == MarkQueued || c.at == IfInactive || c.at == MarkZombie
  }

  ghost predicate SomeoneWillMark(s: State, id: string) {
    exists k :: 0 <= k < |s.cancels| && s.cancels[k].id == id && WillMark(s.cancels[k])
  }

  ghost predicate Settled(s: State, id: string, st: Status) {
    && Finished(s, id) && id in s.records.status && s.records.status[id] == st && Final(st)
    && (st == Cancelled || !SomeoneWillMark(s, id))
  }

  lemma SettledCancel(s: State, k: nat, id: string, st: Status)
    requires Known(s) && Settled(s, id, st) && k < |s.cancels|
    ensures Settled(Next(s, Cancel(k)), id, st)
  {
    var t := Next(s, Cancel(k));
    if SomeoneWillMark(t, id) {
      var i :| 0 <= i < |t.cancels| && t.cancels[i].id == id && WillMark(t.cancels[i]);
      assert i != k ==> t.cancels[i] == s.cancels[i];
      assert i == k ==> s.cancels[k].id == id && s.cancels[k].at == IfInactive && WillMark(s.cancels[k]);
      assert SomeoneWillMark(s, id);
    }
    if s.cancels[k].id == id && st != Cancelled {
      assert !WillMark(s.cancels[k]);
    }
  }

  lemma SettledWork(s: State, outcome: Outcome, id: string, st: Status)
    requires Fifo(s.line) && Known(s) && Settled(s, id, st)
    ensures Settled(Worked(s, outcome), id, st)
  {
    hide Fifo, Worked;
    OtherUntouched(s, outcome, id);
    SameCallers(s, outcome);
  }

  lemma SameCallers(s: State, outcome: Outcome)
    ensures Worked(s, outcome).cancels == s.cancels
  {
    hide WorkerWrites, WorkerMoves;
  }

  lemma SettledKept(s: State, e: Event, id: string, st: Status)
    requires Invariant(s) && Settled(s, id, st)
    ensures Settled(Next(s, e), id, st)
  {
    hide Fifo, Serial, Honest, OnRecord, ActiveIsCurrent, Worked;
    match e {
      case Cancel(k) =>
        if k < |s.cancels| {
          SettledCancel(s, k, id, st);
        }
      case Work(outcome) => SettledWork(s, outcome, id, st);
      case CallCancel(other) =>
        assert forall k :: 0 <= k < |s.cancels| ==> Next(s, e).cancels[k] == s.cancels[k];
      case _ => assert Next(s, e).cancels == s.cancels;
    }
  }

  lemma {:induction false} SettledAlways(s: State, schedule: seq<Event>, id: string, st: Status)
    requires Invariant(s) && Settled(s, id, st)
    ensures Settled(After(s, schedule), id, st)
    decreases |schedule|
  {
    hide Invariant, Next, Settled;
    if schedule != [] {
      SettledKept(s, schedule[0], id, st);
      InvariantKept(s, schedule[0]);
      SettledAlways(Next(s, schedule[0]), schedule[1..], id, st);
    }
  }

  lemma SettledNow(s: State, id: string)
    requires Finished(s, id) && id in s.records.status && Final(s.records.status[id])
    ensures Settled(s, id, s.records.status[id]) <==> s.records.status[id] == Cancelled || !SomeoneWillMark(s, id)
  {
  }

  lemma SettledStatus(s: State, id: string, st: Status)
    requires Settled(s, id, st)
    ensures StatusOf(s.records, id) == st
  {
  }

  ghost predicate CanChange(s: State, id: string)
    requires id in s.records.status
  {
    exists schedule: seq<Event> :: StatusOf(After(s, schedule).records, id) != s.records.status[id]
  }

  lemma MarksInTwo(s: State, k: nat)
    requires Invariant(s) && k < |s.cancels| && WillMark(s.cancels[k])
    requires s.cancels[k].id in s.records.status && Finished(s, s.cancels[k].id)
    ensures StatusOf(After(s, [Cancel(k), Cancel(k)]).records, s.cancels[k].id) == Cancelled
  {
    hide Fifo, Serial, Honest, OnRecord, After;
    var t := Next(s, Cancel(k));
    AfterTwo(s, t, Next(t, Cancel(k)), Cancel(k), Cancel(k), []);
    AfterNothing(Next(t, Cancel(k)));
    assert [Cancel(k), Cancel(k)] == [Cancel(k), Cancel(k)] + [];
  }

  /** A run the worker is through with can still change its status exactly when it did not end as
      cancelled and some call of cancel had already read its status as queued or running. */
  lemma FinishedStatusChangesIff(before: seq<Event>, id: string)
    requires Finished(After(Initial(), before), id)
    ensures var s := After(Initial(), before);
      && id in s.records.status
      && (CanChange(s, id) <==> s.records.status[id] != Cancelled && SomeoneWillMark(s, id))
  {
    hide After, Fifo, Serial, OnRecord, ActiveIsCurrent, Settled;
    EmptyQueueIsFine();
    InvariantAlways(Initial(), before);
    var s := After(Initial(), before);
    TakenIsKnown(s, id);
    HonestHere(s, id);
    var st := s.records.status[id];
    assert (st == Cancelled || !SomeoneWillMark(s, id)) ==> Settled(s, id, st) by {
      SettledNow(s, id);
    }
    if st != Cancelled && SomeoneWillMark(s, id) {
      var k :| 0 <= k < |s.cancels| && s.cancels[k].id == id && WillMark(s.cancels[k]);
      MarksInTwo(s, k);
      assert CanChange(s, id);
    } else {
      forall schedule: seq<Event> ensures StatusOf(After(s, schedule).records, id) == st {
        SettledAlways(s, schedule, id, st);
        SettledStatus(After(s, schedule), id, st);
      }
    }
  }

  // ---------------------------------------------------------------- what is on disk

  /** Some call of cancel has written this run's status and not persisted it yet. */
  ghost predicate PersistPending(s: State, id: string) {
    exists k :: 0 <= k < |s.cancels| && s.cancels[k].id == id && s.cancels[k].at == CancelAt.Persist
  }

  /** The worker has persisted this run's final status. */
  predicate Filed(s: State, id: string) {
    Finished(s, id) || (Busy(s.worker) && s.worker.current == id && (s.worker.at == Deactivate || s.worker.at == Clear))
  }

  ghost predicate DiskAgrees(s: State, id: string) {
    && id in s.records.status && id in s.records.disk
    && (Filed(s, id) && !PersistPending(s, id) ==> s.records.disk[id] == s.records.status[id])
  }

  lemma AgreesCurrent(s: State, outcome: Outcome)
    requires Busy(s.worker) && s.worker.current in s.line.taken && DiskAgrees(s, s.worker.current)
    ensures DiskAgrees(Worked(s, outcome), s.worker.current)
  {
    SameCallers(s, outcome);
  }

  lemma AgreesWork(s: State, outcome: Outcome, id: string)
    requires Fifo(s.line) && Known(s) && DiskAgrees(s, id)
    ensures DiskAgrees(Worked(s, outcome), id)
  {
    hide Fifo, Worked;
    if Busy(s.worker) {
      CurrentIsKnown(s);
    }
    SameCallers(s, outcome);
    if Busy(s.worker) && s.worker.current == id {
      AgreesCurrent(s, outcome);
    } else {
      OtherUntouched(s, outcome, id);
    }
  }

  lemma AgreesCancel(s: State, k: nat, id: string)
    requires Known(s) && DiskAgrees(s, id) && k < |s.cancels|
    ensures DiskAgrees(Next(s, Cancel(k)), id)
  {
    hide Filed;
    var t := Next(s, Cancel(k));
    assert Filed(t, id) <==> Filed(s, id) by {
      SameWorker(s, k, id);
    }
    assert t.cancels[k].id == s.cancels[k].id;
    assert forall i :: 0 <= i < |s.cancels| && i != k ==> t.cancels[i] == s.cancels[i];
    if s.cancels[k].id == id {
      assert WillMark(s.cancels[k]) && s.cancels[k].at != IfInactive ==> t.cancels[k].at == CancelAt.Persist;
    }
    if PersistPending(s, id) {
      var i :| 0 <= i < |s.cancels| && s.cancels[i].id == id && s.cancels[i].at == CancelAt.Persist;
      assert i != k ==> t.cancels[i] == s.cancels[i];
    }
  }

  lemma SameWorker(s: State, k: nat, id: string)
    requires k < |s.cancels|
    ensures Filed(Next(s, Cancel(k)), id) <==> Filed(s, id)
  {
    hide CancelWrites, CancelMoves;
  }

  lemma AgreesKept(s: State, e: Event, id: string)
    requires Invariant(s) && DiskAgrees(s, id)
    ensures DiskAgrees(Next(s, e), id)
  {
    hide Fifo, Serial, Honest, OnRecord, ActiveIsCurrent, Worked;
    match e {
      case Cancel(k) =>
        if k < |s.cancels| {
          AgreesCancel(s, k, id);
        }
      case Work(outcome) => AgreesWork(s, outcome, id);
      case CallCancel(other) =>
        var t := Next(s, e);
        assert forall k :: 0 <= k < |s.cancels| ==> t.cancels[k] == s.cancels[k];
        if PersistPending(s, id) {
          var i :| 0 <= i < |s.cancels| && s.cancels[i].id == id && s.cancels[i].at == CancelAt.Persist;
          assert t.cancels[i] == s.cancels[i];
        }
      case _ => assert Next(s, e).cancels == s.cancels;
    }
  }

  lemma CreatedAgrees(s: State, e: Event, id: string)
    requires Invariant(s) && id !in s.records.status && id in Next(s, e).records.status
    ensures DiskAgrees(Next(s, e), id)
  {
    hide Fifo, Serial, Honest, OnRecord, ActiveIsCurrent;
    match e {
      case Work(outcome) =>
        if Busy(s.worker) {
          CurrentIsKnown(s);
        }
        WorkerKeepsKeys(s.records, s.worker.at, s.worker.current);
        assert false;
      case _ =>
    }
  }

  lemma {:induction false} AgreesAlways(s: State, schedule: seq<Event>, id: string)
    requires Invariant(s) && (id in s.records.status ==> DiskAgrees(s, id))
    ensures id in After(s, schedule).records.status ==> DiskAgrees(After(s, schedule), id)
    decreases |schedule|
  {
    hide Invariant, Next, DiskAgrees;
    if schedule != [] {
      var t := Next(s, schedule[0]);
      if id in s.records.status {
        AgreesKept(s, schedule[0], id);
      } else if id in t.records.status {
        CreatedAgrees(s, schedule[0], id);
      }
      InvariantKept(s, schedule[0]);
      AgreesAlways(t, schedule[1..], id);
    }
  }

  /** The final status of a run the worker is through with is the one on disk, unless a call of cancel is
      between writing its own verdict and persisting it. */
  lemma FinishedIsOnDisk(schedule: seq<Event>, id: string)
    requires Finished(After(Initial(), schedule), id) && !PersistPending(After(Initial(), schedule), id)
    ensures var s := After(Initial(), schedule);
      id in s.records.status && id in s.records.disk && s.records.disk[id] == s.records.status[id]
  {
    hide After, Invariant;
    EmptyQueueIsFine();
    InvariantAlways(Initial(), schedule);
    AgreesAlways(Initial(), schedule, id);
    KnownRun(After(Initial(), schedule), id);
  }

  lemma KnownRun(s: State, id: string)
    requires Invariant(s) && Finished(s, id)
    ensures id in s.records.status
  {
    hide Serial, Honest, OnRecord, ActiveIsCurrent;
    TakenIsKnown(s, id);
  }

  // ---------------------------------------------------------------- shutdown

  predicate MayStart(at: WorkerAt) {
    at == Getting || at == PreCheck || at == MarkRunning || at == PersistRunning || at == Activate || at == Preparing
  }

  function StartsLeft(at: WorkerAt): nat {
    if MayStart(at) then 1 else 0
  }

  /** Once the shutdown flag is set, at most one more run is started, and none if the worker was not
      already past its check of the flag. */
  lemma {:induction false} AtMostOneMoreStart(s: State, schedule: seq<Event>)
    requires s.shutdown
    ensures |After(s, schedule).trace.started| <= |s.trace.started| + StartsLeft(s.worker.at)
    decreases |schedule|
  {
    if schedule != [] {
      var t := Next(s, schedule[0]);
      assert t.shutdown
          && |t.trace.started| + StartsLeft(t.worker.at) <= |s.trace.started| + StartsLeft(s.worker.at) by {
        hide WorkerWrites, CancelWrites, CancelMoves;
      }
      hide Next;
      AtMostOneMoreStart(t, schedule[1..]);
    }
  }

  /** After every shutdown call has put its sentinel, `get` cannot block the worker for good. */
  ghost predicate CanLeave(s: State) {
    s.shutdown ==> s.stopping > 0 || s.worker.at == Exited || Sentinel in s.line.queue
  }

  function StepsLeft(at: WorkerAt): nat {
    match at
    case Getting => 14
    case PreCheck => 13
    case MarkCancelled => 4
    case PersistCancelled => 3
    case MarkRunning => 12
    case PersistRunning => 11
    case Activate => 10
    case Preparing => 9
    case Executing => 8
    case PostCheck(_) => 7
    case Marking(_) => 6
    case PersistFinal => 5
    case Deactivate => 4
    case Clear => 2
    case LoopHead => 1
    case Exited => 0
  }

  function WorkerSteps(schedule: seq<Event>): nat {
    if schedule == [] then 0 else (if schedule[0].Work? then 1 else 0) + WorkerSteps(schedule[1..])
  }

  lemma LeavingStep(s: State, e: Event)
    requires s.shutdown && (s.worker.at == Exited || Sentinel in s.line.queue)
    ensures var t := Next(s, e);
      && t.shutdown && (t.worker.at == Exited || Sentinel in t.line.queue)
      && StepsLeft(t.worker.at) <= StepsLeft(s.worker.at)
      && (e.Work? && s.worker.at != Exited ==> StepsLeft(t.worker.at) < StepsLeft(s.worker.at))
  {
    hide WorkerWrites, CancelWrites, CancelMoves;
  }

  /** A shut-down worker leaves its loop within fourteen of its own steps, whatever else happens. */
  lemma {:induction false} ShutdownEnds(s: State, schedule: seq<Event>)
    requires s.shutdown && (s.worker.at == Exited || Sentinel in s.line.queue)
    requires WorkerSteps(schedule) >= StepsLeft(s.worker.at)
    ensures After(s, schedule).worker.at == Exited
    decreases |schedule|
  {
    hide Next;
    if schedule != [] {
      LeavingStep(s, schedule[0]);
      ShutdownEnds(Next(s, schedule[0]), schedule[1..]);
    }
  }

  lemma {:induction false} CanAlwaysLeave(s: State, schedule: seq<Event>)
    requires CanLeave(s)
    ensures CanLeave(After(s, schedule))
    decreases |schedule|
  {
    if schedule != [] {
      assert CanLeave(Next(s, schedule[0])) by {
        hide WorkerWrites, CancelWrites, CancelMoves;
      }
      hide Next, CanLeave;
      CanAlwaysLeave(Next(s, schedule[0]), schedule[1..]);
    }
  }

  /** Once the flag is set and every sentinel put, the worker leaves its loop within fourteen of its
      own steps, and starts at most one more run on the way. */
  lemma ShutdownDrains(before: seq<Event>, after: seq<Event>)
    requires After(Initial(), before).shutdown && After(Initial(), before).stopping == 0
    ensures var s := After(Initial(), before); var t := After(s, after);
      && (WorkerSteps(after) >= 14 ==> t.worker.at == Exited)
      && |t.trace.started| <= |s.trace.started| + 1
  {
    hide After, WorkerSteps;
    CanAlwaysLeave(Initial(), before);
    var s := After(Initial(), before);
    AtMostOneMoreStart(s, after);
    if WorkerSteps(after) >= 14 {
      ShutdownEnds(s, after);
    }
  }

  // ---------------------------------------------------------------- a completed run shown as cancelled

  const SOLO := "r"

  lemma {:induction false} AfterSplit(s: State, a: seq<Event>, b: seq<Event>)
    ensures After(s, a + b) == After(After(s, a), b)
    decreases |a|
  {
    if a == [] {
      assert a + b == b;
    } else {
      assert (a + b)[1..] == a[1..] + b;
      AfterSplit(Next(s, a[0]), a[1..], b);
    }
  }

  /** The worker takes the only run and gets past the post-run check with it; a call of cancel reads
      "running" and stops there; the worker finishes. */
  const LAUNCH: seq<Event> :=
    [Create(SOLO), Put(SOLO), Work(RaisedOther), Work(RaisedOther), Work(RaisedOther), Work(RaisedOther)]
  const EXECUTE: seq<Event> :=
    [Work(RaisedOther), Work(RaisedOther), Work(RaisedCancelled), Work(Returned(Completed)), Work(RaisedOther)]
  const CANCEL_LATE: seq<Event> := [CallCancel(SOLO), Cancel(0), Cancel(0), Cancel(0), Cancel(0)]
  const FINISH: seq<Event> := [Work(RaisedOther), Work(RaisedOther), Work(RaisedOther), Work(RaisedOther)]

  function SoloState(st: Status, disk: Status, requests: set<string>, at: WorkerAt, active: Option<string>,
                     trace: seq<string>, cancels: seq<Canceller>): State
  {
    State(Records(map[SOLO := st], map[SOLO := disk], requests), Line([], {}, [SOLO], [SOLO]),
          Worker(at, SOLO, active), Trace(trace, trace), cancels, false, 0)
  }

  lemma {:induction false} AfterTwo(s: State, t: State, u: State, a: Event, b: Event, rest: seq<Event>)
    requires Next(s, a) == t && Next(t, b) == u
    ensures After(s, [a, b] + rest) == After(u, rest)
  {
    hide Next;
    assert ([a, b] + rest)[1..] == [b] + rest && ([b] + rest)[1..] == rest;
    assert After(t, [b] + rest) == After(u, rest);
  }

  function Enqueued(): State {
    Initial().(records := Records(map[SOLO := Queued], map[SOLO := Queued], {}),
               line := Line([Run(SOLO)], {}, [SOLO], []))
  }

  function TakenSolo(): State {
    Enqueued().(line := Line([], {}, [SOLO], [SOLO]), worker := Worker(PreCheck, SOLO, None))
  }

  const TURN := Work(RaisedOther)

  lemma Enqueues()
    ensures Next(Next(Initial(), Create(SOLO)), Put(SOLO)) == Enqueued()
  {
    hide Worked, CancelWrites, CancelMoves;
    var created := Next(Initial(), Create(SOLO));
    assert created.line.enqueuing == {SOLO};
    assert {SOLO} - {SOLO} == {} && [] + [Run(SOLO)] == [Run(SOLO)];
  }

  lemma TakesSolo()
    ensures Next(Next(Enqueued(), TURN), TURN) == TakenSolo()
  {
    assert Next(Enqueued(), TURN) == Enqueued().(worker := Worker(Getting, "", None));
  }

  lemma MarksRunning()
    ensures Next(Next(TakenSolo(), TURN), TURN) == SoloState(Running, Queued, {}, PersistRunning, None, [], [])
  {
    assert Next(TakenSolo(), TURN) == TakenSolo().(worker := Worker(MarkRunning, SOLO, None));
  }

  lemma Launching()
    ensures After(Initial(), LAUNCH) == SoloState(Running, Queued, {}, PersistRunning, None, [], [])
  {
    hide Next, After, Initial, Enqueued, TakenSolo;
    Enqueues();
    TakesSolo();
    MarksRunning();
    var last := SoloState(Running, Queued, {}, PersistRunning, None, [], []);
    AfterTwo(Initial(), Next(Initial(), Create(SOLO)), Enqueued(), Create(SOLO), Put(SOLO), [TURN, TURN, TURN, TURN]);
    AfterTwo(Enqueued(), Next(Enqueued(), TURN), TakenSolo(), TURN, TURN, [TURN, TURN]);
    AfterTwo(TakenSolo(), Next(TakenSolo(), TURN), last, TURN, TURN, []);
    AfterNothing(last);
    assert LAUNCH == [Create(SOLO), Put(SOLO)] + [TURN, TURN, TURN, TURN];
    assert [TURN, TURN, TURN, TURN] == [TURN, TURN] + [TURN, TURN] && [TURN, TURN] == [TURN, TURN] + [];
  }

  lemma AfterNothing(s: State)
    ensures After(s, []) == s
  {
  }

  lemma Executes()
    ensures After(SoloState(Running, Queued, {}, PersistRunning, None, [], []), EXECUTE)
         == SoloState(Running, Running, {}, Marking(Completed), Some(SOLO), [SOLO], [])
  {
  }

  function Asking(at: CancelAt, requests: set<string>): State {
    SoloState(Running, Running, requests, Marking(Completed), Some(SOLO), [SOLO], [Canceller(SOLO, at)])
  }

  lemma CallsCancel()
    ensures var s := SoloState(Running, Running, {}, Marking(Completed), Some(SOLO), [SOLO], []);
      Next(Next(s, CallCancel(SOLO)), Cancel(0)) == Asking(Record, {})
  {
    hide Worked;
  }

  lemma RecordsRequest()
    ensures Next(Next(Asking(Record, {}), Cancel(0)), Cancel(0)) == Asking(IfRunning, {SOLO})
  {
    hide Worked;
    assert {} + {SOLO} == {SOLO};
  }

  lemma ReadsRunning()
    ensures Next(Asking(IfRunning, {SOLO}), Cancel(0)) == Asking(IfInactive, {SOLO})
  {
    hide Worked;
  }

  lemma CancelsLate()
    ensures After(SoloState(Running, Running, {}, Marking(Completed), Some(SOLO), [SOLO], []), CANCEL_LATE)
         == SoloState(Running, Running, {SOLO}, Marking(Completed), Some(SOLO), [SOLO], [Canceller(SOLO, IfInactive)])
  {
    hide Next, After;
    var s := SoloState(Running, Running, {}, Marking(Completed), Some(SOLO), [SOLO], []);
    var step := Cancel(0);
    CallsCancel();
    RecordsRequest();
    ReadsRunning();
    AfterTwo(s, Next(s, CallCancel(SOLO)), Asking(Record, {}), CallCancel(SOLO), step, [step, step, step]);
    AfterTwo(Asking(Record, {}), Next(Asking(Record, {}), step), Asking(IfRunning, {SOLO}), step, step, [step]);
    AfterOne(Asking(IfRunning, {SOLO}), step);
    assert CANCEL_LATE == [CallCancel(SOLO), step] + [step, step, step] && [step, step, step] == [step, step] + [step];
  }

  lemma {:induction false} AfterOne(s: State, e: Event)
    ensures After(s, [e]) == Next(s, e)
  {
    hide Next;
    assert [e][1..] == [];
    assert After(Next(s, e), []) == Next(s, e);
  }

  lemma Finishes(cancels: seq<Canceller>)
    ensures After(SoloState(Running, Running, {SOLO}, Marking(Completed), Some(SOLO), [SOLO], cancels), FINISH)
         == SoloState(Completed, Completed, {}, LoopHead, None, [SOLO], cancels)
  {
  }

  lemma CompletedRunCanBeRelabelled()
    ensures var s := After(Initial(), LAUNCH + EXECUTE + CANCEL_LATE + FINISH);
      Finished(s, SOLO) && SOLO in s.records.status && s.records.status[SOLO] == Completed && CanChange(s, SOLO)
  {
    hide After;
    var late := [Canceller(SOLO, IfInactive)];
    AfterSplit(Initial(), LAUNCH, EXECUTE);
    AfterSplit(Initial(), LAUNCH + EXECUTE, CANCEL_LATE);
    AfterSplit(Initial(), LAUNCH + EXECUTE + CANCEL_LATE, FINISH);
    Launching();
    Executes();
    CancelsLate();
    Finishes(late);
    var s := SoloState(Completed, Completed, {}, LoopHead, None, [SOLO], late);
    assert s.cancels[0].id == SOLO && WillMark(s.cancels[0]);
    FinishedStatusChangesIff(LAUNCH + EXECUTE + CANCEL_LATE + FINISH, SOLO);
  }
}
