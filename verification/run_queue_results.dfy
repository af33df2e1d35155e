/** What the runtime returned is what the run's record says in the end, over every schedule. */
module RunQueueResults {
  import opened JsonValues
  import opened RunQueue
  import opened RunQueueLaws
  import opened RunQueueCancel

  /** This event is the write by which a call of cancel marks the run cancelled. */
  predicate Marks(s: State, e: Event, id: string) {
    && e.Cancel? && e.caller < |s.cancels| && s.cancels[e.caller].id == id
    && (s.cancels[e.caller].at == MarkQueued || s.cancels[e.caller].at == MarkZombie)
  }

  /** No call of cancel marks the run along this schedule. */
  ghost predicate Unmarked(s: State, schedule: seq<Event>, id: string)
    decreases |schedule|
  {
    schedule != [] ==> !Marks(s, schedule[0], id) && Unmarked(Next(s, schedule[0]), schedule[1..], id)
  }

  /** No call of cancel was made for the run. */
  ghost predicate Uncalled(s: State, id: string) {
    && id !in s.records.requests
    && forall k :: 0 <= k < |s.cancels| ==> s.cancels[k].id != id
  }

  predicate Allowed(st: Status, verdict: Status, marked: bool) {
    st == verdict || (marked && st == Cancelled)
  }

  /** The verdict is on its way into the record: not yet decided by the post-run check, decided, written,
      persisted, or there for good. `marked` allows for a call of cancel that marks the run cancelled. */
  ghost predicate OnItsWay(s: State, id: string, verdict: Status, marked: bool, decided: bool) {
    && id in s.records.status && id in s.records.disk && id in s.line.taken
    && (Busy(s.worker) && s.worker.current == id ==>
          match s.worker.at
          case PostCheck(result) => !decided && result == verdict && (marked || Uncalled(s, id))
          case Marking(next) => Allowed(next, verdict, marked)
          case PersistFinal => Allowed(s.records.status[id], verdict, marked)
          case Deactivate =>
            Allowed(s.records.status[id], verdict, marked) && Allowed(s.records.disk[id], verdict, marked)
          case Clear =>
            Allowed(s.records.status[id], verdict, marked) && Allowed(s.records.disk[id], verdict, marked)
          case _ => false)
    && (Finished(s, id) ==>
          Allowed(s.records.status[id], verdict, marked) && Allowed(s.records.disk[id], verdict, marked))
  }

  lemma OnItsWayCurrent(s: State, outcome: Outcome, verdict: Status, marked: bool, decided: bool)
    requires Busy(s.worker) && OnItsWay(s, s.worker.current, verdict, marked, decided)
    ensures OnItsWay(Worked(s, outcome), s.worker.current, verdict, marked, decided)
  {
  }

  lemma OnItsWayWork(s: State, outcome: Outcome, id: string, verdict: Status, marked: bool, decided: bool)
    requires Fifo(s.line) && Known(s) && OnItsWay(s, id, verdict, marked, decided)
    ensures OnItsWay(Worked(s, outcome), id, verdict, marked, decided)
  {
    hide Fifo, Worked;
    if Busy(s.worker) && s.worker.current == id {
      OnItsWayCurrent(s, outcome, verdict, marked, decided);
    } else {
      OtherUntouched(s, outcome, id);
    }
  }

  lemma CallerKeepsId(s: State, k: nat)
    requires k < |s.cancels|
    ensures forall i :: 0 <= i < |s.cancels| ==> Next(s, Cancel(k)).cancels[i].id == s.cancels[i].id
  {
  }

  lemma UncalledKept(s: State, e: Event, id: string)
    requires Uncalled(s, id) && e != CallCancel(id)
    ensures Uncalled(Next(s, e), id) && !Marks(s, e, id)
  {
    hide WorkerMoves, CancelMoves, Taken;
    if e.Cancel? && e.caller < |s.cancels| {
      CallerKeepsId(s, e.caller);
    }
  }

  /** What one step of a cancel call does to a run's record. */
  lemma CancelRecords(s: State, k: nat, id: string)
    requires Known(s) && k < |s.cancels| && id in s.records.status && id in s.records.disk
    ensures var t := Next(s, Cancel(k));
      && t.worker == s.worker && t.line == s.line && id in t.records.status && id in t.records.disk
      && t.records.status[id] == (if Marks(s, Cancel(k), id) then Cancelled else s.records.status[id])
      && (t.records.disk[id] == s.records.disk[id] || t.records.disk[id] == s.records.status[id])
  {
    hide CancelMoves;
  }

  lemma OnItsWayCancel(s: State, k: nat, id: string, verdict: Status, marked: bool, decided: bool)
    requires Known(s) && OnItsWay(s, id, verdict, marked, decided) && k < |s.cancels|
    requires marked || !Marks(s, Cancel(k), id)
    ensures OnItsWay(Next(s, Cancel(k)), id, verdict, marked, decided)
  {
    hide CancelMoves, CancelWrites, Next, Known, Marks, Uncalled;
    CancelRecords(s, k, id);
    if Uncalled(s, id) {
      UncalledKept(s, Cancel(k), id);
    }
  }

  lemma OnItsWayOther(s: State, e: Event, id: string, verdict: Status, marked: bool, decided: bool)
    requires Known(s) && OnItsWay(s, id, verdict, marked, decided) && !e.Work? && !e.Cancel?
    requires marked || decided || e != CallCancel(id)
    ensures OnItsWay(Next(s, e), id, verdict, marked, decided)
  {
    hide Known, Uncalled;
    if Uncalled(s, id) && e != CallCancel(id) {
      UncalledKept(s, e, id);
    }
  }

  lemma OnItsWayKept(s: State, e: Event, id: string, verdict: Status, marked: bool, decided: bool)
    requires Invariant(s) && OnItsWay(s, id, verdict, marked, decided)
    requires marked || (!Marks(s, e, id) && (decided || e != CallCancel(id)))
    ensures OnItsWay(Next(s, e), id, verdict, marked, decided)
  {
    hide Fifo, Known, Serial, Honest, OnRecord, ActiveIsCurrent, Worked, OnItsWay, Marks;
    match e {
      case Work(outcome) => OnItsWayWork(s, outcome, id, verdict, marked, decided);
      case Cancel(k) =>
        if k < |s.cancels| {
          OnItsWayCancel(s, k, id, verdict, marked, decided);
        }
      case _ => OnItsWayOther(s, e, id, verdict, marked, decided);
    }
  }

  lemma {:induction false} OnItsWayAlways(s: State, schedule: seq<Event>, id: string, verdict: Status, marked: bool)
    requires Invariant(s) && OnItsWay(s, id, verdict, marked, true) && (marked || Unmarked(s, schedule, id))
    ensures OnItsWay(After(s, schedule), id, verdict, marked, true)
    decreases |schedule|
  {
    hide Invariant, Next, OnItsWay, Marks;
    if schedule != [] {
      OnItsWayKept(s, schedule[0], id, verdict, marked, true);
      InvariantKept(s, schedule[0]);
      OnItsWayAlways(Next(s, schedule[0]), schedule[1..], id, verdict, marked);
    }
  }

  lemma {:induction false} MarkedAlways(s: State, schedule: seq<Event>, id: string, verdict: Status)
    requires Invariant(s) && OnItsWay(s, id, verdict, true, false)
    ensures OnItsWay(After(s, schedule), id, verdict, true, false)
    decreases |schedule|
  {
    hide Invariant, Next, OnItsWay, Marks;
    if schedule != [] {
      OnItsWayKept(s, schedule[0], id, verdict, true, false);
      InvariantKept(s, schedule[0]);
      MarkedAlways(Next(s, schedule[0]), schedule[1..], id, verdict);
    }
  }

  lemma {:induction false} UncalledAlways(s: State, schedule: seq<Event>, id: string)
    requires Uncalled(s, id) && CallCancel(id) !in schedule
    ensures Uncalled(After(s, schedule), id)
    decreases |schedule|
  {
    hide Next, Uncalled, Marks;
    if schedule != [] {
      UncalledKept(s, schedule[0], id);
      UncalledAlways(Next(s, schedule[0]), schedule[1..], id);
    }
  }

  lemma {:induction false} UnmarkedAlways(s: State, schedule: seq<Event>, id: string, verdict: Status)
    requires Invariant(s) && Uncalled(s, id) && CallCancel(id) !in schedule && OnItsWay(s, id, verdict, false, false)
    ensures OnItsWay(After(s, schedule), id, verdict, false, false)
    decreases |schedule|
  {
    hide Invariant, Next, OnItsWay, Marks, Uncalled;
    if schedule != [] {
      UncalledKept(s, schedule[0], id);
      OnItsWayKept(s, schedule[0], id, verdict, false, false);
      InvariantKept(s, schedule[0]);
      UnmarkedAlways(Next(s, schedule[0]), schedule[1..], id, verdict);
    }
  }

  lemma OnArrival(s: State, id: string, verdict: Status, marked: bool, decided: bool)
    requires OnItsWay(s, id, verdict, marked, decided) && Finished(s, id)
    ensures id in s.records.status && Allowed(s.records.status[id], verdict, marked)
    ensures id in s.records.disk && Allowed(s.records.disk[id], verdict, marked)
  {
  }

  // ---------------------------------------------------------------- the laws

  /** What the record should say after a runtime call that ended like this. */
  function Expected(outcome: Outcome): Status {
    match outcome
    case Returned(status) => status
    case RaisedCancelled => Cancelled
    case RaisedOther => Error
  }

  lemma CallEnds(s: State, outcome: Outcome)
    requires Invariant(s) && s.worker.at == Executing
    ensures var id := s.worker.current;
      && OnItsWay(Next(s, Work(outcome)), id, Expected(outcome), true, false)
      && (Uncalled(s, id) ==> OnItsWay(Next(s, Work(outcome)), id, Expected(outcome), false, false))
  {
    hide Fifo, Serial, Honest, OnRecord, ActiveIsCurrent;
    CurrentIsKnown(s);
  }

  /** Once the worker is through with a run, its record says, in memory and on disk, how the runtime call
      ended, or cancelled; and exactly how it ended if no call of cancel was ever made for it. */
  lemma RuntimeResultIsRecorded(before: seq<Event>, outcome: Outcome, after: seq<Event>, id: string)
    requires var s := After(Initial(), before); s.worker.at == Executing && s.worker.current == id
    requires Finished(After(Next(After(Initial(), before), Work(outcome)), after), id)
    ensures var t := After(Next(After(Initial(), before), Work(outcome)), after); var result := Expected(outcome);
      && id in t.records.status && (t.records.status[id] == result || t.records.status[id] == Cancelled)
      && id in t.records.disk && (t.records.disk[id] == result || t.records.disk[id] == Cancelled)
      && (CallCancel(id) !in before && CallCancel(id) !in after ==>
            t.records.status[id] == t.records.disk[id] == result)
  {
    hide After, Next, Invariant, OnItsWay, Uncalled, Finished;
    EmptyQueueIsFine();
    NothingCalled(id);
    InvariantAlways(Initial(), before);
    var s := After(Initial(), before);
    var t := Next(s, Work(outcome));
    var end := After(t, after);
    CallEnds(s, outcome);
    InvariantKept(s, Work(outcome));
    MarkedAlways(t, after, id, Expected(outcome));
    OnArrival(end, id, Expected(outcome), true, false);
    if CallCancel(id) !in before && CallCancel(id) !in after {
      UncalledAlways(Initial(), before, id);
      UncalledKept(s, Work(outcome), id);
      UnmarkedAlways(t, after, id, Expected(outcome));
      OnArrival(end, id, Expected(outcome), false, false);
    }
  }

  lemma NothingCalled(id: string)
    ensures Uncalled(Initial(), id)
  {
  }

  /** The post-run check decides: cancelled if that is what the runtime returned or if a request is on record by
      then, else what was returned. The record says so in the end, in memory and on disk, unless a call of
      cancel marks the run cancelled after the check. */
  lemma CheckDecides(before: seq<Event>, outcome: Outcome, after: seq<Event>, id: string)
    requires var s := After(Initial(), before); s.worker.at.PostCheck? && s.worker.current == id
    requires Finished(After(Next(After(Initial(), before), Work(outcome)), after), id)
    ensures var s := After(Initial(), before); var t := After(Next(s, Work(outcome)), after);
      var verdict := if id in s.records.requests then Cancelled else s.worker.at.result;
      && id in t.records.status && (t.records.status[id] == verdict || t.records.status[id] == Cancelled)
      && id in t.records.disk && (t.records.disk[id] == verdict || t.records.disk[id] == Cancelled)
      && (Unmarked(Next(s, Work(outcome)), after, id) ==> t.records.status[id] == t.records.disk[id] == verdict)
  {
    hide After, Invariant, OnItsWay, Finished, Unmarked, Next;
    EmptyQueueIsFine();
    InvariantAlways(Initial(), before);
    var s := After(Initial(), before);
    var verdict := if id in s.records.requests then Cancelled else s.worker.at.result;
    CheckMarks(s, outcome);
    InvariantKept(s, Work(outcome));
    var t := Next(s, Work(outcome));
    OnItsWayAlways(t, after, id, verdict, true);
    OnArrival(After(t, after), id, verdict, true, true);
    if Unmarked(t, after, id) {
      OnItsWayAlways(t, after, id, verdict, false);
      OnArrival(After(t, after), id, verdict, false, true);
    }
  }

  lemma CheckMarks(s: State, outcome: Outcome)
    requires Invariant(s) && s.worker.at.PostCheck?
    ensures var id := s.worker.current; var t := Next(s, Work(outcome));
      var verdict := if id in s.records.requests then Cancelled else s.worker.at.result;
      OnItsWay(t, id, verdict, false, true) && OnItsWay(t, id, verdict, true, true)
  {
    hide Fifo, Serial, Honest, OnRecord, ActiveIsCurrent;
    CurrentIsKnown(s);
  }

  /** A run that is stopped before the runtime is called ends as error, or cancelled. */
  lemma FailedStartIsRecorded(before: seq<Event>, after: seq<Event>, id: string)
    requires var s := After(Initial(), before); s.worker.at == Preparing && s.worker.current == id
    requires Finished(After(Next(After(Initial(), before), Work(RaisedOther)), after), id)
    ensures var s := After(Initial(), before); var t := After(Next(s, Work(RaisedOther)), after);
      && id in t.records.status && Stopped(t.records.status[id])
      && id in t.records.disk && Stopped(t.records.disk[id])
      && (Unmarked(Next(s, Work(RaisedOther)), after, id) ==> t.records.status[id] == t.records.disk[id] == Error)
  {
    hide After, Invariant, OnItsWay, Finished, Unmarked, Next;
    EmptyQueueIsFine();
    InvariantAlways(Initial(), before);
    var s := After(Initial(), before);
    StartFails(s);
    InvariantKept(s, Work(RaisedOther));
    var t := Next(s, Work(RaisedOther));
    OnItsWayAlways(t, after, id, Error, true);
    OnArrival(After(t, after), id, Error, true, true);
    if Unmarked(t, after, id) {
      OnItsWayAlways(t, after, id, Error, false);
      OnArrival(After(t, after), id, Error, false, true);
    }
  }

  lemma StartFails(s: State)
    requires Invariant(s) && s.worker.at == Preparing
    ensures var t := Next(s, Work(RaisedOther));
      OnItsWay(t, s.worker.current, Error, false, true) && OnItsWay(t, s.worker.current, Error, true, true)
  {
    hide Fifo, Serial, Honest, OnRecord, ActiveIsCurrent;
    CurrentIsKnown(s);
  }
}
