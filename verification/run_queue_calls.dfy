/** What one call of cancel or shutdown does, whatever happens meanwhile. */
module RunQueueCalls {
  import opened JsonValues
  import opened RunQueue
  import opened RunQueueLaws
  import opened RunQueueCancel

  // ---------------------------------------------------------------- a call of cancel comes to its end

  /** How many of its own steps a call of cancel has left at most. */
  function StepsLeft(at: CancelAt): nat {
    match at
    case ReadStatus => 7
    case Record => 6
    case IfQueued => 5
    case MarkQueued => 2
    case IfRunning => 4
    case IfInactive => 3
    case MarkZombie => 2
    case Persist => 1
    case Done => 0
    case Refused => 0
  }

  predicate Over(at: CancelAt) {
    at == Done || at == Refused
  }

  /** How often a call takes a step in a schedule. */
  function StepsOf(schedule: seq<Event>, k: nat): nat {
    if schedule == [] then 0 else (if schedule[0] == Cancel(k) then 1 else 0) + StepsOf(schedule[1..], k)
  }

  lemma CallerStep(s: State, e: Event, k: nat)
    requires k < |s.cancels|
    ensures k < |Next(s, e).cancels| && Next(s, e).cancels[k].id == s.cancels[k].id
    ensures e != Cancel(k) ==> Next(s, e).cancels[k] == s.cancels[k]
    ensures e == Cancel(k) ==>
      || StepsLeft(Next(s, e).cancels[k].at) < StepsLeft(s.cancels[k].at)
      || (Over(s.cancels[k].at) && Next(s, e).cancels[k] == s.cancels[k])
  {
    hide CancelWrites, WorkerMoves, WorkerWrites, Taken;
  }

  /** Every call of cancel returns, or is refused, within seven steps of its own. */
  lemma {:induction false} CancelReturns(s: State, schedule: seq<Event>, k: nat)
    requires k < |s.cancels| && StepsOf(schedule, k) >= StepsLeft(s.cancels[k].at)
    ensures k < |After(s, schedule).cancels| && Over(After(s, schedule).cancels[k].at)
    ensures StepsLeft(s.cancels[k].at) <= 7
    decreases |schedule|
  {
    hide Next;
    if schedule != [] {
      CallerStep(s, schedule[0], k);
      CancelReturns(Next(s, schedule[0]), schedule[1..], k);
    }
  }

  // ---------------------------------------------------------------- refusals

  lemma {:induction false} VerdictStays(s: State, schedule: seq<Event>, k: nat)
    requires k < |s.cancels| && s.cancels[k].at != ReadStatus
    ensures k < |After(s, schedule).cancels|
    ensures After(s, schedule).cancels[k].at == Refused <==> s.cancels[k].at == Refused
    ensures After(s, schedule).cancels[k].at != ReadStatus
    decreases |schedule|
  {
    if schedule != [] {
      LookedOnce(s, schedule[0], k);
      hide Next;
      VerdictStays(Next(s, schedule[0]), schedule[1..], k);
    }
  }

  lemma LookedOnce(s: State, e: Event, k: nat)
    requires k < |s.cancels| && s.cancels[k].at != ReadStatus
    ensures k < |Next(s, e).cancels| && Next(s, e).cancels[k].at != ReadStatus
    ensures Next(s, e).cancels[k].at == Refused <==> s.cancels[k].at == Refused
  {
    hide CancelWrites, WorkerMoves, WorkerWrites, Taken;
  }

  /** A call of cancel is refused if and only if the run's status was final when it looked; then it records no
      request and writes nothing. */
  lemma RefusedIff(s: State, k: nat, after: seq<Event>)
    requires k < |s.cancels| && s.cancels[k].at == ReadStatus
    ensures var t := After(Next(s, Cancel(k)), after); var st := StatusOf(s.records, s.cancels[k].id);
      && k < |t.cancels|
      && (t.cancels[k].at == Refused <==> st != Queued && st != Running)
    ensures Next(s, Cancel(k)).records == s.records
  {
    var t := Next(s, Cancel(k));
    hide After;
    VerdictStays(t, after, k);
  }

  // ---------------------------------------------------------------- a waiting run

  predicate PastQueuedCheck(at: CancelAt) {
    at == IfRunning || at == IfInactive || at == MarkZombie || at == CancelAt.Persist || at == Done
  }

  /** While a run waits, every call of cancel past its first look has made it read cancelled. */
  ghost predicate WaitingReads(s: State) {
    forall k :: 0 <= k < |s.cancels| && PastQueuedCheck(s.cancels[k].at) && s.cancels[k].id !in s.line.taken ==>
      StatusOf(s.records, s.cancels[k].id) == Cancelled
  }

  /** What a step of a call does to the record it is about, while the run waits. */
  lemma WaitingStep(s: State, j: nat, id: string)
    requires Known(s) && Honest(s) && j < |s.cancels| && id !in s.line.taken
    requires s.cancels[j].id == id && s.cancels[j].at != Refused
    ensures var t := Next(s, Cancel(j));
      PastQueuedCheck(t.cancels[j].at) && !PastQueuedCheck(s.cancels[j].at) ==> StatusOf(t.records, id) == Cancelled
  {
    HonestHere(s, id);
  }

  lemma StaysCancelled(s: State, j: nat, id: string)
    requires Known(s) && j < |s.cancels| && id in s.records.status && StatusOf(s.records, id) == Cancelled
    ensures StatusOf(Next(s, Cancel(j)).records, id) == Cancelled
  {
    hide CancelMoves;
  }

  lemma OthersStay(s: State, j: nat)
    requires j < |s.cancels|
    ensures var t := Next(s, Cancel(j));
      && |t.cancels| == |s.cancels| && t.line == s.line && t.cancels[j].id == s.cancels[j].id
      && (forall k :: 0 <= k < |s.cancels| && k != j ==> t.cancels[k] == s.cancels[k])
      && (s.cancels[j].at == Refused ==> t.cancels[j].at == Refused)
  {
    hide CancelWrites;
  }

  lemma WaitingReadsCancel(s: State, j: nat)
    requires Invariant(s) && WaitingReads(s) && j < |s.cancels|
    ensures WaitingReads(Next(s, Cancel(j)))
  {
    var t := Next(s, Cancel(j));
    OthersStay(s, j);
    hide Fifo, Serial, Honest, OnRecord, ActiveIsCurrent, Next, StatusOf;
    forall k | 0 <= k < |t.cancels| && PastQueuedCheck(t.cancels[k].at) && t.cancels[k].id !in t.line.taken
      ensures StatusOf(t.records, t.cancels[k].id) == Cancelled
    {
      var id := t.cancels[k].id;
      if k == j && !PastQueuedCheck(s.cancels[k].at) {
        WaitingStep(s, j, id);
      } else {
        assert StatusOf(s.records, id) == Cancelled && s.cancels[k].at != Refused;
        StaysCancelled(s, j, id);
      }
    }
  }

  lemma WaitingReadsWork(s: State, outcome: Outcome)
    requires Invariant(s) && WaitingReads(s)
    ensures WaitingReads(Worked(s, outcome))
  {
    var t := Worked(s, outcome);
    SameCallers(s, outcome);
    hide Serial, Honest, OnRecord, ActiveIsCurrent, Worked;
    forall k | 0 <= k < |t.cancels| && PastQueuedCheck(t.cancels[k].at) && t.cancels[k].id !in t.line.taken
      ensures StatusOf(t.records, t.cancels[k].id) == Cancelled
    {
      var id := t.cancels[k].id;
      if Busy(s.worker) {
        CurrentIsKnown(s);
      }
      TakenGrows(s, outcome);
      OtherUntouched(s, outcome, id);
    }
  }

  lemma TakenGrows(s: State, outcome: Outcome)
    requires Fifo(s.line)
    ensures forall id :: id in s.line.taken ==> id in Worked(s, outcome).line.taken
  {
    hide WorkerMoves, WorkerWrites, Fifo, Taken;
    TakenStep(s.line);
  }

  lemma WaitingReadsKept(s: State, e: Event)
    requires Invariant(s) && WaitingReads(s)
    ensures WaitingReads(Next(s, e))
  {
    match e {
      case Work(outcome) => WaitingReadsWork(s, outcome);
      case Cancel(j) =>
        if j < |s.cancels| {
          WaitingReadsCancel(s, j);
        }
      case _ => WaitingReadsOther(s, e);
    }
  }

  lemma WaitingReadsOther(s: State, e: Event)
    requires Known(s) && WaitingReads(s) && !e.Work? && !e.Cancel?
    ensures WaitingReads(Next(s, e))
  {
    var t := Next(s, e);
    assert forall k :: 0 <= k < |s.cancels| ==> t.cancels[k] == s.cancels[k];
    assert t.line.taken == s.line.taken;
  }

  lemma {:induction false} WaitingReadsAlways(s: State, schedule: seq<Event>)
    requires Invariant(s) && WaitingReads(s)
    ensures WaitingReads(After(s, schedule))
    decreases |schedule|
  {
    hide Invariant, WaitingReads, Next;
    if schedule != [] {
      WaitingReadsKept(s, schedule[0]);
      InvariantKept(s, schedule[0]);
      WaitingReadsAlways(Next(s, schedule[0]), schedule[1..]);
    }
  }

  /** Once a call of cancel has returned without refusing while its run waits, the run reads cancelled. */
  lemma ReturnedCancelReadsCancelled(schedule: seq<Event>, k: nat)
    requires var s := After(Initial(), schedule);
      k < |s.cancels| && s.cancels[k].at == Done && s.cancels[k].id !in s.line.taken
    ensures var s := After(Initial(), schedule); StatusOf(s.records, s.cancels[k].id) == Cancelled
  {
    EmptyQueueIsFine();
    WaitingReadsAlways(Initial(), schedule);
  }

  // ---------------------------------------------------------------- a run being executed

  /** The run is being executed and reads running, and no call of cancel is about to write over that. */
  ghost predicate RunsUndisturbed(s: State, id: string) {
    && s.worker.at == Executing && s.worker.current == id && s.worker.active == Some(id)
    && id in s.records.status && s.records.status[id] == Running
    && forall k :: 0 <= k < |s.cancels| && s.cancels[k].id == id ==>
         s.cancels[k].at != MarkQueued && s.cancels[k].at != MarkZombie
  }

  lemma UndisturbedKept(s: State, e: Event, id: string)
    requires RunsUndisturbed(s, id) && !e.Work?
    ensures RunsUndisturbed(Next(s, e), id)
  {
    var t := Next(s, e);
    if e.Cancel? && e.caller < |s.cancels| {
      assert forall k :: 0 <= k < |s.cancels| && k != e.caller ==> t.cancels[k] == s.cancels[k];
    }
  }

  /** Cancelling a run that is being executed leaves its record alone: as long as the worker does not move, it
      reads running, whatever calls are made and however far they get. */
  lemma {:induction false} ExecutingRunIsLeftAlone(s: State, schedule: seq<Event>, id: string)
    requires RunsUndisturbed(s, id) && forall e :: e in schedule ==> !e.Work?
    ensures StatusOf(After(s, schedule).records, id) == Running && RunsUndisturbed(After(s, schedule), id)
    decreases |schedule|
  {
    if schedule != [] {
      UndisturbedKept(s, schedule[0], id);
      hide Next, RunsUndisturbed;
      ExecutingRunIsLeftAlone(Next(s, schedule[0]), schedule[1..], id);
    }
  }

  // ---------------------------------------------------------------- shutdown

  /** From a call of shutdown on, at most one more run is started, and none if the worker was at its loop head. */
  lemma ShutdownStopsStarts(s: State, after: seq<Event>)
    ensures var t := After(Next(s, SetShutdown), after);
      && |t.trace.started| <= |s.trace.started| + 1
      && (s.worker.at == LoopHead ==> |t.trace.started| <= |s.trace.started|)
  {
    hide After;
    AtMostOneMoreStart(Next(s, SetShutdown), after);
  }

  function Sentinels(queue: seq<Item>): nat {
    if queue == [] then 0 else Sentinels(queue[..|queue| - 1]) + (if queue[|queue| - 1] == Sentinel then 1 else 0)
  }

  /** Every call of shutdown puts one sentinel at the end of the line, and nothing else does. */
  lemma SentinelIsPut(s: State, e: Event)
    requires !e.Work?
    ensures var t := Next(s, e);
      && (e == SetShutdown ==> t.shutdown && t.stopping == s.stopping + 1 && t.line == s.line)
      && (e == PutSentinel && s.stopping > 0 ==>
            t.stopping == s.stopping - 1 && t.line.queue == s.line.queue + [Sentinel])
      && (e != SetShutdown ==> t.shutdown == s.shutdown)
      && Sentinels(t.line.queue) + t.stopping
         == Sentinels(s.line.queue) + s.stopping + (if e == SetShutdown then 1 else 0)
  {
    hide CancelWrites, CancelMoves;
    var q := s.line.queue;
    forall item: Item ensures Sentinels(q + [item]) == Sentinels(q) + (if item == Sentinel then 1 else 0) {
      assert (q + [item])[..|q|] == q;
    }
  }
}
