/** What the run queue guarantees under every interleaving. */
module RunQueueLaws {
  import opened JsonValues
  import opened RunQueue

  // ---------------------------------------------------------------- invariants

  function Runs(queue: seq<Item>): seq<string> {
    if queue == [] then []
    else (match queue[0] case Run(id) => [id] case Sentinel => []) + Runs(queue[1..])
  }

  predicate Busy(w: Worker) {
    w.at != LoopHead && w.at != Getting && w.at != Exited
  }

  /** The worker took this run and is through with it. */
  predicate Finished(s: State, id: string) {
    id in s.line.taken && !(Busy(s.worker) && s.worker.current == id)
  }

  ghost predicate Distinct(ids: seq<string>) {
    forall i, j :: 0 <= i < j < |ids| ==> ids[i] != ids[j]
  }

  /** Nothing that was put is lost, repeated or overtaken. */
  ghost predicate Fifo(l: Line) {
    && l.put == l.taken + Runs(l.queue)
    && Distinct(l.put)
    && forall id :: id in l.put ==> id !in l.enqueuing
  }

  /** Every run in the line has a record, and the worker is busy with the run it took last. */
  ghost predicate Known(s: State) {
    && s.records.disk.Keys == s.records.status.Keys
    && (forall id :: id in s.line.put || id in s.line.enqueuing ==> id in s.records.status)
    && (Busy(s.worker) ==> s.line.taken != [] && s.worker.current == s.line.taken[|s.line.taken| - 1])
    && (forall k :: 0 <= k < |s.cancels| && s.cancels[k].at != Refused ==> s.cancels[k].id in s.records.status)
  }

  predicate Launched(at: WorkerAt) {
    at == Executing || at.PostCheck? || at.Marking? || at == PersistFinal || at == Deactivate || at == Clear
  }

  /** Runs are executed one at a time, and none twice. */
  ghost predicate Serial(s: State) {
    && s.trace.started == (if s.worker.at == Executing then s.trace.ended + [s.worker.current] else s.trace.ended)
    && (forall id :: id in s.trace.started ==> id in s.line.taken)
    && Distinct(s.trace.started)
    && (Busy(s.worker) && s.worker.current in s.trace.started ==> Launched(s.worker.at))
  }

  /** What a run's record can say while the worker is at a given place with it. */
  predicate Plausible(at: WorkerAt, st: Status) {
    match at
    case PreCheck => st == Queued || st == Cancelled
    case MarkCancelled => st == Queued || st == Cancelled
    case MarkRunning => st == Queued || st == Cancelled
    case PersistCancelled => st == Cancelled
    case PersistRunning => st == Running || st == Cancelled
    case Activate => st == Running || st == Cancelled
    case Preparing => st == Running || st == Cancelled
    case Executing => st == Running || st == Cancelled
    case PostCheck(_) => st == Running || st == Cancelled
    case Marking(_) => st == Running || st == Cancelled
    case PersistFinal => Final(st)
    case Deactivate => Final(st)
    case Clear => Final(st)
    case _ => true
  }

  ghost predicate HonestAbout(s: State, id: string)
    requires id in s.records.status && id in s.records.disk
  {
    var st := s.records.status[id];
    && (id !in s.line.taken ==> st == Queued || st == Cancelled)
    && (Finished(s, id) ==> Final(st) && Final(s.records.disk[id]))
    && (Busy(s.worker) && s.worker.current == id ==>
          && Plausible(s.worker.at, st)
          && (s.worker.at == Deactivate || s.worker.at == Clear ==> Final(s.records.disk[id])))
  }

  ghost predicate Honest(s: State) {
    forall id :: id in s.records.status && id in s.records.disk ==> HonestAbout(s, id)
  }

  /** A call of cancel that got past the status check has its request on record until the worker is
      through with the run. */
  ghost predicate OnRecord(s: State) {
    forall k :: 0 <= k < |s.cancels| && s.cancels[k].at !in {ReadStatus, Record, Refused} ==>
      s.cancels[k].id in s.records.requests || Finished(s, s.cancels[k].id)
  }

  predicate Occupied(at: WorkerAt) {
    at == Preparing || at == Executing || at.PostCheck? || at.Marking? || at == PersistFinal || at == Deactivate
  }

  ghost predicate ActiveIsCurrent(s: State) {
    s.worker.active == if Occupied(s.worker.at) then Some(s.worker.current) else None
  }

  ghost predicate Invariant(s: State) {
    Fifo(s.line) && Known(s) && Serial(s) && Honest(s) && OnRecord(s) && ActiveIsCurrent(s)
  }

  // ---------------------------------------------------------------- the line

  lemma {:induction false} RunsAppend(queue: seq<Item>, item: Item)
    ensures Runs(queue + [item]) == Runs(queue) + (match item case Run(id) => [id] case Sentinel => [])
  {
    if queue == [] {
      assert queue + [item] == [item];
    } else {
      RunsAppend(queue[1..], item);
      assert (queue + [item])[1..] == queue[1..] + [item];
    }
  }

  /** Taking a run off the queue: it was put, and it was never taken before. */
  lemma NextRun(l: Line)
    requires Fifo(l) && l.queue != [] && l.queue[0].Run?
    ensures l.put == (l.taken + [l.queue[0].id]) + Runs(l.queue[1..])
    ensures l.queue[0].id in l.put && l.queue[0].id !in l.taken
  {
    var id, rest := l.queue[0].id, Runs(l.queue[1..]);
    assert l.taken + ([id] + rest) == (l.taken + [id]) + rest;
    assert l.put[|l.taken|] == id;
    assert forall i :: 0 <= i < |l.taken| ==> l.put[i] == l.taken[i];
  }

  lemma FifoTaken(l: Line)
    requires Fifo(l)
    ensures Fifo(Taken(l))
  {
    if l.queue != [] && l.queue[0].Run? {
      NextRun(l);
    } else if l.queue != [] {
      assert Runs(l.queue) == Runs(l.queue[1..]);
    }
  }

  lemma FifoPut(l: Line, id: string)
    requires Fifo(l) && id in l.enqueuing
    ensures Fifo(l.(queue := l.queue + [Run(id)], enqueuing := l.enqueuing - {id}, put := l.put + [id]))
  {
    RunsAppend(l.queue, Run(id));
    assert l.taken + (Runs(l.queue) + [id]) == l.put + [id];
    assert id !in l.put;
  }

  lemma FifoSentinel(l: Line)
    requires Fifo(l)
    ensures Fifo(l.(queue := l.queue + [Sentinel]))
  {
    RunsAppend(l.queue, Sentinel);
    assert Runs(l.queue) + [] == Runs(l.queue);
  }

  lemma FifoKept(s: State, e: Event)
    requires Fifo(s.line) && Known(s)
    ensures Fifo(Next(s, e).line)
  {
    hide Fifo, WorkerWrites, WorkerMoves, CancelWrites, CancelMoves;
    match e {
      case Create(id) =>
        if id !in s.records.status {
          FifoCreate(s.line, id);
        }
      case Put(id) =>
        if id in s.line.enqueuing {
          FifoPut(s.line, id);
        }
      case PutSentinel => FifoSentinel(s.line);
      case Work(outcome) => FifoTaken(s.line);
      case _ =>
    }
  }

  lemma FifoCreate(l: Line, id: string)
    requires Fifo(l) && id !in l.put
    ensures Fifo(l.(enqueuing := l.enqueuing + {id}))
  {
  }

  // ---------------------------------------------------------------- the worker

  lemma CurrentIsKnown(s: State)
    requires Fifo(s.line) && Known(s) && Busy(s.worker)
    ensures s.worker.current in s.line.taken && s.worker.current in s.records.status
  {
    assert s.line.put[|s.line.taken| - 1] == s.worker.current;
  }

  lemma TakenIsKnown(s: State, id: string)
    requires Fifo(s.line) && Known(s) && id in s.line.taken
    ensures id in s.records.status
  {
    assert id in s.line.put;
  }

  /** How one step of the worker moves it. */
  lemma WorkerSteps(w: Worker, queue: seq<Item>, shutdown: bool, wanted: bool, outcome: Outcome)
    ensures var v := WorkerMoves(w, queue, shutdown, wanted, outcome);
      && (Busy(w) ==> v.current == w.current && (Busy(v) <==> w.at != Clear))
      && (!Busy(w) && Busy(v) <==> w.at == Getting && queue != [] && queue[0].Run?)
      && (!Busy(w) && Busy(v) ==> v.at == PreCheck && queue[0] == Run(v.current))
      && (!Busy(v) ==> v.current == w.current)
  {
  }

  lemma WorkerKeepsKeys(r: Records, at: WorkerAt, current: string)
    requires r.disk.Keys == r.status.Keys && (Busy(Worker(at, current, None)) ==> current in r.status)
    ensures var t := WorkerWrites(r, at, current);
      t.status.Keys == r.status.Keys && t.disk.Keys == t.status.Keys
  {
  }

  /** Only `get` changes the line, and then it takes the first run. */
  lemma TakenStep(l: Line)
    requires Fifo(l)
    ensures Taken(l).put == l.put && Taken(l).enqueuing == l.enqueuing
    ensures l.queue != [] && l.queue[0].Run? ==>
      Taken(l).taken == l.taken + [l.queue[0].id] && l.queue[0].id !in l.taken && l.queue[0].id in l.put
    ensures l.queue == [] || l.queue[0] == Sentinel ==> Taken(l).taken == l.taken
  {
    if l.queue != [] && l.queue[0].Run? {
      NextRun(l);
    }
  }

  lemma KnownWork(s: State, outcome: Outcome)
    requires Fifo(s.line) && Known(s)
    ensures Known(Worked(s, outcome))
  {
    hide Fifo, WorkerMoves, WorkerWrites, Taken;
    var w := s.worker;
    WorkerSteps(w, s.line.queue, s.shutdown, w.current in s.records.requests, outcome);
    TakenStep(s.line);
    if Busy(w) {
      CurrentIsKnown(s);
    }
    WorkerKeepsKeys(s.records, w.at, w.current);
  }

  lemma KnownKept(s: State, e: Event)
    requires Fifo(s.line) && Known(s)
    ensures Known(Next(s, e))
  {
    hide Fifo;
    match e {
      case Work(outcome) => KnownWork(s, outcome);
      case _ =>
    }
  }

  lemma SerialWork(s: State, outcome: Outcome)
    requires Fifo(s.line) && Known(s) && Serial(s)
    ensures Serial(Worked(s, outcome))
  {
    hide Fifo, WorkerWrites, Taken;
    if Busy(s.worker) {
      CurrentIsKnown(s);
    }
    TakenStep(s.line);
  }

  lemma SerialKept(s: State, e: Event)
    requires Fifo(s.line) && Known(s) && Serial(s)
    ensures Serial(Next(s, e))
  {
    hide Fifo, Distinct, CancelWrites, CancelMoves, Worked;
    if e.Work? {
      SerialWork(s, e.outcome);
    }
  }

  lemma HonestHere(s: State, id: string)
    requires Honest(s) && Known(s) && id in s.records.status
    ensures HonestAbout(s, id)
  {
  }

  /** The step the worker takes on its own run. */
  lemma HonestCurrent(s: State, outcome: Outcome)
    requires Busy(s.worker) && s.worker.current in s.line.taken
    requires s.worker.current in s.records.status && s.worker.current in s.records.disk
    requires HonestAbout(s, s.worker.current)
    ensures s.worker.current in Worked(s, outcome).records.status
    ensures s.worker.current in Worked(s, outcome).records.disk
    ensures HonestAbout(Worked(s, outcome), s.worker.current)
  {
  }

  /** What the worker's step does not touch. */
  lemma WorkerWritesElsewhere(r: Records, at: WorkerAt, current: string, id: string)
    ensures var t := WorkerWrites(r, at, current);
      && (id != current || !Busy(Worker(at, current, None)) ==>
            && (id in t.status <==> id in r.status) && (id in r.status ==> t.status[id] == r.status[id])
            && (id in t.disk <==> id in r.disk) && (id in r.disk ==> t.disk[id] == r.disk[id]))
      && (id !in r.requests ==> id !in t.requests)
      && (id in r.requests && (id != current || at != Clear) ==> id in t.requests)
  {
  }

  /** A step of the worker leaves every run alone but its own, and the one it takes. */
  lemma OtherUntouched(s: State, outcome: Outcome, id: string)
    requires Fifo(s.line) && (Busy(s.worker) ==> id != s.worker.current)
    requires id in s.records.status && id in s.records.disk
    ensures var t := Worked(s, outcome);
      && id in t.records.status && t.records.status[id] == s.records.status[id]
      && id in t.records.disk && t.records.disk[id] == s.records.disk[id]
      && (id in t.records.requests <==> id in s.records.requests)
      && (id in t.line.taken <==> id in s.line.taken || (Busy(t.worker) && t.worker.current == id))
      && (Busy(t.worker) && t.worker.current == id ==> t.worker.at == PreCheck && id !in s.line.taken)
      && (id in t.trace.started <==> id in s.trace.started)
  {
    hide Fifo, WorkerMoves, WorkerWrites, Taken;
    var w := s.worker;
    WorkerSteps(w, s.line.queue, s.shutdown, w.current in s.records.requests, outcome);
    WorkerWritesElsewhere(s.records, w.at, w.current, id);
    TakenStep(s.line);
  }

  lemma HonestOther(s: State, outcome: Outcome, id: string)
    requires Fifo(s.line) && (Busy(s.worker) ==> id != s.worker.current)
    requires id in s.records.status && id in s.records.disk && HonestAbout(s, id)
    ensures var t := Worked(s, outcome);
      id in t.records.status && id in t.records.disk && HonestAbout(t, id)
  {
    hide Fifo, Worked;
    OtherUntouched(s, outcome, id);
  }

  lemma HonestWork(s: State, outcome: Outcome)
    requires Fifo(s.line) && Known(s) && Honest(s)
    ensures Honest(Worked(s, outcome))
  {
    hide Fifo, HonestAbout, Worked, WorkerWrites, WorkerMoves;
    KnownWork(s, outcome);
    var t := Worked(s, outcome);
    forall id | id in t.records.status && id in t.records.disk ensures HonestAbout(t, id) {
      SameRecords(s, outcome, id);
      if Busy(s.worker) {
        CurrentIsKnown(s);
      }
      HonestHere(s, id);
      if Busy(s.worker) && id == s.worker.current {
        HonestCurrent(s, outcome);
      } else {
        HonestOther(s, outcome, id);
      }
    }
  }

  lemma SameRecords(s: State, outcome: Outcome, id: string)
    requires Fifo(s.line) && Known(s) && id in Worked(s, outcome).records.status
    ensures id in s.records.status
  {
    hide Fifo, WorkerMoves;
    if Busy(s.worker) {
      CurrentIsKnown(s);
    }
  }

  lemma HonestCancel(s: State, k: nat, id: string)
    requires k < |s.cancels| && s.cancels[k].id in s.records.status && s.records.disk.Keys == s.records.status.Keys
    requires id in s.records.status && HonestAbout(s, id)
    ensures var t := Next(s, Cancel(k));
      && t.records.status.Keys == s.records.status.Keys == t.records.disk.Keys
      && HonestAbout(t, id)
  {
    hide CancelMoves;
    var c := s.cancels[k];
    assert id in CancelWrites(s.records, c).status && id in CancelWrites(s.records, c).disk;
    assert CancelWrites(s.records, c).status[id] in {s.records.status[id], Cancelled};
    assert CancelWrites(s.records, c).disk[id] in {s.records.disk[id], s.records.status[id]};
  }

  lemma HonestKept(s: State, e: Event)
    requires Fifo(s.line) && Known(s) && Honest(s)
    ensures Honest(Next(s, e))
  {
    match e {
      case Work(outcome) => HonestWork(s, outcome);
      case Cancel(k) =>
        hide HonestAbout, Fifo, CancelMoves, CancelWrites;
        if k < |s.cancels| && s.cancels[k].at != Refused {
          forall id | id in s.records.status ensures HonestAbout(Next(s, e), id) {
            HonestCancel(s, k, id);
          }
          SomeRecord(s, k);
        } else if k < |s.cancels| {
          RefusedDoesNothing(s, k);
        }
      case Create(id) => assert id in s.line.taken ==> id in s.line.put;
      case _ =>
    }
  }

  lemma RefusedDoesNothing(s: State, k: nat)
    requires k < |s.cancels| && s.cancels[k].at in {Refused, Done}
    ensures Next(s, Cancel(k)) == s
  {
  }

  lemma SomeRecord(s: State, k: nat)
    requires k < |s.cancels| && s.cancels[k].id in s.records.status && s.records.disk.Keys == s.records.status.Keys
    ensures Next(s, Cancel(k)).records.status.Keys == s.records.status.Keys
  {
    hide CancelMoves;
  }

  lemma OnRecordWork(s: State, outcome: Outcome)
    requires Fifo(s.line) && Known(s) && OnRecord(s)
    ensures OnRecord(Worked(s, outcome))
  {
    hide Fifo, Known, WorkerMoves;
    var w := s.worker;
    WorkerSteps(w, s.line.queue, s.shutdown, w.current in s.records.requests, outcome);
    if Busy(w) {
      CurrentIsKnown(s);
    }
    if w.at == Getting && s.line.queue != [] && s.line.queue[0].Run? {
      NextRun(s.line);
    }
  }

  lemma OnRecordKept(s: State, e: Event)
    requires Fifo(s.line) && Known(s) && OnRecord(s)
    ensures OnRecord(Next(s, e))
  {
    hide Fifo, Known;
    match e {
      case Work(outcome) => OnRecordWork(s, outcome);
      case _ =>
    }
  }

  lemma ActiveKept(s: State, e: Event)
    requires ActiveIsCurrent(s)
    ensures ActiveIsCurrent(Next(s, e))
  {
    hide WorkerWrites, CancelWrites, CancelMoves;
  }

  lemma InvariantKept(s: State, e: Event)
    requires Invariant(s)
    ensures Invariant(Next(s, e))
  {
    hide Fifo, Known, Serial, Honest, OnRecord, ActiveIsCurrent, Next;
    FifoKept(s, e);
    KnownKept(s, e);
    SerialKept(s, e);
    HonestKept(s, e);
    OnRecordKept(s, e);
    ActiveKept(s, e);
  }

  lemma {:induction false} InvariantAlways(s: State, schedule: seq<Event>)
    requires Invariant(s)
    ensures Invariant(After(s, schedule))
    decreases |schedule|
  {
    hide Invariant, Next;
    if schedule != [] {
      InvariantKept(s, schedule[0]);
      InvariantAlways(Next(s, schedule[0]), schedule[1..]);
    }
  }
}
