/** The serial run queue as interleaved steps: API threads that enqueue, cancel and shut down, and
    the one worker thread, each step a single read or write of shared state. */
module RunQueue {
  import opened JsonValues

  datatype Status = Queued | Running | Cancelled | Error | Completed | Partial | Failed | AwaitingDecision

  predicate Final(st: Status) {
    st != Queued && st != Running
  }

  type Ended = st: Status | Final(st) witness Error

  datatype Item = Run(id: string) | Sentinel

  /** How a call into the runtime ends. */
  datatype Outcome = Returned(status: Ended) | RaisedCancelled | RaisedOther

  /** Where the worker thread is; from PreCheck to Clear it is busy with one run. */
  datatype WorkerAt =
    | LoopHead
    | Getting
    | PreCheck
    | MarkCancelled
    | PersistCancelled
    | MarkRunning
    | PersistRunning
    | Activate
    | Preparing
    | Executing
    | PostCheck(result: Ended)
    | Marking(verdict: Ended)
    | PersistFinal
    | Deactivate
    | Clear
    | Exited

  /** Where a call of `cancel` is. */
  datatype CancelAt =
    | ReadStatus
    | Record
    | IfQueued
    | MarkQueued
    | IfRunning
    | IfInactive
    | MarkZombie
    | Persist
    | Done
    | Refused

  datatype Canceller = Canceller(id: string, at: CancelAt)

  /** The shared run records, their last persisted copies, and the cancellation registry. */
  datatype Records = Records(status: map<string, Status>, disk: map<string, Status>, requests: set<string>)

  /** The queue, with the runs created but not yet put, and everything ever put and taken. */
  datatype Line = Line(queue: seq<Item>, enqueuing: set<string>, put: seq<string>, taken: seq<string>)

  /** The worker thread, the run it is busy with, and `_active_run_id`. */
  datatype Worker = Worker(at: WorkerAt, current: string, active: Option<string>)

  /** The runs handed to the runtime, and those it is done with. */
  datatype Trace = Trace(started: seq<string>, ended: seq<string>)

  datatype State = State(
    records: Records,
    line: Line,
    worker: Worker,
    trace: Trace,
    cancels: seq<Canceller>,
    shutdown: bool,
    stopping: nat)                 // shutdown calls that have not put their sentinel yet

  datatype Event =
    | Create(id: string)
    | Put(id: string)
    | CallCancel(id: string)
    | Cancel(caller: nat)
    | SetShutdown
    | PutSentinel
    | Work(outcome: Outcome)

  function Initial(): State {
    State(Records(map[], map[], {}), Line([], {}, [], []), Worker(LoopHead, "", None), Trace([], []), [], false, 0)
  }

  function Marked(r: Records, id: string, st: Status): Records {
    r.(status := r.status[id := st])
  }

  function Persisted(r: Records, id: string): Records {
    if id in r.status then r.(disk := r.disk[id := r.status[id]]) else r
  }

  // ---------------------------------------------------------------- the worker thread

  /** What the worker's next step writes to the records. */
  function WorkerWrites(r: Records, at: WorkerAt, id: string): Records {
    match at
    case MarkCancelled => Marked(r, id, Cancelled)
    case PersistCancelled => Persisted(r, id)
    case MarkRunning => Marked(r, id, Running)
    case PersistRunning => Persisted(r, id)
    case Marking(verdict) => Marked(r, id, verdict)
    case PersistFinal => Persisted(r, id)
    case Clear => r.(requests := r.requests - {id})
    case _ => r
  }

  /** Where the worker goes next; `wanted` says whether its run's cancellation is on record. */
  function WorkerMoves(w: Worker, queue: seq<Item>, shutdown: bool, wanted: bool, outcome: Outcome): Worker {
    match w.at
    case LoopHead => w.(at := if shutdown then Exited else Getting)
    case Getting =>
      if queue == [] then w
      else (match queue[0]
            case Sentinel => w.(at := Exited)
            case Run(id) => w.(at := PreCheck, current := id))
    case PreCheck => w.(at := if wanted then MarkCancelled else MarkRunning)
    case MarkCancelled => w.(at := PersistCancelled)
    case PersistCancelled => w.(at := Clear)
    case MarkRunning => w.(at := PersistRunning)
    case PersistRunning => w.(at := Activate)
    case Activate => w.(at := Preparing, active := Some(w.current))
    case Preparing => w.(at := if outcome.RaisedOther? then Marking(Error) else Executing)
    case Executing =>
      (match outcome
       case Returned(result) => w.(at := PostCheck(result))
       case RaisedCancelled => w.(at := Marking(Cancelled))
       case RaisedOther => w.(at := Marking(Error)))
    case PostCheck(result) => w.(at := Marking(if result == Cancelled || wanted then Cancelled else result))
    case Marking(_) => w.(at := PersistFinal)
    case PersistFinal => w.(at := Deactivate)
    case Deactivate => w.(at := Clear, active := None)
    case Clear => w.(at := LoopHead)
    case Exited => w
  }

  function Taken(l: Line): Line {
    if l.queue == [] then l
    else
      l.(queue := l.queue[1..],
         taken := match l.queue[0] case Run(id) => l.taken + [id] case Sentinel => l.taken)
  }

  function Worked(s: State, outcome: Outcome): State {
    var w := s.worker;
    s.(records := WorkerWrites(s.records, w.at, w.current),
       line := if w.at == Getting then Taken(s.line) else s.line,
       worker := WorkerMoves(w, s.line.queue, s.shutdown, w.current in s.records.requests, outcome),
       trace := if w.at == Preparing && !outcome.RaisedOther? then s.trace.(started := s.trace.started + [w.current])
                else if w.at == Executing then s.trace.(ended := s.trace.ended + [w.current])
                else s.trace)
  }

  // ---------------------------------------------------------------- a call of cancel

  /** What the next step of a call of `cancel` writes. */
  function CancelWrites(r: Records, c: Canceller): Records {
    match c.at
    case Record => r.(requests := r.requests + {c.id})
    case MarkQueued => Marked(r, c.id, Cancelled)
    case MarkZombie => Marked(r, c.id, Cancelled)
    case Persist => Persisted(r, c.id)
    case _ => r
  }

  function CancelMoves(c: Canceller, st: Status, active: Option<string>): Canceller {
    match c.at
    case ReadStatus => c.(at := if Final(st) then Refused else Record)
    case Record => c.(at := IfQueued)
    case IfQueued => c.(at := if st == Queued then MarkQueued else IfRunning)
    case MarkQueued => c.(at := Persist)
    case IfRunning => c.(at := if st == Running then IfInactive else Done)
    case IfInactive => c.(at := if active != Some(c.id) then MarkZombie else Done)
    case MarkZombie => c.(at := Persist)
    case Persist => c.(at := Done)
    case Done => c
    case Refused => c
  }

  function StatusOf(r: Records, id: string): Status {
    if id in r.status then r.status[id] else Error
  }

  // ---------------------------------------------------------------- every thread

  /** An event that is not possible in a state leaves it unchanged. */
  function Next(s: State, e: Event): State {
    match e
    case Create(id) =>
      if id in s.records.status then s
      else s.(records := Persisted(Marked(s.records, id, Queued), id),
              line := s.line.(enqueuing := s.line.enqueuing + {id}))
    case Put(id) =>
      if id !in s.line.enqueuing then s
      else s.(line := s.line.(queue := s.line.queue + [Run(id)], enqueuing := s.line.enqueuing - {id},
                              put := s.line.put + [id]))
    case CallCancel(id) =>
      s.(cancels := s.cancels + [Canceller(id, if id in s.records.status then ReadStatus else Refused)])
    case Cancel(k) =>
      if k >= |s.cancels| then s
      else
        var c := s.cancels[k];
        s.(records := CancelWrites(s.records, c),
           cancels := s.cancels[k := CancelMoves(c, StatusOf(s.records, c.id), s.worker.active)])
    case SetShutdown => s.(shutdown := true, stopping := s.stopping + 1)
    case PutSentinel =>
      if s.stopping == 0 then s
      else s.(line := s.line.(queue := s.line.queue + [Sentinel]), stopping := s.stopping - 1)
    case Work(outcome) => Worked(s, outcome)
  }

  /** The state after a whole schedule of events, in the order they took effect. */
  function After(s: State, schedule: seq<Event>): State
    decreases |schedule|
  {
    if schedule == [] then s else After(Next(s, schedule[0]), schedule[1..])
  }
}
