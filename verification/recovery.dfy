/** Crash recovery: runs of the supervisor over one session, broken down into the steps between
    which the process may die. What survives is the plan file and the memory store. */
module Recovery {
  import opened JsonValues
  import opened PlanOps
  import opened Worker
  import opened MilestoneLoop
  import opened Mission

  datatype Plan = Plan(id: string, milestones: seq<Dict>)

  /** The plan file, and per plan id the keys recorded as completed. */
  datatype Disk = Disk(plan: Option<Plan>, memory: map<string, set<string>>)

  datatype Kind = New | Repair | Resume

  /** Where the supervisor is within one round. */
  datatype At = Head | Running | Saving | Recording | Rewriting

  datatype Process = Down | Up(plan: string, state: State, at: At, config: Config)

  datatype Entry =
    | Executed(plan: string, id: Json, resuming: bool)
    | Passed(plan: string, id: Json, kept: bool)   // kept: the run writes to the memory store
    | Recorded(plan: string, key: string)
    | Skipped(plan: string, id: Json)
    | Crashed

  datatype World = World(disk: Disk, process: Process, log: seq<Entry>, used: set<string>)

  datatype Event =
    | Begin(kind: Kind, drafted: Plan, edited: Option<seq<Dict>>, config: Config)
    | Step(round: Round)
    | Crash

  function NewSession(): World {
    World(Disk(None, map[]), Down, [], {})
  }

  function Memory(disk: Disk, plan: string): set<string> {
    if plan in disk.memory then disk.memory[plan] else {}
  }

  predicate Pending(plan: Plan) {
    exists m :: m in plan.milestones && !IsDone(m)
  }

  /** `_save_handoff`: the first milestone with this very id is marked in the plan file. A milestone
      without an id is looked up as "?" and not found. */
  function Filed(plan: Plan, id: Json): Plan {
    match FirstWithId(plan.milestones, id)
    case None => plan
    case Some(k) => plan.(milestones := plan.milestones[k := Done(plan.milestones[k])])
  }

  // ---------------------------------------------------------------- starting

  /** `run_orchestration`: a resume run takes up an unfinished plan file; every other run, and a
      resume run that finds nothing to do, drafts a plan under an id that was never used. Linting and
      repair may then rewrite the milestones before the plan is filed again. */
  function Begun(w: World, kind: Kind, drafted: Plan, edited: Option<seq<Dict>>, config: Config): World {
    if !w.process.Down? then w
    else
      var resumes := kind == Resume && w.disk.plan.Some? && Pending(w.disk.plan.value);
      if !resumes && drafted.id in w.used then w
      else
        var plan := if resumes then w.disk.plan.value else drafted;
        var milestones := if edited.Some? then edited.value else plan.milestones;
        World(w.disk.(plan := Some(Plan(plan.id, milestones))),
              Up(plan.id, Mission.Begin(milestones, Memory(w.disk, plan.id)), Head, config.(resume := kind == Resume)),
              w.log, w.used + {plan.id})
  }

  // ---------------------------------------------------------------- one step of a running supervisor

  predicate Skips(s: State, config: Config)
    requires s.index < |s.milestones|
  {
    config.resume && config.memoryEnabled && Remembered(s.memory, MissionId(s.milestones[s.index]))
  }

  function Stepped(w: World, round: Round): World
    requires w.process.Up?
  {
    var p := w.process;
    var s := p.state;
    if p.at == Rewriting then
      w.(disk := w.disk.(plan := Some(Plan(p.plan, s.milestones))), process := p.(at := Head))
    else if s.index >= |s.milestones| then w.(process := Down)
    else
      var id := MissionId(s.milestones[s.index]);
      match p.at
      case Head =>
        if Skips(s, p.config) then
          w.(process := p.(state := AfterPass(s, false), at := Rewriting), log := w.log + [Skipped(p.plan, id)])
        else
          w.(process := p.(at := Running),
             log := w.log + [Executed(p.plan, id, p.config.resume && p.config.memoryEnabled)])
      case Running =>
        var run := MilestoneRun(p.config.tools, round.attempts, p.config.limits, p.config.searcher);
        var s' := s.(runs := s.runs + run.state.runs);
        (match run.handoff
         case Passed =>
           w.(process := p.(state := s', at := Saving),
              log := w.log + [Entry.Passed(p.plan, id, p.config.memoryEnabled)])
         case ReplanRequested(fingerprint) =>
           (match AfterReplan(s', id, fingerprint, round.replies, p.config)
            case Goes(t) =>
              w.(disk := w.disk.(plan := Some(Plan(p.plan, t.milestones))), process := p.(state := t, at := Head))
            case Stops(_, _) => w.(process := Down))
         case _ => w.(process := Down))
      case Saving =>
        w.(disk := if w.disk.plan.Some? then w.disk.(plan := Some(Filed(w.disk.plan.value, id))) else w.disk,
           process := p.(at := Recording))
      case Recording =>
        var key := JsonKey(id);
        var done := w.(process := p.(state := AfterPass(s, p.config.memoryEnabled), at := Head));
        if p.config.memoryEnabled then
          done.(disk := w.disk.(memory := w.disk.memory[p.plan := Memory(w.disk, p.plan) + {key}]),
                log := w.log + [Recorded(p.plan, key)])
        else done
      case Rewriting => w
  }

  function Happens(w: World, e: Event): World {
    match e
    case Begin(kind, drafted, edited, config) => Begun(w, kind, drafted, edited, config)
    case Step(round) => if w.process.Up? then Stepped(w, round) else w
    case Crash => if w.process.Up? then w.(process := Down, log := w.log + [Crashed]) else w
  }

  function Played(w: World, events: seq<Event>): World
    decreases |events|
  {
    if events == [] then w else Played(Happens(w, events[0]), events[1..])
  }
}
