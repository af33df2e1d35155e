/** The mission supervisor: the loop over a milestone list that the planner rewrites while it runs.
    Worker replies, verdicts and plan patches are arbitrary; when the rounds run out, the next
    cancellation check stops the mission. */
module Mission {
  import opened JsonValues
  import opened PlanOps
  import opened Worker
  import opened MilestoneLoop

  const PATCH_ATTEMPTS := 3

  datatype Config = Config(
    resume: bool,                // only a resume run may reuse completion memory
    memoryEnabled: bool,
    replanBudget: int,
    limits: Limits,
    searcher: bool,
    tools: set<string>)

  /** Everything the outside world answers while one milestone is being run: what happens in each
      attempt, and the planner's replies should a replan be requested (None: not a JSON object). */
  datatype Round = Round(attempts: seq<Attempt>, replies: seq<Option<Dict>>)

  datatype State = State(
    milestones: seq<Dict>,
    index: nat,
    passed: nat,
    replanCounts: map<Json, nat>,
    replanSignatures: map<Json, set<string>>,
    memory: set<string>,         // keys recorded as completed for this plan
    runs: nat)                   // implementer runs so far

  datatype Ending = WalkedOff | Halted | Stopped

  datatype Final = Final(state: State, ending: Ending, rounds: nat)

  /** `ms.get("id", "?")` */
  function MissionId(m: Dict): Json {
    Get(m, "id", Str("?"))
  }

  /** The member name under which a key is written to a JSON object. */
  function JsonKey(id: Json): string {
    match id
    case Null => "null"
    case Bool(b) => if b then "true" else "false"
    case _ => PyStr(id)
  }

  /** `check_resume_point` looks the id up among the names read back, so only text can be found. */
  predicate Remembered(memory: set<string>, id: Json) {
    id.Str? && id.s in memory
  }

  function Done(m: Dict): Dict {
    m["status" := Str("completed")]
  }

  predicate IsDone(m: Dict) {
    "status" in m && m["status"] == Str("completed")
  }

  /** The patch made of the first acceptable reply, if one of three is acceptable. */
  function RequestedPatch(ms: seq<Dict>, replies: seq<Option<Dict>>, attempt: nat := 0): Option<seq<Dict>>
    decreases PATCH_ATTEMPTS - attempt
  {
    if attempt >= PATCH_ATTEMPTS || attempt >= |replies| then None
    else
      match AcceptedPatch(ms, replies[attempt])
      case Some(patched) => Some(patched)
      case None => RequestedPatch(ms, replies, attempt + 1)
  }

  function AcceptedPatch(ms: seq<Dict>, reply: Option<Dict>): Option<seq<Dict>> {
    if reply.None? then None
    else
      var operations := Get(reply.value, "operations", Null);
      if !NonEmptyList(operations) then None
      else
        match ApplyOps(ms, operations.items)
        case Ok(patched) => Some(patched)
        case Err(_) => None
  }

  /** Where the loop continues after a replan: at the first milestone with the same id, or, if there
      is none, at the same position. */
  function Reanchored(ms: seq<Dict>, id: Json, index: nat): nat {
    match FirstWithId(ms, id)
    case Some(k) => k
    case None => index
  }

  /** `m.get("id") == ms_id`: a null id matches a milestone without one too. */
  predicate Carries(m: Dict, id: Json) {
    Get(m, "id", Null) == id
  }

  function FirstWithId(ms: seq<Dict>, id: Json): (found: Option<nat>)
    ensures found.Some? ==> found.value < |ms| && Carries(ms[found.value], id)
    ensures found.Some? ==> forall i :: 0 <= i < found.value ==> !Carries(ms[i], id)
    ensures found.None? ==> forall i :: 0 <= i < |ms| ==> !Carries(ms[i], id)
  {
    if ms == [] then None
    else if Carries(ms[0], id) then Some(0)
    else
      match FirstWithId(ms[1..], id)
      case None => None
      case Some(k) => Some(k + 1)
  }

  datatype Step = Goes(state: State) | Stops(state: State, ending: Ending)

  function AfterPass(s: State, remember: bool): State
    requires s.index < |s.milestones|
  {
    var m := s.milestones[s.index];
    s.(milestones := s.milestones[s.index := Done(m)], index := s.index + 1, passed := s.passed + 1,
       memory := if remember then s.memory + {JsonKey(MissionId(m))} else s.memory)
  }

  function Count(s: State, id: Json): nat {
    if id in s.replanCounts then s.replanCounts[id] else 0
  }

  predicate Seen(s: State, id: Json, fingerprint: string) {
    fingerprint != "" && id in s.replanSignatures && fingerprint in s.replanSignatures[id]
  }

  function AfterReplan(s: State, id: Json, fingerprint: string, replies: seq<Option<Dict>>, config: Config): Step {
    if Seen(s, id, fingerprint) || Count(s, id) >= config.replanBudget then Stops(s, Halted)
    else
      var seen := if id in s.replanSignatures then s.replanSignatures[id] else {};
      var s' := s.(replanCounts := s.replanCounts[id := Count(s, id) + 1],
                   replanSignatures :=
                     s.replanSignatures[id := if fingerprint != "" then seen + {fingerprint} else seen]);
      match RequestedPatch(s.milestones, replies)
      case None => Stops(s', Halted)
      case Some(patched) => Goes(s'.(milestones := patched, index := Reanchored(patched, id, s.index)))
  }

  function AfterRound(s: State, round: Round, config: Config): Step
    requires s.index < |s.milestones|
  {
    var id := MissionId(s.milestones[s.index]);
    if config.resume && config.memoryEnabled && Remembered(s.memory, id) then Goes(AfterPass(s, false))
    else
      var run := MilestoneRun(config.tools, round.attempts, config.limits, config.searcher);
      var s' := s.(runs := s.runs + run.state.runs);
      match run.handoff
      case Passed => Goes(AfterPass(s', config.memoryEnabled))
      case ReplanRequested(fingerprint) => AfterReplan(s', id, fingerprint, round.replies, config)
      case Interrupted => Stops(s', Stopped)
      case Failed => Stops(s', Halted)
      case BlockedOff => Stops(s', Halted)
  }

  function RunFrom(s: State, rounds: seq<Round>, config: Config): Final
    decreases |rounds|
  {
    if s.index >= |s.milestones| then Final(s, WalkedOff, 0)
    else if rounds == [] then Final(s, Stopped, 0)
    else
      match AfterRound(s, rounds[0], config)
      case Stops(s', ending) => Final(s', ending, 1)
      case Goes(s') =>
        var rest := RunFrom(s', rounds[1..], config);
        rest.(rounds := rest.rounds + 1)
  }

  function Begin(ms: seq<Dict>, memory: set<string>): State {
    State(ms, 0, 0, map[], map[], memory, 0)
  }

  datatype Status = MissionCompleted | MissionPartial | MissionFailed | MissionCancelled

  /** The status the mission reports: the closing audit's, unless the run was cancelled. */
  function Reported(final: Final): Status {
    var s := final.state;
    if final.ending == Stopped then MissionCancelled
    else if s.passed == |s.milestones| && forall m :: m in s.milestones ==> IsDone(m) then MissionCompleted
    else if s.passed > 0 then MissionPartial
    else MissionFailed
  }

  // ---------------------------------------------------------------- the loops

  lemma ObjectsRoundTrip(ms: seq<Dict>)
    ensures AllObjects(Objects(ms)) && Dicts(Objects(ms)) == ms
  {
  }

  /** What the patch engine says of a reply is what the planner's request accepts. */
  lemma AcceptedIffPatched(ms: seq<Dict>, reply: Option<Dict>)
    ensures reply.None? ==> AcceptedPatch(ms, reply).None?
    ensures reply.Some? ==>
      var patched := Patched(map["milestones" := Arr(Objects(ms))], Get(reply.value, "operations", Null));
      match AcceptedPatch(ms, reply)
      case Some(out) => patched == Ok(map["milestones" := Arr(Objects(out))])
      case None => patched.Err?
  {
    hide ApplyOps, BadOp;
    var plan: Dict := map["milestones" := Arr(Objects(ms))];
    ObjectsRoundTrip(ms);
    assert Get(plan, "milestones", Arr([])) == Arr(Objects(ms));
    assert forall out: Json :: plan["milestones" := out] == map["milestones" := out];
  }

  method RequestPlanPatch(ms: seq<Dict>, replies: seq<Option<Dict>>) returns (r: Option<seq<Dict>>)
    ensures r == RequestedPatch(ms, replies)
  {
    hide Patched, AcceptedPatch;
    var plan := map["milestones" := Arr(Objects(ms))];
    var attempt := 0;
    while attempt < PATCH_ATTEMPTS && attempt < |replies|
      invariant 0 <= attempt
      invariant RequestedPatch(ms, replies) == RequestedPatch(ms, replies, attempt)
    {
      AcceptedIffPatched(ms, replies[attempt]);
      if replies[attempt].Some? {
        var patched := ApplyPlanPatch(plan, Get(replies[attempt].value, "operations", Null));
        if patched.Ok? {
          ObjectsRoundTrip(AcceptedPatch(ms, replies[attempt]).value);
          return Some(Dicts(patched.value["milestones"].items));
        }
      }
      attempt := attempt + 1;
    }
    return None;
  }

  method Replan(state: State, id: Json, fingerprint: string, replies: seq<Option<Dict>>, config: Config)
    returns (step: Step)
    ensures step == AfterReplan(state, id, fingerprint, replies, config)
  {
    hide RequestedPatch;
    var s := state;
    var seen := if id in s.replanSignatures then s.replanSignatures[id] else {};
    var replans := if id in s.replanCounts then s.replanCounts[id] else 0;
    if fingerprint != "" && fingerprint in seen {
      return Stops(s, Halted);
    }
    if replans >= config.replanBudget {
      return Stops(s, Halted);
    }
    if fingerprint != "" {
      seen := seen + {fingerprint};
    }
    s := s.(replanSignatures := s.replanSignatures[id := seen]);
    s := s.(replanCounts := s.replanCounts[id := replans + 1]);
    var patched := RequestPlanPatch(s.milestones, replies);
    if patched.None? {
      return Stops(s, Halted);
    }
    s := s.(milestones := patched.value);
    var found := FirstWithId(s.milestones, id);
    if found.Some? {
      s := s.(index := found.value);
    }
    return Goes(s);
  }

  method PlayRound(state: State, round: Round, config: Config) returns (step: Step)
    requires state.index < |state.milestones|
    ensures step == AfterRound(state, round, config)
  {
    hide AfterReplan, MilestoneRun, Remembered;
    var s := state;
    var m := s.milestones[s.index];
    var id := MissionId(m);
    if config.resume && config.memoryEnabled && Remembered(s.memory, id) {
      s := s.(milestones := s.milestones[s.index := Done(m)]);
      s := s.(passed := s.passed + 1, index := s.index + 1);
      return Goes(s);
    }
    var run := ExecuteMilestone(config.tools, round.attempts, config.limits, config.searcher);
    s := s.(runs := s.runs + run.state.runs);
    match run.handoff {
      case Passed =>
        s := s.(passed := s.passed + 1, milestones := s.milestones[s.index := Done(m)]);
        if config.memoryEnabled {
          s := s.(memory := s.memory + {JsonKey(id)});
        }
        s := s.(index := s.index + 1);
        return Goes(s);
      case ReplanRequested(fingerprint) =>
        step := Replan(s, id, fingerprint, round.replies, config);
      case Interrupted =>
        return Stops(s, Stopped);
      case _ =>
        return Stops(s, Halted);
    }
  }

  method RunMission(ms: seq<Dict>, memory: set<string>, rounds: seq<Round>, config: Config)
    returns (final: Final, status: Status)
    ensures final == RunFrom(Begin(ms, memory), rounds, config)
    ensures status == Reported(final)
  {
    var s := Begin(ms, memory);
    var n, ending := 0, WalkedOff;
    while s.index < |s.milestones|
      invariant 0 <= n <= |rounds|
      invariant ending == WalkedOff
      invariant RunFrom(Begin(ms, memory), rounds, config)
             == RunFrom(s, rounds[n..], config).(rounds := RunFrom(s, rounds[n..], config).rounds + n)
      decreases |rounds| - n
    {
      if n == |rounds| {
        ending := Stopped;
        break;
      }
      assert rounds[n..][0] == rounds[n] && rounds[n..][1..] == rounds[n + 1..];
      var step := PlayRound(s, rounds[n], config);
      s, n := step.state, n + 1;
      if step.Stops? {
        ending := step.ending;
        break;
      }
    }
    final := Final(s, ending, n);
    status := Reported(final);
  }
}
