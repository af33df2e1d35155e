/** Which of the planner's replies a round takes, and what the round makes of the supervisor's state. */
module MissionPatches {
  import opened JsonValues
  import opened PlanOps
  import opened Worker
  import opened MilestoneLoop
  import opened Mission

  /** The operations of the first acceptable reply, if one of three is acceptable. */
  ghost function TakenOps(ms: seq<Dict>, replies: seq<Option<Dict>>, attempt: nat := 0): Option<seq<Json>>
    decreases PATCH_ATTEMPTS - attempt
  {
    if attempt >= PATCH_ATTEMPTS || attempt >= |replies| then None
    else if AcceptedPatch(ms, replies[attempt]).Some? then Some(replies[attempt].value["operations"].items)
    else TakenOps(ms, replies, attempt + 1)
  }

  lemma {:induction false} TakenOpsApply(ms: seq<Dict>, replies: seq<Option<Dict>>, attempt: nat := 0)
    ensures RequestedPatch(ms, replies, attempt).Some? <==> TakenOps(ms, replies, attempt).Some?
    ensures TakenOps(ms, replies, attempt).Some? ==>
      ApplyOps(ms, TakenOps(ms, replies, attempt).value) == Ok(RequestedPatch(ms, replies, attempt).value)
    decreases PATCH_ATTEMPTS - attempt
  {
    hide ApplyOps;
    if attempt < PATCH_ATTEMPTS && attempt < |replies| && AcceptedPatch(ms, replies[attempt]).None? {
      TakenOpsApply(ms, replies, attempt + 1);
    }
  }

  /** The reply is acceptable: an object with a non-empty list of operations that the plan accepts. */
  ghost predicate Acceptable(ms: seq<Dict>, reply: Option<Dict>) {
    && reply.Some? && "operations" in reply.value && reply.value["operations"].Arr?
    && reply.value["operations"].items != [] && ApplyOps(ms, reply.value["operations"].items).Ok?
  }

  lemma AcceptableIff(ms: seq<Dict>, reply: Option<Dict>)
    ensures AcceptedPatch(ms, reply).Some? <==> Acceptable(ms, reply)
  {
    hide ApplyOps;
  }

  lemma {:induction false} TakenFrom(ms: seq<Dict>, replies: seq<Option<Dict>>, attempt: nat, ops: seq<Json>)
    ensures TakenOps(ms, replies, attempt) == Some(ops) <==>
      exists k :: attempt <= k < |replies| && k < 3 && TakenAt(ms, replies, attempt, k, ops)
    decreases PATCH_ATTEMPTS - attempt
  {
    hide Acceptable, AcceptedPatch;
    if attempt < PATCH_ATTEMPTS && attempt < |replies| {
      AcceptableIff(ms, replies[attempt]);
      AcceptableFields(ms, replies[attempt]);
      TakenFrom(ms, replies, attempt + 1, ops);
      if AcceptedPatch(ms, replies[attempt]).Some? {
        assert TakenOps(ms, replies, attempt) == Some(ops) <==> TakenAt(ms, replies, attempt, attempt, ops);
        forall k | attempt < k < |replies| ensures !TakenAt(ms, replies, attempt, k, ops) {
          assert Acceptable(ms, replies[attempt]);
        }
      } else {
        assert !TakenAt(ms, replies, attempt, attempt, ops);
        var next := attempt + 1;
        if k :| next <= k < |replies| && k < 3 && TakenAt(ms, replies, next, k, ops) {
          assert TakenAt(ms, replies, attempt, k, ops);
        }
        if k :| attempt <= k < |replies| && k < 3 && TakenAt(ms, replies, attempt, k, ops) {
          assert TakenAt(ms, replies, attempt + 1, k, ops);
        }
      }
    }
  }

  lemma AcceptableFields(ms: seq<Dict>, reply: Option<Dict>)
    ensures Acceptable(ms, reply) ==>
      reply.Some? && "operations" in reply.value && reply.value["operations"].Arr?
  {
  }

  /** The k-th reply is acceptable, brings these operations, and none from `first` on before it is acceptable. */
  ghost predicate TakenAt(ms: seq<Dict>, replies: seq<Option<Dict>>, first: nat, k: nat, ops: seq<Json>)
    requires k < |replies|
  {
    && Acceptable(ms, replies[k]) && replies[k].value["operations"].items == ops
    && forall j :: first <= j < k ==> !Acceptable(ms, replies[j])
  }

  /** The operations taken are those of the first acceptable reply among the first three. */
  lemma TakenIff(ms: seq<Dict>, replies: seq<Option<Dict>>, ops: seq<Json>)
    ensures TakenOps(ms, replies) == Some(ops) <==>
      exists k :: 0 <= k < |replies| && k < 3 && TakenAt(ms, replies, 0, k, ops)
  {
    TakenFrom(ms, replies, 0, ops);
  }

  predicate Answered(s: State, config: Config)
    requires s.index < |s.milestones|
  {
    config.resume && config.memoryEnabled && Remembered(s.memory, MissionId(s.milestones[s.index]))
  }

  /** Memory answers for a milestone only in a resume that has memory on, and for text ids recorded there only. */
  lemma AnsweredIff(s: State, config: Config)
    requires s.index < |s.milestones|
    ensures Answered(s, config) <==>
      && config.resume && config.memoryEnabled
      && MissionId(s.milestones[s.index]).Str? && MissionId(s.milestones[s.index]).s in s.memory
  {
  }

  /** The operations a round applies to the plan; none if it asks for no replan, if a breaker stops it, or if
      no reply is acceptable. Replies that are rejected, or stand behind the one that is taken, do not matter. */
  ghost function PatchTaken(s: State, round: Round, config: Config): Option<seq<Json>>
    requires s.index < |s.milestones|
  {
    var id := MissionId(s.milestones[s.index]);
    if Answered(s, config) then None
    else
      match MilestoneRun(config.tools, round.attempts, config.limits, config.searcher).handoff
      case ReplanRequested(fingerprint) =>
        if Seen(s, id, fingerprint) || Mission.Count(s, id) >= config.replanBudget then None
        else TakenOps(s.milestones, round.replies)
      case _ => None
  }

  /** A round applies the patch it takes and looks for the milestone in hand, or passes that milestone, or
      stops with the plan as it was. */
  lemma RoundMoves(s: State, round: Round, config: Config)
    requires s.index < |s.milestones|
    ensures var head := s.milestones[s.index]; var next := AfterRound(s, round, config); var t := next.state;
      match PatchTaken(s, round, config)
      case Some(ops) =>
        && next.Goes? && ApplyOps(s.milestones, ops) == Ok(t.milestones)
        && t.index == Reanchored(t.milestones, MissionId(head), s.index)
        && t.passed == s.passed && t.memory == s.memory
      case None =>
        if next.Goes? then
          && t.milestones == s.milestones[s.index := Done(head)]
          && t.index == s.index + 1 && t.passed == s.passed + 1
          && (Answered(s, config)
              || MilestoneRun(config.tools, round.attempts, config.limits, config.searcher).handoff == Passed)
        else
          t.milestones == s.milestones && t.index == s.index && t.passed == s.passed && next.ending != WalkedOff
  {
    hide MilestoneRun, RequestedPatch, Reanchored, TakenOps, ApplyOps, Done, MissionId, Remembered;
    TakenOpsApply(s.milestones, round.replies);
  }
}
