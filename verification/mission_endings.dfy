/** What a mission reports, said over its rounds. */
module MissionEndings {
  import opened JsonValues
  import opened PlanOps
  import opened Worker
  import opened MilestoneLoop
  import opened Mission
  import opened MissionPatches
  import opened MissionLaws
  import opened MissionOrder

  /** The round at the n-th loop head is played. */
  ghost predicate Played(s: State, rounds: seq<Round>, n: nat, config: Config) {
    && n < |rounds| && Head(s, rounds, n, config).Some?
    && Head(s, rounds, n, config).value.index < |Head(s, rounds, n, config).value.milestones|
  }

  /** What the milestone run of that round is handed back as. */
  function HandoffAt(s: State, rounds: seq<Round>, n: nat, config: Config): Handoff
    requires n < |rounds|
  {
    MilestoneRun(config.tools, rounds[n].attempts, config.limits, config.searcher).handoff
  }

  /** Some round is not answered from memory, and its milestone is interrupted. */
  ghost predicate SomeoneInterrupts(s: State, rounds: seq<Round>, config: Config) {
    exists n: nat :: InterruptsAt(s, rounds, n, config)
  }

  ghost predicate InterruptsAt(s: State, rounds: seq<Round>, n: nat, config: Config) {
    && Played(s, rounds, n, config) && HandoffAt(s, rounds, n, config) == Interrupted
    && !Answered(Head(s, rounds, n, config).value, config)
  }

  /** All rounds were played, and there is still a milestone to run. */
  ghost predicate RunsOut(s: State, rounds: seq<Round>, config: Config) {
    && Head(s, rounds, |rounds|, config).Some?
    && Head(s, rounds, |rounds|, config).value.index < |Head(s, rounds, |rounds|, config).value.milestones|
  }

  lemma RoundInterrupts(s: State, round: Round, config: Config)
    requires s.index < |s.milestones|
    ensures AfterRound(s, round, config).Stops? && AfterRound(s, round, config).ending == Stopped <==>
      && !Answered(s, config)
      && MilestoneRun(config.tools, round.attempts, config.limits, config.searcher).handoff == Interrupted
  {
    hide MilestoneRun, RequestedPatch, Reanchored, Remembered;
  }

  lemma HeadLater(s: State, rounds: seq<Round>, n: nat, config: Config)
    requires s.index < |s.milestones| && rounds != [] && AfterRound(s, rounds[0], config).Goes?
    ensures var next := AfterRound(s, rounds[0], config).state;
      && Head(s, rounds, n + 1, config) == Head(next, rounds[1..], n, config)
      && (InterruptsAt(s, rounds, n + 1, config) <==> InterruptsAt(next, rounds[1..], n, config))
  {
    hide AfterRound, MilestoneRun, Answered;
    if n + 1 < |rounds| {
      assert rounds[1..][n] == rounds[n + 1];
    }
  }

  lemma FirstGoesOn(s: State, rounds: seq<Round>, config: Config)
    requires s.index < |s.milestones| && rounds != [] && AfterRound(s, rounds[0], config).Goes?
    ensures !InterruptsAt(s, rounds, 0, config)
  {
    RoundInterrupts(s, rounds[0], config);
    hide AfterRound, MilestoneRun, Answered;
    assert Head(s, rounds, 0, config) == Some(s);
  }

  lemma InterruptsLater(s: State, rounds: seq<Round>, config: Config)
    requires s.index < |s.milestones| && rounds != [] && AfterRound(s, rounds[0], config).Goes?
    ensures SomeoneInterrupts(s, rounds, config) <==>
            SomeoneInterrupts(AfterRound(s, rounds[0], config).state, rounds[1..], config)
  {
    var next, rest := AfterRound(s, rounds[0], config).state, rounds[1..];
    FirstGoesOn(s, rounds, config);
    hide AfterRound, InterruptsAt, Head;
    if n: nat :| InterruptsAt(s, rounds, n, config) {
      HeadLater(s, rounds, n - 1, config);
    }
    if n: nat :| InterruptsAt(next, rest, n, config) {
      HeadLater(s, rounds, n, config);
    }
  }

  lemma RunsOutLater(s: State, rounds: seq<Round>, config: Config)
    requires s.index < |s.milestones| && rounds != [] && AfterRound(s, rounds[0], config).Goes?
    ensures RunsOut(s, rounds, config) <==> RunsOut(AfterRound(s, rounds[0], config).state, rounds[1..], config)
  {
    hide AfterRound, InterruptsAt, Head;
    HeadLater(s, rounds, |rounds| - 1, config);
  }

  lemma InterruptsNow(s: State, rounds: seq<Round>, config: Config)
    requires s.index >= |s.milestones| || rounds == [] || AfterRound(s, rounds[0], config).Stops?
    ensures RunsOut(s, rounds, config) <==> rounds == [] && s.index < |s.milestones|
    ensures SomeoneInterrupts(s, rounds, config) <==>
      && s.index < |s.milestones| && rounds != [] && !Answered(s, config)
      && MilestoneRun(config.tools, rounds[0].attempts, config.limits, config.searcher).handoff == Interrupted
  {
    hide AfterRound, MilestoneRun, Answered;
    assert Head(s, rounds, 0, config) == Some(s);
    forall n: nat | n > 0 ensures Head(s, rounds, n, config).None? {
    }
    if s.index < |s.milestones| && rounds != [] {
      assert InterruptsAt(s, rounds, 0, config) <==>
        !Answered(s, config) && HandoffAt(s, rounds, 0, config) == Interrupted;
    }
  }

  /** The loop is left by cancellation if and only if the rounds ran out or a milestone was interrupted. */
  lemma {:induction false} StoppedIff(s: State, rounds: seq<Round>, config: Config)
    ensures Mission.RunFrom(s, rounds, config).ending == Stopped <==>
            RunsOut(s, rounds, config) || SomeoneInterrupts(s, rounds, config)
    decreases |rounds|
  {
    hide AfterRound, RunsOut, SomeoneInterrupts, MilestoneRun, Answered;
    if s.index < |s.milestones| && rounds != [] && AfterRound(s, rounds[0], config).Goes? {
      InterruptsLater(s, rounds, config);
      RunsOutLater(s, rounds, config);
      StoppedIff(AfterRound(s, rounds[0], config).state, rounds[1..], config);
    } else {
      InterruptsNow(s, rounds, config);
      if s.index < |s.milestones| && rounds != [] {
        RoundInterrupts(s, rounds[0], config);
      }
    }
  }

  // ---------------------------------------------------------------- counting passes

  /** The round passes its milestone, or skips it because memory answers for it. */
  ghost predicate PassesRound(s: State, round: Round, config: Config)
    requires s.index < |s.milestones|
  {
    || Answered(s, config)
    || MilestoneRun(config.tools, round.attempts, config.limits, config.searcher).handoff == Passed
  }

  /** How many rounds pass or skip their milestone. */
  ghost function PassCount(s: State, rounds: seq<Round>, config: Config): nat
    decreases |rounds|
  {
    if s.index >= |s.milestones| || rounds == [] then 0
    else
      (if PassesRound(s, rounds[0], config) then 1 else 0)
      + match AfterRound(s, rounds[0], config)
        case Goes(next) => PassCount(next, rounds[1..], config)
        case Stops(_, _) => 0
  }

  lemma RoundCounts(s: State, round: Round, config: Config)
    requires s.index < |s.milestones|
    ensures AfterRound(s, round, config).state.passed == s.passed + (if PassesRound(s, round, config) then 1 else 0)
  {
    hide MilestoneRun, RequestedPatch, Reanchored, Remembered;
  }

  lemma {:induction false} CountedAreThePasses(s: State, rounds: seq<Round>, config: Config)
    ensures Mission.RunFrom(s, rounds, config).state.passed == s.passed + PassCount(s, rounds, config)
    decreases |rounds|
  {
    hide AfterRound, PassesRound;
    if s.index < |s.milestones| && rounds != [] {
      RoundCounts(s, rounds[0], config);
      match AfterRound(s, rounds[0], config) {
        case Stops(_, _) =>
        case Goes(next) => CountedAreThePasses(next, rounds[1..], config);
      }
    }
  }

  lemma EarnedHere(s: State, rounds: seq<Round>, config: Config, id: Json)
    requires s.index < |s.milestones| && rounds != []
    ensures Earned(s, rounds, config, id) <==>
      || (MissionId(s.milestones[s.index]) == id && PassesRound(s, rounds[0], config))
      || (AfterRound(s, rounds[0], config).Goes? &&
            Earned(AfterRound(s, rounds[0], config).state, rounds[1..], config, id))
  {
    hide AfterRound, MilestoneRun, Answered, MissionId;
  }

  lemma {:induction false} SomethingPassedIff(s: State, rounds: seq<Round>, config: Config)
    ensures PassCount(s, rounds, config) > 0 <==> exists id :: Earned(s, rounds, config, id)
    decreases |rounds|
  {
    if s.index < |s.milestones| && rounds != [] {
      hide AfterRound, Earned, MissionId, PassesRound;
      var t, rest := AfterRound(s, rounds[0], config).state, rounds[1..];
      EarnedHere(s, rounds, config, MissionId(s.milestones[s.index]));
      if AfterRound(s, rounds[0], config).Goes? {
        SomethingPassedIff(t, rest, config);
      }
      if id :| Earned(t, rest, config, id) {
        EarnedHere(s, rounds, config, id);
      }
      if id :| Earned(s, rounds, config, id) {
        EarnedHere(s, rounds, config, id);
      }
    }
  }

  // ---------------------------------------------------------------- what memory holds in the end

  /** The names under which completions are recorded: JSON member names. */
  lemma KeysAre(id: Json)
    ensures id.Str? ==> JsonKey(id) == id.s
    ensures JsonKey(Null) == "null" && JsonKey(Bool(true)) == "true" && JsonKey(Bool(false)) == "false"
    ensures id.Num? ==> JsonKey(id) == Decimal(id.n)
  {
  }

  lemma RoundRemembers(s: State, round: Round, config: Config, key: string)
    requires s.index < |s.milestones|
    ensures key in AfterRound(s, round, config).state.memory <==>
      || key in s.memory
      || (config.memoryEnabled && PassesRound(s, round, config) && key == JsonKey(MissionId(s.milestones[s.index])))
  {
    hide MilestoneRun, RequestedPatch, Reanchored, MissionId;
    KeysAre(MissionId(s.milestones[s.index]));
  }

  /** With memory on, what is remembered after a mission is what was before and the milestones that passed in it;
      with memory off nothing is added. */
  lemma {:induction false} RememberedIff(s: State, rounds: seq<Round>, config: Config, key: string)
    ensures key in Mission.RunFrom(s, rounds, config).state.memory <==>
      key in s.memory || (config.memoryEnabled && exists id :: Earned(s, rounds, config, id) && JsonKey(id) == key)
    decreases |rounds|
  {
    if s.index < |s.milestones| && rounds != [] {
      hide AfterRound, Earned, MissionId, PassesRound, JsonKey;
      var t, rest := AfterRound(s, rounds[0], config).state, rounds[1..];
      RoundRemembers(s, rounds[0], config, key);
      EarnedHere(s, rounds, config, MissionId(s.milestones[s.index]));
      if AfterRound(s, rounds[0], config).Goes? {
        RememberedIff(t, rest, config, key);
        if id :| Earned(t, rest, config, id) && JsonKey(id) == key {
          EarnedHere(s, rounds, config, id);
        }
      }
      if id :| Earned(s, rounds, config, id) && JsonKey(id) == key {
        EarnedHere(s, rounds, config, id);
      }
    }
  }

  // ---------------------------------------------------------------- one law per status

  /** A mission reports cancelled if and only if its rounds ran out before its plan, or one was interrupted. */
  lemma MissionCancelledIff(ms: seq<Dict>, memory: set<string>, rounds: seq<Round>, config: Config)
    ensures var s := Mission.Begin(ms, memory);
      Reported(Mission.RunFrom(s, rounds, config)) == MissionCancelled <==>
      RunsOut(s, rounds, config) || SomeoneInterrupts(s, rounds, config)
  {
    hide Mission.RunFrom, RunsOut, SomeoneInterrupts;
    StoppedIff(Mission.Begin(ms, memory), rounds, config);
  }

  /** Otherwise it reports completed if and only if as many rounds passed as its final plan has milestones and
      all of these read completed. */
  lemma MissionCompletedIff(ms: seq<Dict>, memory: set<string>, rounds: seq<Round>, config: Config)
    requires var s := Mission.Begin(ms, memory);
      !RunsOut(s, rounds, config) && !SomeoneInterrupts(s, rounds, config)
    ensures var s := Mission.Begin(ms, memory); var final := Mission.RunFrom(s, rounds, config);
      Reported(final) == MissionCompleted <==>
        && PassCount(s, rounds, config) == |final.state.milestones|
        && forall m :: m in final.state.milestones ==> Get(m, "status", Null) == Str("completed")
  {
    hide Mission.RunFrom, RunsOut, SomeoneInterrupts, PassCount;
    StoppedIff(Mission.Begin(ms, memory), rounds, config);
    CountedAreThePasses(Mission.Begin(ms, memory), rounds, config);
  }

  /** Otherwise, if it does not report completed, it reports failed if and only if no round passed or skipped
      its milestone, and partial if and only if some round did; with milestones left in the final plan, a
      mission in which nothing passed never reports completed. */
  lemma MissionFailedIff(ms: seq<Dict>, memory: set<string>, rounds: seq<Round>, config: Config)
    requires var s := Mission.Begin(ms, memory);
      !RunsOut(s, rounds, config) && !SomeoneInterrupts(s, rounds, config)
    ensures var s := Mission.Begin(ms, memory); var final := Mission.RunFrom(s, rounds, config);
      && (final.state.milestones != [] ==>
            (Reported(final) == MissionFailed <==> !exists id :: Earned(s, rounds, config, id)))
      && (Reported(final) == MissionPartial <==>
            Reported(final) != MissionCompleted && exists id :: Earned(s, rounds, config, id))
  {
    hide Mission.RunFrom, RunsOut, SomeoneInterrupts, PassCount, Earned;
    StoppedIff(Mission.Begin(ms, memory), rounds, config);
    CountedAreThePasses(Mission.Begin(ms, memory), rounds, config);
    SomethingPassedIff(Mission.Begin(ms, memory), rounds, config);
  }
}
