/** Two ways in which finished work is done again after a crash. */
module RecoveryLimits {
  import opened JsonValues
  import opened PlanOps
  import opened Worker
  import opened MilestoneLoop
  import opened Mission
  import opened MissionLimits
  import opened Recovery
  import opened RecoveryLaws

  function Remembering(config: Config): Config {
    config.(memoryEnabled := true)
  }

  /** A list or an object as an id makes the first look-up, or log, in memory raise TypeError. */
  predicate Hashable(id: Json) {
    !id.Arr? && !id.Obj?
  }

  function TwoMilestones(id: Json): seq<Dict> {
    [map["id" := id], map["id" := Str("later")]]
  }

  function Draft(id: Json): Plan {
    Plan("p", TwoMilestones(id))
  }

  lemma DraftIds(id: Json)
    ensures MissionId(TwoMilestones(id)[0]) == id && !IsDone(TwoMilestones(id)[0])
    ensures FirstWithId(TwoMilestones(id), id) == Some(0)
    ensures !IsDone(TwoMilestones(id)[1])
    ensures var done := Done(TwoMilestones(id)[0]); MissionId(done) == id && IsDone(done)
  {
  }

  /** The world in which the first milestone has just been handed to the implementer. */
  function RunningFirst(id: Json, config: Config): World {
    World(Disk(Some(Draft(id)), map[]),
          Up("p", Mission.Begin(TwoMilestones(id), {}), Running, Remembering(config).(resume := false)),
          [Executed("p", id, false)], {"p"})
  }

  /** The world in which its pass is in the plan file and nowhere else. */
  function PassedAndFiled(id: Json, config: Config): World {
    var start := RunningFirst(id, config);
    start.(disk := start.disk.(plan := Some(Plan("p", [Done(TwoMilestones(id)[0]), TwoMilestones(id)[1]]))),
           process := start.process.(state := start.process.state.(runs := 1), at := Recording),
           log := [Executed("p", id, false), Entry.Passed("p", id, true)])
  }

  const PASS_FIRST: seq<Event> := [Step(PASSING), Step(PASSING)]

  function StartFirst(id: Json, config: Config): seq<Event> {
    [Begin(New, Draft(id), None, Remembering(config)), Step(PASSING)]
  }

  lemma {:induction false} PlayedSplit(w: World, a: seq<Event>, b: seq<Event>)
    ensures Played(w, a + b) == Played(Played(w, a), b)
    decreases |a|
  {
    if a == [] {
      assert a + b == b;
    } else {
      assert (a + b)[1..] == a[1..] + b;
      PlayedSplit(Happens(w, a[0]), a[1..], b);
    }
  }

  lemma {:induction false} PlayedTwo(w: World, a: Event, b: Event)
    ensures Played(w, [a, b]) == Happens(Happens(w, a), b)
  {
    hide Happens;
    assert [a, b][1..] == [b] && [b][1..] == [];
    assert Played(Happens(Happens(w, a), b), []) == Happens(Happens(w, a), b);
  }

  lemma Starts(id: Json, config: Config)
    ensures Played(NewSession(), StartFirst(id, config)) == RunningFirst(id, config)
  {
    PlayedTwo(NewSession(), StartFirst(id, config)[0], StartFirst(id, config)[1]);
  }

  lemma PassesAndFiles(id: Json, config: Config)
    ensures Played(RunningFirst(id, config), PASS_FIRST) == PassedAndFiled(id, config)
  {
    hide MilestoneRun, AfterReplan, FirstWithId;
    DraftIds(id);
    ScriptedRun(config.tools, Pass, config.limits, config.searcher);
    var w := RunningFirst(id, config);
    PlayedTwo(w, Step(PASSING), Step(PASSING));
    var saving := Happens(w, Step(PASSING));
    assert saving.process.at == Saving && saving.log == [Executed("p", id, false)] + [Entry.Passed("p", id, true)];
    assert Filed(Draft(id), id) == Plan("p", [Done(TwoMilestones(id)[0]), TwoMilestones(id)[1]]);
  }

  function ResumeAgain(config: Config): seq<Event> {
    [Begin(Resume, Plan("unused", []), None, Remembering(config)), Step(PASSING)]
  }

  /** A resume run takes the plan file up and starts over with its first milestone. */
  lemma Resumes(w: World, id: Json, config: Config)
    requires w.process == Down && w.disk.plan.Some?
    requires w.disk.plan.value == Plan("p", [Done(TwoMilestones(id)[0]), TwoMilestones(id)[1]])
    requires !Remembered(Memory(w.disk, "p"), id)
    ensures Played(w, ResumeAgain(config)).log == w.log + [Executed("p", id, true)]
    ensures Played(w, ResumeAgain(config)).disk == w.disk
  {
    DraftIds(id);
    PlayedTwo(w, ResumeAgain(config)[0], ResumeAgain(config)[1]);
    assert w.disk.plan.value.milestones[1] in w.disk.plan.value.milestones;
    assert Pending(w.disk.plan.value);
  }

  /** A pass that made it into the plan file but not into the memory store is repeated: the resume run
      executes the milestone again although its plan file says completed. */
  lemma FiledButNotRecordedRunsAgain(id: Json, config: Config)
    requires Hashable(id)
    ensures var events := StartFirst(id, config) + PASS_FIRST + [Crash] + ResumeAgain(config);
      var w := Played(NewSession(), events);
      && w.log == [Executed("p", id, false), Entry.Passed("p", id, true), Crashed, Executed("p", id, true)]
      && w.disk.plan.Some? && |w.disk.plan.value.milestones| == 2
      && IsDone(w.disk.plan.value.milestones[0])
      && MissionId(w.disk.plan.value.milestones[0]) == id
  {
    hide Played;
    DraftIds(id);
    var filed := PassedAndFiled(id, config);
    Starts(id, config);
    PassesAndFiles(id, config);
    PlayedSplit(NewSession(), StartFirst(id, config), PASS_FIRST);
    PlayedSplit(NewSession(), StartFirst(id, config) + PASS_FIRST, [Crash]);
    PlayedSplit(NewSession(), StartFirst(id, config) + PASS_FIRST + [Crash], ResumeAgain(config));
    var crashed := Happens(filed, Crash);
    PlayedOne(filed, Crash);
    Resumes(crashed, id, config);
  }

  lemma {:induction false} PlayedOne(w: World, a: Event)
    ensures Played(w, [a]) == Happens(w, a)
  {
    hide Happens;
    assert [a][1..] == [];
    assert Played(Happens(w, a), []) == Happens(w, a);
  }

  // ---------------------------------------------------------------- ids that memory cannot find

  /** No run that resumes with memory ever executes a milestone with this id once its completion was
      recorded under the same plan. */
  ghost predicate NeverRepeated(id: Json) {
    forall events: seq<Event>, i: nat ::
      var log := Played(NewSession(), events).log;
      i < |log| && log[i].Executed? && log[i].resuming && log[i].id == id ==>
        !RecordedBefore(log, i, log[i].plan, JsonKey(id))
  }

  lemma RecordedButNotText(id: Json, config: Config)
    requires !id.Str? && Hashable(id)
    ensures !NeverRepeated(id)
  {
    hide Played;
    DraftIds(id);
    var events := StartFirst(id, config) + PASS_FIRST + [Step(PASSING)] + [Crash] + ResumeAgain(config);
    var filed := PassedAndFiled(id, config);
    Starts(id, config);
    PassesAndFiles(id, config);
    PlayedSplit(NewSession(), StartFirst(id, config), PASS_FIRST);
    PlayedSplit(NewSession(), StartFirst(id, config) + PASS_FIRST, [Step(PASSING)]);
    PlayedSplit(NewSession(), StartFirst(id, config) + PASS_FIRST + [Step(PASSING)], [Crash]);
    PlayedSplit(NewSession(), StartFirst(id, config) + PASS_FIRST + [Step(PASSING)] + [Crash], ResumeAgain(config));
    PlayedOne(filed, Step(PASSING));
    var recorded := Happens(filed, Step(PASSING));
    PlayedOne(recorded, Crash);
    var crashed := Happens(recorded, Crash);
    Resumes(crashed, id, config);
    var log := Played(NewSession(), events).log;
    assert recorded.log == filed.log + [Recorded("p", JsonKey(id))];
    assert log[2] == Recorded("p", JsonKey(id)) && log[4] == Executed("p", id, true);
    assert RecordedBefore(log, 4, "p", JsonKey(id));
  }

  /** The promise "a completed milestone is never executed again by a resume" holds exactly for ids
      that are text: other ids that can be looked up are recorded under their JSON member name and never
      found again. */
  lemma NeverRepeatedIff(id: Json)
    ensures Hashable(id) ==> (NeverRepeated(id) <==> id.Str?)
  {
    if id.Str? {
      forall events: seq<Event>, i: nat |
        var log := Played(NewSession(), events).log;
        i < |log| && log[i].Executed? && log[i].resuming && log[i].id == id
        ensures var log := Played(NewSession(), events).log; !RecordedBefore(log, i, log[i].plan, JsonKey(id))
      {
        RecordedIsNotExecutedAgain(events, i);
      }
    } else if Hashable(id) {
      RecordedButNotText(id, Config(true, true, 1, Limits(1, 1, 1, 1, 1), true, {}));
    }
  }
}
