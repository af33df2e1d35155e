/** Runs that show why the supervisor's guarantees carry the conditions they do. */
module MissionLimits {
  import opened JsonValues
  import opened Text
  import opened PlanOps
  import opened PlanPatchLaws
  import opened Worker
  import opened MilestoneLoop
  import opened Mission
  import opened MissionLaws
  import opened MissionOrder

  // ---------------------------------------------------------------- scripted rounds

  function Scripted(verdict: Verdict): Attempt {
    Attempt([SignalComplete(true, true)], false, verdict)
  }

  const PASSING := Round([Scripted(Pass)], [])

  function Replanning(operations: seq<Json>): Round {
    Round([Scripted(Verdict.Replan(""))], [Some(map["operations" := Arr(operations)])])
  }

  lemma WorkerCompletes(w: Work, limits: Limits, searcher: bool)
    ensures Worker.RunFrom(w, [SignalComplete(true, true)], false, limits, searcher).status == Complete
  {
  }

  lemma ScriptedRun(tools: set<string>, verdict: Verdict, limits: Limits, searcher: bool)
    ensures var outcome := MilestoneRun(tools, [Scripted(verdict)], limits, searcher);
      && (verdict == Pass ==> outcome.handoff == Passed && outcome.state.runs == 1)
      && (verdict.Replan? ==> outcome.handoff == ReplanRequested(verdict.fingerprint) && outcome.state.runs == 1)
  {
    var st := MilestoneLoop.Begin(tools);
    WorkerCompletes(Start(st.active, st.failures), limits, searcher);
  }

  /** No round of these runs is answered from memory. */
  ghost predicate NoMemory(config: Config) {
    !(config.resume && config.memoryEnabled)
  }

  lemma PassingRound(s: State, config: Config)
    requires s.index < |s.milestones| && NoMemory(config)
    ensures AfterRound(s, PASSING, config) == Goes(AfterPass(s.(runs := s.runs + 1), config.memoryEnabled))
  {
    hide MilestoneRun;
    ScriptedRun(config.tools, Pass, config.limits, config.searcher);
  }

  lemma ReplanningRound(s: State, operations: seq<Json>, patched: seq<Dict>, config: Config)
    requires s.index < |s.milestones| && NoMemory(config) && operations != []
    requires Mission.Count(s, MissionId(s.milestones[s.index])) < config.replanBudget
    requires ApplyOps(s.milestones, operations) == Ok(patched)
    ensures var id := MissionId(s.milestones[s.index]);
      var next := AfterRound(s, Replanning(operations), config);
      && next.Goes? && next.state.milestones == patched && next.state.index == Reanchored(patched, id, s.index)
      && next.state.replanCounts == s.replanCounts[id := Mission.Count(s, id) + 1]
      && next.state.passed == s.passed
  {
    hide MilestoneRun, ApplyOps;
    ScriptedRun(config.tools, Verdict.Replan(""), config.limits, config.searcher);
    var reply: Dict := map["operations" := Arr(operations)];
    assert reply["operations"] == Arr(operations);
    assert AcceptedPatch(s.milestones, Some(reply)) == Some(patched);
    assert RequestedPatch(s.milestones, [Some(reply)], 0) == Some(patched);
  }

  // ---------------------------------------------------------------- samples

  lemma StoredIsPending(id: string)
    requires id != ""
    ensures Id(Stored(id)) == Some(id) && !Completed(Stored(id)) && !IsDone(Stored(id))
    ensures MissionId(Stored(id)) == Str(id) && "id" in Stored(id) && Stored(id)["id"] == Str(id)
    ensures "depends_on" in Stored(id) && Stored(id)["depends_on"] == Arr([])
    ensures Id(Done(Stored(id))) == Some(id) && IsDone(Done(Stored(id)))
    ensures "id" in Done(Stored(id)) && Done(Stored(id))["id"] == Str(id)
    ensures "depends_on" in Done(Stored(id)) && Done(Stored(id))["depends_on"] == Arr([])
  {
    SampleIds(id);
    SampleFields(id);
    PendingIsNotCompleted(Stored(id));
  }

  ghost predicate NoDependencies(ms: seq<Dict>) {
    forall i :: 0 <= i < |ms| ==> "depends_on" in ms[i] && ms[i]["depends_on"] == Arr([])
  }

  lemma RemoveSample(ms: seq<Dict>, id: string)
    requires id in Index(ms) && PlainId(id) && !Completed(ms[Index(ms)[id]]) && NoDependencies(ms)
    ensures ApplyOp(ms, RemoveOp(id), 0) == Ok(RemoveAt(ms, Index(ms)[id]))
  {
    hide Index, Completed;
    var op := RemoveOp(id).fields;
    assert op["op"] == Str("remove_milestone") && op["milestone_id"] == Str(id);
    var rest := RemoveAt(ms, Index(ms)[id]);
    assert DropEverywhere(rest, id) == rest;
  }

  lemma IndexOfOne(m: Dict, id: string)
    requires Id(m) == Some(id)
    ensures Index([m]) == map[id := 0]
  {
    assert [m][..0] == [];
  }

  lemma IndexOfTwo(a: Dict, b: Dict, ida: string, idb: string)
    requires Id(a) == Some(ida) && Id(b) == Some(idb)
    ensures Index([a, b]) == map[ida := 0][idb := 1]
  {
    IndexOfOne(a, ida);
    assert [a, b][..1] == [a];
  }

  lemma IndexOfThree(a: Dict, b: Dict, c: Dict, ida: string, idb: string, idc: string)
    requires Id(a) == Some(ida) && Id(b) == Some(idb) && Id(c) == Some(idc)
    ensures Index([a, b, c]) == map[ida := 0][idb := 1][idc := 2]
  {
    IndexOfTwo(a, b, ida, idb);
    assert [a, b, c][..2] == [a, b];
  }

  // ---------------------------------------------------------------- a planner that never lets go

  /** The k-th of infinitely many ids. */
  function FreshId(k: nat): string {
    seq(k + 1, _ => 'm')
  }

  lemma FreshIdIsPlain(k: nat)
    ensures PlainId(FreshId(k)) && |FreshId(k)| == k + 1
  {
    StripTrims(FreshId(k));
  }

  /** Replace the only milestone by one under the next id. */
  function Renaming(k: nat): seq<Json> {
    [InsertOp(FreshId(k), FreshId(k + 1)), RemoveOp(FreshId(k))]
  }

  lemma RenamingPatch(k: nat)
    ensures ApplyOps([Stored(FreshId(k))], Renaming(k)) == Ok([Stored(FreshId(k + 1))])
  {
    hide ApplyOp, ApplyOps, Index, Stored, Completed;
    var a, b := FreshId(k), FreshId(k + 1);
    FreshIdIsPlain(k);
    FreshIdIsPlain(k + 1);
    StoredIsPending(a);
    StoredIsPending(b);
    IndexOfOne(Stored(a), a);
    InsertSample([Stored(a)], a, b);
    var both := [Stored(a), Stored(b)];
    assert InsertAt([Stored(a)], 1, Stored(b)) == both;
    IndexOfTwo(Stored(a), Stored(b), a, b);
    RemoveSample(both, a);
    assert RemoveAt(both, 0) == [Stored(b)];
    TwoOps([Stored(a)], InsertOp(a, b), RemoveOp(a), both, [Stored(b)]);
  }

  function RenamingRounds(k: nat, n: nat): seq<Round>
    decreases n
  {
    if n == 0 then [] else [Replanning(Renaming(k))] + RenamingRounds(k + 1, n - 1)
  }

  ghost predicate RenamingState(s: State, k: nat) {
    && s.milestones == [Stored(FreshId(k))] && s.index == 0
    && forall id :: id in s.replanCounts ==> id.Str? && |id.s| <= k
  }

  lemma RenamingStep(s: State, k: nat, config: Config)
    requires RenamingState(s, k) && NoMemory(config) && config.replanBudget >= 1
    ensures var next := AfterRound(s, Replanning(Renaming(k)), config);
      next.Goes? && RenamingState(next.state, k + 1)
  {
    hide AfterRound, ApplyOps, Stored;
    FreshIdIsPlain(k);
    FreshIdIsPlain(k + 1);
    StoredIsPending(FreshId(k));
    StoredIsPending(FreshId(k + 1));
    RenamingPatch(k);
    ReplanningRound(s, Renaming(k), [Stored(FreshId(k + 1))], config);
  }

  lemma OneMoreRound(s: State, round: Round, rest: seq<Round>, config: Config)
    requires s.index < |s.milestones| && AfterRound(s, round, config).Goes?
    ensures Mission.RunFrom(s, [round] + rest, config).state
         == Mission.RunFrom(AfterRound(s, round, config).state, rest, config).state
    ensures Mission.RunFrom(s, [round] + rest, config).ending
         == Mission.RunFrom(AfterRound(s, round, config).state, rest, config).ending
    ensures Mission.RunFrom(s, [round] + rest, config).rounds
         == Mission.RunFrom(AfterRound(s, round, config).state, rest, config).rounds + 1
  {
    hide AfterRound;
    assert ([round] + rest)[1..] == rest;
  }

  /** Replan budgets alone do not end a mission: a planner that keeps replacing the milestone in
      hand by one with a new id keeps it going for any number of rounds. */
  lemma {:induction false} FreshIdsNeverEnd(s: State, k: nat, n: nat, config: Config)
    requires RenamingState(s, k) && NoMemory(config) && config.replanBudget >= 1
    ensures var final := Mission.RunFrom(s, RenamingRounds(k, n), config);
      final.rounds == n && final.ending == Stopped && RenamingState(final.state, k + n)
    decreases n
  {
    hide AfterRound, Stored, Renaming;
    if n > 0 {
      hide Mission.RunFrom;
      RenamingStep(s, k, config);
      var round := Replanning(Renaming(k));
      FreshIdsNeverEnd(AfterRound(s, round, config).state, k + 1, n - 1, config);
      OneMoreRound(s, round, RenamingRounds(k + 1, n - 1), config);
    }
  }

  // ---------------------------------------------------------------- a milestone that is skipped

  lemma {:induction false} ThreeRounds(s0: State, s1: State, s2: State, s3: State, rounds: seq<Round>, config: Config)
    requires |rounds| == 3 && s0.index < |s0.milestones| && s1.index < |s1.milestones| && s2.index < |s2.milestones|
    requires AfterRound(s0, rounds[0], config) == Goes(s1) && AfterRound(s1, rounds[1], config) == Goes(s2)
    requires AfterRound(s2, rounds[2], config) == Goes(s3) && s3.index >= |s3.milestones|
    ensures Mission.RunFrom(s0, rounds, config) == Final(s3, WalkedOff, 3)
  {
    hide AfterRound;
    assert Mission.RunFrom(s3, [], config) == Final(s3, WalkedOff, 0);
    assert rounds[2..][1..] == [] && Mission.RunFrom(s2, rounds[2..], config) == Final(s3, WalkedOff, 1);
    assert rounds[1..][1..] == rounds[2..] && Mission.RunFrom(s1, rounds[1..], config) == Final(s3, WalkedOff, 2);
  }

  /** A round in between inserts x before the milestone in hand. */
  lemma SkipsInserted(a: Dict, x: Dict, b: Dict, operations: seq<Json>, config: Config)
    requires NoMemory(config) && config.replanBudget >= 1 && operations != []
    requires ApplyOps([Done(a), b], operations) == Ok([Done(a), x, b])
    requires FirstWithId([Done(a), x, b], MissionId(b)) == Some(2) && !IsDone(x)
    ensures var final := Mission.RunFrom(Mission.Begin([a, b], {}), [PASSING, Replanning(operations), PASSING], config);
      final.ending == WalkedOff && Reported(final) == MissionPartial && x in final.state.milestones
  {
    hide AfterRound, ApplyOps, Done, IsDone, MissionId, FirstWithId, Mission.RunFrom;
    var rounds := [PASSING, Replanning(operations), PASSING];
    var s0 := Mission.Begin([a, b], {});
    PassingRound(s0, config);
    var s1 := AfterRound(s0, PASSING, config).state;
    assert s1.milestones == [Done(a), b] && s1.index == 1;
    ReplanningRound(s1, operations, [Done(a), x, b], config);
    var s2 := AfterRound(s1, rounds[1], config).state;
    PassingRound(s2, config);
    var s3 := AfterRound(s2, PASSING, config).state;
    assert s3.milestones == [Done(a), x, Done(b)] && s3.index == 3 && s3.passed == 2;
    ThreeRounds(s0, s1, s2, s3, rounds, config);
    assert x in s3.milestones;
  }

  /** A run in which work is inserted before the milestone in hand: the loop does not go back for it, and
      the mission walks off the end of its plan without being complete. */
  lemma SkippingRun(config: Config)
    requires NoMemory(config) && config.replanBudget >= 1
    ensures var ms := [Stored("A"), Stored("B")];
      var rounds := [PASSING, Replanning([InsertOp("A", "X")]), PASSING];
      var final := Mission.RunFrom(Mission.Begin(ms, {}), rounds, config);
      final.ending == WalkedOff && Reported(final) == MissionPartial && Stored("X") in final.state.milestones
  {
    hide ApplyOps, ApplyOp, Stored, Done, Index, Mission.RunFrom, IsDone;
    var a, x, b := Stored("A"), Stored("X"), Stored("B");
    StoredIsPending("A");
    StoredIsPending("X");
    StoredIsPending("B");
    var ms := [Done(a), b];
    IndexOfTwo(Done(a), b, "A", "B");
    InsertSample(ms, "A", "X");
    assert InsertAt(ms, 1, x) == [Done(a), x, b];
    OneOp(ms, InsertOp("A", "X"), [Done(a), x, b]);
    FirstIsAt([Done(a), x, b], Str("B"), 2);
    SkipsInserted(a, x, b, [InsertOp("A", "X")], config);
  }

  lemma FirstIsAt(ms: seq<Dict>, id: Json, k: nat)
    requires k < |ms| && Carries(ms[k], id) && forall i :: 0 <= i < k ==> !Carries(ms[i], id)
    ensures FirstWithId(ms, id) == Some(k)
  {
    assert FirstWithId(ms, id).Some?;
  }
}
