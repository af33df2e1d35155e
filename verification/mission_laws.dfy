/** What the supervisor guarantees for every verdict, every failure and every planner. */
module MissionLaws {
  import opened JsonValues
  import opened Text
  import opened PlanOps
  import opened PlanPatchLaws
  import opened MilestoneLoop
  import MilestoneLaws
  import opened Mission
  import opened MissionPatches

  // ---------------------------------------------------------------- counting replans

  /** n * c, by repeated addition. */
  function Times(n: nat, c: nat): nat {
    if n == 0 then 0 else Times(n - 1, c) + c
  }

  lemma {:induction false} TimesIsProduct(n: nat, c: nat)
    ensures Times(n, c) == n * c
  {
    if n > 0 {
      TimesIsProduct(n - 1, c);
      assert n * c == (n - 1) * c + c;
    }
  }

  lemma ProductGrows(m: nat, n: nat, c: nat)
    requires m <= n
    ensures m * c <= n * c
  {
    TimesGrows(m, n, c);
    TimesIsProduct(m, c);
    TimesIsProduct(n, c);
  }

  lemma {:induction false} TimesGrows(m: nat, n: nat, c: nat)
    requires m <= n
    ensures Times(m, c) <= Times(n, c)
    decreases n
  {
    if m < n {
      TimesGrows(m, n - 1, c);
    }
  }

  ghost function Total(counts: map<Json, nat>): nat {
    if counts == map[] then 0
    else var id :| id in counts; counts[id] + Total(counts - {id})
  }

  lemma {:induction false} TotalWithout(counts: map<Json, nat>, id: Json)
    requires id in counts
    ensures Total(counts) == counts[id] + Total(counts - {id})
    decreases counts
  {
    var first :| first in counts && Total(counts) == counts[first] + Total(counts - {first});
    if first != id {
      var less := counts - {first};
      TotalWithout(less, id);
      assert (counts - {first}) - {id} == (counts - {id}) - {first};
      TotalWithout(counts - {id}, first);
    }
  }

  lemma TotalAfterReplan(counts: map<Json, nat>, id: Json)
    ensures Total(counts[id := (if id in counts then counts[id] else 0) + 1]) == Total(counts) + 1
  {
    var after := counts[id := (if id in counts then counts[id] else 0) + 1];
    TotalWithout(after, id);
    if id in counts {
      TotalWithout(counts, id);
      assert after - {id} == counts - {id};
    } else {
      assert after - {id} == counts;
    }
  }

  lemma {:induction false} TotalBound(counts: map<Json, nat>, budget: nat)
    requires forall id :: id in counts ==> counts[id] <= budget
    ensures Total(counts) <= Times(|counts|, budget)
    decreases counts
  {
    if counts != map[] {
      var id :| id in counts && Total(counts) == counts[id] + Total(counts - {id});
      var rest := counts - {id};
      TotalBound(rest, budget);
      assert rest.Keys == counts.Keys - {id};
      assert |rest| == |counts| - 1;
    }
  }

  // ---------------------------------------------------------------- termination

  /** Every plan the loop works on during this run has at most `limit` milestones. */
  ghost predicate PlansWithin(s: State, rounds: seq<Round>, config: Config, limit: nat)
    decreases |rounds|
  {
    && |s.milestones| <= limit
    && (s.index < |s.milestones| && rounds != [] && AfterRound(s, rounds[0], config).Goes? ==>
          PlansWithin(AfterRound(s, rounds[0], config).state, rounds[1..], config, limit))
  }

  ghost predicate WithinReplanBudget(s: State, config: Config) {
    forall id :: id in s.replanCounts ==> 0 < s.replanCounts[id] <= config.replanBudget
  }

  /** What a round costs: it either advances the loop by one, or uses up one replan. */
  ghost predicate Progress(s: State, next: Step, id: Json, config: Config) {
    var t := next.state;
    && WithinReplanBudget(t, config)
    && s.replanCounts.Keys <= t.replanCounts.Keys <= s.replanCounts.Keys + {id}
    && Total(s.replanCounts) <= Total(t.replanCounts) <= Total(s.replanCounts) + 1
    && (next.Goes? ==>
         || (t.index == s.index + 1 && t.replanCounts == s.replanCounts)
         || (Total(t.replanCounts) == Total(s.replanCounts) + 1 && (t.index < |t.milestones| || t.index == s.index)))
  }

  lemma ReplanProgress(s: State, id: Json, fingerprint: string, replies: seq<Option<Dict>>, config: Config)
    requires WithinReplanBudget(s, config)
    ensures Progress(s, AfterReplan(s, id, fingerprint, replies, config), id, config)
    ensures AfterReplan(s, id, fingerprint, replies, config).state.runs == s.runs
  {
    hide Total, RequestedPatch, Reanchored;
    TotalAfterReplan(s.replanCounts, id);
    ReanchoredInRange(s, replies, id);
  }

  lemma ReanchoredInRange(s: State, replies: seq<Option<Dict>>, id: Json)
    ensures var patched := RequestedPatch(s.milestones, replies);
      patched.Some? ==>
        Reanchored(patched.value, id, s.index) < |patched.value| || Reanchored(patched.value, id, s.index) == s.index
  {
    hide RequestedPatch;
  }

  lemma PassProgress(s: State, remember: bool, id: Json, config: Config)
    requires s.index < |s.milestones| && WithinReplanBudget(s, config)
    ensures Progress(s, Goes(AfterPass(s, remember)), id, config)
  {
  }

  lemma RoundProgress(s: State, round: Round, config: Config)
    requires s.index < |s.milestones| && WithinReplanBudget(s, config)
    ensures Progress(s, AfterRound(s, round, config), MissionId(s.milestones[s.index]), config)
    ensures s.runs <= AfterRound(s, round, config).state.runs <= s.runs + MAX_RETRY_CYCLES
  {
    hide AfterReplan, MilestoneRun;
    var id := MissionId(s.milestones[s.index]);
    var run := MilestoneRun(config.tools, round.attempts, config.limits, config.searcher);
    var s' := s.(runs := s.runs + run.state.runs);
    MilestoneLaws.AtMostThreeRuns(config.tools, round.attempts, config.limits, config.searcher);
    PassProgress(s, false, id, config);
    PassProgress(s', config.memoryEnabled, id, config);
    if run.handoff.ReplanRequested? {
      ReplanProgress(s', id, run.handoff.fingerprint, round.replies, config);
    }
  }

  lemma {:induction false} RoundsFrom(s: State, rounds: seq<Round>, config: Config, limit: nat)
    requires s.index <= limit && WithinReplanBudget(s, config) && PlansWithin(s, rounds, config, limit)
    ensures var final := RunFrom(s, rounds, config);
      && WithinReplanBudget(final.state, config)
      && Total(s.replanCounts) <= Total(final.state.replanCounts)
      && final.rounds + s.index <= Times(Total(final.state.replanCounts) - Total(s.replanCounts) + 1, limit)
      && final.state.runs <= s.runs + MAX_RETRY_CYCLES * final.rounds
    decreases |rounds|
  {
    hide AfterRound;
    if s.index < |s.milestones| && rounds != [] {
      RoundProgress(s, rounds[0], config);
      match AfterRound(s, rounds[0], config) {
        case Stops(s', _) =>
          TimesGrows(1, Total(s'.replanCounts) - Total(s.replanCounts) + 1, limit);
        case Goes(s') =>
          assert s'.index <= limit;
          RoundsFrom(s', rounds[1..], config, limit);
      }
    }
  }

  lemma BoundAsProduct(rounds: nat, total: nat, n: nat, budget: nat, limit: nat)
    requires rounds <= Times(total + 1, limit) && total <= Times(n, budget)
    ensures rounds <= (n * budget + 1) * limit
  {
    TimesGrows(total + 1, Times(n, budget) + 1, limit);
    TimesIsProduct(n, budget);
    TimesIsProduct(n * budget + 1, limit);
  }

  lemma BoundGrows(rounds: nat, n: nat, m: nat, budget: nat, limit: nat)
    requires rounds <= (n * budget + 1) * limit && n <= m
    ensures rounds <= (m * budget + 1) * limit
  {
    ProductGrows(n, m, budget);
    ProductGrows(n * budget + 1, m * budget + 1, limit);
  }

  /** The replan budget; a negative one allows as little as none. */
  function Replans(config: Config): nat {
    if config.replanBudget > 0 then config.replanBudget else 0
  }

  /** However the workers, the validator and the planner behave, a mission's rounds are bounded by
      the number of distinct milestones it replanned and the longest plan it worked on, and each
      round costs at most three implementer runs. So a mission that never ends must replan
      infinitely many distinct milestones. */
  lemma MissionRoundsBound(ms: seq<Dict>, memory: set<string>, rounds: seq<Round>, config: Config, limit: nat)
    requires PlansWithin(Mission.Begin(ms, memory), rounds, config, limit)
    ensures var final := RunFrom(Mission.Begin(ms, memory), rounds, config);
      && final.rounds <= (|final.state.replanCounts| * Replans(config) + 1) * limit
      && final.state.runs <= MAX_RETRY_CYCLES * final.rounds
  {
    hide RunFrom, PlansWithin, Times, Total;
    RoundsFrom(Mission.Begin(ms, memory), rounds, config, limit);
    NothingReplanned();
    var final := RunFrom(Mission.Begin(ms, memory), rounds, config);
    var n := |final.state.replanCounts|;
    TotalBound(final.state.replanCounts, Replans(config));
    BoundAsProduct(final.rounds, Total(final.state.replanCounts), n, Replans(config), limit);
  }

  lemma NothingReplanned()
    ensures Total(map[]) == 0
  {
  }

  // ---------------------------------------------------------------- a finite universe of ids

  /** A plan whose milestones have distinct text ids, all from `universe`. */
  ghost predicate PlanFrom(ms: seq<Dict>, universe: set<string>) {
    && UniqueIds(ms)
    && forall i :: 0 <= i < |ms| ==> TextIdFrom(ms[i], universe)
  }

  ghost predicate OpFrom(op: Json, universe: set<string>) {
    op.Obj? && Get(op.fields, "op", Null) == Str("insert_milestone_after")
      && Get(op.fields, "milestone", Null).Obj? ==>
      var id := Get(op.fields["milestone"].fields, "id", Null);
      id.Str? && id.s != "" && Trimmed(id.s) && id.s in universe
  }

  /** Every milestone that an applied patch of this run inserts has an id from `universe`. */
  ghost predicate DrawsFrom(s: State, rounds: seq<Round>, universe: set<string>, config: Config)
    decreases |rounds|
  {
    s.index < |s.milestones| && rounds != [] ==>
      && (PatchTaken(s, rounds[0], config).Some? ==>
            forall op :: op in PatchTaken(s, rounds[0], config).value ==> OpFrom(op, universe))
      && (AfterRound(s, rounds[0], config).Goes? ==>
            DrawsFrom(AfterRound(s, rounds[0], config).state, rounds[1..], universe, config))
  }

  lemma {:induction false} PlanFromIsShort(ms: seq<Dict>, universe: set<string>)
    requires PlanFrom(ms, universe)
    ensures |ms| <= |universe|
  {
    if ms != [] {
      var n := |ms| - 1;
      var last := ms[n]["id"].s;
      assert forall i :: 0 <= i < n ==> Id(ms[i]) != Id(ms[n]);
      PlanFromIsShort(ms[..n], universe - {last});
    }
  }

  lemma {:induction false} PatchStaysFrom(ms: seq<Dict>, ops: seq<Json>, position: nat, universe: set<string>)
    requires PlanFrom(ms, universe) && ApplyOps(ms, ops, position).Ok?
    requires forall op :: op in ops ==> OpFrom(op, universe)
    ensures PlanFrom(ApplyOps(ms, ops, position).value, universe)
    decreases |ops|
  {
    if ops != [] {
      OpStaysFrom(ms, ops[0], position, universe);
      PatchStaysFrom(ApplyOp(ms, ops[0], position).value, ops[1..], position + 1, universe);
    }
  }

  ghost predicate TextIdFrom(m: Dict, universe: set<string>) {
    "id" in m && m["id"].Str? && m["id"].s != "" && m["id"].s in universe
  }

  lemma InsertStaysFrom(ms: seq<Dict>, op: Dict, universe: set<string>)
    requires PlanFrom(ms, universe) && Insert(ms, op).Ok? && OpFrom(Obj(op), universe)
    requires Get(op, "op", Null) == Str("insert_milestone_after")
    ensures forall i :: 0 <= i < |Insert(ms, op).value| ==> TextIdFrom(Insert(ms, op).value[i], universe)
  {
    hide Index, TextField, InsertAt, UniqueIds;
    var k := Index(ms)[TextField(op, "after_id")] + 1;
    var m := NewMilestone(op["milestone"], Index(ms).Keys).value;
    InsertAtIndex(ms, k, m);
    var out := Insert(ms, op).value;
    assert TextIdFrom(m, universe);
    forall i | 0 <= i < |out| && i != k ensures TextIdFrom(out[i], universe) {
      assert out[i] == ms[if i < k then i else i - 1];
    }
  }

  lemma RemoveStaysFrom(ms: seq<Dict>, op: Dict, universe: set<string>)
    requires PlanFrom(ms, universe) && Remove(ms, op).Ok?
    ensures forall i :: 0 <= i < |Remove(ms, op).value| ==> TextIdFrom(Remove(ms, op).value[i], universe)
  {
    hide Index, TextField, RemoveAt, UniqueIds, Completed;
    var id := TextField(op, "milestone_id");
    var k := Index(ms)[id];
    RemoveAtIndex(ms, k);
    var out := Remove(ms, op).value;
    forall i | 0 <= i < |out| ensures TextIdFrom(out[i], universe) {
      var m := ms[if i < k then i else i + 1];
      assert RemoveAt(ms, k)[i] == m && out[i] == DropDependency(m, id);
    }
  }

  lemma OpStaysFrom(ms: seq<Dict>, op: Json, position: nat, universe: set<string>)
    requires PlanFrom(ms, universe) && ApplyOp(ms, op, position).Ok? && OpFrom(op, universe)
    ensures PlanFrom(ApplyOp(ms, op, position).value, universe)
  {
    var out := ApplyOp(ms, op, position).value;
    OpKeepsIdsUnique(ms, op, position);
    assert op == Obj(op.fields);
    if op.fields["op"] == Str("update_milestone") {
      UpdateKeepsRawIds(ms, op.fields);
    } else if op.fields["op"] == Str("insert_milestone_after") {
      InsertStaysFrom(ms, op.fields, universe);
    } else {
      RemoveStaysFrom(ms, op.fields, universe);
    }
    assert forall i :: 0 <= i < |out| ==> TextIdFrom(out[i], universe);
  }

  lemma UpdateKeepsRawIds(ms: seq<Dict>, op: Dict)
    requires Update(ms, op).Ok?
    ensures |Update(ms, op).value| == |ms|
    ensures forall i :: 0 <= i < |ms| ==>
      Get(Update(ms, op).value[i], "id", Null) == Get(ms[i], "id", Null)
      && ("id" in Update(ms, op).value[i] <==> "id" in ms[i])
  {
  }

  lemma RoundStaysFrom(s: State, round: Round, config: Config, universe: set<string>)
    requires s.index < |s.milestones| && PlanFrom(s.milestones, universe)
    requires PatchTaken(s, round, config).Some? ==>
      forall op :: op in PatchTaken(s, round, config).value ==> OpFrom(op, universe)
    ensures PlanFrom(AfterRound(s, round, config).state.milestones, universe)
  {
    hide AfterRound, PatchTaken, PlanFrom, OpFrom, ApplyOps, Done;
    RoundMoves(s, round, config);
    if PatchTaken(s, round, config).Some? {
      PatchStaysFrom(s.milestones, PatchTaken(s, round, config).value, 0, universe);
    }
    DoneStaysFrom(s.milestones, s.index, universe);
  }

  lemma DoneStaysFrom(ms: seq<Dict>, k: nat, universe: set<string>)
    requires PlanFrom(ms, universe) && k < |ms|
    ensures PlanFrom(ms[k := Done(ms[k])], universe)
  {
    var out := ms[k := Done(ms[k])];
    assert forall i :: 0 <= i < |ms| ==> Id(out[i]) == Id(ms[i]);
  }

  ghost predicate TextKeys(counts: map<Json, nat>, universe: set<string>) {
    forall id :: id in counts ==> id.Str? && id.s in universe
  }

  lemma {:induction false} RunStaysFrom(s: State, rounds: seq<Round>, config: Config, universe: set<string>)
    requires PlanFrom(s.milestones, universe) && TextKeys(s.replanCounts, universe) && WithinReplanBudget(s, config)
    requires DrawsFrom(s, rounds, universe, config)
    ensures PlansWithin(s, rounds, config, |universe|)
    ensures TextKeys(RunFrom(s, rounds, config).state.replanCounts, universe)
    decreases |rounds|
  {
    hide AfterRound, PlanFrom, PatchTaken, OpFrom;
    PlanFromIsShort(s.milestones, universe);
    if s.index < |s.milestones| && rounds != [] {
      HeadIsFrom(s, universe);
      RoundStaysFrom(s, rounds[0], config, universe);
      RoundProgress(s, rounds[0], config);
      if AfterRound(s, rounds[0], config).Goes? {
        RunStaysFrom(AfterRound(s, rounds[0], config).state, rounds[1..], config, universe);
      }
    }
  }

  lemma HeadIsFrom(s: State, universe: set<string>)
    requires s.index < |s.milestones| && PlanFrom(s.milestones, universe)
    ensures var id := MissionId(s.milestones[s.index]); id.Str? && id.s in universe
  {
  }

  lemma TextKeysAreFew(counts: map<Json, nat>, universe: set<string>)
    requires TextKeys(counts, universe)
    ensures |counts| <= |universe|
  {
    TextSetIsSmall(counts.Keys, universe);
    assert |counts| == |counts.Keys|;
  }

  lemma {:induction false} TextSetIsSmall(keys: set<Json>, universe: set<string>)
    requires forall id :: id in keys ==> id.Str? && id.s in universe
    ensures |keys| <= |universe|
    decreases keys
  {
    if keys != {} {
      var id :| id in keys;
      TextSetIsSmall(keys - {id}, universe - {id.s});
    }
  }

  /** As long as the patches it applies draw ids from a finite universe, every mission ends. */
  lemma MissionTerminates(ms: seq<Dict>, memory: set<string>, rounds: seq<Round>, config: Config, universe: set<string>)
    requires PlanFrom(ms, universe) && DrawsFrom(Mission.Begin(ms, memory), rounds, universe, config)
    ensures var final := RunFrom(Mission.Begin(ms, memory), rounds, config);
      && final.rounds <= (|universe| * Replans(config) + 1) * |universe|
      && final.state.runs <= MAX_RETRY_CYCLES * final.rounds
  {
    hide RunFrom, PlansWithin, Times, Total, DrawsFrom;
    var s := Mission.Begin(ms, memory);
    RunStaysFrom(s, rounds, config, universe);
    MissionRoundsBound(ms, memory, rounds, config, |universe|);
    var final := RunFrom(s, rounds, config);
    TextKeysAreFew(final.state.replanCounts, universe);
    BoundGrows(final.rounds, |final.state.replanCounts|, |universe|, Replans(config), |universe|);
  }

  // ---------------------------------------------------------------- what "completed" means

  /** During this run, some round found `id` at its head and passed it, or skipped it because it was
      remembered as completed. */
  ghost predicate Earned(s: State, rounds: seq<Round>, config: Config, id: Json)
    decreases |rounds|
  {
    s.index < |s.milestones| && rounds != [] &&
    (|| (MissionId(s.milestones[s.index]) == id &&
          (|| Answered(s, config)
           || MilestoneRun(config.tools, rounds[0].attempts, config.limits, config.searcher).handoff == Passed))
     || (AfterRound(s, rounds[0], config).Goes? &&
          Earned(AfterRound(s, rounds[0], config).state, rounds[1..], config, id)))
  }

  ghost predicate DoneIn(ms: seq<Dict>, id: Json) {
    exists m :: m in ms && IsDone(m) && MissionId(m) == id
  }

  lemma {:induction false} FinishedIff(ms: seq<Dict>, core: Dict)
    ensures core in Finished(ms) <==> exists m :: m in ms && Completed(m) && m - {"depends_on"} == core
  {
    if ms != [] {
      FinishedIff(ms[1..], core);
      assert forall m :: m in ms <==> m == ms[0] || m in ms[1..];
    }
  }

  lemma SameCore(a: Dict, b: Dict)
    requires a - {"depends_on"} == b - {"depends_on"}
    ensures MissionId(a) == MissionId(b) && (IsDone(a) <==> IsDone(b))
  {
    forall k | k != "depends_on" ensures k in a <==> k in b ensures k in a ==> a[k] == b[k] {
      assert k in a <==> k in (a - {"depends_on"});
      assert k in b <==> k in (b - {"depends_on"});
      if k in a {
        assert (a - {"depends_on"})[k] == (b - {"depends_on"})[k];
      }
    }
  }

  lemma DoneIsCompleted(m: Dict)
    requires IsDone(m)
    ensures Completed(m)
  {
    assert Lower("completed") == "completed";
  }

  lemma PatchAddsNoDone(ms: seq<Dict>, ops: seq<Json>, id: Json)
    requires ApplyOps(ms, ops).Ok? && DoneIn(ApplyOps(ms, ops).value, id)
    ensures DoneIn(ms, id)
  {
    var out := ApplyOps(ms, ops).value;
    var m :| m in out && IsDone(m) && MissionId(m) == id;
    DoneIsCompleted(m);
    PatchKeepsFinishedWork(ms, ops);
    FinishedIff(out, m - {"depends_on"});
    FinishedIff(ms, m - {"depends_on"});
    var m0 :| m0 in ms && Completed(m0) && m0 - {"depends_on"} == m - {"depends_on"};
    SameCore(m0, m);
  }

  lemma PassDone(ms: seq<Dict>, k: nat, id: Json)
    requires k < |ms| && DoneIn(ms[k := Done(ms[k])], id)
    ensures DoneIn(ms, id) || MissionId(ms[k]) == id
  {
    var out := ms[k := Done(ms[k])];
    var m :| m in out && IsDone(m) && MissionId(m) == id;
    var i :| 0 <= i < |out| && out[i] == m;
    if i != k {
      assert ms[i] == m;
    }
  }

  lemma RoundDone(s: State, rounds: seq<Round>, config: Config, id: Json)
    requires s.index < |s.milestones| && rounds != []
    requires DoneIn(AfterRound(s, rounds[0], config).state.milestones, id)
    ensures DoneIn(s.milestones, id) || Earned(s, rounds, config, id)
  {
    hide AfterRound, PatchTaken, MilestoneRun, Answered, ApplyOps, Done, DoneIn, MissionId;
    RoundMoves(s, rounds[0], config);
    match PatchTaken(s, rounds[0], config) {
      case Some(ops) => PatchAddsNoDone(s.milestones, ops, id);
      case None =>
        if AfterRound(s, rounds[0], config).Goes? {
          PassDone(s.milestones, s.index, id);
        }
    }
  }

  lemma {:induction false} DoneIsEarned(s: State, rounds: seq<Round>, config: Config, id: Json)
    requires DoneIn(RunFrom(s, rounds, config).state.milestones, id)
    ensures DoneIn(s.milestones, id) || Earned(s, rounds, config, id)
    decreases |rounds|
  {
    hide AfterRound, DoneIn, MilestoneRun, Answered;
    if s.index < |s.milestones| && rounds != [] {
      var next := AfterRound(s, rounds[0], config);
      if next.Goes? {
        DoneIsEarned(next.state, rounds[1..], config, id);
      }
      if DoneIn(next.state.milestones, id) {
        RoundDone(s, rounds, config, id);
      }
    }
  }

  /** A mission reported completed counted as many passes as its plan has milestones, and each of
      them passed in this run, was remembered as completed, or was completed when the run began. */
  lemma CompletedIsEarned(ms: seq<Dict>, memory: set<string>, rounds: seq<Round>, config: Config, m: Dict)
    requires Reported(RunFrom(Mission.Begin(ms, memory), rounds, config)) == MissionCompleted
    requires m in RunFrom(Mission.Begin(ms, memory), rounds, config).state.milestones
    ensures RunFrom(Mission.Begin(ms, memory), rounds, config).state.passed
         == |RunFrom(Mission.Begin(ms, memory), rounds, config).state.milestones|
    ensures DoneIn(ms, MissionId(m)) || Earned(Mission.Begin(ms, memory), rounds, config, MissionId(m))
  {
    DoneIsEarned(Mission.Begin(ms, memory), rounds, config, MissionId(m));
  }
}
