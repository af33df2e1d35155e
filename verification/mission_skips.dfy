/** Milestones that the loop has gone past: which insertions make one, and that the loop never goes back
    for it. */
module MissionSkips {
  import opened JsonValues
  import opened Text
  import opened PlanOps
  import opened PlanPatchLaws
  import opened Worker
  import opened MilestoneLoop
  import opened Mission
  import opened MissionPatches
  import opened MissionLaws
  import opened MissionOrder

  ghost predicate AllNamed(ms: seq<Dict>) {
    forall i :: 0 <= i < |ms| ==> Id(ms[i]).Some?
  }

  /** Nothing from the head on carries this id. */
  ghost predicate PassedBy(ms: seq<Dict>, index: nat, x: string) {
    UniqueIds(ms) && AllNamed(ms) && forall i :: index <= i < |ms| ==> Id(ms[i]) != Some(x)
  }

  lemma CarriedId(m: Dict, raw: Json)
    requires Truthy(raw)
    ensures Carries(m, raw) ==> Id(m) == Some(PyStr(raw))
  {
  }

  lemma OwnId(m: Dict)
    requires Id(m).Some?
    ensures Carries(m, MissionId(m)) && Truthy(MissionId(m)) && Id(m) == Some(PyStr(MissionId(m)))
  {
  }

  /** With unique ids the loop continues at the milestone in hand, wherever it is now. */
  lemma ReanchoredAt(ms: seq<Dict>, raw: Json, p: nat, index: nat)
    requires UniqueIds(ms) && Truthy(raw) && p < |ms| && Carries(ms[p], raw)
    ensures Reanchored(ms, raw, index) == p
  {
    hide Id, PyStr, Carries;
    forall i | 0 <= i < |ms| ensures Carries(ms[i], raw) ==> Id(ms[i]) == Some(PyStr(raw)) {
      CarriedId(ms[i], raw);
    }
  }

  lemma ReanchoredGone(ms: seq<Dict>, raw: Json, index: nat)
    requires !HasId(ms, PyStr(raw)) && Truthy(raw)
    ensures Reanchored(ms, raw, index) == index
  {
    hide Id, PyStr, Carries;
    forall i | 0 <= i < |ms| ensures Carries(ms[i], raw) ==> Id(ms[i]) == Some(PyStr(raw)) {
      CarriedId(ms[i], raw);
    }
  }

  // ---------------------------------------------------------------- which insertions are passed by

  lemma PositionsAfterInsert(ms: seq<Dict>, k: nat, m: Dict, n: nat, raw: Json)
    requires Anchored(ms, n, raw) && k <= |ms| && Truthy(raw)
    requires Id(m).Some? && Id(m).value != PyStr(raw) && !HasId(ms, Id(m).value)
    ensures Reanchored(InsertAt(ms, k, m), raw, n) == if HasId(ms, PyStr(raw)) && k <= n then n + 1 else n
  {
    InsertedAmongUnique(ms, k, m);
    hide InsertAt, PyStr, UniqueIds, IsDone, Truthy;
    InsertAtIndex(ms, k, m);
    var out := InsertAt(ms, k, m);
    if HasId(ms, PyStr(raw)) {
      ReanchoredAt(out, raw, if k <= n then n + 1 else n, n);
    } else {
      assert forall j :: 0 <= j < |out| && j != k ==> out[j] == ms[if j < k then j else j - 1];
      ReanchoredGone(out, raw, n);
    }
  }

  lemma PassedByAfterInsertIff(ms: seq<Dict>, k: nat, m: Dict, p: nat, x: string)
    requires UniqueIds(ms) && AllNamed(ms) && k <= |ms| && Id(m) == Some(x) && !HasId(ms, x)
    ensures PassedBy(InsertAt(ms, k, m), p, x) <==> k < p
    ensures forall c :: c in InsertAt(ms, k, m) && Id(c) == Some(x) ==> c == m
  {
    InsertedAmongUnique(ms, k, m);
    hide InsertAt, UniqueIds, Id;
    InsertAtIndex(ms, k, m);
    var out := InsertAt(ms, k, m);
    forall j | 0 <= j < |out| && j != k ensures Id(out[j]).Some? && Id(out[j]) != Some(x) {
      assert out[j] == ms[if j < k then j else j - 1];
    }
  }

  /** With a finished plan before it, an accepted insertion of new work is passed by if and only if it goes
      in before the milestone in hand, or, should that be gone, before its place. */
  lemma InsertedIsPassedByIff(ms: seq<Dict>, op: Dict, n: nat, raw: Json, x: string)
    requires Anchored(ms, n, raw) && Truthy(raw) && Insert(ms, op).Ok?
    requires Id(op["milestone"].fields) == Some(x) && x != PyStr(raw) && !HasId(ms, x)
    ensures var out := Insert(ms, op).value; var k := Index(ms)[TextField(op, "after_id")] + 1;
      PassedBy(out, Reanchored(out, raw, n), x) <==> if HasId(ms, PyStr(raw)) then k <= n else k < n
    ensures forall c :: c in Insert(ms, op).value && Id(c) == Some(x) ==> !IsDone(c)
  {
    hide InsertAt, PyStr, UniqueIds, IsDone, Truthy, Index, Id, Reanchored, NewMilestone, TextField, HasId, PassedBy;
    var k := Index(ms)[TextField(op, "after_id")] + 1;
    InsertedCandidate(ms, op);
    var m := NewMilestone(op["milestone"], Index(ms).Keys).value;
    NewMilestoneKeepsRawId(op["milestone"], Index(ms).Keys);
    PositionsAfterInsert(ms, k, m, n, raw);
    PassedByAfterInsertIff(ms, k, m, Reanchored(InsertAt(ms, k, m), raw, n), x);
  }

  // ---------------------------------------------------------------- what is passed by stays so

  /** During a replan at `n`: nothing from `n` on, and nothing behind the milestone in hand, carries the id. */
  ghost predicate Behind(ms: seq<Dict>, n: nat, raw: Json, x: string) {
    && PassedBy(ms, n, x)
    && forall i, j :: 0 <= i < j < |ms| && Carries(ms[i], raw) ==> Id(ms[j]) != Some(x)
  }

  /** An op that inserts, if anything, other new work, and none of it before `n`. */
  ghost predicate LeavesBehind(ms: seq<Dict>, op: Json, n: nat, x: string) {
    op.Obj? && Get(op.fields, "op", Null) == Str("insert_milestone_after") && Insert(ms, op.fields).Ok? ==>
      var id := Id(op.fields["milestone"].fields);
      id.Some? && id.value != x && !HasId(ms, id.value) && n <= Index(ms)[TextField(op.fields, "after_id")] + 1
  }

  ghost predicate PatchLeavesBehind(ms: seq<Dict>, ops: seq<Json>, position: nat, n: nat, x: string)
    decreases |ops|
  {
    ops != [] && ApplyOp(ms, ops[0], position).Ok? ==>
      && LeavesBehind(ms, ops[0], n, x)
      && PatchLeavesBehind(ApplyOp(ms, ops[0], position).value, ops[1..], position + 1, n, x)
  }

  /** The patch this round applies, if any, inserts nothing before the head and does not bring the id back. */
  ghost predicate TakesElsewhere(s: State, round: Round, x: string, config: Config)
    requires s.index < |s.milestones|
  {
    PatchTaken(s, round, config).Some? ==>
      PatchLeavesBehind(s.milestones, PatchTaken(s, round, config).value, 0, s.index, x)
  }

  /** No patch applied during this run inserts before the head, or brings the id back. */
  ghost predicate MovesOn(s: State, rounds: seq<Round>, x: string, config: Config)
    decreases |rounds|
  {
    s.index < |s.milestones| && rounds != [] ==>
      && TakesElsewhere(s, rounds[0], x, config)
      && (AfterRound(s, rounds[0], config).Goes? ==>
            MovesOn(AfterRound(s, rounds[0], config).state, rounds[1..], x, config))
  }

  lemma BehindInsert(ms: seq<Dict>, k: nat, m: Dict, n: nat, raw: Json, x: string)
    requires Behind(ms, n, raw, x) && n <= k <= |ms|
    requires Id(m).Some? && Id(m).value != x && !HasId(ms, Id(m).value)
    ensures Behind(InsertAt(ms, k, m), n, raw, x)
  {
    InsertedAmongUnique(ms, k, m);
    hide InsertAt, UniqueIds, Id, Carries;
    InsertAtIndex(ms, k, m);
    var out := InsertAt(ms, k, m);
    forall j | 0 <= j < |out| && j != k ensures out[j] == ms[if j < k then j else j - 1] {
    }
    forall i, j | 0 <= i < j < |out| && Carries(out[i], raw) ensures Id(out[j]) != Some(x) {
      if j > k {
        assert out[j] == ms[j - 1] && n <= j - 1;
      }
    }
  }

  lemma BehindRemove(ms: seq<Dict>, k: nat, n: nat, raw: Json, x: string)
    requires Behind(ms, n, raw, x) && k < |ms|
    ensures Behind(RemoveAt(ms, k), n, raw, x)
  {
    hide RemoveAt, Id, Carries;
    RemoveAtIndex(ms, k);
    var out := RemoveAt(ms, k);
    assert forall j :: 0 <= j < |out| ==> out[j] == ms[if j < k then j else j + 1];
  }

  lemma BehindPointwise(ms: seq<Dict>, out: seq<Dict>, n: nat, raw: Json, x: string)
    requires Behind(ms, n, raw, x) && |out| == |ms|
    requires forall i :: 0 <= i < |ms| ==> Id(out[i]) == Id(ms[i]) && (Carries(out[i], raw) <==> Carries(ms[i], raw))
    ensures Behind(out, n, raw, x)
  {
    hide Id, Carries;
  }

  lemma DropKeepsIds(m: Dict, id: string, raw: Json)
    ensures Id(DropDependency(m, id)) == Id(m) && (Carries(DropDependency(m, id), raw) <==> Carries(m, raw))
  {
  }

  lemma BehindDrop(ms: seq<Dict>, id: string, n: nat, raw: Json, x: string)
    requires Behind(ms, n, raw, x)
    ensures Behind(DropEverywhere(ms, id), n, raw, x)
  {
    hide Id, Carries, DropDependency, Behind;
    var out := DropEverywhere(ms, id);
    forall i | 0 <= i < |ms| ensures Id(out[i]) == Id(ms[i]) && (Carries(out[i], raw) <==> Carries(ms[i], raw)) {
      DropKeepsIds(ms[i], id, raw);
    }
    BehindPointwise(ms, out, n, raw, x);
  }

  lemma BehindOp(ms: seq<Dict>, op: Json, position: nat, n: nat, raw: Json, x: string)
    requires Behind(ms, n, raw, x) && ApplyOp(ms, op, position).Ok? && LeavesBehind(ms, op, n, x)
    ensures Behind(ApplyOp(ms, op, position).value, n, raw, x)
  {
    hide Behind, Id, Update, Index, HasId, TextField, InsertAt, RemoveAt, DropEverywhere, Completed, NewMilestone;
    var d := op.fields;
    if d["op"] == Str("update_milestone") {
      UpdateKeepsRawIds(ms, d);
      UpdateKeepsIds(ms, d);
      BehindPointwise(ms, Update(ms, d).value, n, raw, x);
    } else if d["op"] == Str("insert_milestone_after") {
      var m := NewMilestone(Get(d, "milestone", Null), Index(ms).Keys).value;
      InsertedCandidate(ms, d);
      NewMilestoneKeepsRawId(d["milestone"], Index(ms).Keys);
      BehindInsert(ms, Index(ms)[TextField(d, "after_id")] + 1, m, n, raw, x);
    } else {
      var id := TextField(d, "milestone_id");
      BehindRemove(ms, Index(ms)[id], n, raw, x);
      BehindDrop(RemoveAt(ms, Index(ms)[id]), id, n, raw, x);
    }
  }

  lemma {:induction false} BehindPatch(ms: seq<Dict>, ops: seq<Json>, position: nat, n: nat, raw: Json, x: string)
    requires Behind(ms, n, raw, x) && ApplyOps(ms, ops, position).Ok?
    requires PatchLeavesBehind(ms, ops, position, n, x)
    ensures Behind(ApplyOps(ms, ops, position).value, n, raw, x)
    decreases |ops|
  {
    hide Behind, LeavesBehind, ApplyOp;
    if ops != [] {
      BehindOp(ms, ops[0], position, n, raw, x);
      BehindPatch(ApplyOp(ms, ops[0], position).value, ops[1..], position + 1, n, raw, x);
    }
  }

  lemma BehindAtStart(ms: seq<Dict>, n: nat, x: string)
    requires PassedBy(ms, n, x) && n < |ms|
    ensures Behind(ms, n, MissionId(ms[n]), x)
  {
    hide PyStr, Id, Carries, MissionId;
    var raw := MissionId(ms[n]);
    OwnId(ms[n]);
    forall i | 0 <= i < |ms| && Carries(ms[i], raw) ensures i == n {
      CarriedId(ms[i], raw);
    }
  }

  lemma BehindAtEnd(ms: seq<Dict>, n: nat, raw: Json, x: string)
    requires Behind(ms, n, raw, x) && Truthy(raw) && PyStr(raw) != x
    ensures PassedBy(ms, Reanchored(ms, raw, n), x)
  {
    hide PyStr, Id, Carries, UniqueIds;
    var k := Reanchored(ms, raw, n);
    if FirstWithId(ms, raw).Some? {
      CarriedId(ms[k], raw);
    }
  }

  lemma PassedByAfterPass(ms: seq<Dict>, k: nat, x: string)
    requires k < |ms| && PassedBy(ms, k, x)
    ensures PassedBy(ms[k := Done(ms[k])], k + 1, x)
  {
    var out := ms[k := Done(ms[k])];
    assert forall i :: 0 <= i < |ms| ==> Id(out[i]) == Id(ms[i]);
  }

  lemma PassedByAfterPatch(ms: seq<Dict>, n: nat, ops: seq<Json>, out: seq<Dict>, x: string)
    requires n < |ms| && PassedBy(ms, n, x) && ApplyOps(ms, ops) == Ok(out) && PatchLeavesBehind(ms, ops, 0, n, x)
    ensures PassedBy(out, Reanchored(out, MissionId(ms[n]), n), x)
  {
    var raw := MissionId(ms[n]);
    OwnId(ms[n]);
    BehindAtStart(ms, n, x);
    hide Behind, ApplyOps, PatchLeavesBehind, Reanchored, MissionId, Id, PyStr, Truthy, UniqueIds;
    BehindPatch(ms, ops, 0, n, raw, x);
    BehindAtEnd(out, n, raw, x);
  }

  lemma PassedByAfterRound(s: State, round: Round, x: string, config: Config)
    requires s.index < |s.milestones| && PassedBy(s.milestones, s.index, x) && TakesElsewhere(s, round, x, config)
    ensures var next := AfterRound(s, round, config);
      next.Goes? ==> PassedBy(next.state.milestones, next.state.index, x)
  {
    hide AfterRound, PassedBy, PatchTaken, ApplyOps, PatchLeavesBehind, Reanchored, MissionId, Done, MilestoneRun,
      Answered;
    RoundMoves(s, round, config);
    match PatchTaken(s, round, config) {
      case Some(ops) =>
        PassedByAfterPatch(s.milestones, s.index, ops, AfterRound(s, round, config).state.milestones, x);
      case None => PassedByAfterPass(s.milestones, s.index, x);
    }
  }

  lemma {:induction false} PassedByForGood(s: State, rounds: seq<Round>, n: nat, x: string, config: Config)
    requires PassedBy(s.milestones, s.index, x) && MovesOn(s, rounds, x, config)
    ensures Head(s, rounds, n, config).Some? ==>
      PassedBy(Head(s, rounds, n, config).value.milestones, Head(s, rounds, n, config).value.index, x)
    decreases n
  {
    hide PassedBy, AfterRound;
    if n > 0 && s.index < |s.milestones| && rounds != [] {
      PassedByAfterRound(s, rounds[0], x, config);
      if AfterRound(s, rounds[0], config).Goes? {
        PassedByForGood(AfterRound(s, rounds[0], config).state, rounds[1..], n - 1, x, config);
      }
    }
  }

  lemma {:induction false} PassedByIsNotEarned(s: State, rounds: seq<Round>, id: Json, config: Config)
    requires Truthy(id) && PassedBy(s.milestones, s.index, PyStr(id)) && MovesOn(s, rounds, PyStr(id), config)
    ensures !Earned(s, rounds, config, id)
    decreases |rounds|
  {
    if s.index < |s.milestones| && rounds != [] {
      OwnId(s.milestones[s.index]);
      hide AfterRound, PyStr, Truthy, Id, MissionId, MilestoneRun, Answered, UniqueIds, TakesElsewhere;
      PassedByAfterRound(s, rounds[0], PyStr(id), config);
      assert MissionId(s.milestones[s.index]) != id;
      if AfterRound(s, rounds[0], config).Goes? {
        PassedByIsNotEarned(AfterRound(s, rounds[0], config).state, rounds[1..], id, config);
      }
    }
  }

  /** What was passed by undone stays undone, and while it is in the plan no completion is reported. */
  lemma PassedByStaysUndone(s: State, rounds: seq<Round>, x: string, config: Config)
    requires PassedBy(s.milestones, s.index, x) && MovesOn(s, rounds, x, config)
    requires forall m :: m in s.milestones && Id(m) == Some(x) ==> !IsDone(m)
    ensures var final := Mission.RunFrom(s, rounds, config);
      && (forall m :: m in final.state.milestones && Id(m) == Some(x) ==> !IsDone(m))
      && (HasId(final.state.milestones, x) ==> Reported(final) != MissionCompleted)
  {
    hide MovesOn, Mission.RunFrom, IsDone, UniqueIds, Id, MissionId, PyStr, Truthy;
    var final := Mission.RunFrom(s, rounds, config);
    forall m | m in final.state.milestones && Id(m) == Some(x) ensures !IsDone(m) {
      var id := MissionId(m);
      OwnId(m);
      PassedByIsNotEarned(s, rounds, id, config);
      forall m0 | m0 in s.milestones && MissionId(m0) == id ensures Id(m0) == Some(x) {
        OwnId(m0);
      }
      if DoneIn(final.state.milestones, id) {
        DoneIsEarned(s, rounds, config, id);
      }
      assert IsDone(m) ==> DoneIn(final.state.milestones, id);
    }
  }

  // ---------------------------------------------------------------- an insertion before the milestone in hand

  /** The next round applies a patch, and the plan it makes is that of this insertion. */
  ghost predicate Inserts(s: State, rounds: seq<Round>, op: Dict, config: Config)
    requires s.index < |s.milestones|
  {
    && rounds != [] && Insert(s.milestones, op).Ok?
    && PatchTaken(s, rounds[0], config).Some?
    && ApplyOps(s.milestones, PatchTaken(s, rounds[0], config).value) == Insert(s.milestones, op)
  }

  lemma InsertedState(s: State, rounds: seq<Round>, op: Dict, config: Config)
    requires s.index < |s.milestones| && Inserts(s, rounds, op, config)
    ensures AfterRound(s, rounds[0], config).Goes?
    ensures var next := AfterRound(s, rounds[0], config).state;
      && next.milestones == Insert(s.milestones, op).value
      && next.index == Reanchored(next.milestones, MissionId(s.milestones[s.index]), s.index)
  {
    hide AfterRound, PatchTaken, ApplyOps, Reanchored, Insert, MissionId;
    RoundMoves(s, rounds[0], config);
  }

  lemma AfterFirstRound(s: State, rounds: seq<Round>, n: nat, config: Config)
    requires s.index < |s.milestones| && rounds != [] && AfterRound(s, rounds[0], config).Goes?
    ensures var next := AfterRound(s, rounds[0], config).state;
      && Head(s, rounds, n + 1, config) == Head(next, rounds[1..], n, config)
      && Mission.RunFrom(s, rounds, config).state == Mission.RunFrom(next, rounds[1..], config).state
      && Reported(Mission.RunFrom(s, rounds, config)) == Reported(Mission.RunFrom(next, rounds[1..], config))
  {
    hide AfterRound, IsDone;
  }

  /** Work inserted before the milestone in hand is never the current milestone at any later loop head, as
      long as later patches insert behind the head and do not bring its id back; and while it is in the
      plan the mission is not reported completed. */
  lemma InsertedBeforeHeadIsSkipped(s: State, rounds: seq<Round>, op: Dict, x: string, n: nat, config: Config)
    requires InStep(s) && s.index < |s.milestones| && Inserts(s, rounds, op, config)
    requires Id(op["milestone"].fields) == Some(x) && !HasId(s.milestones, x)
    requires Index(s.milestones)[TextField(op, "after_id")] < s.index
    requires MovesOn(AfterRound(s, rounds[0], config).state, rounds[1..], x, config)
    ensures var head := Head(s, rounds, n + 1, config);
      head.Some? && head.value.index < |head.value.milestones| ==>
        Id(head.value.milestones[head.value.index]) != Some(x)
    ensures var final := Mission.RunFrom(s, rounds, config);
      HasId(final.state.milestones, x) ==> Reported(final) != MissionCompleted
  {
    var raw := MissionId(s.milestones[s.index]);
    InStepIsAnchored(s);
    hide AfterRound, InStep, Anchored, HasId, MovesOn, MilestoneRun, Answered, Id, Index, Reanchored,
      Insert, IsDone, MissionId, PyStr, Truthy, TextField, PassedBy, Mission.RunFrom, TakesElsewhere,
      Head, Reported;
    var next := AfterRound(s, rounds[0], config).state;
    InsertedState(s, rounds, op, config);
    AfterFirstRound(s, rounds, n, config);
    InsertedIsPassedByIff(s.milestones, op, s.index, raw, x);
    PassedByForGood(next, rounds[1..], n, x, config);
    PassedByStaysUndone(next, rounds[1..], x, config);
  }
}
