/** When the supervisor's position in the plan can be trusted, and when it cannot. */
module MissionOrder {
  import opened JsonValues
  import opened Text
  import opened PlanOps
  import opened PlanPatchLaws
  import opened Worker
  import opened MilestoneLoop
  import opened Mission
  import opened MissionPatches
  import opened MissionLaws

  // ---------------------------------------------------------------- patches that stay behind the head

  ghost predicate HasId(ms: seq<Dict>, id: string) {
    exists i :: 0 <= i < |ms| && Id(ms[i]) == Some(id)
  }

  /** An insertion at `k` that leaves the milestone at `n`, with raw id `raw`, where it is: behind it under
      an id not in use, or, once that milestone is gone, at its place or behind; the id itself comes back
      at its old place only. */
  ghost predicate FitsBehind(ms: seq<Dict>, k: nat, m: Dict, n: nat, raw: Json) {
    && Id(m).Some? && !HasId(ms, Id(m).value)
    && (if HasId(ms, PyStr(raw)) then n < k
        else if Id(m).value == PyStr(raw) then k == n && m["id"] == raw
        else n <= k)
  }

  /** An op that inserts, if anything, where it fits behind milestone `n`. */
  ghost predicate StaysBehind(ms: seq<Dict>, op: Json, n: nat, raw: Json) {
    op.Obj? && Get(op.fields, "op", Null) == Str("insert_milestone_after") && Insert(ms, op.fields).Ok? ==>
      FitsBehind(ms, Index(ms)[TextField(op.fields, "after_id")] + 1, op.fields["milestone"].fields, n, raw)
  }

  ghost predicate PatchStaysBehind(ms: seq<Dict>, ops: seq<Json>, position: nat, n: nat, raw: Json)
    decreases |ops|
  {
    ops != [] && ApplyOp(ms, ops[0], position).Ok? ==>
      && StaysBehind(ms, ops[0], n, raw)
      && PatchStaysBehind(ApplyOp(ms, ops[0], position).value, ops[1..], position + 1, n, raw)
  }

  /** The first n milestones are done, ids are distinct, and milestone n is the one with raw id
      `raw`, unless that id is gone. */
  ghost predicate Anchored(ms: seq<Dict>, n: nat, raw: Json) {
    && n <= |ms|
    && UniqueIds(ms)
    && (forall i :: 0 <= i < |ms| ==> Id(ms[i]).Some?)
    && (forall i :: 0 <= i < n ==> IsDone(ms[i]))
    && (HasId(ms, PyStr(raw)) ==> n < |ms| && ms[n]["id"] == raw)
  }

  lemma DoneHeadIsNot(ms: seq<Dict>, n: nat, raw: Json, k: nat)
    requires Anchored(ms, n, raw) && k < |ms| && !Completed(ms[k])
    ensures n <= k
  {
    if k < n {
      DoneIsCompleted(ms[k]);
    }
  }

  lemma AnchoredUpdate(ms: seq<Dict>, op: Dict, n: nat, raw: Json)
    requires Anchored(ms, n, raw) && Update(ms, op).Ok?
    ensures Anchored(Update(ms, op).value, n, raw)
  {
    var k := Index(ms)[TextField(op, "milestone_id")];
    var out := Update(ms, op).value;
    DoneHeadIsNot(ms, n, raw, k);
    UpdateKeepsRawIds(ms, op);
    UpdateKeepsIds(ms, op);
    assert HasId(out, PyStr(raw)) ==> HasId(ms, PyStr(raw));
  }

  lemma AnchoredInsert(ms: seq<Dict>, k: nat, m: Dict, n: nat, raw: Json)
    requires Anchored(ms, n, raw) && k <= |ms| && FitsBehind(ms, k, m, n, raw)
    ensures Anchored(InsertAt(ms, k, m), n, raw)
  {
    InsertedAmongUnique(ms, k, m);
    hide Id, IsDone, UniqueIds, InsertAt, PyStr;
    InsertAtIndex(ms, k, m);
    var out := InsertAt(ms, k, m);
    forall j | 0 <= j < |out| && j != k && Id(out[j]) == Some(PyStr(raw)) ensures HasId(ms, PyStr(raw)) {
      assert Id(ms[if j < k then j else j - 1]) == Some(PyStr(raw));
    }
  }

  lemma AnchoredAfterInsert(ms: seq<Dict>, k: nat, m: Dict, n: nat, raw: Json)
    requires Anchored(ms, n, raw) && k <= |ms| && !IsDone(m) && Anchored(InsertAt(ms, k, m), n, raw)
    ensures FitsBehind(ms, k, m, n, raw)
  {
    InsertedAmongUnique(ms, k, m);
    hide IsDone, UniqueIds, InsertAt, PyStr;
    InsertAtIndex(ms, k, m);
    var out := InsertAt(ms, k, m);
    assert n <= k && Id(out[k]).Some?;
    if HasId(ms, PyStr(raw)) {
      var j :| 0 <= j < |ms| && Id(ms[j]) == Some(PyStr(raw));
      assert Id(out[if j < k then j else j + 1]) == Some(PyStr(raw));
    } else if Id(m).value == PyStr(raw) {
      assert HasId(out, PyStr(raw));
    }
  }

  /** An accepted insertion leaves the milestone in hand where it is if and only if it fits behind it. */
  lemma AnchoredInsertIff(ms: seq<Dict>, op: Dict, n: nat, raw: Json)
    requires Anchored(ms, n, raw) && Insert(ms, op).Ok?
    requires Get(op, "op", Null) == Str("insert_milestone_after")
    ensures Anchored(Insert(ms, op).value, n, raw) <==> StaysBehind(ms, Obj(op), n, raw)
  {
    hide Anchored, Id, Index;
    var k := Index(ms)[TextField(op, "after_id")] + 1;
    var m := NewMilestone(op["milestone"], Index(ms).Keys).value;
    NewMilestoneKeepsRawId(op["milestone"], Index(ms).Keys);
    assert FitsBehind(ms, k, m, n, raw) <==> StaysBehind(ms, Obj(op), n, raw);
    if FitsBehind(ms, k, m, n, raw) {
      AnchoredInsert(ms, k, m, n, raw);
    }
    if Anchored(InsertAt(ms, k, m), n, raw) {
      AnchoredAfterInsert(ms, k, m, n, raw);
    }
  }

  lemma NewMilestoneKeepsRawId(candidate: Json, taken: set<string>)
    requires NewMilestone(candidate, taken).Ok?
    ensures var m := NewMilestone(candidate, taken).value;
      && Id(m) == Id(candidate.fields) && !IsDone(m) && "id" in candidate.fields && "id" in m
      && m["id"] == candidate.fields["id"]
  {
    assert Strip("") == "";
  }

  lemma AnchoredRemove(ms: seq<Dict>, k: nat, id: string, n: nat, raw: Json)
    requires Anchored(ms, n, raw) && k < |ms| && Id(ms[k]) == Some(id) && !Completed(ms[k])
    ensures Anchored(RemoveAt(ms, k), n, raw)
  {
    DoneHeadIsNot(ms, n, raw, k);
    hide IsDone, Completed;
    var out := RemoveAt(ms, k);
    forall i | 0 <= i < |out| ensures out[i] == ms[if i < k then i else i + 1] {
    }
    forall j | 0 <= j < |out| && Id(out[j]) == Some(PyStr(raw)) ensures HasId(ms, PyStr(raw)) && n < k {
      assert Id(ms[if j < k then j else j + 1]) == Some(PyStr(raw));
      assert HasId(ms, PyStr(raw)) && Id(ms[n]) == Some(PyStr(raw));
    }
  }

  lemma AnchoredDrop(ms: seq<Dict>, id: string, n: nat, raw: Json)
    requires Anchored(ms, n, raw)
    ensures Anchored(DropEverywhere(ms, id), n, raw)
  {
    var out := DropEverywhere(ms, id);
    forall i | 0 <= i < |ms|
      ensures Id(out[i]) == Id(ms[i]) && (IsDone(ms[i]) ==> IsDone(out[i]))
      ensures "id" in ms[i] ==> "id" in out[i] && out[i]["id"] == ms[i]["id"]
    {
    }
    assert HasId(out, PyStr(raw)) ==> HasId(ms, PyStr(raw));
  }

  /** Every accepted update and removal leaves the milestone in hand where it is, or gone with finished
      work before it; an accepted insertion does if and only if it fits behind. */
  lemma AnchoredOpIff(ms: seq<Dict>, op: Json, position: nat, n: nat, raw: Json)
    requires Anchored(ms, n, raw) && ApplyOp(ms, op, position).Ok?
    ensures Anchored(ApplyOp(ms, op, position).value, n, raw) <==> StaysBehind(ms, op, n, raw)
  {
    hide Anchored, Update, Insert, FitsBehind;
    assert op == Obj(op.fields);
    if op.fields["op"] == Str("update_milestone") {
      AnchoredUpdate(ms, op.fields, n, raw);
    } else if op.fields["op"] == Str("insert_milestone_after") {
      AnchoredInsertIff(ms, op.fields, n, raw);
    } else {
      var id := TextField(op.fields, "milestone_id");
      IndexIsLast(ms, id);
      AnchoredRemove(ms, Index(ms)[id], id, n, raw);
      AnchoredDrop(RemoveAt(ms, Index(ms)[id]), id, n, raw);
    }
  }

  lemma {:induction false} AnchoredPatch(ms: seq<Dict>, ops: seq<Json>, position: nat, n: nat, raw: Json)
    requires Anchored(ms, n, raw) && ApplyOps(ms, ops, position).Ok?
    requires PatchStaysBehind(ms, ops, position, n, raw)
    ensures Anchored(ApplyOps(ms, ops, position).value, n, raw)
    decreases |ops|
  {
    hide Anchored, StaysBehind, ApplyOp;
    if ops != [] {
      AnchoredOpIff(ms, ops[0], position, n, raw);
      AnchoredPatch(ApplyOp(ms, ops[0], position).value, ops[1..], position + 1, n, raw);
    }
  }

  lemma ReanchoredInPlace(ms: seq<Dict>, n: nat, raw: Json)
    requires Anchored(ms, n, raw) && Truthy(raw)
    ensures Reanchored(ms, raw, n) == n
  {
    var found := FirstWithId(ms, raw);
    if found.Some? {
      assert Id(ms[found.value]) == Some(PyStr(raw));
      assert HasId(ms, PyStr(raw));
      assert Id(ms[n]) == Id(ms[found.value]);
    }
  }

  // ---------------------------------------------------------------- the loop-head invariant

  /** At the head of the loop: everything before the current milestone is done and counted. */
  ghost predicate InStep(s: State) {
    && s.passed == s.index <= |s.milestones|
    && UniqueIds(s.milestones)
    && (forall i :: 0 <= i < |s.milestones| ==> Id(s.milestones[i]).Some?)
    && (forall i :: 0 <= i < s.index ==> IsDone(s.milestones[i]))
  }

  /** The patch this round applies, if any, stays behind the milestone in hand. */
  ghost predicate TakesBehind(s: State, round: Round, config: Config)
    requires s.index < |s.milestones|
  {
    PatchTaken(s, round, config).Some? ==>
      PatchStaysBehind(s.milestones, PatchTaken(s, round, config).value, 0, s.index,
                       MissionId(s.milestones[s.index]))
  }

  /** No patch applied during this run inserts before the milestone being replanned. */
  ghost predicate Disciplined(s: State, rounds: seq<Round>, config: Config)
    decreases |rounds|
  {
    s.index < |s.milestones| && rounds != [] ==>
      && TakesBehind(s, rounds[0], config)
      && (AfterRound(s, rounds[0], config).Goes? ==>
            Disciplined(AfterRound(s, rounds[0], config).state, rounds[1..], config))
  }

  lemma InStepAfterPass(s: State, t: State)
    requires InStep(s) && s.index < |s.milestones|
    requires t.milestones == s.milestones[s.index := Done(s.milestones[s.index])]
    requires t.index == s.index + 1 && t.passed == s.passed + 1
    ensures InStep(t)
  {
    assert forall i :: 0 <= i < |s.milestones| ==> Id(t.milestones[i]) == Id(s.milestones[i]);
  }

  lemma InStepIsAnchored(s: State)
    requires InStep(s) && s.index < |s.milestones|
    ensures var raw := MissionId(s.milestones[s.index]);
      && Truthy(raw) && HasId(s.milestones, PyStr(raw)) && Anchored(s.milestones, s.index, raw)
  {
    assert Id(s.milestones[s.index]).Some?;
    hide IsDone, UniqueIds, PyStr;
  }

  lemma InStepAfterPatch(s: State, ops: seq<Json>, t: State)
    requires InStep(s) && s.index < |s.milestones| && ApplyOps(s.milestones, ops) == Ok(t.milestones)
    requires PatchStaysBehind(s.milestones, ops, 0, s.index, MissionId(s.milestones[s.index]))
    requires t.index == Reanchored(t.milestones, MissionId(s.milestones[s.index]), s.index) && t.passed == s.passed
    ensures InStep(t) && t.index == s.index
  {
    var raw := MissionId(s.milestones[s.index]);
    InStepIsAnchored(s);
    hide ApplyOps, PatchStaysBehind, MissionId, Reanchored, Truthy, UniqueIds, IsDone, PyStr, HasId;
    AnchoredPatch(s.milestones, ops, 0, s.index, raw);
    ReanchoredInPlace(t.milestones, s.index, raw);
  }

  lemma InStepAfterRound(s: State, round: Round, config: Config)
    requires InStep(s) && s.index < |s.milestones| && TakesBehind(s, round, config)
    ensures AfterRound(s, round, config).Goes? ==> InStep(AfterRound(s, round, config).state)
    ensures AfterRound(s, round, config).Stops? ==>
      AfterRound(s, round, config).state.passed < |AfterRound(s, round, config).state.milestones|
    ensures AfterRound(s, round, config).Stops? ==> AfterRound(s, round, config).ending != WalkedOff
  {
    var next := AfterRound(s, round, config);
    assert s.passed == s.index;
    hide AfterRound, InStep, PatchTaken, ApplyOps, PatchStaysBehind, Reanchored, MissionId, Done, MilestoneRun,
      Answered;
    RoundMoves(s, round, config);
    match PatchTaken(s, round, config) {
      case Some(ops) => InStepAfterPatch(s, ops, next.state);
      case None =>
        if next.Goes? {
          InStepAfterPass(s, next.state);
        }
    }
  }

  /** The state at the n-th loop head, counted from zero, if the mission gets that far. */
  function Head(s: State, rounds: seq<Round>, n: nat, config: Config): Option<State>
    decreases n
  {
    if n == 0 then Some(s)
    else if s.index >= |s.milestones| || rounds == [] then None
    else
      match AfterRound(s, rounds[0], config)
      case Stops(_, _) => None
      case Goes(next) => Head(next, rounds[1..], n - 1, config)
  }

  /** Under such patches every loop head has everything before it done and counted. */
  lemma {:induction false} HeadIsInStep(s: State, rounds: seq<Round>, n: nat, config: Config)
    requires InStep(s) && Disciplined(s, rounds, config)
    ensures Head(s, rounds, n, config).Some? ==> InStep(Head(s, rounds, n, config).value)
    decreases n
  {
    hide InStep, AfterRound;
    if n > 0 && s.index < |s.milestones| && rounds != [] {
      InStepAfterRound(s, rounds[0], config);
      if AfterRound(s, rounds[0], config).Goes? {
        HeadIsInStep(AfterRound(s, rounds[0], config).state, rounds[1..], n - 1, config);
      }
    }
  }

  /** Under such patches the loop stays in step: the mission is reported completed exactly when it
      walks off the end of its plan. */
  lemma {:induction false} WalkedOffIffCompleted(s: State, rounds: seq<Round>, config: Config)
    requires InStep(s) && Disciplined(s, rounds, config)
    ensures var final := Mission.RunFrom(s, rounds, config);
      && (final.ending == WalkedOff ==> InStep(final.state) && final.state.index == |final.state.milestones|)
      && (Reported(final) == MissionCompleted <==> final.ending == WalkedOff)
    decreases |rounds|
  {
    if s.index < |s.milestones| && rounds != [] {
      InStepAfterRound(s, rounds[0], config);
      if AfterRound(s, rounds[0], config).Goes? {
        WalkedOffIffCompleted(AfterRound(s, rounds[0], config).state, rounds[1..], config);
      }
    }
  }
}
