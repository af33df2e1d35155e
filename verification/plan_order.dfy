/** How accepted patches treat the dependency order that linting establishes. */
module PlanOrder {
  import opened JsonValues
  import opened Text
  import opened PlanOps
  import opened PlanPatchLaws
  import opened PlanLintLaws

  /** `remove_milestone` can take out the milestone with this id: it is unfinished, and the id is one that
      an op, whose own id is stripped, can name. */
  ghost predicate Removable(ms: seq<Dict>, id: string) {
    Trimmed(id) && exists k :: 0 <= k < |ms| && Id(ms[k]) == Some(id) && !Completed(ms[k])
  }

  /** No dependency that is not text, and so would be left behind, names a removable milestone. */
  ghost predicate RemovalSafe(ms: seq<Dict>) {
    forall i, d :: 0 <= i < |ms| && d in Dependencies(ms[i]) && !d.Str? ==> !Removable(ms, PyStr(d))
  }

  ghost predicate Ordered(ms: seq<Dict>) {
    UniqueIds(ms) && Topological(ms) && RemovalSafe(ms)
  }

  /** An op that brings no dependencies of its own. */
  ghost predicate SuppliesNoDependencies(op: Json) {
    op.Obj? ==>
      && (Get(op.fields, "fields", Null).Obj? ==> "depends_on" !in op.fields["fields"].fields)
      && (Get(op.fields, "milestone", Null).Obj? ==> Dependencies(op.fields["milestone"].fields) == [])
  }

  lemma TopologicalInsert(ms: seq<Dict>, k: nat, m: Dict)
    requires Topological(ms) && k <= |ms| && Dependencies(m) == []
    ensures Topological(InsertAt(ms, k, m))
  {
    hide InsertAt, Dependencies, Id;
    InsertAtIndex(ms, k, m);
    var out := InsertAt(ms, k, m);
    forall i, d | 0 <= i < |out| && d in Dependencies(out[i]) ensures EarlierMilestone(out, i, PyStr(d)) {
      var i0 := if i < k then i else i - 1;
      assert i != k && out[i] == ms[i0];
      assert EarlierMilestone(ms, i0, PyStr(d));
      var j :| 0 <= j < i0 && Id(ms[j]) == Some(PyStr(d));
      assert out[if j < k then j else j + 1] == ms[j];
    }
  }

  lemma TopologicalPointwise(ms: seq<Dict>, out: seq<Dict>)
    requires Topological(ms) && |out| == |ms|
    requires forall i :: 0 <= i < |ms| ==> Id(out[i]) == Id(ms[i]) && Dependencies(out[i]) == Dependencies(ms[i])
    ensures Topological(out)
  {
    forall i, d | 0 <= i < |out| && d in Dependencies(out[i]) ensures EarlierMilestone(out, i, PyStr(d)) {
      assert EarlierMilestone(ms, i, PyStr(d));
      var j :| 0 <= j < i && Id(ms[j]) == Some(PyStr(d));
      assert Id(out[j]) == Some(PyStr(d));
    }
  }

  lemma {:induction false} WithoutIff(items: seq<Json>, x: Json, d: Json)
    ensures d in Without(items, x) <==> d in items && d != x
  {
    if items != [] {
      WithoutIff(items[1..], x, d);
    }
  }

  lemma DroppedDependencies(m: Dict, id: string, d: Json)
    ensures d in Dependencies(DropDependency(m, id)) <==> d in Dependencies(m) && d != Str(id)
    ensures Id(DropDependency(m, id)) == Id(m)
  {
    WithoutIff(Dependencies(m), Str(id), d);
  }

  lemma StatusAfterUpdate(m: Dict, f: Dict)
    requires f.Keys <= UPDATABLE_FIELDS
    ensures Completed(m + f) <==> Completed(m)
  {
  }

  lemma StatusAfterDrop(m: Dict, id: string)
    ensures Completed(DropDependency(m, id)) <==> Completed(m)
    ensures Str(id) !in Dependencies(m) ==> DropDependency(m, id) == m
  {
  }

  lemma TopologicalRemove(ms: seq<Dict>, k: nat, id: string)
    requires Ordered(ms) && k < |ms| && Id(ms[k]) == Some(id) && !Completed(ms[k]) && Trimmed(id)
    ensures Topological(DropEverywhere(RemoveAt(ms, k), id))
  {
    hide RemoveAt, Dependencies, Id, DropDependency, UniqueIds, Completed, Trimmed;
    RemoveAtIndex(ms, k);
    var rest := RemoveAt(ms, k);
    var out := DropEverywhere(rest, id);
    assert Removable(ms, id);
    forall i, d | 0 <= i < |out| && d in Dependencies(out[i]) ensures EarlierMilestone(out, i, PyStr(d)) {
      var i0 := if i < k then i else i + 1;
      assert rest[i] == ms[i0];
      DroppedDependencies(rest[i], id, d);
      assert PyStr(d) != id;
      StillEarlier(ms, k, id, i0, d);
    }
  }

  /** A dependency that is not the removed milestone is still earlier after the removal. */
  lemma StillEarlier(ms: seq<Dict>, k: nat, id: string, i: nat, d: Json)
    requires k < |ms| && i < |ms| && i != k && Id(ms[k]) == Some(id) && PyStr(d) != id
    requires EarlierMilestone(ms, i, PyStr(d))
    ensures EarlierMilestone(DropEverywhere(RemoveAt(ms, k), id), if i < k then i else i - 1, PyStr(d))
  {
    hide RemoveAt, Id, DropDependency, PyStr;
    RemoveAtIndex(ms, k);
    var rest := RemoveAt(ms, k);
    var out := DropEverywhere(rest, id);
    var j :| 0 <= j < i && Id(ms[j]) == Some(PyStr(d));
    var j0 := if j < k then j else j - 1;
    assert j != k && rest[j0] == ms[j];
    DroppedDependencies(rest[j0], id, d);
    assert Id(out[j0]) == Some(PyStr(d));
  }

  lemma SafeRemove(ms: seq<Dict>, k: nat, id: string)
    requires RemovalSafe(ms) && k < |ms|
    ensures RemovalSafe(DropEverywhere(RemoveAt(ms, k), id))
  {
    hide RemoveAt, Dependencies, Id, DropDependency, Completed, Trimmed, PyStr;
    RemoveAtIndex(ms, k);
    var rest := RemoveAt(ms, k);
    var out := DropEverywhere(rest, id);
    forall i | 0 <= i < |out|
      ensures Id(out[i]) == Id(rest[i]) && (Completed(out[i]) <==> Completed(rest[i]))
      ensures forall d :: d in Dependencies(out[i]) ==> d in Dependencies(rest[i])
    {
      StatusAfterDrop(rest[i], id);
      forall d ensures Id(out[i]) == Id(rest[i]) && (d in Dependencies(out[i]) ==> d in Dependencies(rest[i])) {
        DroppedDependencies(rest[i], id, d);
      }
    }
    forall x | Removable(out, x) ensures Removable(ms, x) {
      var r :| 0 <= r < |out| && Id(out[r]) == Some(x) && !Completed(out[r]);
      assert rest[r] == ms[if r < k then r else r + 1];
    }
    forall i, d | 0 <= i < |out| && d in Dependencies(out[i]) && !d.Str? ensures !Removable(out, PyStr(d)) {
      assert rest[i] == ms[if i < k then i else i + 1];
    }
  }

  lemma FieldsKeepDependencies(m: Dict, f: Dict)
    requires "depends_on" !in f
    ensures Dependencies(m + f) == Dependencies(m)
  {
  }

  lemma SafePointwise(ms: seq<Dict>, out: seq<Dict>)
    requires RemovalSafe(ms) && |out| == |ms|
    requires forall i :: 0 <= i < |ms| ==> Id(out[i]) == Id(ms[i]) && Dependencies(out[i]) == Dependencies(ms[i])
    requires forall i :: 0 <= i < |ms| ==> (Completed(out[i]) <==> Completed(ms[i]))
    ensures RemovalSafe(out)
  {
    hide Dependencies, Id, Completed, Trimmed, PyStr;
    forall id | Removable(out, id) ensures Removable(ms, id) {
      var k :| 0 <= k < |out| && Id(out[k]) == Some(id) && !Completed(out[k]);
      assert Id(ms[k]) == Some(id) && !Completed(ms[k]);
    }
  }

  lemma OrderedUpdate(ms: seq<Dict>, op: Dict)
    requires Ordered(ms) && Update(ms, op).Ok? && SuppliesNoDependencies(Obj(op))
    ensures Ordered(Update(ms, op).value)
  {
    hide Index, TextField, Id, Dependencies, Completed, Topological, RemovalSafe;
    var k := Index(ms)[TextField(op, "milestone_id")];
    FieldsKeepDependencies(ms[k], op["fields"].fields);
    StatusAfterUpdate(ms[k], op["fields"].fields);
    UpdateKeepsIds(ms, op);
    TopologicalPointwise(ms, Update(ms, op).value);
    SafePointwise(ms, Update(ms, op).value);
  }

  lemma OrderedInsert(ms: seq<Dict>, op: Dict)
    requires Ordered(ms) && Insert(ms, op).Ok? && SuppliesNoDependencies(Obj(op))
    requires Id(op["milestone"].fields).None? || Trimmed(Id(op["milestone"].fields).value)
    ensures Ordered(Insert(ms, op).value)
  {
    hide Index, Id, Topological, UniqueIds, InsertAt, Strip, Trimmed, RemovalSafe;
    InsertKeepsIdsUniqueIff(ms, op);
    var m := NewMilestone(op["milestone"], Index(ms).Keys).value;
    if Id(op["milestone"].fields).Some? {
      StripTrims(Id(op["milestone"].fields).value);
      CheckedIdWasFree(op["milestone"], Index(ms).Keys);
    }
    assert Dependencies(m) == [];
    var k := Index(ms)[TextField(op, "after_id")] + 1;
    TopologicalInsert(ms, k, m);
    SafeInsert(ms, k, m);
  }

  /** An id that was carried before the insertion is removable only if it was removable before. */
  lemma RemovableBefore(ms: seq<Dict>, k: nat, m: Dict, i: nat, id: string)
    requires k <= |ms| && UniqueIds(InsertAt(ms, k, m)) && i <= |ms| && EarlierMilestone(ms, i, id)
    ensures Removable(InsertAt(ms, k, m), id) ==> Removable(ms, id)
  {
    hide InsertAt, Id, Completed, Trimmed;
    InsertAtIndex(ms, k, m);
    var out := InsertAt(ms, k, m);
    if Removable(out, id) {
      var r :| 0 <= r < |out| && Id(out[r]) == Some(id) && !Completed(out[r]);
      var j :| 0 <= j < i && Id(ms[j]) == Some(id);
      assert out[if j < k then j else j + 1] == ms[j];
      assert r != k;
      assert out[r] == ms[if r < k then r else r - 1];
    }
  }

  lemma SafeInsert(ms: seq<Dict>, k: nat, m: Dict)
    requires RemovalSafe(ms) && Topological(ms) && k <= |ms| && Dependencies(m) == []
    requires UniqueIds(InsertAt(ms, k, m))
    ensures RemovalSafe(InsertAt(ms, k, m))
  {
    hide InsertAt, Dependencies, Id, Removable, PyStr, EarlierMilestone, UniqueIds;
    InsertAtIndex(ms, k, m);
    var out := InsertAt(ms, k, m);
    forall i, d | 0 <= i < |out| && d in Dependencies(out[i]) && !d.Str? ensures !Removable(out, PyStr(d)) {
      var i0 := if i < k then i else i - 1;
      assert i != k && out[i] == ms[i0];
      assert EarlierMilestone(ms, i0, PyStr(d)) && !Removable(ms, PyStr(d));
      RemovableBefore(ms, k, m, i0, PyStr(d));
    }
  }

  lemma OrderedRemove(ms: seq<Dict>, op: Dict)
    requires Ordered(ms) && Remove(ms, op).Ok?
    ensures Ordered(Remove(ms, op).value)
  {
    hide Topological, UniqueIds, RemovalSafe, Completed, Index, RemoveAt, DropEverywhere, Trimmed, Strip;
    var id := TextField(op, "milestone_id");
    IndexIsLast(ms, id);
    StripTrims(PyStr(Get(op, "milestone_id", Str(""))));
    RemoveKeepsIdsUnique(ms, op);
    TopologicalRemove(ms, Index(ms)[id], id);
    SafeRemove(ms, Index(ms)[id], id);
  }

  /** Patches that bring no dependencies keep unique ids and topological order, provided no dependency
      that is not text names a removable milestone; and they keep it that way. */
  lemma {:induction false} PatchKeepsOrder(ms: seq<Dict>, ops: seq<Json>, position: nat := 0)
    requires Ordered(ms) && ApplyOps(ms, ops, position).Ok?
    requires forall op :: op in ops ==> SuppliesNoDependencies(op) && StoredAsChecked(op)
    ensures Ordered(ApplyOps(ms, ops, position).value)
    decreases |ops|
  {
    hide Ordered, Update, Insert, Remove;
    if ops != [] {
      var op := ops[0];
      assert op in ops && Obj(op.fields) == op;
      if op.fields["op"] == Str("update_milestone") {
        OrderedUpdate(ms, op.fields);
      } else if op.fields["op"] == Str("insert_milestone_after") {
        InsertedCandidate(ms, op.fields);
        OrderedInsert(ms, op.fields);
      } else {
        OrderedRemove(ms, op.fields);
      }
      PatchKeepsOrder(ApplyOp(ms, op, position).value, ops[1..], position + 1);
    }
  }

  // ---------------------------------------------------------------- the condition is exact

  /** Every accepted patch that brings no dependencies, and stores ids as they were checked, keeps ids
      unique and list order topological. */
  ghost predicate OrderSurvives(ms: seq<Dict>) {
    forall ops: seq<Json> ::
      ApplyOps(ms, ops).Ok? && (forall op :: op in ops ==> SuppliesNoDependencies(op) && StoredAsChecked(op)) ==>
        UniqueIds(ApplyOps(ms, ops).value) && Topological(ApplyOps(ms, ops).value)
  }

  lemma RemoveNames(id: string)
    requires Trimmed(id)
    ensures RemoveOp(id).Obj? && TextField(RemoveOp(id).fields, "milestone_id") == id
  {
    hide Strip, Trimmed;
    var op := RemoveOp(id).fields;
    assert op["milestone_id"] == Str(id) && PyStr(Str(id)) == id;
    StripTrims(id);
  }

  lemma RemovalApplies(ms: seq<Dict>, id: string)
    requires id in Index(ms) && Trimmed(id) && !Completed(ms[Index(ms)[id]])
    ensures ApplyOps(ms, [RemoveOp(id)]) == Ok(DropEverywhere(RemoveAt(ms, Index(ms)[id]), id))
  {
    hide Index, Id, Completed, Trimmed, RemoveAt, DropEverywhere, TextField, RemoveOp, ApplyOps;
    RemoveNames(id);
    OneRemoval(ms, id, DropEverywhere(RemoveAt(ms, Index(ms)[id]), id));
  }

  lemma RemoveApplies(ms: seq<Dict>, k: nat, id: string)
    requires UniqueIds(ms) && k < |ms| && Id(ms[k]) == Some(id) && !Completed(ms[k]) && Trimmed(id)
    ensures ApplyOps(ms, [RemoveOp(id)]) == Ok(DropEverywhere(RemoveAt(ms, k), id))
  {
    hide Index, Id, Completed, Trimmed, RemoveAt, DropEverywhere, RemoveOp, ApplyOps;
    IndexIsLast(ms, id);
    assert Index(ms)[id] == k;
    RemovalApplies(ms, id);
  }

  lemma OneRemoval(ms: seq<Dict>, id: string, out: seq<Dict>)
    requires Remove(ms, RemoveOp(id).fields) == Ok(out)
    ensures ApplyOps(ms, [RemoveOp(id)]) == Ok(out)
  {
    hide Remove;
    var op := RemoveOp(id);
    assert op.fields["op"] == Str("remove_milestone");
    assert ApplyOp(ms, op, 0) == Ok(out);
    assert [op][1..] == [];
    assert ApplyOps(out, [], 1) == Ok(out);
  }

  lemma DroppedIds(rest: seq<Dict>, id: string)
    ensures forall j :: 0 <= j < |rest| ==> Id(DropEverywhere(rest, id)[j]) == Id(rest[j])
  {
    hide Id, DropDependency;
    forall j | 0 <= j < |rest| ensures Id(DropEverywhere(rest, id)[j]) == Id(rest[j]) {
      DroppedDependencies(rest[j], id, Null);
    }
  }

  /** With unique ids, nothing carries the id of a milestone that was taken out. */
  lemma GoneAfter(ms: seq<Dict>, k: nat, id: string, i: nat)
    requires UniqueIds(ms) && k < |ms| && Id(ms[k]) == Some(id) && i < |ms|
    ensures !EarlierMilestone(DropEverywhere(RemoveAt(ms, k), id), i, id)
  {
    hide RemoveAt, Id, DropDependency;
    RemoveAtIndex(ms, k);
    var rest := RemoveAt(ms, k);
    DroppedIds(rest, id);
    forall j | 0 <= j < |rest| ensures Id(rest[j]) != Some(id) {
      assert rest[j] == ms[if j < k then j else j + 1];
    }
  }

  lemma DependencyDangles(ms: seq<Dict>, i: nat, d: Json, k: nat)
    requires UniqueIds(ms) && k < i < |ms| && d in Dependencies(ms[i]) && !d.Str? && Id(ms[k]) == Some(PyStr(d))
    ensures !Topological(DropEverywhere(RemoveAt(ms, k), PyStr(d)))
  {
    hide RemoveAt, Dependencies, Id, DropEverywhere, PyStr, UniqueIds, EarlierMilestone;
    var id := PyStr(d);
    RemoveAtIndex(ms, k);
    var rest := RemoveAt(ms, k);
    assert rest[i - 1] == ms[i];
    StillDepends(rest, i - 1, id, d);
    GoneAfter(ms, k, id, i - 1);
    var out := DropEverywhere(rest, id);
    assert d in Dependencies(out[i - 1]) && !EarlierMilestone(out, i - 1, PyStr(d));
  }

  /** Removing a milestone that a number, say, depends on leaves the dependency dangling. */
  lemma RemovalDangles(ms: seq<Dict>, i: nat, d: Json, k: nat)
    requires UniqueIds(ms) && Topological(ms) && i < |ms| && d in Dependencies(ms[i]) && !d.Str?
    requires k < |ms| && Id(ms[k]) == Some(PyStr(d)) && !Completed(ms[k]) && Trimmed(PyStr(d))
    ensures ApplyOps(ms, [RemoveOp(PyStr(d))]).Ok? && !Topological(ApplyOps(ms, [RemoveOp(PyStr(d))]).value)
  {
    hide RemoveAt, Dependencies, Id, DropEverywhere, Completed, Trimmed, PyStr, ApplyOps, RemoveOp, UniqueIds,
      EarlierMilestone;
    assert EarlierMilestone(ms, i, PyStr(d));
    EarlierIsNotLater(ms, i, k, PyStr(d));
    DependencyDangles(ms, i, d, k);
    RemoveApplies(ms, k, PyStr(d));
  }

  lemma EarlierIsNotLater(ms: seq<Dict>, i: nat, k: nat, id: string)
    requires UniqueIds(ms) && i < |ms| && k < |ms| && Id(ms[k]) == Some(id) && EarlierMilestone(ms, i, id)
    ensures k < i
  {
  }

  lemma StillDepends(rest: seq<Dict>, i: nat, id: string, d: Json)
    requires i < |rest| && d in Dependencies(rest[i]) && d != Str(id)
    ensures |DropEverywhere(rest, id)| == |rest| && d in Dependencies(DropEverywhere(rest, id)[i])
  {
    DroppedDependencies(rest[i], id, d);
  }

  /** The order of a plan survives such patches if and only if no dependency that is not text names a
      milestone that can be removed. */
  lemma OrderSurvivesIff(ms: seq<Dict>)
    requires UniqueIds(ms) && Topological(ms)
    ensures OrderSurvives(ms) <==> RemovalSafe(ms)
  {
    hide UniqueIds, Topological, Completed, Trimmed, PyStr, Dependencies, Id, ApplyOps, SuppliesNoDependencies,
      StoredAsChecked;
    if RemovalSafe(ms) {
      forall ops: seq<Json> |
        ApplyOps(ms, ops).Ok? && (forall op :: op in ops ==> SuppliesNoDependencies(op) && StoredAsChecked(op))
        ensures UniqueIds(ApplyOps(ms, ops).value) && Topological(ApplyOps(ms, ops).value)
      {
        PatchKeepsOrder(ms, ops, 0);
      }
    } else {
      var i, d :| 0 <= i < |ms| && d in Dependencies(ms[i]) && !d.Str? && Removable(ms, PyStr(d));
      var k :| 0 <= k < |ms| && Id(ms[k]) == Some(PyStr(d)) && !Completed(ms[k]);
      RemovalDangles(ms, i, d, k);
      RemoveIsHarmless(PyStr(d));
      assert forall op :: op in [RemoveOp(PyStr(d))] ==> op == RemoveOp(PyStr(d));
    }
  }

  lemma RemoveIsHarmless(id: string)
    ensures SuppliesNoDependencies(RemoveOp(id)) && StoredAsChecked(RemoveOp(id))
  {
    var op := RemoveOp(id).fields;
    assert op.Keys == {"op", "milestone_id"} && op["op"] == Str("remove_milestone");
  }

  /** Two milestones, the second depending on the first by number. */
  function NumberedPlan(): seq<Dict> {
    [SampleMilestone("1"), SampleMilestone("2")["depends_on" := Arr([Num(1)])]]
  }

  lemma NumberedDependencyDangles()
    ensures UniqueIds(NumberedPlan()) && Topological(NumberedPlan())
    ensures ApplyOps(NumberedPlan(), [RemoveOp("1")]).Ok?
    ensures !Topological(ApplyOps(NumberedPlan(), [RemoveOp("1")]).value)
  {
    var ms := NumberedPlan();
    NumberedPlanFields();
    hide NumberedPlan, Id, Completed, Dependencies, Trimmed, ApplyOps, PyStr;
    assert EarlierMilestone(ms, 1, PyStr(Num(1)));
    RemovalDangles(ms, 1, Num(1), 0);
  }

  lemma NumberedPlanFields()
    ensures var ms := NumberedPlan();
      && |ms| == 2 && Id(ms[0]) == Some("1") && Id(ms[1]) == Some("2") && !Completed(ms[0])
      && Dependencies(ms[0]) == [] && Dependencies(ms[1]) == [Num(1)]
      && PyStr(Num(1)) == "1" && Trimmed("1") && "1" != "2"
  {
    SampleIds("1");
    SampleIds("2");
    SampleFields("1");
    assert Lower("") == "";
    assert Digits(1) == "1";
    assert "1"[0] != "2"[0];
  }
}
