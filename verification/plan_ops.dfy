/** Deterministic plan patches: the op list an untrusted planner sends is validated and applied
    by code. `Patched` says what a patch does; `ApplyPlanPatch` is the loop that does it. */
module PlanOps {
  import opened JsonValues
  import opened Text

  datatype PatchError =
    | OperationsNotAList
    | MilestonesNotAList
    | MilestoneNotAnObject          // an AttributeError, not a PlanPatchError, in the source
    | OpNotAnObject(index: nat)
    | UnsupportedOp(index: nat)
    | UpdateTargetMissing(id: string)
    | UpdateTargetCompleted(id: string)
    | FieldsNotANonEmptyObject
    | UnknownFields(names: set<string>)
    | TargetFilesNotAList
    | CriteriaNotANonEmptyList
    | AnchorMissing(id: string)
    | NewMilestoneNotAnObject
    | NewIdMissing
    | NewIdTaken(id: string)
    | NewTitleMissing(id: string)
    | NewTargetFilesMissing(id: string)
    | NewCriteriaMissing(id: string)
    | RemoveTargetMissing(id: string)
    | RemoveTargetCompleted(id: string)

  const UPDATABLE_FIELDS: set<string> :=
    {"title", "description", "target_files", "depends_on", "acceptance_criteria", "validation_profile"}

  type Outcome = Result<seq<Dict>, PatchError>

  // ---------------------------------------------------------------- milestones

  predicate Completed(m: Dict) {
    Lower(PyStr(Get(m, "status", Str("")))) == "completed"
  }

  /** The key under which `_index_by_id` files a milestone; a falsy id is not filed at all. */
  function Id(m: Dict): Option<string> {
    if "id" in m && Truthy(m["id"]) then Some(PyStr(m["id"])) else None
  }

  /** `_index_by_id`: where each id was seen last. */
  function Index(ms: seq<Dict>): (index: map<string, nat>)
    ensures forall id :: id in index ==> index[id] < |ms|
  {
    if ms == [] then map[]
    else
      var rest := Index(ms[..|ms| - 1]);
      match Id(ms[|ms| - 1])
      case None => rest
      case Some(id) => rest[id := |ms| - 1]
  }

  /** `Index` finds an id exactly when some milestone carries it, at its last occurrence. */
  lemma {:induction false} IndexIsLast(ms: seq<Dict>, id: string)
    ensures id in Index(ms) <==> exists i :: 0 <= i < |ms| && Id(ms[i]) == Some(id)
    ensures id in Index(ms) ==> Id(ms[Index(ms)[id]]) == Some(id)
    ensures id in Index(ms) ==> forall i :: Index(ms)[id] < i < |ms| ==> Id(ms[i]) != Some(id)
  {
    if ms != [] {
      var front := ms[..|ms| - 1];
      IndexIsLast(front, id);
      if Id(ms[|ms| - 1]) == Some(id) {
        assert Index(ms)[id] == |ms| - 1;
      } else {
        assert id in Index(ms) <==> id in Index(front);
        forall i | 0 <= i < |ms| && Id(ms[i]) == Some(id) ensures id in Index(front) {
          assert front[i] == ms[i];
        }
      }
    }
  }

  // ---------------------------------------------------------------- one operation

  function TextField(op: Dict, key: string): string {
    Strip(PyStr(Get(op, key, Str(""))))
  }

  predicate NonEmptyList(j: Json) {
    j.Arr? && j.items != []
  }

  function Update(ms: seq<Dict>, op: Dict): Outcome {
    var id := TextField(op, "milestone_id");
    if id !in Index(ms) then Err(UpdateTargetMissing(id))
    else
      var k := Index(ms)[id];
      var fields := Get(op, "fields", Null);
      if Completed(ms[k]) then Err(UpdateTargetCompleted(id))
      else if !fields.Obj? || fields.fields == map[] then Err(FieldsNotANonEmptyObject)
      else
        var f := fields.fields;
        if !(f.Keys <= UPDATABLE_FIELDS) then Err(UnknownFields(f.Keys - UPDATABLE_FIELDS))
        else if "target_files" in f && !f["target_files"].Arr? then Err(TargetFilesNotAList)
        else if "acceptance_criteria" in f && !NonEmptyList(f["acceptance_criteria"]) then
          Err(CriteriaNotANonEmptyList)
        else Ok(ms[k := ms[k] + f])
  }

  /** `_validate_new_milestone`; the id is checked stripped but stored as it came. */
  function NewMilestone(candidate: Json, taken: set<string>): Result<Dict, PatchError> {
    if !candidate.Obj? then Err(NewMilestoneNotAnObject)
    else
      var m := candidate.fields;
      var id := TextField(m, "id");
      if id == "" then Err(NewIdMissing)
      else if id in taken then Err(NewIdTaken(id))
      else if !Truthy(Get(m, "title", Null)) then Err(NewTitleMissing(id))
      else if !NonEmptyList(Get(m, "target_files", Null)) then Err(NewTargetFilesMissing(id))
      else if !NonEmptyList(Get(m, "acceptance_criteria", Null)) then Err(NewCriteriaMissing(id))
      else
        var withDeps := if "depends_on" in m then m else m["depends_on" := Arr([])];
        Ok(withDeps["status" := Str("pending")])
  }

  function InsertAt<T>(s: seq<T>, k: nat, x: T): (r: seq<T>)
    requires k <= |s|
    ensures |r| == |s| + 1
  {
    s[..k] + [x] + s[k..]
  }

  function RemoveAt<T>(s: seq<T>, k: nat): (r: seq<T>)
    requires k < |s|
    ensures |r| == |s| - 1
  {
    s[..k] + s[k + 1..]
  }

  lemma InsertAtIndex<T>(s: seq<T>, k: nat, x: T)
    requires k <= |s|
    ensures |InsertAt(s, k, x)| == |s| + 1 && InsertAt(s, k, x)[k] == x
    ensures forall i :: 0 <= i < k ==> InsertAt(s, k, x)[i] == s[i]
    ensures forall i :: k < i <= |s| ==> InsertAt(s, k, x)[i] == s[i - 1]
  {
  }

  lemma RemoveAtIndex<T>(s: seq<T>, k: nat)
    requires k < |s|
    ensures |RemoveAt(s, k)| == |s| - 1
    ensures forall i :: 0 <= i < |s| - 1 ==> RemoveAt(s, k)[i] == s[if i < k then i else i + 1]
  {
  }

  function Insert(ms: seq<Dict>, op: Dict): Outcome {
    var anchor := TextField(op, "after_id");
    if anchor !in Index(ms) then Err(AnchorMissing(anchor))
    else
      match NewMilestone(Get(op, "milestone", Null), Index(ms).Keys)
      case Err(e) => Err(e)
      case Ok(m) =>
        Ok(InsertAt(ms, Index(ms)[anchor] + 1, m))
  }

  function Without(items: seq<Json>, x: Json): seq<Json> {
    if items == [] then []
    else if items[0] == x then Without(items[1..], x)
    else [items[0]] + Without(items[1..], x)
  }

  function DropDependency(m: Dict, id: string): Dict {
    if "depends_on" in m && m["depends_on"].Arr? && Str(id) in m["depends_on"].items
    then m["depends_on" := Arr(Without(m["depends_on"].items, Str(id)))]
    else m
  }

  function DropEverywhere(ms: seq<Dict>, id: string): seq<Dict> {
    seq(|ms|, i requires 0 <= i < |ms| => DropDependency(ms[i], id))
  }

  function Remove(ms: seq<Dict>, op: Dict): Outcome {
    var id := TextField(op, "milestone_id");
    if id !in Index(ms) then Err(RemoveTargetMissing(id))
    else
      var k := Index(ms)[id];
      if Completed(ms[k]) then Err(RemoveTargetCompleted(id))
      else Ok(DropEverywhere(RemoveAt(ms, k), id))
  }

  function BadOp(op: Json, position: nat): Option<PatchError> {
    if !op.Obj? then Some(OpNotAnObject(position))
    else if Get(op.fields, "op", Null) !in
      {Str("update_milestone"), Str("insert_milestone_after"), Str("remove_milestone")}
    then Some(UnsupportedOp(position))
    else None
  }

  function ApplyOp(ms: seq<Dict>, op: Json, position: nat): Outcome {
    match BadOp(op, position)
    case Some(e) => Err(e)
    case None =>
      if op.fields["op"] == Str("update_milestone") then Update(ms, op.fields)
      else if op.fields["op"] == Str("insert_milestone_after") then Insert(ms, op.fields)
      else Remove(ms, op.fields)
  }

  function ApplyOps(ms: seq<Dict>, ops: seq<Json>, position: nat := 0): Outcome
    decreases |ops|
  {
    if ops == [] then Ok(ms)
    else
      match ApplyOp(ms, ops[0], position)
      case Err(e) => Err(e)
      case Ok(next) => ApplyOps(next, ops[1..], position + 1)
  }

  /** What `apply_plan_patch` returns or raises, for any plan and any parsed operations. */
  function Patched(plan: Dict, operations: Json): Result<Dict, PatchError> {
    if !NonEmptyList(operations) then Err(OperationsNotAList)
    else
      var milestones := Get(plan, "milestones", Arr([]));
      if !milestones.Arr? then Err(MilestonesNotAList)
      else if !AllObjects(milestones.items) then
        Err(match BadOp(operations.items[0], 0) case Some(e) => e case None => MilestoneNotAnObject)
      else
        match ApplyOps(Dicts(milestones.items), operations.items)
        case Err(e) => Err(e)
        case Ok(ms) => Ok(plan["milestones" := Arr(Objects(ms))])
  }

  // ---------------------------------------------------------------- the loops

  method IndexById(ms: seq<Dict>) returns (index: map<string, nat>)
    ensures index == Index(ms)
  {
    index := map[];
    for i := 0 to |ms|
      invariant index == Index(ms[..i])
    {
      assert ms[..i + 1][..i] == ms[..i];
      match Id(ms[i]) {
        case None =>
        case Some(id) => index := index[id := i];
      }
    }
    assert ms[..|ms|] == ms;
  }

  method DropDependencies(ms: seq<Dict>, id: string) returns (out: seq<Dict>)
    ensures out == DropEverywhere(ms, id)
  {
    out := ms;
    for i := 0 to |ms|
      invariant |out| == |ms|
      invariant forall j :: 0 <= j < i ==> out[j] == DropDependency(ms[j], id)
      invariant forall j :: i <= j < |ms| ==> out[j] == ms[j]
    {
      out := out[i := DropDependency(out[i], id)];
    }
  }

  method UpdateMilestone(ms: seq<Dict>, op: Dict) returns (r: Outcome)
    ensures r == Update(ms, op)
  {
    var index := IndexById(ms);
    var id := TextField(op, "milestone_id");
    if id !in index {
      return Err(UpdateTargetMissing(id));
    }
    var target := ms[index[id]];
    if Completed(target) {
      return Err(UpdateTargetCompleted(id));
    }
    if "fields" !in op || !op["fields"].Obj? || op["fields"].fields == map[] {
      return Err(FieldsNotANonEmptyObject);
    }
    var fields := op["fields"].fields;
    var unknown := fields.Keys - UPDATABLE_FIELDS;
    if unknown != {} {
      return Err(UnknownFields(unknown));
    }
    if "target_files" in fields && !fields["target_files"].Arr? {
      return Err(TargetFilesNotAList);
    }
    if "acceptance_criteria" in fields && !NonEmptyList(fields["acceptance_criteria"]) {
      return Err(CriteriaNotANonEmptyList);
    }
    return Ok(ms[index[id] := target + fields]);
  }

  method InsertMilestoneAfter(ms: seq<Dict>, op: Dict) returns (r: Outcome)
    ensures r == Insert(ms, op)
  {
    var index := IndexById(ms);
    var anchor := TextField(op, "after_id");
    if anchor !in index {
      return Err(AnchorMissing(anchor));
    }
    var added := NewMilestone(Get(op, "milestone", Null), index.Keys);
    if added.Err? {
      return Err(added.error);
    }
    var at := index[anchor] + 1;
    return Ok(ms[..at] + [added.value] + ms[at..]);
  }

  method RemoveMilestone(ms: seq<Dict>, op: Dict) returns (r: Outcome)
    ensures r == Remove(ms, op)
  {
    var index := IndexById(ms);
    var id := TextField(op, "milestone_id");
    if id !in index {
      return Err(RemoveTargetMissing(id));
    }
    if Completed(ms[index[id]]) {
      return Err(RemoveTargetCompleted(id));
    }
    var rest := ms[..index[id]] + ms[index[id] + 1..];
    rest := DropDependencies(rest, id);
    return Ok(rest);
  }

  method ApplyPlanPatch(plan: Dict, operations: Json) returns (r: Result<Dict, PatchError>)
    ensures r == Patched(plan, operations)
  {
    if !operations.Arr? || operations.items == [] {
      return Err(OperationsNotAList);
    }
    var raw := if "milestones" in plan then plan["milestones"] else Arr([]);
    if !raw.Arr? {
      return Err(MilestonesNotAList);
    }
    var ops := operations.items;
    if !AllObjects(raw.items) {
      var bad := BadOp(ops[0], 0);
      return Err(if bad.Some? then bad.value else MilestoneNotAnObject);
    }
    var milestones := Dicts(raw.items);
    for i := 0 to |ops|
      invariant ApplyOps(Dicts(raw.items), ops) == ApplyOps(milestones, ops[i..], i)
    {
      assert ops[i..][0] == ops[i] && ops[i..][1..] == ops[i + 1..];
      var bad := BadOp(ops[i], i);
      if bad.Some? {
        return Err(bad.value);
      }
      var op := ops[i].fields;
      var next: Outcome;
      if op["op"] == Str("update_milestone") {
        next := UpdateMilestone(milestones, op);
      } else if op["op"] == Str("insert_milestone_after") {
        next := InsertMilestoneAfter(milestones, op);
      } else {
        next := RemoveMilestone(milestones, op);
      }
      if next.Err? {
        return Err(next.error);
      }
      milestones := next.value;
    }
    return Ok(plan["milestones" := Arr(Objects(milestones))]);
  }
}
