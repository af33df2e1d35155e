/** Which operations are accepted, said over the milestones and the fields of the op. */
module PlanAcceptance {
  import opened JsonValues
  import opened Text
  import opened PlanOps
  import opened PlanPatchLaws
  import opened PlanPatchEffects

  /** The text of a field, without white space around it; a missing field reads as empty. */
  function Named(op: Dict, key: string): string {
    Strip(PyStr(if key in op then op[key] else Str("")))
  }

  ghost predicate Carried(ms: seq<Dict>, id: string) {
    exists i :: 0 <= i < |ms| && Id(ms[i]) == Some(id)
  }

  /** Some milestone has this id, and the last of them is unfinished. */
  ghost predicate Unfinished(ms: seq<Dict>, id: string) {
    exists k: nat :: LastWithId(ms, id, k) && Lower(PyStr(Get(ms[k], "status", Str("")))) != "completed"
  }

  ghost predicate HasItems(m: Dict, key: string) {
    key in m && m[key].Arr? && m[key].items != []
  }

  /** A new milestone that may come in: a free id, a title, target files and acceptance criteria. */
  ghost predicate Admissible(ms: seq<Dict>, m: Dict) {
    && Named(m, "id") != "" && !Carried(ms, Named(m, "id"))
    && "title" in m && Truthy(m["title"])
    && HasItems(m, "target_files") && HasItems(m, "acceptance_criteria")
  }

  /** Fields an update may set: known ones, lists of target files, and criteria that are not empty. */
  ghost predicate Settable(fields: Dict) {
    && fields != map[]
    && (forall name :: name in fields ==>
          name == "title" || name == "description" || name == "target_files" || name == "depends_on"
          || name == "acceptance_criteria" || name == "validation_profile")
    && ("target_files" in fields ==> fields["target_files"].Arr?)
    && ("acceptance_criteria" in fields ==> HasItems(fields, "acceptance_criteria"))
  }

  lemma CarriedIff(ms: seq<Dict>, id: string)
    ensures id in Index(ms) <==> Carried(ms, id)
  {
    IndexIsLast(ms, id);
  }

  lemma UnfinishedIff(ms: seq<Dict>, id: string)
    ensures Unfinished(ms, id) <==> id in Index(ms) && !Completed(ms[Index(ms)[id]])
  {
    hide Id, Index, Lower;
    IndexIsLast(ms, id);
    if id in Index(ms) {
      IndexedIsLast(ms, id);
    }
  }

  /** An insertion is accepted if and only if some milestone has the anchor id and the new one is admissible. */
  lemma InsertAcceptedIff(ms: seq<Dict>, op: Dict)
    ensures Insert(ms, op).Ok? <==>
      && Carried(ms, Named(op, "after_id"))
      && "milestone" in op && op["milestone"].Obj? && Admissible(ms, op["milestone"].fields)
  {
    hide Index, Id, Strip, Carried;
    CarriedIff(ms, TextField(op, "after_id"));
    if "milestone" in op && op["milestone"].Obj? {
      CarriedIff(ms, TextField(op["milestone"].fields, "id"));
    }
  }

  /** An update is accepted if and only if the last milestone with its id is unfinished and all the fields it
      sets are settable. */
  lemma UpdateAcceptedIff(ms: seq<Dict>, op: Dict)
    ensures Update(ms, op).Ok? <==>
      && Unfinished(ms, Named(op, "milestone_id"))
      && "fields" in op && op["fields"].Obj? && Settable(op["fields"].fields)
  {
    hide Index, Id, Strip, Completed, Unfinished;
    UnfinishedIff(ms, TextField(op, "milestone_id"));
    if "fields" in op && op["fields"].Obj? {
      KnownFields(op["fields"].fields);
    }
  }

  lemma KnownFields(fields: Dict)
    ensures fields.Keys <= UPDATABLE_FIELDS <==>
      forall name :: name in fields ==>
        name == "title" || name == "description" || name == "target_files" || name == "depends_on"
        || name == "acceptance_criteria" || name == "validation_profile"
  {
  }

  /** A removal is accepted if and only if the last milestone with its id is unfinished. */
  lemma RemoveAcceptedIff(ms: seq<Dict>, op: Dict)
    ensures Remove(ms, op).Ok? <==> Unfinished(ms, Named(op, "milestone_id"))
  {
    hide Index, Id, Strip, Completed, Unfinished;
    UnfinishedIff(ms, TextField(op, "milestone_id"));
  }

  /** An op is one of three, and accepted as such. */
  ghost predicate Acceptable(ms: seq<Dict>, op: Json) {
    op.Obj? && "op" in op.fields &&
    (|| (op.fields["op"] == Str("update_milestone")
         && Unfinished(ms, Named(op.fields, "milestone_id"))
         && "fields" in op.fields && op.fields["fields"].Obj? && Settable(op.fields["fields"].fields))
     || (op.fields["op"] == Str("insert_milestone_after")
         && Carried(ms, Named(op.fields, "after_id"))
         && "milestone" in op.fields && op.fields["milestone"].Obj?
         && Admissible(ms, op.fields["milestone"].fields))
     || (op.fields["op"] == Str("remove_milestone") && Unfinished(ms, Named(op.fields, "milestone_id"))))
  }

  lemma OpAcceptedIff(ms: seq<Dict>, op: Json, position: nat)
    ensures ApplyOp(ms, op, position).Ok? <==> Acceptable(ms, op)
  {
    hide Update, Insert, Remove, Carried, Unfinished, Admissible, Settable, Named;
    if op.Obj? {
      UpdateAcceptedIff(ms, op.fields);
      InsertAcceptedIff(ms, op.fields);
      RemoveAcceptedIff(ms, op.fields);
    }
  }

  // ---------------------------------------------------------------- the error of a rejected op

  ghost predicate HasObject(op: Dict, key: string) {
    key in op && op[key].Obj?
  }

  /** The first thing that is wrong with an insertion. */
  ghost predicate InsertFault(ms: seq<Dict>, op: Dict, e: PatchError) {
    var anchored := Carried(ms, Named(op, "after_id"));
    if !HasObject(op, "milestone") then
      e == if anchored then NewMilestoneNotAnObject else AnchorMissing(Named(op, "after_id"))
    else
      var m := op["milestone"].fields;
      var id := Named(m, "id");
      var titled := "title" in m && Truthy(m["title"]);
      match e
      case AnchorMissing(missing) => !anchored && missing == Named(op, "after_id")
      case NewIdMissing => anchored && id == ""
      case NewIdTaken(taken) => anchored && taken == id && id != "" && Carried(ms, id)
      case NewTitleMissing(name) => anchored && name == id && id != "" && !Carried(ms, id) && !titled
      case NewTargetFilesMissing(name) =>
        anchored && name == id && id != "" && !Carried(ms, id) && titled && !HasItems(m, "target_files")
      case NewCriteriaMissing(name) =>
        && anchored && name == id && id != "" && !Carried(ms, id) && titled && HasItems(m, "target_files")
        && !HasItems(m, "acceptance_criteria")
      case _ => false
  }

  /** An insertion is rejected with the error for the first thing that is wrong with it. */
  lemma InsertErrorIff(ms: seq<Dict>, op: Dict, e: PatchError)
    ensures Insert(ms, op) == Err(e) <==> InsertFault(ms, op, e)
  {
    hide Index, Id, Strip, Carried;
    CarriedIff(ms, TextField(op, "after_id"));
    if HasObject(op, "milestone") {
      CarriedIff(ms, TextField(op["milestone"].fields, "id"));
    }
  }

  predicate KnownField(name: string) {
    name == "title" || name == "description" || name == "target_files" || name == "depends_on"
    || name == "acceptance_criteria" || name == "validation_profile"
  }

  /** The first thing that is wrong with an update. */
  ghost predicate UpdateFault(ms: seq<Dict>, op: Dict, e: PatchError) {
    var id := Named(op, "milestone_id");
    var fields := if HasObject(op, "fields") then op["fields"].fields else map[];
    var known := forall name :: name in fields ==> KnownField(name);
    var listed := "target_files" in fields ==> fields["target_files"].Arr?;
    match e
    case UpdateTargetMissing(missing) => missing == id && !Carried(ms, id)
    case UpdateTargetCompleted(completed) => completed == id && Carried(ms, id) && !Unfinished(ms, id)
    case FieldsNotANonEmptyObject => Unfinished(ms, id) && fields == map[]
    case UnknownFields(names) =>
      Unfinished(ms, id) && !known && forall name :: name in names <==> name in fields && !KnownField(name)
    case TargetFilesNotAList => Unfinished(ms, id) && fields != map[] && known && !listed
    case CriteriaNotANonEmptyList =>
      && Unfinished(ms, id) && known && listed
      && "acceptance_criteria" in fields && !HasItems(fields, "acceptance_criteria")
    case _ => false
  }

  lemma UnknownNames(fields: Dict, names: set<string>)
    ensures fields.Keys <= UPDATABLE_FIELDS <==> forall name :: name in fields ==> KnownField(name)
    ensures fields.Keys - UPDATABLE_FIELDS == names <==>
      forall name :: name in names <==> name in fields && !KnownField(name)
  {
    assert forall name :: KnownField(name) <==> name in UPDATABLE_FIELDS;
    if forall name :: name in names <==> name in fields && !KnownField(name) {
      assert forall name :: name in names <==> name in fields.Keys - UPDATABLE_FIELDS;
    }
  }

  /** An update is rejected with the error for the first thing that is wrong with it. */
  lemma UpdateErrorIff(ms: seq<Dict>, op: Dict, e: PatchError)
    ensures Update(ms, op) == Err(e) <==> UpdateFault(ms, op, e)
  {
    hide Index, Id, Strip, Completed, Unfinished, Carried, KnownField;
    CarriedIff(ms, TextField(op, "milestone_id"));
    UnfinishedIff(ms, TextField(op, "milestone_id"));
    if HasObject(op, "fields") {
      UnknownNames(op["fields"].fields, if e.UnknownFields? then e.names else {});
    }
  }

  /** The first thing that is wrong with a removal. */
  ghost predicate RemoveFault(ms: seq<Dict>, op: Dict, e: PatchError) {
    var id := Named(op, "milestone_id");
    if Carried(ms, id) then !Unfinished(ms, id) && e == RemoveTargetCompleted(id) else e == RemoveTargetMissing(id)
  }

  /** A removal is rejected because nothing has its id, or because the last that has is completed. */
  lemma RemoveErrorIff(ms: seq<Dict>, op: Dict, e: PatchError)
    ensures Remove(ms, op) == Err(e) <==> RemoveFault(ms, op, e)
  {
    hide Index, Id, Strip, Completed, Unfinished, Carried;
    CarriedIff(ms, TextField(op, "milestone_id"));
    UnfinishedIff(ms, TextField(op, "milestone_id"));
  }

  /** The error of an op at this position of a patch. */
  ghost predicate OpFault(ms: seq<Dict>, op: Json, position: nat, e: PatchError) {
    if !op.Obj? then e == OpNotAnObject(position)
    else
      var name := if "op" in op.fields then op.fields["op"] else Null;
      if name == Str("update_milestone") then UpdateFault(ms, op.fields, e)
      else if name == Str("insert_milestone_after") then InsertFault(ms, op.fields, e)
      else if name == Str("remove_milestone") then RemoveFault(ms, op.fields, e)
      else e == UnsupportedOp(position)
  }

  lemma OpErrorIff(ms: seq<Dict>, op: Json, position: nat, e: PatchError)
    ensures ApplyOp(ms, op, position) == Err(e) <==> OpFault(ms, op, position, e)
  {
    hide Update, Insert, Remove, UpdateFault, InsertFault, RemoveFault;
    if op.Obj? {
      UpdateErrorIff(ms, op.fields, e);
      InsertErrorIff(ms, op.fields, e);
      RemoveErrorIff(ms, op.fields, e);
    }
  }

  /** The plan after the first `k` ops, if they are all accepted. */
  ghost function AfterOps(ms: seq<Dict>, ops: seq<Json>, k: nat): Option<seq<Dict>>
    requires k <= |ops|
  {
    if k == 0 then Some(ms)
    else
      match AfterOps(ms, ops, k - 1)
      case None => None
      case Some(before) =>
        match ApplyOp(before, ops[k - 1], k - 1)
        case Err(_) => None
        case Ok(next) => Some(next)
  }

  /** A patch fails with the error of its first op that is not accepted, and that op's position. */
  ghost predicate PatchFault(ms: seq<Dict>, ops: seq<Json>, e: PatchError) {
    exists k :: 0 <= k < |ops| && FaultAt(ms, ops, k, e)
  }

  ghost predicate FaultAt(ms: seq<Dict>, ops: seq<Json>, k: nat, e: PatchError)
    requires k < |ops|
  {
    AfterOps(ms, ops, k).Some? && OpFault(AfterOps(ms, ops, k).value, ops[k], k, e)
  }

  lemma {:induction false} RestOfPatch(ms: seq<Dict>, ops: seq<Json>, k: nat, e: PatchError)
    requires k <= |ops| && AfterOps(ms, ops, k).Some?
    ensures ApplyOps(AfterOps(ms, ops, k).value, ops[k..], k) == Err(e) <==>
            exists j :: k <= j < |ops| && FaultAt(ms, ops, j, e)
    ensures ApplyOps(AfterOps(ms, ops, k).value, ops[k..], k).Ok? <==> AfterOps(ms, ops, |ops|).Some?
    ensures AfterOps(ms, ops, |ops|).Some? ==>
      ApplyOps(AfterOps(ms, ops, k).value, ops[k..], k) == Ok(AfterOps(ms, ops, |ops|).value)
    decreases |ops| - k
  {
    hide OpFault, ApplyOp;
    if k < |ops| {
      var before := AfterOps(ms, ops, k).value;
      OpErrorIff(before, ops[k], k, e);
      assert ops[k..][0] == ops[k] && ops[k..][1..] == ops[k + 1..];
      if ApplyOp(before, ops[k], k).Ok? {
        RestOfPatch(ms, ops, k + 1, e);
      } else {
        NothingAfter(ms, ops, k + 1, |ops|);
        forall j | k < j < |ops| ensures !FaultAt(ms, ops, j, e) {
          NothingAfter(ms, ops, k + 1, j);
        }
        assert FaultAt(ms, ops, k, e) <==> ApplyOp(before, ops[k], k) == Err(e);
      }
    } else {
      assert ops[k..] == [];
    }
  }

  lemma {:induction false} NothingAfter(ms: seq<Dict>, ops: seq<Json>, k: nat, j: nat)
    requires k <= j <= |ops| && AfterOps(ms, ops, k).None?
    ensures AfterOps(ms, ops, j).None?
    decreases j
  {
    hide ApplyOp;
    if k < j {
      NothingAfter(ms, ops, k, j - 1);
    }
  }

  /** A patch is rejected with the error of its first op that is not acceptable. */
  lemma PatchErrorIff(ms: seq<Dict>, ops: seq<Json>, e: PatchError)
    ensures ApplyOps(ms, ops) == Err(e) <==> PatchFault(ms, ops, e)
  {
    hide FaultAt, ApplyOps;
    assert ops[0..] == ops && AfterOps(ms, ops, 0) == Some(ms);
    RestOfPatch(ms, ops, 0, e);
  }

  /** A whole request: without ops, or without a milestone list, it fails as such; else it fails with its patch, or
      gives the plan with the patched milestones and all its other fields. */
  lemma PatchedIs(plan: Dict, operations: Json)
    ensures var r := Patched(plan, operations);
      if !(operations.Arr? && operations.items != []) then r == Err(OperationsNotAList)
      else if "milestones" in plan && !plan["milestones"].Arr? then r == Err(MilestonesNotAList)
      else
        var items := if "milestones" in plan then plan["milestones"].items else [];
        if !AllObjects(items) then r.Err?
        else
          match ApplyOps(Dicts(items), operations.items)
          case Err(e) => r == Err(e)
          case Ok(ms) =>
            && r.Ok? && (forall f :: f in r.value <==> f in plan || f == "milestones")
            && (forall f :: f in plan && f != "milestones" ==> r.value[f] == plan[f])
            && r.value["milestones"] == Arr(Objects(ms))
  {
    hide ApplyOps;
  }

  // ---------------------------------------------------------------- what every patch keeps

  /** Every milestone has acceptance criteria. */
  ghost predicate AllHaveCriteria(ms: seq<Dict>) {
    forall i :: 0 <= i < |ms| ==> HasItems(ms[i], "acceptance_criteria")
  }

  lemma UpdateKeepsCriteria(ms: seq<Dict>, op: Dict)
    requires AllHaveCriteria(ms) && Update(ms, op).Ok?
    ensures AllHaveCriteria(Update(ms, op).value)
  {
    hide Index, Completed, TextField;
    UpdateAcceptedIff(ms, op);
    var k := Index(ms)[TextField(op, "milestone_id")];
    assert HasItems(ms[k] + op["fields"].fields, "acceptance_criteria");
  }

  lemma InsertKeepsCriteria(ms: seq<Dict>, op: Dict)
    requires AllHaveCriteria(ms) && Insert(ms, op).Ok?
    ensures AllHaveCriteria(Insert(ms, op).value)
  {
    hide Index, TextField, NewMilestone, InsertAt;
    InsertAcceptedIff(ms, op);
    var m := NewMilestone(op["milestone"], Index(ms).Keys).value;
    NewMilestoneFields(op["milestone"], Index(ms).Keys);
    var k := Index(ms)[TextField(op, "after_id")] + 1;
    InsertAtIndex(ms, k, m);
    var out := InsertAt(ms, k, m);
    forall i | 0 <= i < |out| ensures HasItems(out[i], "acceptance_criteria") {
      assert i != k ==> out[i] == ms[if i < k then i else i - 1];
    }
  }

  lemma DropKeepsCriteria(m: Dict, id: string)
    requires HasItems(m, "acceptance_criteria")
    ensures HasItems(DropDependency(m, id), "acceptance_criteria")
  {
  }

  lemma RemoveKeepsCriteria(ms: seq<Dict>, op: Dict)
    requires AllHaveCriteria(ms) && Remove(ms, op).Ok?
    ensures AllHaveCriteria(Remove(ms, op).value)
  {
    hide Index, Completed, TextField, RemoveAt, DropDependency, HasItems;
    var id := TextField(op, "milestone_id");
    RemoveAtIndex(ms, Index(ms)[id]);
    var rest := RemoveAt(ms, Index(ms)[id]);
    forall i | 0 <= i < |rest| ensures HasItems(DropDependency(rest[i], id), "acceptance_criteria") {
      DropKeepsCriteria(rest[i], id);
    }
  }

  /** If every milestone has acceptance criteria, so has every milestone after an accepted patch. */
  lemma {:induction false} PatchKeepsCriteria(ms: seq<Dict>, ops: seq<Json>, position: nat := 0)
    requires AllHaveCriteria(ms) && ApplyOps(ms, ops, position).Ok?
    ensures AllHaveCriteria(ApplyOps(ms, ops, position).value)
    decreases |ops|
  {
    hide AllHaveCriteria, Update, Insert, Remove;
    if ops != [] {
      var op := ops[0].fields;
      if op["op"] == Str("update_milestone") {
        UpdateKeepsCriteria(ms, op);
      } else if op["op"] == Str("insert_milestone_after") {
        InsertKeepsCriteria(ms, op);
      } else {
        RemoveKeepsCriteria(ms, op);
      }
      PatchKeepsCriteria(ApplyOp(ms, ops[0], position).value, ops[1..], position + 1);
    }
  }
}
