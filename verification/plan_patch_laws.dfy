/** What every accepted plan patch keeps, whatever the planner sends. */
module PlanPatchLaws {
  import opened JsonValues
  import opened Text
  import opened PlanOps

  // ---------------------------------------------------------------- completed work is kept

  /** A milestone as it may reappear in the patched plan: nothing outside the updatable fields
      changes, and a completed one changes at most in its dependency list. */
  ghost predicate Same(a: Dict, b: Dict) {
    && a - UPDATABLE_FIELDS == b - UPDATABLE_FIELDS
    && (Completed(a) ==> a - {"depends_on"} == b - {"depends_on"})
  }

  ghost predicate Pending(m: Dict) {
    "status" in m && m["status"] == Str("pending")
  }

  lemma PendingIsNotCompleted(m: Dict)
    requires Pending(m)
    ensures !Completed(m)
  {
    assert Lower("pending")[0] == 'p';
  }

  /** `after` comes from `before` by an order-keeping edit script: unfinished milestones may be
      dropped, pending ones inserted, and every other milestone reappears in its place. */
  ghost predicate Aligned(before: seq<Dict>, after: seq<Dict>)
    decreases |before| + |after|
  {
    || (before == [] && after == [])
    || (before != [] && !Completed(before[0]) && Aligned(before[1..], after))
    || (after != [] && Pending(after[0]) && Aligned(before, after[1..]))
    || (before != [] && after != [] && Same(before[0], after[0]) && Aligned(before[1..], after[1..]))
  }

  /** The finished work of a plan: completed milestones in order, dependency lists aside. */
  function Finished(ms: seq<Dict>): seq<Dict> {
    if ms == [] then []
    else (if Completed(ms[0]) then [ms[0] - {"depends_on"}] else []) + Finished(ms[1..])
  }

  lemma SameKeepsIdentity(a: Dict, b: Dict)
    requires Same(a, b)
    ensures Id(a) == Id(b) && (Completed(a) <==> Completed(b)) && (Pending(a) <==> Pending(b))
    ensures Get(a, "status", Str("")) == Get(b, "status", Str(""))
  {
    forall k | k !in UPDATABLE_FIELDS ensures k in a <==> k in b ensures k in a ==> a[k] == b[k] {
      assert k in a <==> k in (a - UPDATABLE_FIELDS);
      assert k in b <==> k in (b - UPDATABLE_FIELDS);
      if k in a {
        assert a[k] == (a - UPDATABLE_FIELDS)[k] == (b - UPDATABLE_FIELDS)[k] == b[k];
      }
    }
    assert "id" !in UPDATABLE_FIELDS && "status" !in UPDATABLE_FIELDS;
  }

  lemma SameTransitive(a: Dict, b: Dict, c: Dict)
    requires Same(a, b) && Same(b, c)
    ensures Same(a, c)
  {
    SameKeepsIdentity(a, b);
  }

  lemma {:induction false} AlignedReflexive(ms: seq<Dict>)
    ensures Aligned(ms, ms)
  {
    if ms != [] {
      AlignedReflexive(ms[1..]);
    }
  }

  lemma {:induction false} AlignedKeepsFinished(before: seq<Dict>, after: seq<Dict>)
    requires Aligned(before, after)
    ensures Finished(after) == Finished(before)
    decreases |before| + |after|
  {
    if before == [] && after == [] {
    } else if before != [] && !Completed(before[0]) && Aligned(before[1..], after) {
      AlignedKeepsFinished(before[1..], after);
    } else if after != [] && Pending(after[0]) && Aligned(before, after[1..]) {
      AlignedKeepsFinished(before, after[1..]);
      PendingIsNotCompleted(after[0]);
    } else {
      AlignedKeepsFinished(before[1..], after[1..]);
      SameKeepsIdentity(before[0], after[0]);
    }
  }

  lemma InsertShift(ms: seq<Dict>, k: nat, m: Dict)
    requires k <= |ms|
    ensures k == 0 ==> InsertAt(ms, k, m)[0] == m && InsertAt(ms, k, m)[1..] == ms
    ensures k > 0 ==> InsertAt(ms, k, m)[0] == ms[0] && InsertAt(ms, k, m)[1..] == InsertAt(ms[1..], k - 1, m)
  {
  }

  lemma {:induction false} AlignedInsert(before: seq<Dict>, after: seq<Dict>, k: nat, m: Dict)
    requires Aligned(before, after) && k <= |after| && Pending(m)
    ensures Aligned(before, InsertAt(after, k, m))
    decreases |before| + |after|
  {
    hide InsertAt, Completed, Pending, Same;
    InsertShift(after, k, m);
    if k > 0 {
      if before != [] && !Completed(before[0]) && Aligned(before[1..], after) {
        AlignedInsert(before[1..], after, k, m);
      } else if Pending(after[0]) && Aligned(before, after[1..]) {
        AlignedInsert(before, after[1..], k - 1, m);
      } else {
        AlignedInsert(before[1..], after[1..], k - 1, m);
      }
    }
  }

  lemma RemoveShift(ms: seq<Dict>, k: nat)
    requires k < |ms|
    ensures k == 0 ==> RemoveAt(ms, k) == ms[1..]
    ensures k > 0 ==> RemoveAt(ms, k)[0] == ms[0] && RemoveAt(ms, k)[1..] == RemoveAt(ms[1..], k - 1)
  {
  }

  lemma {:induction false} AlignedRemove(before: seq<Dict>, after: seq<Dict>, k: nat)
    requires Aligned(before, after) && k < |after| && !Completed(after[k])
    ensures Aligned(before, RemoveAt(after, k))
    decreases |before| + |after|
  {
    hide RemoveAt, Completed, Pending, Same;
    RemoveShift(after, k);
    if before != [] && !Completed(before[0]) && Aligned(before[1..], after) {
      AlignedRemove(before[1..], after, k);
    } else if Pending(after[0]) && Aligned(before, after[1..]) {
      if k > 0 {
        AlignedRemove(before, after[1..], k - 1);
      }
    } else {
      SameKeepsIdentity(before[0], after[0]);
      if k > 0 {
        AlignedRemove(before[1..], after[1..], k - 1);
      }
    }
  }

  lemma {:induction false} AlignedPointwise(before: seq<Dict>, after: seq<Dict>, out: seq<Dict>)
    requires Aligned(before, after) && |out| == |after|
    requires forall i :: 0 <= i < |after| ==> Same(after[i], out[i])
    ensures Aligned(before, out)
    decreases |before| + |after|
  {
    if before == [] && after == [] {
    } else if before != [] && !Completed(before[0]) && Aligned(before[1..], after) {
      AlignedPointwise(before[1..], after, out);
    } else if after != [] && Pending(after[0]) && Aligned(before, after[1..]) {
      AlignedPointwise(before, after[1..], out[1..]);
      SameKeepsIdentity(after[0], out[0]);
    } else {
      AlignedPointwise(before[1..], after[1..], out[1..]);
      SameTransitive(before[0], after[0], out[0]);
    }
  }

  lemma UpdateIsSame(m: Dict, f: Dict)
    requires !Completed(m) && f.Keys <= UPDATABLE_FIELDS
    ensures Same(m, m + f)
  {
    assert (m + f) - UPDATABLE_FIELDS == m - UPDATABLE_FIELDS;
  }

  lemma DropIsSame(m: Dict, id: string)
    ensures Same(m, DropDependency(m, id))
  {
    var out := DropDependency(m, id);
    assert out - {"depends_on"} == m - {"depends_on"};
    assert out - UPDATABLE_FIELDS == m - UPDATABLE_FIELDS;
  }

  lemma SameReflexive(m: Dict)
    ensures Same(m, m)
  {
  }

  lemma AlignedUpdate(before: seq<Dict>, ms: seq<Dict>, op: Dict)
    requires Aligned(before, ms) && Update(ms, op).Ok?
    ensures Aligned(before, Update(ms, op).value)
  {
    var id := TextField(op, "milestone_id");
    var k := Index(ms)[id];
    var out := Update(ms, op).value;
    UpdateIsSame(ms[k], op["fields"].fields);
    forall i | 0 <= i < |ms| ensures Same(ms[i], out[i]) {
      SameReflexive(ms[i]);
    }
    AlignedPointwise(before, ms, out);
  }

  lemma AlignedInsertOp(before: seq<Dict>, ms: seq<Dict>, op: Dict)
    requires Aligned(before, ms) && Insert(ms, op).Ok?
    ensures Aligned(before, Insert(ms, op).value)
  {
    var anchor := TextField(op, "after_id");
    AlignedInsert(before, ms, Index(ms)[anchor] + 1,
                  NewMilestone(Get(op, "milestone", Null), Index(ms).Keys).value);
  }

  lemma AlignedRemoveOp(before: seq<Dict>, ms: seq<Dict>, op: Dict)
    requires Aligned(before, ms) && Remove(ms, op).Ok?
    ensures Aligned(before, Remove(ms, op).value)
  {
    var id := TextField(op, "milestone_id");
    var rest := RemoveAt(ms, Index(ms)[id]);
    AlignedRemove(before, ms, Index(ms)[id]);
    forall i | 0 <= i < |rest| ensures Same(rest[i], DropEverywhere(rest, id)[i]) {
      DropIsSame(rest[i], id);
    }
    AlignedPointwise(before, rest, DropEverywhere(rest, id));
  }

  lemma AlignedStep(before: seq<Dict>, ms: seq<Dict>, op: Json, position: nat)
    requires Aligned(before, ms) && ApplyOp(ms, op, position).Ok?
    ensures Aligned(before, ApplyOp(ms, op, position).value)
  {
    if op.fields["op"] == Str("update_milestone") {
      AlignedUpdate(before, ms, op.fields);
    } else if op.fields["op"] == Str("insert_milestone_after") {
      AlignedInsertOp(before, ms, op.fields);
    } else {
      AlignedRemoveOp(before, ms, op.fields);
    }
  }

  /** Every accepted patch is an order-keeping edit script. */
  lemma {:induction false} PatchAligns(before: seq<Dict>, ms: seq<Dict>, ops: seq<Json>, position: nat)
    requires Aligned(before, ms) && ApplyOps(ms, ops, position).Ok?
    ensures Aligned(before, ApplyOps(ms, ops, position).value)
    decreases |ops|
  {
    if ops != [] {
      AlignedStep(before, ms, ops[0], position);
      PatchAligns(before, ApplyOp(ms, ops[0], position).value, ops[1..], position + 1);
    }
  }

  /** Completed milestones survive every accepted patch, in order and unchanged outside
      `depends_on`, and no patch completes anything. */
  lemma PatchKeepsFinishedWork(ms: seq<Dict>, ops: seq<Json>)
    requires ApplyOps(ms, ops).Ok?
    ensures Aligned(ms, ApplyOps(ms, ops).value)
    ensures Finished(ApplyOps(ms, ops).value) == Finished(ms)
  {
    AlignedReflexive(ms);
    PatchAligns(ms, ms, ops, 0);
    AlignedKeepsFinished(ms, ApplyOps(ms, ops).value);
  }

  // ---------------------------------------------------------------- ids

  ghost predicate UniqueIds(ms: seq<Dict>) {
    forall i, j :: 0 <= i < j < |ms| && Id(ms[i]).Some? ==> Id(ms[i]) != Id(ms[j])
  }

  /** Whether the id an op would store is the id it was checked under. */
  ghost predicate StoredAsChecked(op: Json) {
    op.Obj? && Get(op.fields, "op", Null) == Str("insert_milestone_after") &&
    Get(op.fields, "milestone", Null).Obj? ==>
      match Id(op.fields["milestone"].fields)
      case None => true
      case Some(id) => Trimmed(id)
  }

  lemma InsertedAmongUnique(ms: seq<Dict>, k: nat, m: Dict)
    requires UniqueIds(ms) && k <= |ms|
    ensures UniqueIds(InsertAt(ms, k, m)) <==>
            Id(m).None? || forall i :: 0 <= i < |ms| ==> Id(ms[i]) != Id(m)
  {
    var out := InsertAt(ms, k, m);
    assert out[k] == m;
    assert forall i :: 0 <= i < k ==> out[i] == ms[i];
    assert forall i :: k < i < |out| ==> out[i] == ms[i - 1];
    forall i | 0 <= i < |ms| && Id(m).Some? && Id(ms[i]) == Id(m) ensures !UniqueIds(out) {
      assert out[if i < k then i else i + 1] == ms[i];
    }
  }

  lemma NewMilestoneKeepsId(candidate: Json, taken: set<string>)
    requires NewMilestone(candidate, taken).Ok?
    ensures Id(NewMilestone(candidate, taken).value) == Id(candidate.fields)
    ensures Pending(NewMilestone(candidate, taken).value)
  {
  }

  /** One accepted insertion keeps ids unique exactly when the id, as stored, was not taken. */
  lemma InsertKeepsIdsUniqueIff(ms: seq<Dict>, op: Dict)
    requires UniqueIds(ms) && Insert(ms, op).Ok?
    ensures UniqueIds(Insert(ms, op).value) <==>
            Id(op["milestone"].fields).None? || Id(op["milestone"].fields).value !in Index(ms)
  {
    var k := Index(ms)[TextField(op, "after_id")] + 1;
    var m := NewMilestone(op["milestone"], Index(ms).Keys).value;
    NewMilestoneKeepsId(op["milestone"], Index(ms).Keys);
    hide Index, NewMilestone, Id, UniqueIds, InsertAt, TextField;
    InsertedAmongUnique(ms, k, m);
    if Id(m).Some? {
      IndexIsLast(ms, Id(m).value);
    }
  }

  lemma RemoveKeepsIdsUnique(ms: seq<Dict>, op: Dict)
    requires UniqueIds(ms) && Remove(ms, op).Ok?
    ensures UniqueIds(Remove(ms, op).value)
  {
    var id := TextField(op, "milestone_id");
    var k := Index(ms)[id];
    var out := Remove(ms, op).value;
    hide Index, RemoveAt, TextField, Completed;
    forall i | 0 <= i < |out| ensures Id(out[i]) == Id(ms[if i < k then i else i + 1]) {
      assert out[i] == DropDependency(RemoveAt(ms, k)[i], id);
      DropIsSame(RemoveAt(ms, k)[i], id);
      SameKeepsIdentity(RemoveAt(ms, k)[i], out[i]);
    }
    hide Id, Remove, DropDependency;
  }

  lemma UpdateKeepsIds(ms: seq<Dict>, op: Dict)
    requires Update(ms, op).Ok?
    ensures |Update(ms, op).value| == |ms|
    ensures forall i :: 0 <= i < |ms| ==> Id(Update(ms, op).value[i]) == Id(ms[i])
  {
    hide Index, TextField, Completed, Id;
    var k := Index(ms)[TextField(op, "milestone_id")];
    FieldsKeepId(ms[k], op["fields"].fields);
  }

  lemma FieldsKeepId(m: Dict, f: Dict)
    requires f.Keys <= UPDATABLE_FIELDS
    ensures Id(m + f) == Id(m)
  {
  }

  lemma OpKeepsIdsUnique(ms: seq<Dict>, op: Json, position: nat)
    requires UniqueIds(ms) && ApplyOp(ms, op, position).Ok? && StoredAsChecked(op)
    ensures UniqueIds(ApplyOp(ms, op, position).value)
  {
    var d := op.fields;
    if d["op"] == Str("update_milestone") {
      UpdateKeepsIds(ms, d);
    } else if d["op"] == Str("insert_milestone_after") {
      InsertKeepsIdsUniqueIff(ms, d);
      if Id(d["milestone"].fields).Some? {
        StripTrims(Id(d["milestone"].fields).value);
      }
    } else {
      RemoveKeepsIdsUnique(ms, d);
    }
  }

  /** A patch whose inserted ids are stored as they were checked keeps ids unique. */
  lemma {:induction false} PatchKeepsIdsUnique(ms: seq<Dict>, ops: seq<Json>, position: nat)
    requires UniqueIds(ms) && ApplyOps(ms, ops, position).Ok?
    requires forall op :: op in ops ==> StoredAsChecked(op)
    ensures UniqueIds(ApplyOps(ms, ops, position).value)
    decreases |ops|
  {
    if ops != [] {
      assert ops[0] in ops;
      OpKeepsIdsUnique(ms, ops[0], position);
      PatchKeepsIdsUnique(ApplyOp(ms, ops[0], position).value, ops[1..], position + 1);
    }
  }

  /** No trimmed id is carried twice. */
  ghost predicate TrimmedIdsUnique(ms: seq<Dict>) {
    forall i, j :: 0 <= i < j < |ms| && Id(ms[i]).Some? && Trimmed(Id(ms[i]).value) ==> Id(ms[i]) != Id(ms[j])
  }

  lemma CheckedIdWasFree(candidate: Json, taken: set<string>)
    requires NewMilestone(candidate, taken).Ok? && Id(candidate.fields).Some?
    ensures Strip(Id(candidate.fields).value) !in taken
  {
    hide Strip;
  }

  lemma InsertKeepsTrimmedIdsUnique(ms: seq<Dict>, k: nat, m: Dict)
    requires TrimmedIdsUnique(ms) && k <= |ms|
    requires Id(m).Some? && Trimmed(Id(m).value) ==> forall i :: 0 <= i < |ms| ==> Id(ms[i]) != Id(m)
    ensures TrimmedIdsUnique(InsertAt(ms, k, m))
  {
    hide InsertAt, Id, Trimmed;
    InsertAtIndex(ms, k, m);
    var out := InsertAt(ms, k, m);
    forall i, j | 0 <= i < j < |out| && Id(out[i]).Some? && Trimmed(Id(out[i]).value) ensures Id(out[i]) != Id(out[j]) {
      assert i != k ==> out[i] == ms[if i < k then i else i - 1];
      assert j != k ==> out[j] == ms[if j < k then j else j - 1];
    }
  }

  lemma OpKeepsTrimmedIdsUnique(ms: seq<Dict>, op: Json, position: nat)
    requires TrimmedIdsUnique(ms) && ApplyOp(ms, op, position).Ok?
    ensures TrimmedIdsUnique(ApplyOp(ms, op, position).value)
  {
    hide Index, Id, Trimmed, InsertAt, RemoveAt, Update, NewMilestone, TrimmedIdsUnique, DropDependency, Strip;
    var d := op.fields;
    if d["op"] == Str("update_milestone") {
      UpdateKeepsIds(ms, d);
      TrimmedIdsUniqueByIds(ms, Update(ms, d).value);
    } else if d["op"] == Str("insert_milestone_after") {
      var m := NewMilestone(Get(d, "milestone", Null), Index(ms).Keys).value;
      InsertedCandidate(ms, d);
      NewMilestoneKeepsId(d["milestone"], Index(ms).Keys);
      if Id(m).Some? && Trimmed(Id(m).value) {
        StripTrims(Id(m).value);
        CheckedIdWasFree(d["milestone"], Index(ms).Keys);
        IndexIsLast(ms, Id(m).value);
      }
      InsertKeepsTrimmedIdsUnique(ms, Index(ms)[TextField(d, "after_id")] + 1, m);
    } else {
      RemoveKeepsTrimmedIdsUnique(ms, d);
    }
  }

  lemma InsertedCandidate(ms: seq<Dict>, op: Dict)
    requires Insert(ms, op).Ok?
    ensures "milestone" in op && op["milestone"].Obj? && NewMilestone(op["milestone"], Index(ms).Keys).Ok?
    ensures TextField(op, "after_id") in Index(ms)
  {
    hide Index, TextField;
  }

  lemma TrimmedIdsUniqueByIds(ms: seq<Dict>, out: seq<Dict>)
    requires TrimmedIdsUnique(ms) && |out| == |ms| && forall i :: 0 <= i < |ms| ==> Id(out[i]) == Id(ms[i])
    ensures TrimmedIdsUnique(out)
  {
    hide Id, Trimmed;
  }

  lemma RemoveKeepsTrimmedIdsUnique(ms: seq<Dict>, op: Dict)
    requires TrimmedIdsUnique(ms) && Remove(ms, op).Ok?
    ensures TrimmedIdsUnique(Remove(ms, op).value)
  {
    hide Index, RemoveAt, TextField, Completed, Id, DropDependency, Trimmed;
    var id := TextField(op, "milestone_id");
    var k := Index(ms)[id];
    var out := Remove(ms, op).value;
    RemoveAtIndex(ms, k);
    forall i | 0 <= i < |out| ensures Id(out[i]) == Id(ms[if i < k then i else i + 1]) {
      assert out[i] == DropDependency(RemoveAt(ms, k)[i], id);
      DropIsSame(RemoveAt(ms, k)[i], id);
      SameKeepsIdentity(RemoveAt(ms, k)[i], out[i]);
    }
    forall i, j | 0 <= i < j < |out| && Id(out[i]).Some? && Trimmed(Id(out[i]).value) ensures Id(out[i]) != Id(out[j]) {
      var i0, j0 := if i < k then i else i + 1, if j < k then j else j + 1;
      assert Id(out[i]) == Id(ms[i0]) && Id(out[j]) == Id(ms[j0]);
    }
  }

  /** Trimmed ids stay unique under every accepted patch, whatever the planner inserts. */
  lemma {:induction false} PatchKeepsTrimmedIdsUnique(ms: seq<Dict>, ops: seq<Json>, position: nat := 0)
    requires TrimmedIdsUnique(ms) && ApplyOps(ms, ops, position).Ok?
    ensures TrimmedIdsUnique(ApplyOps(ms, ops, position).value)
    decreases |ops|
  {
    hide TrimmedIdsUnique, ApplyOp;
    if ops != [] {
      OpKeepsTrimmedIdsUnique(ms, ops[0], position);
      PatchKeepsTrimmedIdsUnique(ApplyOp(ms, ops[0], position).value, ops[1..], position + 1);
    }
  }

  // The documented promise "milestone ids stay unique" fails for untrimmed ids: the same
  // insertion is accepted twice, because it is checked under an id that is never stored.

  function SampleMilestone(id: string): Dict {
    map["id" := Str(id), "title" := Str("t"), "target_files" := Arr([Str("f.py")]),
        "acceptance_criteria" := Arr([Str("works")])]
  }

  function InsertOp(anchor: string, id: string): Json {
    Obj(map["op" := Str("insert_milestone_after"), "after_id" := Str(anchor),
            "milestone" := Obj(SampleMilestone(id))])
  }

  function RemoveOp(id: string): Json {
    Obj(map["op" := Str("remove_milestone"), "milestone_id" := Str(id)])
  }

  ghost predicate InsertsOnly(ops: seq<Json>, id: string) {
    forall op :: op in ops && op.Obj? && "milestone" in op.fields && op.fields["milestone"].Obj? ==>
      Get(op.fields["milestone"].fields, "id", Null) == Str(id)
  }

  function Stored(id: string): Dict {
    SampleMilestone(id)["depends_on" := Arr([])]["status" := Str("pending")]
  }

  lemma SampleFields(id: string)
    ensures var m := SampleMilestone(id);
      && m.Keys == {"id", "title", "target_files", "acceptance_criteria"}
      && m["id"] == Str(id) && m["title"] == Str("t")
      && m["target_files"] == Arr([Str("f.py")]) && m["acceptance_criteria"] == Arr([Str("works")])
    ensures Stored(id)["id"] == Str(id)
  {
  }

  lemma SampleIsAccepted(id: string, taken: set<string>)
    requires Strip(id) != "" && Strip(id) !in taken
    ensures NewMilestone(Obj(SampleMilestone(id)), taken) == Ok(Stored(id))
  {
    SampleFields(id);
  }

  /** What inserting the sample after an anchor does, as long as its stripped id is free. */
  lemma SampleInsert(ms: seq<Dict>, op: Dict, anchor: string, id: string)
    requires "after_id" in op && op["after_id"] == Str(anchor)
    requires "milestone" in op && op["milestone"] == Obj(SampleMilestone(id))
    requires anchor in Index(ms) && Strip(anchor) == anchor
    requires Strip(id) != "" && Strip(id) !in Index(ms)
    ensures Insert(ms, op) == Ok(InsertAt(ms, Index(ms)[anchor] + 1, Stored(id)))
  {
    SampleIsAccepted(id, Index(ms).Keys);
  }

  ghost predicate PlainId(id: string) {
    id != "" && Strip(id) == id
  }

  lemma InsertSample(ms: seq<Dict>, anchor: string, id: string)
    requires anchor in Index(ms) && PlainId(anchor) && PlainId(id) && id !in Index(ms)
    ensures ApplyOp(ms, InsertOp(anchor, id), 0) == Ok(InsertAt(ms, Index(ms)[anchor] + 1, Stored(id)))
  {
    hide Index;
    var op := InsertOp(anchor, id);
    assert op.fields["op"] == Str("insert_milestone_after");
    SampleInsert(ms, op.fields, anchor, id);
  }

  lemma PositionIrrelevant(ms: seq<Dict>, op: Json, position: nat)
    requires BadOp(op, 0).None?
    ensures ApplyOp(ms, op, position) == ApplyOp(ms, op, 0)
  {
  }

  lemma {:induction false} TwoOps(ms: seq<Dict>, first: Json, second: Json, middle: seq<Dict>, last: seq<Dict>)
    requires ApplyOp(ms, first, 0) == Ok(middle) && ApplyOp(middle, second, 0) == Ok(last)
    ensures ApplyOps(ms, [first, second]) == Ok(last)
  {
    PositionIrrelevant(middle, second, 1);
    assert [first, second][1..] == [second] && [second][1..] == [];
    assert ApplyOps(last, [], 2) == Ok(last);
    assert ApplyOps(middle, [second], 1) == Ok(last);
  }

  lemma {:induction false} OneOp(ms: seq<Dict>, op: Json, last: seq<Dict>)
    requires ApplyOp(ms, op, 0) == Ok(last)
    ensures ApplyOps(ms, [op]) == Ok(last)
  {
    assert [op][1..] == [];
    assert ApplyOps(last, [], 1) == Ok(last);
  }

  lemma {:induction false} TwoInserts(ms: seq<Dict>, op: Json, once: seq<Dict>, twice: seq<Dict>)
    requires ApplyOp(ms, op, 0) == Ok(once) && ApplyOp(once, op, 1) == Ok(twice)
    ensures ApplyOps(ms, [op, op]) == Ok(twice)
  {
    assert [op, op][1..] == [op] && [op][1..] == [];
    assert ApplyOps(twice, [], 2) == Ok(twice);
    assert ApplyOps(once, [op], 1) == Ok(twice);
  }

  lemma SampleIds(id: string)
    requires id != ""
    ensures Id(SampleMilestone(id)) == Some(id) == Id(Stored(id))
  {
    SampleFields(id);
  }

  lemma SampleIndex(ms: seq<Dict>, once: seq<Dict>, anchor: string, id: string)
    requires anchor != "" && id != "" && ms == [SampleMilestone(anchor)] && once == [ms[0], Stored(id)]
    ensures Index(ms) == map[anchor := 0] && Index(once) == map[anchor := 0][id := 1]
  {
    SampleIds(anchor);
    SampleIds(id);
    assert ms[..0] == [] && once[..1] == ms;
  }

  lemma SampleOp(ms: seq<Dict>, anchor: string, id: string)
    requires anchor in Index(ms) && Strip(anchor) == anchor
    requires Strip(id) != "" && Strip(id) !in Index(ms)
    ensures ApplyOp(ms, InsertOp(anchor, id), 0) == Ok(InsertAt(ms, Index(ms)[anchor] + 1, Stored(id)))
    ensures ApplyOp(ms, InsertOp(anchor, id), 1) == ApplyOp(ms, InsertOp(anchor, id), 0)
  {
    hide Index, Stored, InsertAt;
    var op := InsertOp(anchor, id);
    assert op.fields["op"] == Str("insert_milestone_after");
    SampleInsert(ms, op.fields, anchor, id);
  }

  lemma InsertedTwice(anchor: string, id: string)
    requires Strip(anchor) == anchor != "" && id != "" && Strip(id) != id && Strip(id) != "" && Strip(id) != anchor
    ensures var op := InsertOp(anchor, id);
      ApplyOps([SampleMilestone(anchor)], [op, op]) == Ok([SampleMilestone(anchor), Stored(id), Stored(id)])
  {
    hide Index, Stored, SampleMilestone, ApplyOp, ApplyOps, Strip;
    var ms := [SampleMilestone(anchor)];
    var once, twice := [ms[0], Stored(id)], [ms[0], Stored(id), Stored(id)];
    SampleIndex(ms, once, anchor, id);
    SampleOp(ms, anchor, id);
    assert InsertAt(ms, 1, Stored(id)) == once;
    SampleOp(once, anchor, id);
    assert InsertAt(once, 1, Stored(id)) == twice;
    TwoInserts(ms, InsertOp(anchor, id), once, twice);
  }

  lemma SampleInsertsOnly(anchor: string, id: string)
    ensures InsertsOnly([InsertOp(anchor, id), InsertOp(anchor, id)], id)
  {
    SampleFields(id);
  }

  lemma OnlyTheTwiceInsertedRepeats(anchor: string, id: string)
    requires id != ""
    ensures UniqueIds([SampleMilestone(anchor)])
    ensures !UniqueIds([SampleMilestone(anchor), Stored(id), Stored(id)])
  {
    hide Stored, SampleMilestone, Id;
    SampleIds(id);
    var twice := [SampleMilestone(anchor), Stored(id), Stored(id)];
    assert Id(twice[1]) == Id(twice[2]) == Some(id);
  }

  /** Some plain id other than the given one. */
  lemma AnotherId(id: string) returns (anchor: string)
    ensures anchor != "" && Strip(anchor) == anchor && anchor != id
  {
    anchor := if id == "A" then "B" else "A";
    StripTrims(anchor);
  }

  lemma UntrimmedIdIsInsertedTwice(id: string)
    requires Strip(id) != id && Strip(id) != ""
    ensures exists ms: seq<Dict>, ops: seq<Json> ::
      UniqueIds(ms) && InsertsOnly(ops, id) && ApplyOps(ms, ops).Ok? && !UniqueIds(ApplyOps(ms, ops).value)
  {
    hide Stored, SampleMilestone, ApplyOps, Strip, InsertsOnly, InsertOp, UniqueIds;
    StripTrims(id);
    var anchor := AnotherId(Strip(id));
    InsertedTwice(anchor, id);
    SampleInsertsOnly(anchor, id);
    OnlyTheTwiceInsertedRepeats(anchor, id);
    var ms, op := [SampleMilestone(anchor)], InsertOp(anchor, id);
    assert UniqueIds(ms) && InsertsOnly([op, op], id) && ApplyOps(ms, [op, op]).Ok?;
  }

  /** Inserting under an id keeps every plan's ids unique exactly when the id is trimmed. */
  lemma IdsStayUniqueIff(id: string)
    requires Strip(id) != ""
    ensures Trimmed(id) <==>
      forall ms: seq<Dict>, ops: seq<Json> ::
        UniqueIds(ms) && InsertsOnly(ops, id) && ApplyOps(ms, ops).Ok? ==> UniqueIds(ApplyOps(ms, ops).value)
  {
    StripTrims(id);
    if Trimmed(id) {
      forall ms: seq<Dict>, ops: seq<Json> |
        UniqueIds(ms) && InsertsOnly(ops, id) && ApplyOps(ms, ops).Ok?
        ensures UniqueIds(ApplyOps(ms, ops).value)
      {
        PatchKeepsIdsUnique(ms, ops, 0);
      }
    } else {
      UntrimmedIdIsInsertedTwice(id);
    }
  }
}
