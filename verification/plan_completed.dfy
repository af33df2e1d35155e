/** Whether completed milestones are immutable, dependency lists included. */
module PlanCompleted {
  import opened JsonValues
  import opened Text
  import opened PlanOps
  import opened PlanPatchLaws
  import opened PlanLintLaws
  import opened PlanOrder

  /** The completed milestones of a plan, dependency lists included. */
  function FinishedWhole(ms: seq<Dict>): seq<Dict> {
    if ms == [] then []
    else (if Completed(ms[0]) then [ms[0]] else []) + FinishedWhole(ms[1..])
  }

  lemma {:induction false} InFinishedWholeIff(ms: seq<Dict>, m: Dict)
    ensures m in FinishedWhole(ms) <==> m in ms && Completed(m)
  {
    if ms != [] {
      InFinishedWholeIff(ms[1..], m);
    }
  }

  /** What completed milestones depend on is completed too. */
  ghost predicate CompletedClosed(finished: seq<Dict>) {
    forall m, d :: m in finished && d in Dependencies(m) ==> IdAmong(finished, PyStr(d))
  }

  ghost predicate IdAmong(ms: seq<Dict>, id: string) {
    exists m :: m in ms && Id(m) == Some(id)
  }

  ghost predicate CompletedPrefix(ms: seq<Dict>, n: nat) {
    n <= |ms| && forall i :: 0 <= i < |ms| ==> (Completed(ms[i]) <==> i < n)
  }

  lemma PrefixIsClosed(ms: seq<Dict>, n: nat)
    requires Topological(ms) && CompletedPrefix(ms, n)
    ensures CompletedClosed(FinishedWhole(ms))
  {
    forall m, d | m in FinishedWhole(ms) && d in Dependencies(m) ensures IdAmong(FinishedWhole(ms), PyStr(d)) {
      InFinishedWholeIff(ms, m);
      var i :| 0 <= i < |ms| && ms[i] == m;
      assert EarlierMilestone(ms, i, PyStr(d));
      var j :| 0 <= j < i && Id(ms[j]) == Some(PyStr(d));
      InFinishedWholeIff(ms, ms[j]);
    }
  }

  lemma {:induction false} FinishedWholeSplit(a: seq<Dict>, b: seq<Dict>)
    ensures FinishedWhole(a + b) == FinishedWhole(a) + FinishedWhole(b)
  {
    hide Completed;
    if a == [] {
      assert a + b == b;
    } else {
      assert (a + b)[1..] == a[1..] + b && (a + b)[0] == a[0];
      FinishedWholeSplit(a[1..], b);
      assert FinishedWhole(a + b) == (if Completed(a[0]) then [a[0]] else []) + FinishedWhole(a[1..] + b);
    }
  }

  lemma FinishedWholeSkips(a: seq<Dict>, m: Dict, b: seq<Dict>)
    requires !Completed(m)
    ensures FinishedWhole(a + [m] + b) == FinishedWhole(a + b)
  {
    assert a + [m] + b == a + ([m] + b);
    assert ([m] + b)[1..] == b;
    FinishedWholeSplit(a, [m] + b);
    FinishedWholeSplit(a, b);
  }

  lemma {:induction false} FinishedWholePointwise(ms: seq<Dict>, out: seq<Dict>)
    requires |out| == |ms|
    requires forall i :: 0 <= i < |ms| ==>
      (Completed(out[i]) <==> Completed(ms[i])) && (Completed(ms[i]) ==> out[i] == ms[i])
    ensures FinishedWhole(out) == FinishedWhole(ms)
  {
    if ms != [] {
      FinishedWholePointwise(ms[1..], out[1..]);
    }
  }

  lemma WholeAfterUpdate(ms: seq<Dict>, op: Dict)
    requires Update(ms, op).Ok?
    ensures FinishedWhole(Update(ms, op).value) == FinishedWhole(ms)
  {
    StatusAfterUpdate(ms[Index(ms)[TextField(op, "milestone_id")]], op["fields"].fields);
    FinishedWholePointwise(ms, Update(ms, op).value);
  }

  lemma SplitAt(ms: seq<Dict>, k: nat, m: Dict)
    requires k <= |ms|
    ensures ms[..k] + ms[k..] == ms && InsertAt(ms, k, m) == ms[..k] + [m] + ms[k..]
  {
  }

  lemma WholeAfterInsert(ms: seq<Dict>, k: nat, m: Dict)
    requires k <= |ms| && Pending(m)
    ensures FinishedWhole(InsertAt(ms, k, m)) == FinishedWhole(ms)
  {
    PendingIsNotCompleted(m);
    hide Completed, FinishedWhole, Pending;
    FinishedWholeSkips(ms[..k], m, ms[k..]);
    SplitAt(ms, k, m);
  }

  lemma {:induction false} WithoutAbsent(items: seq<Json>, x: Json)
    requires x !in items
    ensures Without(items, x) == items
  {
    if items != [] {
      WithoutAbsent(items[1..], x);
    }
  }

  // ---------------------------------------------------------------- what cannot be taken out

  /** The last milestone with this id is completed, so that no op can take it out. */
  ghost predicate LastIsCompleted(ms: seq<Dict>, id: string) {
    exists p :: LastCarrier(ms, p, id) && Completed(ms[p])
  }

  ghost predicate LastCarrier(ms: seq<Dict>, p: int, id: string) {
    0 <= p < |ms| && Id(ms[p]) == Some(id) && forall i :: p < i < |ms| ==> Id(ms[i]) != Some(id)
  }

  /** An id, without white space around it, that an op can name or bring in. */
  predicate Nameable(id: string) {
    id != "" && Trimmed(id)
  }

  /** Whatever a completed milestone depends on by a nameable text is itself completed for good. */
  ghost predicate Settled(ms: seq<Dict>) {
    forall m, id :: m in ms && Completed(m) && Str(id) in Dependencies(m) && Nameable(id) ==> LastIsCompleted(ms, id)
  }

  lemma LastIsIndexed(ms: seq<Dict>, id: string)
    ensures LastIsCompleted(ms, id) <==> id in Index(ms) && Completed(ms[Index(ms)[id]])
  {
    hide Id, Index, Completed;
    IndexIsLast(ms, id);
    if id in Index(ms) {
      assert LastCarrier(ms, Index(ms)[id], id);
    }
  }

  lemma SettledByLast(ms: seq<Dict>, out: seq<Dict>)
    requires Settled(ms) && FinishedWhole(out) == FinishedWhole(ms)
    requires forall id :: Nameable(id) && LastIsCompleted(ms, id) ==> LastIsCompleted(out, id)
    ensures Settled(out)
  {
    hide Completed, FinishedWhole, LastIsCompleted, Nameable, Dependencies;
    forall m, id | m in out && Completed(m) && Str(id) in Dependencies(m) && Nameable(id)
      ensures LastIsCompleted(out, id)
    {
      InFinishedWholeIff(out, m);
      InFinishedWholeIff(ms, m);
    }
  }

  lemma LastPointwise(ms: seq<Dict>, out: seq<Dict>, id: string)
    requires |out| == |ms| && LastIsCompleted(ms, id)
    requires forall i :: 0 <= i < |ms| ==> Id(out[i]) == Id(ms[i]) && (Completed(out[i]) <==> Completed(ms[i]))
    ensures LastIsCompleted(out, id)
  {
    hide Id, Completed;
    var p :| LastCarrier(ms, p, id) && Completed(ms[p]);
    assert LastCarrier(out, p, id);
  }

  lemma LastAfterInsert(ms: seq<Dict>, k: nat, m: Dict, id: string)
    requires k <= |ms| && LastIsCompleted(ms, id) && Id(m) != Some(id)
    ensures LastIsCompleted(InsertAt(ms, k, m), id)
  {
    hide Id, Completed, InsertAt;
    InsertAtIndex(ms, k, m);
    var out := InsertAt(ms, k, m);
    var p :| LastCarrier(ms, p, id) && Completed(ms[p]);
    var q := if p < k then p else p + 1;
    forall i | q < i < |out| ensures Id(out[i]) != Some(id) {
      assert i != k ==> out[i] == ms[if i < k then i else i - 1];
    }
    assert LastCarrier(out, q, id) && out[q] == ms[p];
  }

  lemma LastAfterRemove(ms: seq<Dict>, k: nat, id: string)
    requires k < |ms| && !Completed(ms[k]) && LastIsCompleted(ms, id)
    ensures LastIsCompleted(RemoveAt(ms, k), id)
  {
    hide Id, Completed, RemoveAt;
    RemoveAtIndex(ms, k);
    var out := RemoveAt(ms, k);
    var p :| LastCarrier(ms, p, id) && Completed(ms[p]);
    assert p != k;
    var q := if p < k then p else p - 1;
    assert LastCarrier(out, q, id) && out[q] == ms[p];
  }

  lemma IdIsNotEmpty(m: Dict)
    ensures Id(m) != Some("")
  {
  }

  lemma SettledUpdate(ms: seq<Dict>, op: Dict)
    requires Settled(ms) && Update(ms, op).Ok?
    ensures FinishedWhole(Update(ms, op).value) == FinishedWhole(ms) && Settled(Update(ms, op).value)
  {
    var k := Index(ms)[TextField(op, "milestone_id")];
    var out := Update(ms, op).value;
    WholeAfterUpdate(ms, op);
    UpdateKeepsIds(ms, op);
    StatusAfterUpdate(ms[k], op["fields"].fields);
    assert forall i :: 0 <= i < |ms| && i != k ==> out[i] == ms[i];
    hide Update, Index, Id, Completed, FinishedWhole, Settled, LastIsCompleted, Nameable, TextField;
    forall id | Nameable(id) && LastIsCompleted(ms, id) ensures LastIsCompleted(out, id) {
      LastPointwise(ms, out, id);
    }
    SettledByLast(ms, out);
  }

  lemma SettledInsert(ms: seq<Dict>, op: Dict)
    requires Settled(ms) && Insert(ms, op).Ok?
    ensures FinishedWhole(Insert(ms, op).value) == FinishedWhole(ms) && Settled(Insert(ms, op).value)
  {
    hide Index, Id, Completed, FinishedWhole, Settled, LastIsCompleted, Trimmed, Strip, InsertAt, TextField,
      NewMilestone, Pending;
    InsertedCandidate(ms, op);
    var m := NewMilestone(op["milestone"], Index(ms).Keys).value;
    var k := Index(ms)[TextField(op, "after_id")] + 1;
    NewMilestoneKeepsId(op["milestone"], Index(ms).Keys);
    WholeAfterInsert(ms, k, m);
    forall id | Nameable(id) && LastIsCompleted(ms, id) ensures LastIsCompleted(InsertAt(ms, k, m), id) {
      LastIsIndexed(ms, id);
      if Id(m) == Some(id) {
        StripTrims(id);
        CheckedIdWasFree(op["milestone"], Index(ms).Keys);
      }
      LastAfterInsert(ms, k, m, id);
    }
    SettledByLast(ms, InsertAt(ms, k, m));
  }

  lemma SettledRemove(ms: seq<Dict>, op: Dict)
    requires Settled(ms) && Remove(ms, op).Ok?
    ensures FinishedWhole(Remove(ms, op).value) == FinishedWhole(ms) && Settled(Remove(ms, op).value)
  {
    var id := TextField(op, "milestone_id");
    StripTrims(PyStr(Get(op, "milestone_id", Str(""))));
    assert Trimmed(id);
    hide Index, Id, Completed, FinishedWhole, Settled, LastIsCompleted, Trimmed, RemoveAt, DropEverywhere, TextField,
      Strip;
    var k := Index(ms)[id];
    IndexIsLast(ms, id);
    IdIsNotEmpty(ms[k]);
    LastIsIndexed(ms, id);
    WholeAfterRemove(ms, k, id);
    var rest := RemoveAt(ms, k);
    var out := DropEverywhere(rest, id);
    forall x | Nameable(x) && LastIsCompleted(ms, x) ensures LastIsCompleted(out, x) {
      LastAfterRemove(ms, k, x);
      LastAfterDrop(rest, id, x);
    }
    SettledByLast(ms, out);
  }

  lemma LastAfterDrop(ms: seq<Dict>, id: string, x: string)
    requires LastIsCompleted(ms, x)
    ensures LastIsCompleted(DropEverywhere(ms, id), x)
  {
    hide Id, Completed, LastIsCompleted, DropDependency;
    var out := DropEverywhere(ms, id);
    forall i | 0 <= i < |ms| ensures Id(out[i]) == Id(ms[i]) && (Completed(out[i]) <==> Completed(ms[i])) {
      DroppedDependencies(ms[i], id, Null);
      StatusAfterDrop(ms[i], id);
    }
    LastPointwise(ms, out, x);
  }

  lemma CompletedKeepTheirLists(ms: seq<Dict>, id: string, rest: seq<Dict>)
    requires Settled(ms) && Nameable(id) && !LastIsCompleted(ms, id)
    requires forall m :: m in rest ==> m in ms
    ensures FinishedWhole(DropEverywhere(rest, id)) == FinishedWhole(rest)
  {
    hide Completed, LastIsCompleted, Nameable, Dependencies, DropDependency;
    var out := DropEverywhere(rest, id);
    forall i | 0 <= i < |rest|
      ensures (Completed(out[i]) <==> Completed(rest[i])) && (Completed(rest[i]) ==> out[i] == rest[i])
    {
      StatusAfterDrop(rest[i], id);
    }
    FinishedWholePointwise(rest, out);
  }

  lemma WholeAfterRemove(ms: seq<Dict>, k: nat, id: string)
    requires Settled(ms) && k < |ms| && !Completed(ms[k]) && Nameable(id) && !LastIsCompleted(ms, id)
    ensures FinishedWhole(DropEverywhere(RemoveAt(ms, k), id)) == FinishedWhole(ms)
  {
    hide Completed, FinishedWhole, Settled, LastIsCompleted, DropEverywhere, Nameable;
    SplitAtRemoved(ms, k);
    CompletedKeepTheirLists(ms, id, RemoveAt(ms, k));
    FinishedWholeSkips(ms[..k], ms[k], ms[k + 1..]);
  }

  lemma SplitAtRemoved(ms: seq<Dict>, k: nat)
    requires k < |ms|
    ensures ms == ms[..k] + [ms[k]] + ms[k + 1..] && RemoveAt(ms, k) == ms[..k] + ms[k + 1..]
    ensures forall m :: m in RemoveAt(ms, k) ==> m in ms
  {
  }

  /** In a settled plan every accepted patch leaves every completed milestone wholly unchanged, dependency
      list included, and the plan settled. */
  lemma {:induction false} PatchLeavesCompletedWhole(ms: seq<Dict>, ops: seq<Json>, position: nat := 0)
    requires Settled(ms) && ApplyOps(ms, ops, position).Ok?
    ensures FinishedWhole(ApplyOps(ms, ops, position).value) == FinishedWhole(ms)
    ensures Settled(ApplyOps(ms, ops, position).value)
    decreases |ops|
  {
    hide Settled, FinishedWhole, Update, Insert, Remove;
    if ops != [] {
      var op := ops[0];
      if op.fields["op"] == Str("update_milestone") {
        SettledUpdate(ms, op.fields);
      } else if op.fields["op"] == Str("insert_milestone_after") {
        SettledInsert(ms, op.fields);
      } else {
        SettledRemove(ms, op.fields);
      }
      PatchLeavesCompletedWhole(ApplyOp(ms, op, position).value, ops[1..], position + 1);
    }
  }

  lemma ClosedIsSettled(ms: seq<Dict>)
    requires TrimmedIdsUnique(ms) && CompletedClosed(FinishedWhole(ms))
    ensures Settled(ms)
  {
    hide Completed, FinishedWhole, Trimmed, Dependencies, Id;
    forall m, id | m in ms && Completed(m) && Str(id) in Dependencies(m) && Nameable(id)
      ensures LastIsCompleted(ms, id)
    {
      InFinishedWholeIff(ms, m);
      assert IdAmong(FinishedWhole(ms), PyStr(Str(id)));
      var c :| c in FinishedWhole(ms) && Id(c) == Some(id);
      InFinishedWholeIff(ms, c);
      var p :| 0 <= p < |ms| && ms[p] == c;
      assert LastCarrier(ms, p, id);
    }
  }

  /** A linted plan run in order: its completed prefix is beyond the reach of any planner. */
  lemma CompletedPrefixIsImmutable(ms: seq<Dict>, n: nat, ops: seq<Json>)
    requires TrimmedIdsUnique(ms) && Topological(ms) && CompletedPrefix(ms, n) && ApplyOps(ms, ops).Ok?
    ensures FinishedWhole(ApplyOps(ms, ops).value) == FinishedWhole(ms)
  {
    PrefixIsClosed(ms, n);
    ClosedIsSettled(ms);
    PatchLeavesCompletedWhole(ms, ops, 0);
  }

  // ---------------------------------------------------------------- the condition is exact

  /** No accepted patch changes a completed milestone. */
  ghost predicate CompletedAreImmutable(ms: seq<Dict>) {
    forall ops: seq<Json> ::
      ApplyOps(ms, ops).Ok? ==> FinishedWhole(ApplyOps(ms, ops).value) == FinishedWhole(ms)
  }

  /** No milestone has an id that an op could name, so that none but the empty patch is accepted. */
  ghost predicate OutOfReach(ms: seq<Dict>) {
    forall i :: 0 <= i < |ms| && Id(ms[i]).Some? ==> !Trimmed(Id(ms[i]).value)
  }

  lemma NothingIsAccepted(ms: seq<Dict>, ops: seq<Json>)
    requires OutOfReach(ms) && ops != []
    ensures ApplyOps(ms, ops).Err?
  {
    hide Id, Trimmed, Index, TextField, NewMilestone, Completed;
    forall op: Dict, key: string ensures TextField(op, key) !in Index(ms) {
      NamesAreTrimmed(op, key);
      IndexIsLast(ms, TextField(op, key));
    }
  }

  lemma NamesAreTrimmed(op: Dict, key: string)
    ensures Trimmed(TextField(op, key))
  {
    StripTrims(PyStr(Get(op, key, Str(""))));
  }

  lemma NoneIsLeft(rest: seq<Dict>, id: string)
    ensures forall m :: m in DropEverywhere(rest, id) ==> Str(id) !in Dependencies(m)
  {
    hide DropDependency, Dependencies;
    forall i | 0 <= i < |rest| ensures Str(id) !in Dependencies(DropEverywhere(rest, id)[i]) {
      DroppedDependencies(rest[i], id, Str(id));
    }
  }

  /** Taking out what a completed milestone depends on edits its list. */
  lemma RemovalEdits(ms: seq<Dict>, m: Dict, id: string)
    requires m in ms && Completed(m) && Str(id) in Dependencies(m)
    requires id in Index(ms) && Trimmed(id) && !Completed(ms[Index(ms)[id]])
    ensures ApplyOps(ms, [RemoveOp(id)]).Ok?
    ensures FinishedWhole(ApplyOps(ms, [RemoveOp(id)]).value) != FinishedWhole(ms)
  {
    hide Index, Completed, Trimmed, Dependencies, RemoveOp, ApplyOps, RemoveAt, DropEverywhere, FinishedWhole;
    RemovalApplies(ms, id);
    var out := DropEverywhere(RemoveAt(ms, Index(ms)[id]), id);
    NoneIsLeft(RemoveAt(ms, Index(ms)[id]), id);
    InFinishedWholeIff(ms, m);
    InFinishedWholeIff(out, m);
  }

  lemma OneThenRest(ms: seq<Dict>, first: Json, second: Json, middle: seq<Dict>, last: seq<Dict>)
    requires ApplyOp(ms, first, 0) == Ok(middle) && ApplyOps(middle, [second]) == Ok(last)
    ensures ApplyOps(ms, [first, second]) == Ok(last)
  {
    hide ApplyOp;
    assert [second][1..] == [];
    var end := ApplyOp(middle, second, 0).value;
    assert ApplyOps(end, [], 1) == Ok(end);
    TwoOps(ms, first, second, middle, last);
  }

  /** Bringing in, and taking out again, what a completed milestone depends on edits its list too. */
  lemma DetourEdits(ms: seq<Dict>, m: Dict, id: string, anchor: string)
    requires m in ms && Completed(m) && Str(id) in Dependencies(m) && Nameable(id) && id !in Index(ms)
    requires anchor in Index(ms) && Nameable(anchor)
    ensures ApplyOps(ms, [InsertOp(anchor, id), RemoveOp(id)]).Ok?
    ensures FinishedWhole(ApplyOps(ms, [InsertOp(anchor, id), RemoveOp(id)]).value) != FinishedWhole(ms)
  {
    StripTrims(id);
    StripTrims(anchor);
    SampleIds(id);
    SampleStatus(id);
    hide Index, Completed, Trimmed, Dependencies, RemoveOp, InsertOp, ApplyOps, ApplyOp, InsertAt, FinishedWhole,
      Stored, Id, Strip, Pending;
    InsertSample(ms, anchor, id);
    var k := Index(ms)[anchor] + 1;
    var middle := InsertAt(ms, k, Stored(id));
    WholeAfterInsert(ms, k, Stored(id));
    InsertAtIndex(ms, k, Stored(id));
    OnlyCarrier(ms, k, Stored(id), id);
    var i :| 0 <= i < |ms| && ms[i] == m;
    assert middle[if i < k then i else i + 1] == m;
    RemovalEdits(middle, m, id);
    OneThenRest(ms, InsertOp(anchor, id), RemoveOp(id), middle, ApplyOps(middle, [RemoveOp(id)]).value);
  }

  lemma SampleStatus(id: string)
    ensures Pending(Stored(id)) && !Completed(Stored(id))
  {
    SampleFields(id);
    PendingIsNotCompleted(Stored(id));
  }

  lemma OnlyCarrier(ms: seq<Dict>, k: nat, m: Dict, id: string)
    requires k <= |ms| && Id(m) == Some(id) && id !in Index(ms)
    ensures id in Index(InsertAt(ms, k, m)) && Index(InsertAt(ms, k, m))[id] == k
  {
    hide Id, Index, InsertAt;
    IndexIsLast(ms, id);
    InsertAtIndex(ms, k, m);
    var out := InsertAt(ms, k, m);
    IndexIsLast(out, id);
    assert out[k] == m;
    forall j | 0 <= j < |out| && j != k ensures Id(out[j]) != Some(id) {
      assert out[j] == ms[if j < k then j else j - 1];
    }
  }

  /** For every plan: its completed milestones are beyond the reach of every patch if and only if whatever
      they depend on by a nameable text is completed for good, or no milestone can be named at all. */
  lemma CompletedAreImmutableIff(ms: seq<Dict>)
    ensures CompletedAreImmutable(ms) <==> Settled(ms) || OutOfReach(ms)
  {
    hide FinishedWhole, ApplyOps, Completed, Dependencies, Trimmed, Id, Index, LastIsCompleted, RemoveOp, InsertOp;
    if Settled(ms) {
      forall ops: seq<Json> | ApplyOps(ms, ops).Ok?
        ensures FinishedWhole(ApplyOps(ms, ops).value) == FinishedWhole(ms)
      {
        PatchLeavesCompletedWhole(ms, ops, 0);
      }
    } else if OutOfReach(ms) {
      forall ops: seq<Json> | ApplyOps(ms, ops).Ok?
        ensures FinishedWhole(ApplyOps(ms, ops).value) == FinishedWhole(ms)
      {
        EmptyPatch(ms);
        if ops != [] {
          NothingIsAccepted(ms, ops);
        }
      }
    } else {
      var m, id :| m in ms && Completed(m) && Str(id) in Dependencies(m) && Nameable(id) && !LastIsCompleted(ms, id);
      LastIsIndexed(ms, id);
      if id in Index(ms) {
        RemovalEdits(ms, m, id);
      } else {
        var i :| 0 <= i < |ms| && Id(ms[i]).Some? && Trimmed(Id(ms[i]).value);
        IndexIsLast(ms, Id(ms[i]).value);
        IdIsNotEmpty(ms[i]);
        DetourEdits(ms, m, id, Id(ms[i]).value);
      }
    }
  }

  lemma EmptyPatch(ms: seq<Dict>)
    ensures ApplyOps(ms, []) == Ok(ms)
  {
  }

  /** A completed milestone that depends on one that is nowhere. */
  function GhostPlan(): seq<Dict> {
    [Stored("A")["status" := Str("completed")]["depends_on" := Arr([Str("ghost")])]]
  }

  lemma GhostDependencyIsEdited()
    ensures var patch := [InsertOp("A", "ghost"), RemoveOp("ghost")];
      && ApplyOps(GhostPlan(), patch).Ok?
      && FinishedWhole(ApplyOps(GhostPlan(), patch).value) != FinishedWhole(GhostPlan())
  {
    var m := GhostPlan()[0];
    GhostFields(m);
    hide Stored, Id, Completed, Dependencies, ApplyOps, FinishedWhole, InsertOp, RemoveOp, Trimmed, Index;
    IndexIsLast(GhostPlan(), "A");
    IndexIsLast(GhostPlan(), "ghost");
    assert GhostPlan() == [m];
    assert Id([m][0]) == Some("A");
    DetourEdits(GhostPlan(), m, "ghost", "A");
  }

  lemma GhostFields(m: Dict)
    requires m == Stored("A")["status" := Str("completed")]["depends_on" := Arr([Str("ghost")])]
    ensures Id(m) == Some("A") && Completed(m) && Str("ghost") in Dependencies(m)
    ensures Nameable("A") && Nameable("ghost") && "A" != "ghost"
  {
    SampleIds("A");
    SampleFields("A");
    assert Lower("completed") == "completed";
    assert "A"[0] != "ghost"[0];
  }
}
