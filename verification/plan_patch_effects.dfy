/** What an accepted operation does, said without the engine: where it acts, what it sets there, and
    that it acts nowhere else. */
module PlanPatchEffects {
  import opened JsonValues
  import opened Text
  import opened PlanOps
  import opened PlanPatchLaws
  import opened PlanLintLaws
  import opened PlanOrder

  /** The last milestone with this id. */
  ghost predicate LastWithId(ms: seq<Dict>, id: string, k: nat) {
    k < |ms| && Id(ms[k]) == Some(id) && forall i :: k < i < |ms| ==> Id(ms[i]) != Some(id)
  }

  lemma IndexedIsLast(ms: seq<Dict>, id: string)
    requires id in Index(ms)
    ensures LastWithId(ms, id, Index(ms)[id])
    ensures forall k: nat :: LastWithId(ms, id, k) ==> k == Index(ms)[id]
  {
    IndexIsLast(ms, id);
  }

  /** An update sets exactly the given fields of the last milestone with its id. */
  lemma UpdateSetsFields(ms: seq<Dict>, op: Dict, k: nat)
    requires Update(ms, op).Ok? && LastWithId(ms, TextField(op, "milestone_id"), k)
    ensures var out := Update(ms, op).value; var fields := op["fields"].fields;
      && |out| == |ms|
      && (forall i :: 0 <= i < |ms| && i != k ==> out[i] == ms[i])
      && (forall f :: f in fields ==> f in out[k] && out[k][f] == fields[f])
      && (forall f :: f !in fields ==> (f in out[k] <==> f in ms[k]) && (f in ms[k] ==> out[k][f] == ms[k][f]))
  {
    hide Index, TextField, Completed, Id;
    IndexedIsLast(ms, TextField(op, "milestone_id"));
  }

  /** An insertion puts the candidate, pending, right behind the last milestone with the anchor id;
      without it the plan is as before. */
  lemma InsertFollowsAnchor(ms: seq<Dict>, op: Dict, k: nat)
    requires Insert(ms, op).Ok? && LastWithId(ms, TextField(op, "after_id"), k)
    ensures var out := Insert(ms, op).value; var m := op["milestone"].fields;
      && |out| == |ms| + 1 && out[k] == ms[k]
      && RemoveAt(out, k + 1) == ms
      && Pending(out[k + 1])
      && (forall f :: f in m && f != "status" ==> f in out[k + 1] && out[k + 1][f] == m[f])
      && (forall f :: f in out[k + 1] ==> f in m || f == "status" || (f == "depends_on" && out[k + 1][f] == Arr([])))
  {
    hide Index, TextField, Id, NewMilestone, InsertAt, RemoveAt, Pending;
    InsertedCandidate(ms, op);
    IndexedIsLast(ms, TextField(op, "after_id"));
    var m := NewMilestone(op["milestone"], Index(ms).Keys).value;
    NewMilestoneFields(op["milestone"], Index(ms).Keys);
    InsertAtIndex(ms, k + 1, m);
    TakenOutAgain(ms, k + 1, m);
  }

  /** The candidate as stored: pending, with an empty dependency list if it had none. */
  lemma NewMilestoneFields(candidate: Json, taken: set<string>)
    requires NewMilestone(candidate, taken).Ok?
    ensures candidate.Obj? && Pending(NewMilestone(candidate, taken).value)
    ensures var m := candidate.fields; var out := NewMilestone(candidate, taken).value;
      && (forall f :: f in m && f != "status" ==> f in out && out[f] == m[f])
      && (forall f :: f in out ==> f in m || f == "status" || (f == "depends_on" && out[f] == Arr([])))
  {
  }

  lemma TakenOutAgain(ms: seq<Dict>, k: nat, m: Dict)
    requires k <= |ms|
    ensures RemoveAt(InsertAt(ms, k, m), k) == ms
  {
    var out := InsertAt(ms, k, m);
    assert out[..k] == ms[..k] && out[k + 1..] == ms[k..];
  }

  /** A removal takes out the last milestone with its id; afterwards no dependency list names the id, and
      with unique ids nothing carries it. */
  lemma RemoveLeavesNoTrace(ms: seq<Dict>, op: Dict, k: nat)
    requires Remove(ms, op).Ok? && LastWithId(ms, TextField(op, "milestone_id"), k)
    ensures var out := Remove(ms, op).value; var id := TextField(op, "milestone_id");
      && |out| == |ms| - 1
      && (forall i :: 0 <= i < |out| ==>
            var m := ms[if i < k then i else i + 1];
            && out[i] - {"depends_on"} == m - {"depends_on"}
            && forall d :: d in Dependencies(out[i]) <==> d in Dependencies(m) && d != Str(id))
      && (UniqueIds(ms) ==> id !in Index(out))
  {
    var id := TextField(op, "milestone_id");
    hide Index, TextField, Completed, RemoveAt, Id, Dependencies, DropDependency;
    IndexedIsLast(ms, id);
    RemoveAtIndex(ms, k);
    var rest := RemoveAt(ms, k);
    var out := Remove(ms, op).value;
    assert out == DropEverywhere(rest, id);
    forall i | 0 <= i < |out|
      ensures out[i] - {"depends_on"} == rest[i] - {"depends_on"} && Id(out[i]) == Id(rest[i])
      ensures forall d :: d in Dependencies(out[i]) <==> d in Dependencies(rest[i]) && d != Str(id)
    {
      DropKeepsTheRest(rest[i], id);
    }
    IndexIsLast(out, id);
  }

  lemma DropKeepsTheRest(m: Dict, id: string)
    ensures var out := DropDependency(m, id);
      && out - {"depends_on"} == m - {"depends_on"} && Id(out) == Id(m)
      && forall d :: d in Dependencies(out) <==> d in Dependencies(m) && d != Str(id)
  {
    forall d ensures d in Dependencies(DropDependency(m, id)) <==> d in Dependencies(m) && d != Str(id) {
      DroppedDependencies(m, id, d);
    }
    DropIsSame(m, id);
  }

  // ---------------------------------------------------------------- a round trip

  ghost predicate Mentions(ms: seq<Dict>, id: string) {
    exists i :: 0 <= i < |ms| && Str(id) in Dependencies(ms[i])
  }

  lemma NothingToDrop(ms: seq<Dict>, id: string)
    requires !Mentions(ms, id)
    ensures DropEverywhere(ms, id) == ms
  {
    forall i | 0 <= i < |ms| ensures DropDependency(ms[i], id) == ms[i] {
      StatusAfterDrop(ms[i], id);
    }
  }

  lemma StoredUnderItsId(candidate: Json, taken: set<string>, id: string)
    requires NewMilestone(candidate, taken).Ok? && Strip(id) == id
    requires Get(candidate.fields, "id", Null) == Str(id)
    ensures id !in taken && id != ""
    ensures Id(NewMilestone(candidate, taken).value) == Some(id) && !Completed(NewMilestone(candidate, taken).value)
  {
    hide Strip, Completed;
    NewMilestoneKeepsId(candidate, taken);
    PendingIsNotCompleted(NewMilestone(candidate, taken).value);
  }

  /** Removing what was just inserted under a trimmed id that no dependency names gives the plan back. */
  lemma InsertThenRemove(ms: seq<Dict>, insert: Dict, remove: Dict, id: string)
    requires Insert(ms, insert).Ok? && Strip(id) == id && TextField(remove, "milestone_id") == id
    requires Get(insert["milestone"].fields, "id", Null) == Str(id) && !Mentions(ms, id)
    ensures Remove(Insert(ms, insert).value, remove) == Ok(ms)
  {
    hide Index, TextField, InsertAt, RemoveAt, Id, Completed, NewMilestone, DropEverywhere, Mentions, Strip;
    InsertedCandidate(ms, insert);
    var anchor := TextField(insert, "after_id");
    var k := Index(ms)[anchor] + 1;
    var m := NewMilestone(insert["milestone"], Index(ms).Keys).value;
    StoredUnderItsId(insert["milestone"], Index(ms).Keys, id);
    IndexIsLast(ms, id);
    var out := InsertAt(ms, k, m);
    InsertAtIndex(ms, k, m);
    assert out[k] == m && Id(out[k]) == Some(id);
    OnlyThere(ms, out, k, id);
    TakenOutAgain(ms, k, m);
    NothingToDrop(ms, id);
  }

  lemma OnlyThere(ms: seq<Dict>, out: seq<Dict>, k: nat, id: string)
    requires k <= |ms| && |out| == |ms| + 1 && Id(out[k]) == Some(id)
    requires forall i :: 0 <= i < k ==> out[i] == ms[i]
    requires forall i :: k < i < |out| ==> out[i] == ms[i - 1]
    requires forall i :: 0 <= i < |ms| ==> Id(ms[i]) != Some(id)
    ensures id in Index(out) && Index(out)[id] == k
  {
    hide Id;
    IndexIsLast(out, id);
  }
}
