/** What a clean lint report means, and what linting a second time changes. */
module PlanLintLaws {
  import opened JsonValues
  import opened Text
  import opened PlanOps
  import opened PlanPatchLaws
  import opened PlanLint

  function Dependencies(m: Dict): seq<Json> {
    if "depends_on" in m && m["depends_on"].Arr? then m["depends_on"].items else []
  }

  /** Plan order is a topological order: every listed dependency is an earlier milestone. */
  ghost predicate Topological(ms: seq<Dict>) {
    forall i, d :: 0 <= i < |ms| && d in Dependencies(ms[i]) ==> EarlierMilestone(ms, i, PyStr(d))
  }

  ghost predicate EarlierMilestone(ms: seq<Dict>, i: nat, id: string)
    requires i <= |ms|
  {
    exists j :: 0 <= j < i && Id(ms[j]) == Some(id)
  }

  ghost predicate SoundPacket(m: Dict, index: nat) {
    && Id(m).Some? && Id(m).value != "#" + Decimal(index + 1)
    && !SetupWording(m)
    && "target_files" in m && NonEmptyList(m["target_files"])
    && "acceptance_criteria" in m && NonEmptyList(m["acceptance_criteria"])
    && (forall c :: c in m["acceptance_criteria"].items ==> !BlankCriterion(c))
    && Profile(m) in PROFILES
    && "validation_contract" !in m
  }

  ghost predicate SoundPlan(ms: seq<Dict>) {
    && (forall i :: 0 <= i < |ms| ==> SoundPacket(ms[i], i))
    && UniqueIds(ms)
    && Topological(ms)
  }

  // ---------------------------------------------------------------- lookups

  lemma {:induction false} PositionOfUnique(ids: seq<string>, k: nat, default: nat)
    requires k < |ids| && forall i :: k < i < |ids| ==> ids[i] != ids[k]
    ensures Position(ids, ids[k], default) == k
  {
    if k < |ids| - 1 {
      PositionOfUnique(ids[..|ids| - 1], k, default);
    }
  }

  lemma {:induction false} KnownIdsAt(ms: seq<Json>)
    requires forall i :: 0 <= i < |ms| ==> ms[i].Obj? && Id(ms[i].fields).Some?
    ensures |KnownIds(ms)| == |ms|
    ensures forall i :: 0 <= i < |ms| ==> KnownIds(ms)[i] == Id(ms[i].fields).value
  {
    if ms != [] {
      KnownIdsAt(ms[1..]);
    }
  }

  lemma {:induction false} ResolvableIff(deps: seq<Json>, ids: seq<string>, name: string, d: Json)
    ensures d in Resolvable(deps, ids, name) <==> d in deps && PyStr(d) in ids && PyStr(d) != name
  {
    if deps != [] {
      ResolvableIff(deps[1..], ids, name, d);
    }
  }

  lemma {:induction false} ResolvableTwice(deps: seq<Json>, ids: seq<string>, name: string)
    ensures Resolvable(Resolvable(deps, ids, name), ids, name) == Resolvable(deps, ids, name)
  {
    if deps != [] {
      var rest := Resolvable(deps[1..], ids, name);
      ResolvableTwice(deps[1..], ids, name);
      if PyStr(deps[0]) in ids && PyStr(deps[0]) != name {
        assert ([deps[0]] + rest)[1..] == rest;
      } else {
        assert [] + rest == rest;
      }
    }
  }

  lemma {:induction false} ForwardEmptyIff(deps: seq<Json>, ids: seq<string>, name: string, index: nat)
    ensures Forward(deps, ids, name, index) == [] <==>
            forall d :: d in deps ==> Position(ids, PyStr(d), 0) < Position(ids, name, index)
  {
    if deps != [] {
      ForwardEmptyIff(deps[1..], ids, name, index);
      assert deps[0] in deps;
      assert forall d :: d in deps <==> d == deps[0] || d in deps[1..];
    }
  }

  // ---------------------------------------------------------------- clean reports

  ghost predicate LocallyClean(item: Json, ids: seq<string>, index: nat) {
    && item.Obj?
    && var m := item.fields;
    && Name(m, index) != "#" + Decimal(index + 1)
    && !SetupWording(m)
    && DependencyIssues(m, ids, index) == []
    && ContentIssues(m, Name(m, index)) == []
  }

  function NameOf(item: Json, index: nat): string {
    if item.Obj? then Name(item.fields, index) else ""
  }

  /** No earlier object, and nothing seen before, bears this milestone's name. */
  ghost predicate NewName(ms: seq<Json>, seen: set<string>, index: nat, k: nat)
    requires k < |ms|
  {
    && NameOf(ms[k], index + k) !in seen
    && forall j :: 0 <= j < k && ms[j].Obj? ==> NameOf(ms[j], index + j) != NameOf(ms[k], index + k)
  }

  ghost predicate CleanAt(ms: seq<Json>, ids: seq<string>, seen: set<string>, index: nat, k: nat)
    requires k < |ms|
  {
    LocallyClean(ms[k], ids, index + k) && NewName(ms, seen, index, k)
  }

  lemma NewNameShift(ms: seq<Json>, seen: set<string>, index: nat, k: nat)
    requires k + 1 < |ms| && ms[0].Obj?
    ensures NewName(ms, seen, index, k + 1) <==> NewName(ms[1..], seen + {NameOf(ms[0], index)}, index + 1, k)
  {
    hide NameOf;
    var tail, next := ms[1..], index + 1;
    var name := NameOf(ms[k + 1], index + (k + 1));
    assert tail[k] == ms[k + 1] && next + k == index + (k + 1);
    forall j | 0 < j < |ms|
      ensures tail[j - 1] == ms[j] && NameOf(tail[j - 1], next + (j - 1)) == NameOf(ms[j], index + j)
    {
      assert next + (j - 1) == index + j;
    }
    if NewName(tail, seen + {NameOf(ms[0], index)}, next, k) {
      forall j | 0 <= j < k + 1 && ms[j].Obj? ensures NameOf(ms[j], index + j) != name {
        if j > 0 {
          assert NameOf(tail[j - 1], next + (j - 1)) == NameOf(ms[j], index + j);
        }
      }
    }
    if NewName(ms, seen, index, k + 1) {
      forall j | 0 <= j < k && tail[j].Obj? ensures NameOf(tail[j], next + j) != name {
        assert NameOf(ms[j + 1], index + (j + 1)) == NameOf(tail[(j + 1) - 1], next + ((j + 1) - 1));
      }
    }
  }

  lemma OneCleanIff(item: Json, ids: seq<string>, seen: set<string>, index: nat)
    ensures LintOne(item, ids, seen, index).issues == [] <==>
            LocallyClean(item, ids, index) && NameOf(item, index) !in seen
  {
  }

  lemma CleanShift(ms: seq<Json>, ids: seq<string>, seen: set<string>, index: nat, k: nat)
    requires k + 1 < |ms| && ms[0].Obj?
    ensures CleanAt(ms, ids, seen, index, k + 1)
       <==> CleanAt(ms[1..], ids, SeenAfter(ms[0], seen, index), index + 1, k)
  {
    SeenName(ms[0], seen, index);
    hide LocallyClean, NewName, NameOf, SeenAfter;
    NewNameShift(ms, seen, index, k);
    var tail, next := ms[1..], index + 1;
    assert tail[k] == ms[k + 1] && next + k == index + (k + 1);
  }

  lemma SeenName(item: Json, seen: set<string>, index: nat)
    requires item.Obj?
    ensures SeenAfter(item, seen, index) == seen + {NameOf(item, index)}
  {
  }

  ghost predicate AllClean(ms: seq<Json>, ids: seq<string>, seen: set<string>, index: nat) {
    forall k :: 0 <= k < |ms| ==> CleanAt(ms, ids, seen, index, k)
  }

  lemma AllCleanIff(ms: seq<Json>, ids: seq<string>, seen: set<string>, index: nat)
    requires ms != [] && ms[0].Obj?
    ensures AllClean(ms, ids, seen, index) <==>
            CleanAt(ms, ids, seen, index, 0) && AllClean(ms[1..], ids, SeenAfter(ms[0], seen, index), index + 1)
  {
    hide CleanAt, SeenAfter;
    var tail, seen', next := ms[1..], SeenAfter(ms[0], seen, index), index + 1;
    if AllClean(ms, ids, seen, index) {
      forall k | 0 <= k < |tail| ensures CleanAt(tail, ids, seen', next, k) {
        CleanShift(ms, ids, seen, index, k);
      }
    }
    if CleanAt(ms, ids, seen, index, 0) && AllClean(tail, ids, seen', next) {
      forall k | 0 <= k < |ms| ensures CleanAt(ms, ids, seen, index, k) {
        if k > 0 {
          CleanShift(ms, ids, seen, index, k - 1);
        }
      }
    }
  }

  lemma {:induction false} LintFromCleanIff(ms: seq<Json>, ids: seq<string>, seen: set<string>, index: nat)
    ensures LintFrom(ms, ids, seen, index).issues == [] <==> AllClean(ms, ids, seen, index)
    decreases |ms|
  {
    if ms != [] {
      LintFromCleanIff(ms[1..], ids, SeenAfter(ms[0], seen, index), index + 1);
      OneCleanIff(ms[0], ids, seen, index);
      if ms[0].Obj? {
        AllCleanIff(ms, ids, seen, index);
      } else {
        assert !CleanAt(ms, ids, seen, index, 0);
      }
    }
  }

  function FixedItem(item: Json, ids: seq<string>, index: nat): Json {
    if item.Obj? then Obj(FixedMilestone(item.fields, ids, index)) else item
  }

  lemma LintOnePlan(item: Json, ids: seq<string>, seen: set<string>, index: nat)
    ensures LintOne(item, ids, seen, index).plan == [FixedItem(item, ids, index)]
  {
    hide FixedMilestone, IssuesOf, Name, FixesOf;
  }

  lemma {:induction false} LintFromPlan(ms: seq<Json>, ids: seq<string>, seen: set<string>, index: nat)
    ensures var out := LintFrom(ms, ids, seen, index).plan;
      && |out| == |ms|
      && forall k :: 0 <= k < |ms| ==> out[k] == FixedItem(ms[k], ids, index + k)
    decreases |ms|
  {
    hide LintOne, SeenAfter, FixedItem;
    if ms != [] {
      LintOnePlan(ms[0], ids, seen, index);
      var tail, next := ms[1..], index + 1;
      LintFromPlan(tail, ids, SeenAfter(ms[0], seen, index), next);
      var out := LintFrom(ms, ids, seen, index).plan;
      var rest := LintFrom(tail, ids, SeenAfter(ms[0], seen, index), next).plan;
      assert out == [FixedItem(ms[0], ids, index)] + rest;
      forall k | 0 < k < |ms| ensures out[k] == FixedItem(ms[k], ids, index + k) {
        assert out[k] == rest[k - 1] && tail[k - 1] == ms[k] && next + (k - 1) == index + k;
      }
    }
  }

  /** Fixing adds and drops no field and touches only the two lists it fixes: of the dependencies the
      resolvable ones stay, every target path loses the prefix. */
  lemma FixKeeps(m: Dict, ids: seq<string>, index: nat)
    ensures var f := FixedMilestone(m, ids, index);
      && Id(f) == Id(m) && Name(f, index) == Name(m, index)
      && SetupWording(f) == SetupWording(m) && Profile(f) == Profile(m)
      && ContentIssues(f, Name(f, index)) == ContentIssues(m, Name(m, index))
      && Dependencies(f) == Resolvable(Dependencies(m), ids, Name(m, index))
      && ListField(f, "depends_on").Some? == ListField(m, "depends_on").Some?
      && f.Keys == m.Keys
      && (forall key :: key in m && (key !in FIXED_LISTS || !m[key].Arr?) ==> f[key] == m[key])
      && (ListField(m, "target_files").Some? ==>
            ListField(f, "target_files") == Some(StripAll(ListField(m, "target_files").value)))
  {
    OtherFieldsStay(m, ids, index);
    var d := FixedDependencies(m, ids, Name(m, index));
    DependencyFixKeeps(m, ids, Name(m, index));
    TargetFixKeeps(d);
    ContentFromFields(m, d, Name(m, index));
    ContentFromFields(d, FixedTargets(d), Name(m, index));
  }

  const FIXED_LISTS := {"depends_on", "target_files"}

  lemma OtherFieldsStay(m: Dict, ids: seq<string>, index: nat)
    ensures var f := FixedMilestone(m, ids, index);
      && f.Keys == m.Keys
      && (forall key :: key in m && (key !in FIXED_LISTS || !m[key].Arr?) ==> f[key] == m[key])
      && (ListField(m, "target_files").Some? ==>
            ListField(f, "target_files") == Some(StripAll(ListField(m, "target_files").value)))
  {
    hide StripAll, Resolvable, Name;
    assert "depends_on" != "target_files";
  }

  ghost predicate SameElsewhere(a: Dict, b: Dict, key: string) {
    a - {key} == b - {key}
  }

  lemma SameField(a: Dict, b: Dict, key: string, k: string)
    requires SameElsewhere(a, b, key) && k != key
    ensures (k in a <==> k in b) && (k in a ==> a[k] == b[k])
  {
    assert k in a <==> k in (a - {key});
    assert k in b <==> k in (b - {key});
    if k in a {
      assert (a - {key})[k] == (b - {key})[k];
    }
  }

  lemma DependencyFixKeeps(m: Dict, ids: seq<string>, name: string)
    ensures var d := FixedDependencies(m, ids, name);
      && SameElsewhere(m, d, "depends_on")
      && Dependencies(d) == Resolvable(Dependencies(m), ids, name)
      && ListField(d, "depends_on").Some? == ListField(m, "depends_on").Some?
      && Id(d) == Id(m) && SetupWording(d) == SetupWording(m) && Profile(d) == Profile(m)
      && ListField(d, "target_files") == ListField(m, "target_files")
      && ListField(d, "acceptance_criteria") == ListField(m, "acceptance_criteria")
      && ("validation_contract" in d <==> "validation_contract" in m)
  {
    var d := FixedDependencies(m, ids, name);
    assert SameElsewhere(m, d, "depends_on");
    FieldsKept(m, d, "depends_on");
  }

  lemma TargetFixKeeps(m: Dict)
    ensures var f := FixedTargets(m);
      && SameElsewhere(m, f, "target_files")
      && Dependencies(f) == Dependencies(m)
      && ListField(f, "depends_on") == ListField(m, "depends_on")
      && Id(f) == Id(m) && SetupWording(f) == SetupWording(m) && Profile(f) == Profile(m)
      && ListField(f, "acceptance_criteria") == ListField(m, "acceptance_criteria")
      && ListField(f, "target_files").Some? == ListField(m, "target_files").Some?
      && (ListField(f, "target_files").Some? ==>
           |ListField(f, "target_files").value| == |ListField(m, "target_files").value|)
      && ("validation_contract" in f <==> "validation_contract" in m)
  {
    var f := FixedTargets(m);
    assert SameElsewhere(m, f, "target_files");
    FieldsKept(m, f, "target_files");
  }

  lemma FieldsKept(m: Dict, f: Dict, key: string)
    requires SameElsewhere(m, f, key) && key in FIXED_LISTS
    ensures Id(f) == Id(m) && SetupWording(f) == SetupWording(m) && Profile(f) == Profile(m)
    ensures ListField(f, "acceptance_criteria") == ListField(m, "acceptance_criteria")
    ensures "validation_contract" in f <==> "validation_contract" in m
    ensures key != "target_files" ==> ListField(f, "target_files") == ListField(m, "target_files")
    ensures key != "depends_on" ==>
      ListField(f, "depends_on") == ListField(m, "depends_on") && Dependencies(f) == Dependencies(m)
  {
    hide SameElsewhere, Lower, Strip, PyStr, Contains, Truthy;
    forall k | k != key ensures k in m <==> k in f ensures k in m ==> m[k] == f[k] {
      SameField(m, f, key, k);
    }
    assert key != "id" && key != "title" && key != "description" && key != "validation_profile";
    assert key != "acceptance_criteria" && key != "validation_contract";
  }

  lemma ContentFromFields(a: Dict, b: Dict, name: string)
    requires ListField(a, "acceptance_criteria") == ListField(b, "acceptance_criteria")
    requires Profile(a) == Profile(b) && ("validation_contract" in a <==> "validation_contract" in b)
    requires ListField(a, "target_files").Some? == ListField(b, "target_files").Some?
    requires ListField(a, "target_files").Some? ==>
      |ListField(a, "target_files").value| == |ListField(b, "target_files").value|
    ensures ContentIssues(a, name) == ContentIssues(b, name)
  {
  }

  lemma ContentCleanIff(m: Dict, index: nat)
    ensures SoundPacket(m, index) <==>
      Id(m).Some? && Name(m, index) != "#" + Decimal(index + 1) && !SetupWording(m) &&
      ContentIssues(m, Name(m, index)) == []
  {
    var criteria := ListField(m, "acceptance_criteria");
    if criteria.Some? {
      assert (exists i :: 0 <= i < |criteria.value| && BlankCriterion(criteria.value[i])) <==>
             !(forall c :: c in criteria.value ==> !BlankCriterion(c));
    }
  }

  ghost predicate Identified(ms: seq<Json>) {
    && (forall i :: 0 <= i < |ms| ==> ms[i].Obj? && Id(ms[i].fields).Some?)
    && (forall i, j :: 0 <= i < j < |ms| ==> Id(ms[i].fields) != Id(ms[j].fields))
  }

  ghost predicate ListedBefore(ms: seq<Json>, k: nat, id: string)
    requires k <= |ms| && Identified(ms)
  {
    exists j :: 0 <= j < k && Id(ms[j].fields) == Some(id)
  }

  lemma PositionIff(ms: seq<Json>, k: nat, id: string)
    requires Identified(ms) && k < |ms| && id in KnownIds(ms)
    ensures Position(KnownIds(ms), id, 0) < k <==> ListedBefore(ms, k, id)
  {
    var ids := KnownIds(ms);
    KnownIdsAt(ms);
    var p :| 0 <= p < |ids| && ids[p] == id;
    PositionOfUnique(ids, p, 0);
    assert Id(ms[p].fields) == Some(id);
  }

  lemma IssuesAreForward(m: Dict, ids: seq<string>, index: nat)
    ensures var name := Name(m, index);
      DependencyIssues(m, ids, index) == [] <==> Forward(Resolvable(Dependencies(m), ids, name), ids, name, index) == []
  {
  }

  /** With unique ids everywhere, "no forward dependency" is exactly "listed earlier". */
  lemma DependenciesCleanIff(ms: seq<Json>, k: nat)
    requires Identified(ms) && k < |ms|
    ensures var ids := KnownIds(ms); var m := ms[k].fields;
      DependencyIssues(m, ids, k) == [] <==>
      forall d :: d in Resolvable(Dependencies(m), ids, Name(m, k)) ==> ListedBefore(ms, k, PyStr(d))
  {
    hide KnownIds, Id, Position, Forward, Resolvable, PyStr, ListedBefore, DependencyIssues, Dependencies;
    var ids := KnownIds(ms);
    var m := ms[k].fields;
    KnownIdsAt(ms);
    PositionOfUnique(ids, k, k);
    assert Name(m, k) == ids[k];
    var deps := Resolvable(Dependencies(m), ids, Name(m, k));
    IssuesAreForward(m, ids, k);
    ForwardEmptyIff(deps, ids, Name(m, k), k);
    forall d | d in deps ensures Position(ids, PyStr(d), 0) < k <==> ListedBefore(ms, k, PyStr(d)) {
      ResolvableIff(Dependencies(m), ids, Name(m, k), d);
      PositionIff(ms, k, PyStr(d));
    }
  }

  lemma FixedDictsAt(ms: seq<Json>)
    requires AllObjects(ms)
    ensures AllObjects(Linted(ms).plan) && |Linted(ms).plan| == |ms|
    ensures forall k :: 0 <= k < |ms| ==>
      Dicts(Linted(ms).plan)[k] == FixedMilestone(ms[k].fields, KnownIds(ms), k)
  {
    LintFromPlan(ms, KnownIds(ms), {}, 0);
  }

  /** A non-empty milestone list is reported clean exactly when, after the fixes, every packet is
      complete, ids are unique and list order is a topological order. */
  lemma LintIsCleanIff(ms: seq<Json>)
    ensures Linted(ms).issues == [] <==> AllObjects(Linted(ms).plan) && SoundPlan(Dicts(Linted(ms).plan))
  {
    var ids := KnownIds(ms);
    LintFromCleanIff(ms, ids, {}, 0);
    LintFromPlan(ms, ids, {}, 0);
    if AllObjects(Linted(ms).plan) {
      assert forall k :: 0 <= k < |ms| ==> Linted(ms).plan[k].Obj?;
      assert AllObjects(ms);
      FixedDictsAt(ms);
      var out := Dicts(Linted(ms).plan);
      forall k | 0 <= k < |ms| ensures Id(out[k]) == Id(ms[k].fields) {
        FixKeeps(ms[k].fields, ids, k);
      }
      if AllClean(ms, ids, {}, 0) {
        CleanPlanIsSound(ms, out);
      }
      if SoundPlan(out) {
        SoundPlanIsClean(ms, out);
      }
    } else {
      var k :| 0 <= k < |ms| && !Linted(ms).plan[k].Obj?;
      assert !CleanAt(ms, ids, {}, 0, k);
    }
  }

  ghost predicate IsFixOf(ms: seq<Json>, out: seq<Dict>) {
    && AllObjects(ms) && |out| == |ms|
    && forall k :: 0 <= k < |ms| ==>
         out[k] == FixedMilestone(ms[k].fields, KnownIds(ms), k) && Id(out[k]) == Id(ms[k].fields)
  }

  lemma PacketsCleanIff(ms: seq<Json>, out: seq<Dict>, k: nat)
    requires IsFixOf(ms, out) && k < |ms|
    ensures LocallyClean(ms[k], KnownIds(ms), k) && Id(out[k]).Some? <==>
            SoundPacket(out[k], k) && DependencyIssues(ms[k].fields, KnownIds(ms), k) == []
  {
    FixKeeps(ms[k].fields, KnownIds(ms), k);
    ContentCleanIff(out[k], k);
  }

  lemma TopologicalIff(ms: seq<Json>, out: seq<Dict>)
    requires IsFixOf(ms, out) && Identified(ms)
    ensures Topological(out) <==> forall k :: 0 <= k < |ms| ==> DependencyIssues(ms[k].fields, KnownIds(ms), k) == []
  {
    var ids := KnownIds(ms);
    forall k, id | 0 <= k < |ms| ensures ListedBefore(ms, k, id) <==> EarlierMilestone(out, k, id) {
      forall j | 0 <= j < k ensures Id(out[j]) == Id(ms[j].fields) {
      }
    }
    forall k | 0 <= k < |ms|
      ensures DependencyIssues(ms[k].fields, ids, k) == [] <==>
              forall d :: d in Dependencies(out[k]) ==> EarlierMilestone(out, k, PyStr(d))
    {
      FixKeeps(ms[k].fields, ids, k);
      DependenciesCleanIff(ms, k);
    }
  }

  lemma CleanNamesAreIds(ms: seq<Json>, i: nat, j: nat)
    requires i < j < |ms| && NewName(ms, {}, 0, j)
    requires ms[i].Obj? && ms[j].Obj? && Id(ms[i].fields).Some? && Id(ms[j].fields).Some?
    ensures Id(ms[i].fields) != Id(ms[j].fields)
  {
    assert NameOf(ms[i], 0 + i) != NameOf(ms[j], 0 + j);
  }

  lemma CleanIsIdentified(ms: seq<Json>)
    requires AllClean(ms, KnownIds(ms), {}, 0)
    ensures Identified(ms)
  {
    forall i | 0 <= i < |ms| ensures ms[i].Obj? && Id(ms[i].fields).Some? {
      assert CleanAt(ms, KnownIds(ms), {}, 0, i);
    }
    forall i, j | 0 <= i < j < |ms| ensures Id(ms[i].fields) != Id(ms[j].fields) {
      assert CleanAt(ms, KnownIds(ms), {}, 0, j);
      CleanNamesAreIds(ms, i, j);
    }
  }

  lemma CleanPlanIsSound(ms: seq<Json>, out: seq<Dict>)
    requires IsFixOf(ms, out) && AllClean(ms, KnownIds(ms), {}, 0)
    ensures SoundPlan(out)
  {
    CleanIsIdentified(ms);
    forall k | 0 <= k < |ms|
      ensures SoundPacket(out[k], k) && DependencyIssues(ms[k].fields, KnownIds(ms), k) == []
    {
      assert CleanAt(ms, KnownIds(ms), {}, 0, k);
      PacketsCleanIff(ms, out, k);
    }
    TopologicalIff(ms, out);
    assert forall i, j :: 0 <= i < j < |out| ==> Id(out[i]) != Id(out[j]);
  }

  lemma SoundPlanIsClean(ms: seq<Json>, out: seq<Dict>)
    requires IsFixOf(ms, out) && SoundPlan(out)
    ensures AllClean(ms, KnownIds(ms), {}, 0)
  {
    forall k | 0 <= k < |ms| ensures Id(ms[k].fields).Some? {
      assert SoundPacket(out[k], k);
    }
    forall i, j | 0 <= i < j < |ms| ensures Id(ms[i].fields) != Id(ms[j].fields) {
      assert Id(out[i]).Some? && Id(out[i]) != Id(out[j]);
    }
    TopologicalIff(ms, out);
    forall k | 0 <= k < |ms| ensures CleanAt(ms, KnownIds(ms), {}, 0, k) {
      PacketsCleanIff(ms, out, k);
    }
  }

  // ---------------------------------------------------------------- linting twice

  ghost predicate TwicePrefixed(path: string) {
    StartsWith(path, WORKSPACE + WORKSPACE)
  }

  ghost predicate HasTwicePrefixedTarget(item: Json) {
    && item.Obj? && ListField(item.fields, "target_files").Some?
    && exists p :: p in ListField(item.fields, "target_files").value && TwicePrefixed(PyStr(p))
  }

  lemma StripTwiceIff(path: string)
    ensures StripWorkspacePrefix(StripWorkspacePrefix(path)) == StripWorkspacePrefix(path) <==> !TwicePrefixed(path)
  {
    TwicePrefixedIff(path);
  }

  lemma TwicePrefixedIff(path: string)
    ensures TwicePrefixed(path) <==> StartsWith(path, WORKSPACE) && StartsWith(path[|WORKSPACE|..], WORKSPACE)
  {
    var n := |WORKSPACE|;
    if 2 * n <= |path| {
      assert path[..2 * n] == path[..n] + path[n..][..n];
      assert (WORKSPACE + WORKSPACE)[..n] == WORKSPACE && (WORKSPACE + WORKSPACE)[n..] == WORKSPACE;
      assert path[..2 * n][..n] == path[..n] && path[..2 * n][n..] == path[n..][..n];
    }
  }

  lemma StripAllTwiceIff(paths: seq<Json>)
    ensures StripAll(StripAll(paths)) == StripAll(paths) <==> forall p :: p in paths ==> !TwicePrefixed(PyStr(p))
  {
    forall i | 0 <= i < |paths|
      ensures StripAll(StripAll(paths))[i] == StripAll(paths)[i] <==> !TwicePrefixed(PyStr(paths[i]))
    {
      StripTwiceIff(PyStr(paths[i]));
    }
    if StripAll(StripAll(paths)) == StripAll(paths) {
      forall p | p in paths ensures !TwicePrefixed(PyStr(p)) {
        var i :| 0 <= i < |paths| && paths[i] == p;
        assert StripAll(StripAll(paths))[i] == StripAll(paths)[i];
      }
    }
  }

  lemma {:induction false} KnownIdsKept(ms: seq<Json>, out: seq<Json>)
    requires |out| == |ms|
    requires forall k :: 0 <= k < |ms| ==> out[k].Obj? == ms[k].Obj?
    requires forall k :: 0 <= k < |ms| && ms[k].Obj? ==> Id(out[k].fields) == Id(ms[k].fields)
    ensures KnownIds(out) == KnownIds(ms)
  {
    if ms != [] {
      KnownIdsKept(ms[1..], out[1..]);
    }
  }

  lemma DependencyIssuesAgain(m: Dict, f: Dict, ids: seq<string>, index: nat)
    requires Name(f, index) == Name(m, index) && ListField(f, "depends_on").Some? == ListField(m, "depends_on").Some?
    requires Dependencies(f) == Resolvable(Dependencies(m), ids, Name(m, index))
    ensures DependencyIssues(f, ids, index) == DependencyIssues(m, ids, index)
    ensures !StaleDependencies(f, ids, Name(f, index))
  {
    hide Name, Resolvable, Forward;
    ResolvableTwice(Dependencies(m), ids, Name(m, index));
  }

  lemma PrefixesAgain(m: Dict, f: Dict)
    requires ListField(f, "target_files").Some? == ListField(m, "target_files").Some?
    requires ListField(m, "target_files").Some? ==>
      ListField(f, "target_files") == Some(StripAll(ListField(m, "target_files").value))
    ensures PrefixedTargets(f) <==> HasTwicePrefixedTarget(Obj(m))
  {
    var paths := ListField(m, "target_files");
    if paths.Some? {
      StripAllTwiceIff(paths.value);
    }
  }

  lemma NothingToFix(f: Dict, ids: seq<string>, index: nat)
    requires !StaleDependencies(f, ids, Name(f, index)) && !PrefixedTargets(f)
    ensures FixedMilestone(f, ids, index) == f
  {
  }

  lemma SameIdentity(m: Dict, f: Dict, seen: set<string>, index: nat)
    requires Id(f) == Id(m) && SetupWording(f) == SetupWording(m)
    ensures Name(f, index) == Name(m, index) && IdentityIssues(f, seen, index) == IdentityIssues(m, seen, index)
  {
    hide Id, SetupWording;
  }

  lemma FixTwice(m: Dict, ids: seq<string>, seen: set<string>, index: nat)
    ensures var f := FixedMilestone(m, ids, index);
      && IssuesOf(f, ids, seen, index) == IssuesOf(m, ids, seen, index)
      && !StaleDependencies(f, ids, Name(f, index))
      && (PrefixedTargets(f) <==> HasTwicePrefixedTarget(Obj(m)))
      && (!PrefixedTargets(f) ==> FixedMilestone(f, ids, index) == f)
  {
    hide FixedMilestone, IdentityIssues, DependencyIssues, ContentIssues, Name, Id, SetupWording, StaleDependencies,
      PrefixedTargets, HasTwicePrefixedTarget, Dependencies, Resolvable, Profile, StripAll;
    var f := FixedMilestone(m, ids, index);
    FixKeeps(m, ids, index);
    SameIdentity(m, f, seen, index);
    DependencyIssuesAgain(m, f, ids, index);
    TargetsAreKept(m, f);
    PrefixesAgain(m, f);
    if !PrefixedTargets(f) {
      NothingToFix(f, ids, index);
    }
  }

  lemma TargetsAreKept(m: Dict, f: Dict)
    requires f.Keys == m.Keys && forall key :: key in m && (key !in FIXED_LISTS || !m[key].Arr?) ==> f[key] == m[key]
    requires ListField(m, "target_files").Some? ==> ListField(f, "target_files").Some?
    ensures ListField(f, "target_files").Some? == ListField(m, "target_files").Some?
  {
  }

  lemma OneTwice(item: Json, ids: seq<string>, seen: set<string>, index: nat)
    ensures |LintOne(item, ids, seen, index).plan| == 1
    ensures var out := LintOne(item, ids, seen, index).plan[0]; var again := LintOne(out, ids, seen, index);
      && again.issues == LintOne(item, ids, seen, index).issues
      && (again.fixes == [] <==> !HasTwicePrefixedTarget(item))
      && (again.fixes == [] ==> again.plan == [out])
      && SeenAfter(out, seen, index) == SeenAfter(item, seen, index)
  {
    hide FixedMilestone, IssuesOf, Name, Id, StaleDependencies, PrefixedTargets;
    if item.Obj? {
      FixTwice(item.fields, ids, seen, index);
      SameName(item.fields, ids, index);
    }
  }

  lemma SameName(m: Dict, ids: seq<string>, index: nat)
    ensures Name(FixedMilestone(m, ids, index), index) == Name(m, index)
  {
    hide FixedMilestone;
    FixKeeps(m, ids, index);
  }

  lemma {:induction false} LintFromTwice(ms: seq<Json>, out: seq<Json>, ids: seq<string>, seen: set<string>, index: nat)
    requires out == LintFrom(ms, ids, seen, index).plan
    ensures LintFrom(out, ids, seen, index).issues == LintFrom(ms, ids, seen, index).issues
    ensures LintFrom(out, ids, seen, index).fixes == [] <==>
            forall k :: 0 <= k < |ms| ==> !HasTwicePrefixedTarget(ms[k])
    ensures LintFrom(out, ids, seen, index).fixes == [] ==> LintFrom(out, ids, seen, index).plan == out
    decreases |ms|
  {
    hide LintOne, SeenAfter, HasTwicePrefixedTarget;
    if ms != [] {
      var seen' := SeenAfter(ms[0], seen, index);
      var rest := LintFrom(ms[1..], ids, seen', index + 1);
      LintFromTwice(ms[1..], rest.plan, ids, seen', index + 1);
      OneTwice(ms[0], ids, seen, index);
      var first := LintOne(ms[0], ids, seen, index).plan;
      assert out == first + rest.plan && out[0] == first[0] && out[1..] == rest.plan;
      assert forall k :: 0 <= k < |ms| - 1 ==> ms[1..][k] == ms[k + 1];
      assert forall k :: 0 < k < |ms| ==> ms[k] == ms[1..][k - 1];
    }
  }

  /** Linting a linted plan reports the same issues, and finds nothing more to fix exactly when no
      target path carried the workspace prefix twice. */
  lemma LintAgain(ms: seq<Json>)
    ensures var once := Linted(ms); var again := Linted(once.plan);
      && again.issues == once.issues
      && (again.fixes == [] <==> forall k :: 0 <= k < |ms| ==> !HasTwicePrefixedTarget(ms[k]))
      && (again.fixes == [] ==> again.plan == once.plan)
  {
    var ids := KnownIds(ms);
    var out := Linted(ms).plan;
    LintFromPlan(ms, ids, {}, 0);
    forall k | 0 <= k < |ms| && ms[k].Obj? ensures Id(out[k].fields) == Id(ms[k].fields) {
      FixKeeps(ms[k].fields, ids, k);
    }
    KnownIdsKept(ms, out);
    LintFromTwice(ms, out, ids, {}, 0);
  }
}
