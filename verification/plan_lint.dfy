/** Deterministic linting of a plan before any worker runs: what can be fixed in code is fixed,
    the rest is reported. */
module PlanLint {
  import opened JsonValues
  import opened Text
  import opened PlanOps

  datatype Issue =
    | NoMilestones
    | NotAnObject(position: nat)
    | DuplicateId(name: string)
    | MissingId(position: nat)
    | EnvironmentSetup(name: string)
    | ForwardDependencies(name: string, dependencies: seq<string>)
    | TargetFilesMissing(name: string)
    | CriteriaMissing(name: string)
    | CriteriaBlank(name: string)
    | UnsupportedProfile(name: string, profile: string)
    | ContractNotAllowed(name: string)

  datatype Fix = DroppedDependencies(name: string) | StrippedPrefixes(name: string)

  datatype Report<T> = Report(plan: T, fixes: seq<Fix>, issues: seq<Issue>)

  const SETUP_TERMS := ["environment setup", "pip install", "install the required dependencies", "set up the venv"]
  const PROFILES := {"auto", "ui", "python", "lint", "structural"}
  const WORKSPACE := "workspace/"

  function StripWorkspacePrefix(path: string): string {
    if StartsWith(path, WORKSPACE) then path[|WORKSPACE|..] else path
  }

  predicate Contains(s: string, part: string) {
    exists i :: 0 <= i <= |s| - |part| && s[i..][..|part|] == part
  }

  /** The ids of the milestones that have one, in plan order. */
  function KnownIds(ms: seq<Json>): seq<string> {
    if ms == [] then []
    else (if ms[0].Obj? && Id(ms[0].fields).Some? then [Id(ms[0].fields).value] else []) + KnownIds(ms[1..])
  }

  /** `positions.get(id, default)` where `positions` keeps the last index of each id. */
  function Position(ids: seq<string>, id: string, default: nat): nat {
    if ids == [] then default
    else if ids[|ids| - 1] == id then |ids| - 1
    else Position(ids[..|ids| - 1], id, default)
  }

  function Name(m: Dict, index: nat): string {
    match Id(m)
    case Some(id) => id
    case None => "#" + Decimal(index + 1)
  }

  function Resolvable(deps: seq<Json>, ids: seq<string>, name: string): seq<Json> {
    if deps == [] then []
    else (if PyStr(deps[0]) in ids && PyStr(deps[0]) != name then [deps[0]] else [])
         + Resolvable(deps[1..], ids, name)
  }

  function Forward(deps: seq<Json>, ids: seq<string>, name: string, index: nat): seq<string> {
    if deps == [] then []
    else (if Position(ids, PyStr(deps[0]), 0) >= Position(ids, name, index) then [PyStr(deps[0])] else [])
         + Forward(deps[1..], ids, name, index)
  }

  function StripAll(paths: seq<Json>): seq<Json> {
    seq(|paths|, i requires 0 <= i < |paths| => Str(StripWorkspacePrefix(PyStr(paths[i]))))
  }

  function ListField(m: Dict, key: string): Option<seq<Json>> {
    if key in m && m[key].Arr? then Some(m[key].items) else None
  }

  predicate SetupWording(m: Dict) {
    var haystack := Lower(PyStr(Get(m, "title", Str(""))) + " " + PyStr(Get(m, "description", Str(""))));
    exists i :: 0 <= i < |SETUP_TERMS| && Contains(haystack, SETUP_TERMS[i])
  }

  predicate BlankCriterion(item: Json) {
    !item.Str? || Strip(item.s) == ""
  }

  function Profile(m: Dict): string {
    Lower(Strip(PyStr(Get(m, "validation_profile", Str("auto")))))
  }

  predicate StaleDependencies(m: Dict, ids: seq<string>, name: string) {
    var deps := ListField(m, "depends_on");
    deps.Some? && Resolvable(deps.value, ids, name) != deps.value
  }

  predicate PrefixedTargets(m: Dict) {
    var paths := ListField(m, "target_files");
    paths.Some? && StripAll(paths.value) != paths.value
  }

  function FixedDependencies(m: Dict, ids: seq<string>, name: string): Dict {
    if StaleDependencies(m, ids, name)
    then m["depends_on" := Arr(Resolvable(m["depends_on"].items, ids, name))]
    else m
  }

  function FixedTargets(m: Dict): Dict {
    if PrefixedTargets(m) then m["target_files" := Arr(StripAll(m["target_files"].items))] else m
  }

  function FixedMilestone(m: Dict, ids: seq<string>, index: nat): Dict {
    FixedTargets(FixedDependencies(m, ids, Name(m, index)))
  }

  function FixesOf(m: Dict, ids: seq<string>, name: string): seq<Fix> {
    (if StaleDependencies(m, ids, name) then [DroppedDependencies(name)] else [])
    + (if PrefixedTargets(m) then [StrippedPrefixes(name)] else [])
  }

  function IdentityIssues(m: Dict, seen: set<string>, index: nat): seq<Issue> {
    var name := Name(m, index);
    (if name in seen then [DuplicateId(name)] else [])
    + (if name == "#" + Decimal(index + 1) then [MissingId(index)] else [])
    + (if SetupWording(m) then [EnvironmentSetup(name)] else [])
  }

  function DependencyIssues(m: Dict, ids: seq<string>, index: nat): seq<Issue> {
    var name := Name(m, index);
    match ListField(m, "depends_on")
    case None => []
    case Some(deps) =>
      var forward := Forward(Resolvable(deps, ids, name), ids, name, index);
      if forward != [] then [ForwardDependencies(name, forward)] else []
  }

  function ContentIssues(m: Dict, name: string): seq<Issue> {
    var targets := ListField(m, "target_files");
    var criteria := ListField(m, "acceptance_criteria");
    (if targets.None? || targets.value == [] then [TargetFilesMissing(name)] else [])
    + (if criteria.None? || criteria.value == [] then [CriteriaMissing(name)]
       else if exists i :: 0 <= i < |criteria.value| && BlankCriterion(criteria.value[i]) then [CriteriaBlank(name)]
       else [])
    + (if Profile(m) !in PROFILES then [UnsupportedProfile(name, Profile(m))] else [])
    + (if "validation_contract" in m then [ContractNotAllowed(name)] else [])
  }

  function IssuesOf(m: Dict, ids: seq<string>, seen: set<string>, index: nat): seq<Issue> {
    IdentityIssues(m, seen, index) + DependencyIssues(m, ids, index) + ContentIssues(m, Name(m, index))
  }

  function Joined(a: Report<seq<Json>>, b: Report<seq<Json>>): Report<seq<Json>> {
    Report(a.plan + b.plan, a.fixes + b.fixes, a.issues + b.issues)
  }

  lemma JoinedIsAssociative(a: Report<seq<Json>>, b: Report<seq<Json>>, c: Report<seq<Json>>)
    ensures Joined(Joined(a, b), c) == Joined(a, Joined(b, c))
    ensures Joined(Report([], [], []), c) == c == Joined(c, Report([], [], []))
  {
    assert (a.plan + b.plan) + c.plan == a.plan + (b.plan + c.plan);
    assert (a.fixes + b.fixes) + c.fixes == a.fixes + (b.fixes + c.fixes);
    assert (a.issues + b.issues) + c.issues == a.issues + (b.issues + c.issues);
    assert [] + c.plan == c.plan == c.plan + [] && [] + c.fixes == c.fixes == c.fixes + []
        && [] + c.issues == c.issues == c.issues + [];
  }

  function LintOne(item: Json, ids: seq<string>, seen: set<string>, index: nat): Report<seq<Json>> {
    if !item.Obj? then Report([item], [], [NotAnObject(index)])
    else
      var m := item.fields;
      Report([Obj(FixedMilestone(m, ids, index))], FixesOf(m, ids, Name(m, index)), IssuesOf(m, ids, seen, index))
  }

  function SeenAfter(item: Json, seen: set<string>, index: nat): set<string> {
    if item.Obj? then seen + {Name(item.fields, index)} else seen
  }

  /** Linting the milestones from `index` on; `ids` are those of the whole plan. */
  function LintFrom(ms: seq<Json>, ids: seq<string>, seen: set<string>, index: nat): Report<seq<Json>>
    decreases |ms|
  {
    if ms == [] then Report([], [], [])
    else Joined(LintOne(ms[0], ids, seen, index),
                LintFrom(ms[1..], ids, SeenAfter(ms[0], seen, index), index + 1))
  }

  function Linted(ms: seq<Json>): Report<seq<Json>> {
    LintFrom(ms, KnownIds(ms), {}, 0)
  }

  /** What `lint_plan` returns for any parsed plan. */
  function LintedPlan(plan: Dict): Report<Dict> {
    if !NonEmptyList(Get(plan, "milestones", Null)) then Report(plan, [], [NoMilestones])
    else
      var r := Linted(plan["milestones"].items);
      Report(plan["milestones" := Arr(r.plan)], r.fixes, r.issues)
  }

  // ---------------------------------------------------------------- the loop

  lemma KnownIdsStep(ms: seq<Json>, i: nat, ids: seq<string>)
    requires i < |ms|
    ensures ids + KnownIds(ms[i..])
      == (if ms[i].Obj? && Id(ms[i].fields).Some? then ids + [Id(ms[i].fields).value] else ids) + KnownIds(ms[i + 1..])
  {
    hide Id;
    assert ms[i..][0] == ms[i] && ms[i..][1..] == ms[i + 1..];
    var one := if ms[i].Obj? && Id(ms[i].fields).Some? then [Id(ms[i].fields).value] else [];
    assert ids + (one + KnownIds(ms[i + 1..])) == (ids + one) + KnownIds(ms[i + 1..]);
    assert ids + [] == ids;
  }

  method CollectIds(ms: seq<Json>) returns (ids: seq<string>)
    ensures ids == KnownIds(ms)
  {
    hide KnownIds, Id;
    ids := [];
    assert ms[0..] == ms && [] + KnownIds(ms) == KnownIds(ms);
    for i := 0 to |ms|
      invariant ids + KnownIds(ms[i..]) == KnownIds(ms)
    {
      KnownIdsStep(ms, i, ids);
      if ms[i].Obj? && Id(ms[i].fields).Some? {
        ids := ids + [Id(ms[i].fields).value];
      }
    }
    NoIds();
    assert ms[|ms|..] == [] && ids + [] == ids;
  }

  lemma NoIds()
    ensures KnownIds([]) == []
  {
  }

  method CheckDependencies(milestone: Dict, ids: seq<string>, index: nat)
    returns (m: Dict, fixes: seq<Fix>, issues: seq<Issue>)
    ensures m == FixedDependencies(milestone, ids, Name(milestone, index))
    ensures fixes == if StaleDependencies(milestone, ids, Name(milestone, index))
                     then [DroppedDependencies(Name(milestone, index))] else []
    ensures issues == DependencyIssues(milestone, ids, index)
  {
    m, fixes, issues := milestone, [], [];
    var name := Name(m, index);
    if "depends_on" in m && m["depends_on"].Arr? {
      var deps := m["depends_on"].items;
      var valid := Resolvable(deps, ids, name);
      if valid != deps {
        m := m["depends_on" := Arr(valid)];
        fixes := [DroppedDependencies(name)];
      }
      var forward := Forward(valid, ids, name, index);
      if forward != [] {
        issues := [ForwardDependencies(name, forward)];
      }
    }
  }

  method LintMilestone(milestone: Dict, ids: seq<string>, seen: set<string>, index: nat)
    returns (m: Dict, fixes: seq<Fix>, issues: seq<Issue>)
    ensures m == FixedMilestone(milestone, ids, index)
    ensures fixes == FixesOf(milestone, ids, Name(milestone, index))
    ensures issues == IssuesOf(milestone, ids, seen, index)
  {
    var name := Name(milestone, index);
    issues := IdentityIssues(milestone, seen, index);
    var dependencyIssues;
    m, fixes, dependencyIssues := CheckDependencies(milestone, ids, index);
    issues := issues + dependencyIssues + ContentIssues(milestone, name);
    assert PrefixedTargets(m) == PrefixedTargets(milestone);
    if PrefixedTargets(m) {
      m := m["target_files" := Arr(StripAll(m["target_files"].items))];
      fixes := fixes + [StrippedPrefixes(name)];
    }
  }

  method LintItem(item: Json, ids: seq<string>, seen: set<string>, index: nat)
    returns (fixed: Json, seen': set<string>, fixes: seq<Fix>, issues: seq<Issue>)
    ensures Report([fixed], fixes, issues) == LintOne(item, ids, seen, index)
    ensures seen' == SeenAfter(item, seen, index)
  {
    if !item.Obj? {
      return item, seen, [], [NotAnObject(index)];
    }
    var m;
    m, fixes, issues := LintMilestone(item.fields, ids, seen, index);
    return Obj(m), seen + {Name(item.fields, index)}, fixes, issues;
  }

  /** Linting one more milestone, on top of what was reported so far. */
  lemma LintStep(ms: seq<Json>, i: nat, sofar: Report<seq<Json>>, ids: seq<string>, seen: set<string>)
    requires i < |ms|
    ensures Joined(sofar, LintFrom(ms[i..], ids, seen, i))
         == Joined(Joined(sofar, LintOne(ms[i], ids, seen, i)),
                   LintFrom(ms[i + 1..], ids, SeenAfter(ms[i], seen, i), i + 1))
  {
    hide LintOne, SeenAfter;
    assert ms[i..][0] == ms[i] && ms[i..][1..] == ms[i + 1..];
    var one, rest := LintOne(ms[i], ids, seen, i), LintFrom(ms[i + 1..], ids, SeenAfter(ms[i], seen, i), i + 1);
    assert LintFrom(ms[i..], ids, seen, i) == Joined(one, rest);
    JoinedIsAssociative(sofar, one, rest);
  }

  lemma OneMore(ms: seq<Json>, i: nat, fixed: Json, fixes: seq<Fix>, more: seq<Fix>, issues: seq<Issue>,
                others: seq<Issue>)
    requires i < |ms|
    ensures Joined(Report(ms[..i], fixes, issues), Report([fixed], more, others))
         == Report(ms[i := fixed][..i + 1], fixes + more, issues + others)
    ensures ms[i := fixed][i + 1..] == ms[i..][1..] == ms[i + 1..]
  {
    assert ms[i := fixed][..i + 1] == ms[..i] + [fixed];
  }

  lemma LintNothing(r: Report<seq<Json>>, ids: seq<string>, seen: set<string>, index: nat)
    ensures Joined(r, LintFrom([], ids, seen, index)) == r
    ensures Joined(Report([], [], []), r) == r
  {
    JoinedIsAssociative(Report([], [], []), Report([], [], []), r);
  }

  method LintPlan(plan: Dict) returns (r: Report<Dict>)
    ensures r == LintedPlan(plan)
  {
    if "milestones" !in plan || !NonEmptyList(plan["milestones"]) {
      return Report(plan, [], [NoMilestones]);
    }
    hide LintOne, SeenAfter, KnownIds, LintFrom, Joined;
    var original := plan["milestones"].items;
    var milestones := original;
    var ids := CollectIds(milestones);
    var seen: set<string>, fixes: seq<Fix>, issues: seq<Issue> := {}, [], [];
    assert original[0..] == original && milestones[..0] == [];
    LintNothing(Linted(original), ids, seen, 0);
    for i := 0 to |original|
      invariant |milestones| == |original| && milestones[i..] == original[i..]
      invariant Linted(original)
             == Joined(Report(milestones[..i], fixes, issues), LintFrom(original[i..], ids, seen, i))
    {
      LintStep(original, i, Report(milestones[..i], fixes, issues), ids, seen);
      var fixed, seen', newFixes, newIssues := LintItem(original[i], ids, seen, i);
      OneMore(milestones, i, fixed, fixes, newFixes, issues, newIssues);
      milestones := milestones[i := fixed];
      seen, fixes, issues := seen', fixes + newFixes, issues + newIssues;
    }
    assert milestones[..|original|] == milestones && original[|original|..] == [];
    LintNothing(Report(milestones, fixes, issues), ids, seen, |original|);
    r := Report(plan["milestones" := Arr(milestones)], fixes, issues);
  }
}
