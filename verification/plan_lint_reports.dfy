/** Which issues and fixes a lint reports, said over the milestones themselves. */
module PlanLintReports {
  import opened JsonValues
  import opened Text
  import opened PlanOps
  import opened PlanLint

  /** What a milestone is called: its id, or "#" and its number. */
  function Label(item: Json, k: nat): string {
    if item.Obj? && "id" in item.fields && Truthy(item.fields["id"]) then PyStr(item.fields["id"])
    else "#" + Decimal(k + 1)
  }

  ghost predicate FilledList(m: Dict, key: string) {
    key in m && m[key].Arr? && m[key].items != []
  }

  ghost predicate Speaks(m: Dict, term: string) {
    var text := Lower(PyStr(Get(m, "title", Str(""))) + " " + PyStr(Get(m, "description", Str(""))));
    exists i :: 0 <= i <= |text| - |term| && text[i..][..|term|] == term
  }

  ghost predicate Blank(criterion: Json) {
    !criterion.Str? || Strip(criterion.s) == ""
  }

  function ProfileOf(m: Dict): string {
    Lower(Strip(PyStr(if "validation_profile" in m then m["validation_profile"] else Str("auto"))))
  }

  /** The listed dependencies that name some other milestone. */
  function Kept(m: Dict, ids: seq<string>, name: string): seq<Json> {
    if "depends_on" in m && m["depends_on"].Arr? then Resolvable(m["depends_on"].items, ids, name) else []
  }

  /** The k-th item of a plan with these ids gives reason for this issue. */
  ghost predicate Deserves(ms: seq<Json>, ids: seq<string>, k: nat, issue: Issue)
    requires k < |ms|
  {
    if !ms[k].Obj? then issue == NotAnObject(k)
    else
      var m := ms[k].fields;
      var name := Label(ms[k], k);
      match issue
      case DuplicateId(n) => n == name && exists j :: 0 <= j < k && ms[j].Obj? && Label(ms[j], j) == name
      case MissingId(position) => position == k && name == "#" + Decimal(k + 1)
      case EnvironmentSetup(n) =>
        n == name && (Speaks(m, "environment setup") || Speaks(m, "pip install")
                      || Speaks(m, "install the required dependencies") || Speaks(m, "set up the venv"))
      case ForwardDependencies(n, forward) =>
        n == name && forward != [] && forward == Forward(Kept(m, ids, name), ids, name, k)
      case TargetFilesMissing(n) => n == name && !FilledList(m, "target_files")
      case CriteriaMissing(n) => n == name && !FilledList(m, "acceptance_criteria")
      case CriteriaBlank(n) =>
        n == name && FilledList(m, "acceptance_criteria") && exists c :: c in m["acceptance_criteria"].items && Blank(c)
      case UnsupportedProfile(n, profile) =>
        && n == name && profile == ProfileOf(m)
        && profile != "auto" && profile != "ui" && profile != "python" && profile != "lint" && profile != "structural"
      case ContractNotAllowed(n) => n == name && "validation_contract" in m
      case _ => false
  }

  lemma LabelIsName(item: Json, k: nat)
    requires item.Obj?
    ensures Label(item, k) == Name(item.fields, k)
  {
  }

  lemma SpeaksTerm(m: Dict, term: string)
    ensures Contains(Lower(PyStr(Get(m, "title", Str(""))) + " " + PyStr(Get(m, "description", Str("")))), term)
       <==> Speaks(m, term)
  {
    hide Lower, PyStr, Get;
  }

  lemma SpeaksIff(m: Dict)
    ensures SetupWording(m) <==>
      || Speaks(m, "environment setup") || Speaks(m, "pip install")
      || Speaks(m, "install the required dependencies") || Speaks(m, "set up the venv")
  {
    var text := Lower(PyStr(Get(m, "title", Str(""))) + " " + PyStr(Get(m, "description", Str(""))));
    forall term ensures Contains(text, term) <==> Speaks(m, term) {
      SpeaksTerm(m, term);
    }
    hide Contains, Speaks, Lower, PyStr;
    assert SETUP_TERMS[0] == "environment setup" && SETUP_TERMS[1] == "pip install";
    assert SETUP_TERMS[2] == "install the required dependencies" && SETUP_TERMS[3] == "set up the venv";
  }

  lemma IdentityIff(m: Dict, seen: set<string>, k: nat, issue: Issue)
    ensures issue in IdentityIssues(m, seen, k) <==>
      || (issue == DuplicateId(Name(m, k)) && Name(m, k) in seen)
      || (issue == MissingId(k) && Name(m, k) == "#" + Decimal(k + 1))
      || (issue == EnvironmentSetup(Name(m, k)) && SetupWording(m))
  {
    hide Name, SetupWording;
  }

  lemma DependencyIff(m: Dict, ids: seq<string>, k: nat, issue: Issue)
    ensures issue in DependencyIssues(m, ids, k) <==>
      && issue.ForwardDependencies? && issue.name == Name(m, k) && issue.dependencies != []
      && issue.dependencies == Forward(Kept(m, ids, Name(m, k)), ids, Name(m, k), k)
  {
    hide Name, Resolvable;
    assert Forward([], ids, Name(m, k), k) == [];
  }

  lemma BlankIff(m: Dict)
    requires FilledList(m, "acceptance_criteria")
    ensures (exists c :: c in m["acceptance_criteria"].items && Blank(c)) <==>
      exists i :: 0 <= i < |m["acceptance_criteria"].items| && BlankCriterion(m["acceptance_criteria"].items[i])
  {
    var items := m["acceptance_criteria"].items;
    if i :| 0 <= i < |items| && BlankCriterion(items[i]) {
      assert items[i] in items && Blank(items[i]);
    }
  }

  lemma ContentIff(m: Dict, name: string, issue: Issue)
    ensures issue in ContentIssues(m, name) <==>
      || (issue == TargetFilesMissing(name) && !FilledList(m, "target_files"))
      || (issue == CriteriaMissing(name) && !FilledList(m, "acceptance_criteria"))
      || (issue == CriteriaBlank(name) && FilledList(m, "acceptance_criteria")
          && exists c :: c in m["acceptance_criteria"].items && Blank(c))
      || (issue == UnsupportedProfile(name, ProfileOf(m))
          && ProfileOf(m) !in {"auto", "ui", "python", "lint", "structural"})
      || (issue == ContractNotAllowed(name) && "validation_contract" in m)
  {
    hide Lower, Strip;
    if FilledList(m, "acceptance_criteria") {
      BlankIff(m);
    }
    hide Blank, BlankCriterion;
    assert ProfileOf(m) == Profile(m);
    assert PROFILES == {"auto", "ui", "python", "lint", "structural"};
  }

  /** What has been seen before the k-th item: the labels of the objects before it. */
  ghost predicate SeenAre(ms: seq<Json>, k: nat, seen: set<string>)
    requires k <= |ms|
  {
    forall name :: name in seen <==> exists j :: 0 <= j < k && ms[j].Obj? && Label(ms[j], j) == name
  }

  lemma ObjectIff(m: Dict, ids: seq<string>, seen: set<string>, k: nat, issue: Issue)
    ensures issue in IssuesOf(m, ids, seen, k) <==>
      || issue in IdentityIssues(m, seen, k) || issue in DependencyIssues(m, ids, k)
      || issue in ContentIssues(m, Name(m, k))
  {
    hide IdentityIssues, DependencyIssues, ContentIssues, Name;
  }

  lemma OneIff(ms: seq<Json>, ids: seq<string>, seen: set<string>, k: nat, issue: Issue)
    requires k < |ms| && SeenAre(ms, k, seen)
    ensures issue in LintOne(ms[k], ids, seen, k).issues <==> Deserves(ms, ids, k, issue)
  {
    if ms[k].Obj? {
      LabelIsName(ms[k], k);
      SeenLabel(ms, k, seen);
      hide FixedMilestone, Label, Speaks, FilledList, Blank, Kept, Forward, Name, FixesOf, IssuesOf, ProfileOf, SeenAre;
      MilestoneIff(ms[k].fields, ids, seen, k, issue);
    }
  }

  lemma SeenLabel(ms: seq<Json>, k: nat, seen: set<string>)
    requires k < |ms| && SeenAre(ms, k, seen)
    ensures Label(ms[k], k) in seen <==> exists j :: 0 <= j < k && ms[j].Obj? && Label(ms[j], j) == Label(ms[k], k)
  {
  }

  lemma MilestoneIff(m: Dict, ids: seq<string>, seen: set<string>, k: nat, issue: Issue)
    ensures var name := Name(m, k);
      issue in IssuesOf(m, ids, seen, k) <==>
      match issue
      case DuplicateId(n) => n == name && name in seen
      case MissingId(position) => position == k && name == "#" + Decimal(k + 1)
      case EnvironmentSetup(n) =>
        n == name && (Speaks(m, "environment setup") || Speaks(m, "pip install")
                      || Speaks(m, "install the required dependencies") || Speaks(m, "set up the venv"))
      case ForwardDependencies(n, forward) =>
        n == name && forward != [] && forward == Forward(Kept(m, ids, name), ids, name, k)
      case TargetFilesMissing(n) => n == name && !FilledList(m, "target_files")
      case CriteriaMissing(n) => n == name && !FilledList(m, "acceptance_criteria")
      case CriteriaBlank(n) =>
        n == name && FilledList(m, "acceptance_criteria") && exists c :: c in m["acceptance_criteria"].items && Blank(c)
      case UnsupportedProfile(n, profile) =>
        && n == name && profile == ProfileOf(m)
        && profile != "auto" && profile != "ui" && profile != "python" && profile != "lint" && profile != "structural"
      case ContractNotAllowed(n) => n == name && "validation_contract" in m
      case _ => false
  {
    ObjectIff(m, ids, seen, k, issue);
    IdentityIff(m, seen, k, issue);
    DependencyIff(m, ids, k, issue);
    ContentIff(m, Name(m, k), issue);
    SpeaksIff(m);
    hide IssuesOf, IdentityIssues, DependencyIssues, ContentIssues, Speaks, FilledList, Blank, Kept, Forward, Name,
      SetupWording, ProfileOf;
  }

  lemma SeenNext(ms: seq<Json>, k: nat, seen: set<string>)
    requires k < |ms| && SeenAre(ms, k, seen)
    ensures SeenAre(ms, k + 1, SeenAfter(ms[k], seen, k))
  {
    if ms[k].Obj? {
      LabelIsName(ms[k], k);
    }
    hide Label, Name;
    var after := SeenAfter(ms[k], seen, k);
    forall name
      ensures name in after <==> exists j :: 0 <= j < k + 1 && ms[j].Obj? && Label(ms[j], j) == name
    {
      if j :| 0 <= j < k + 1 && ms[j].Obj? && Label(ms[j], j) == name {
        assert j < k ==> name in seen;
      }
      if name in after && name !in seen {
        assert Label(ms[k], k) == name;
      }
    }
  }

  lemma {:induction false} FromIff(ms: seq<Json>, ids: seq<string>, seen: set<string>, k: nat, issue: Issue)
    requires k <= |ms| && SeenAre(ms, k, seen)
    ensures issue in LintFrom(ms[k..], ids, seen, k).issues <==>
            exists j :: k <= j < |ms| && Deserves(ms, ids, j, issue)
    decreases |ms| - k
  {
    hide LintOne, SeenAfter, Deserves, SeenAre;
    if k < |ms| {
      OneIff(ms, ids, seen, k, issue);
      SeenNext(ms, k, seen);
      FromIff(ms, ids, SeenAfter(ms[k], seen, k), k + 1, issue);
      assert ms[k..][0] == ms[k] && ms[k..][1..] == ms[k + 1..];
      assert LintFrom(ms[k..], ids, seen, k).issues == LintOne(ms[k], ids, seen, k).issues
        + LintFrom(ms[k + 1..], ids, SeenAfter(ms[k], seen, k), k + 1).issues;
    } else {
      assert ms[k..] == [];
    }
  }

  /** An issue is reported if and only if some item of the plan gives reason for it. */
  lemma IssueReportedIff(ms: seq<Json>, issue: Issue)
    ensures issue in Linted(ms).issues <==> exists k :: 0 <= k < |ms| && Deserves(ms, KnownIds(ms), k, issue)
  {
    NothingSeen(ms);
    LintedIs(ms);
    hide Deserves, LintFrom, Linted, SeenAre;
    assert ms[0..] == ms;
    FromIff(ms, KnownIds(ms), {}, 0, issue);
  }

  lemma NothingSeen(ms: seq<Json>)
    ensures SeenAre(ms, 0, {})
  {
  }

  lemma LintedIs(ms: seq<Json>)
    ensures Linted(ms) == LintFrom(ms[0..], KnownIds(ms), {}, 0)
  {
    hide LintFrom;
    assert ms[0..] == ms;
  }

  // ---------------------------------------------------------------- fixes

  /** The k-th item needs this fix: a dependency that names no other milestone, or a target path that starts with
      the workspace prefix or is not text. */
  ghost predicate Needs(ms: seq<Json>, ids: seq<string>, k: nat, fix: Fix)
    requires k < |ms|
  {
    ms[k].Obj? &&
    var m := ms[k].fields;
    match fix
    case DroppedDependencies(n) =>
      n == Label(ms[k], k) && "depends_on" in m && m["depends_on"].Arr?
      && exists d :: d in m["depends_on"].items && (PyStr(d) !in ids || PyStr(d) == n)
    case StrippedPrefixes(n) =>
      n == Label(ms[k], k) && "target_files" in m && m["target_files"].Arr?
      && exists p :: p in m["target_files"].items && (!p.Str? || StartsWith(p.s, "workspace/"))
  }

  lemma {:induction false} AllResolvableIff(deps: seq<Json>, ids: seq<string>, name: string)
    ensures |Resolvable(deps, ids, name)| <= |deps|
    ensures Resolvable(deps, ids, name) == deps <==> forall d :: d in deps ==> PyStr(d) in ids && PyStr(d) != name
  {
    if deps != [] {
      AllResolvableIff(deps[1..], ids, name);
      assert deps == [deps[0]] + deps[1..];
      assert deps[0] in deps && forall d :: d in deps <==> d == deps[0] || d in deps[1..];
    }
  }

  lemma AllStrippedIff(paths: seq<Json>)
    ensures StripAll(paths) == paths <==> forall p :: p in paths ==> p.Str? && !StartsWith(p.s, "workspace/")
  {
    forall i | 0 <= i < |paths|
      ensures StripAll(paths)[i] == paths[i] <==> paths[i].Str? && !StartsWith(paths[i].s, "workspace/")
    {
      OneStrippedIff(paths[i]);
    }
    if StripAll(paths) == paths {
      forall p | p in paths ensures p.Str? && !StartsWith(p.s, "workspace/") {
        var i :| 0 <= i < |paths| && paths[i] == p;
      }
    } else {
      var i :| 0 <= i < |paths| && StripAll(paths)[i] != paths[i];
      assert paths[i] in paths;
    }
  }

  lemma OneStrippedIff(path: Json)
    ensures Str(StripWorkspacePrefix(PyStr(path))) == path <==> path.Str? && !StartsWith(path.s, "workspace/")
  {
    if path.Str? && StartsWith(path.s, WORKSPACE) {
      assert |path.s[|WORKSPACE|..]| < |path.s|;
    }
  }

  lemma OneFixIff(ms: seq<Json>, ids: seq<string>, seen: set<string>, k: nat, fix: Fix)
    requires k < |ms|
    ensures fix in LintOne(ms[k], ids, seen, k).fixes <==> Needs(ms, ids, k, fix)
  {
    if ms[k].Obj? {
      var m := ms[k].fields;
      LabelIsName(ms[k], k);
      if "depends_on" in m && m["depends_on"].Arr? {
        AllResolvableIff(m["depends_on"].items, ids, Name(m, k));
      }
      if "target_files" in m && m["target_files"].Arr? {
        AllStrippedIff(m["target_files"].items);
      }
      hide FixedMilestone, IssuesOf, Label, Name, Resolvable, StripAll, StartsWith, PyStr;
    }
  }

  lemma {:induction false} FixesFromIff(ms: seq<Json>, ids: seq<string>, seen: set<string>, k: nat, fix: Fix)
    requires k <= |ms|
    ensures fix in LintFrom(ms[k..], ids, seen, k).fixes <==> exists j :: k <= j < |ms| && Needs(ms, ids, j, fix)
    decreases |ms| - k
  {
    hide LintOne, SeenAfter, Needs;
    if k < |ms| {
      OneFixIff(ms, ids, seen, k, fix);
      FixesFromIff(ms, ids, SeenAfter(ms[k], seen, k), k + 1, fix);
      assert ms[k..][0] == ms[k] && ms[k..][1..] == ms[k + 1..];
      assert LintFrom(ms[k..], ids, seen, k).fixes == LintOne(ms[k], ids, seen, k).fixes
        + LintFrom(ms[k + 1..], ids, SeenAfter(ms[k], seen, k), k + 1).fixes;
    } else {
      assert ms[k..] == [];
    }
  }

  /** A fix is reported if and only if some milestone needs it. */
  lemma FixReportedIff(ms: seq<Json>, fix: Fix)
    ensures fix in Linted(ms).fixes <==> exists k :: 0 <= k < |ms| && Needs(ms, KnownIds(ms), k, fix)
  {
    LintedIs(ms);
    hide Needs, LintFrom, Linted;
    FixesFromIff(ms, KnownIds(ms), {}, 0, fix);
  }

  /** A plan without a milestone list, or with an empty one, gives just that issue and stays as it is; any other
      plan keeps all its other fields. */
  lemma PlanReported(plan: Dict)
    ensures var r := LintedPlan(plan);
      && (!FilledList(plan, "milestones") ==> r == Report(plan, [], [NoMilestones]))
      && (FilledList(plan, "milestones") ==>
            && r.fixes == Linted(plan["milestones"].items).fixes && r.issues == Linted(plan["milestones"].items).issues
            && r.plan == plan["milestones" := Arr(Linted(plan["milestones"].items).plan)])
  {
    hide Linted;
  }
}
