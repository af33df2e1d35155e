/** The file tools under a milestone's write policy. Path resolution, what counts as secret, and
    failures of the file system are arbitrary; every write is one atomic step. Files are read with line
    endings translated, and written as they are. */
module FilePolicy {
  import opened JsonValues
  import opened Lines
  import opened Text

  const REWRITE_MIN_LINES := 60

  /** The environment: where a tool argument leads to (None: outside the workspace), where a declared
      target leads to, which paths are secret, and whether the session may write at all. */
  datatype Env = Env(
    resolve: string -> Option<string>,
    locate: string -> Option<string>,
    sensitive: string -> bool,
    readOnly: bool)

  /** The workspace files by resolved path, and the policy of the current milestone. */
  datatype State = State(
    files: map<string, string>,
    allowTestEdits: bool,
    allowed: Option<set<string>>,
    readPaths: set<string>,
    created: set<string>,
    newTests: set<string>)

  datatype Reason =
    | EscapesWorkspace
    | Sensitive
    | ReadOnly
    | OutsideTargets
    | ProtectedTest
    | ReadFirst
    | NotFound
    | NotUnique(count: nat)
    | SystemError

  datatype Reply = Content(text: string, startLine: int, totalLines: nat) | Saved | Denied(reason: Reason)

  // ---------------------------------------------------------------- paths

  function Slashes(s: string): string {
    seq(|s|, i requires 0 <= i < |s| => if s[i] == '\\' then '/' else s[i])
  }

  function DropDots(s: string): string {
    if StartsWith(s, "./") then DropDots(s[2..]) else s
  }

  function DropSlashes(s: string): string {
    if s != "" && s[0] == '/' then DropSlashes(s[1..]) else s
  }

  function Normalize(path: string): string {
    var p := DropDots(Slashes(Strip(path)));
    DropSlashes(if StartsWith(p, "workspace/") then p[|"workspace/"|..] else p)
  }

  predicate Contains(s: string, part: string) {
    exists i :: 0 <= i <= |s| && StartsWith(s[i..], part)
  }

  predicate IsTest(path: string) {
    StartsWith(path, "tests/") || StartsWith(path, "test_") || Contains(path, "/test_")
  }

  // ---------------------------------------------------------------- the policy

  function Targets(paths: seq<string>): set<string> {
    set p | p in paths && Strip(p) != "" :: Normalize(p)
  }

  predicate Exists(s: State, target: string, env: Env) {
    env.locate(target).Some? && env.locate(target).value in s.files
  }

  /** `begin_milestone_write_policy` */
  function Begun(s: State, paths: seq<string>, allowNewTests: bool, env: Env): State {
    if paths == [] then s.(allowed := None, readPaths := {}, created := {}, newTests := {})
    else
      s.(allowed := Some(Targets(paths)), readPaths := {}, created := {},
         newTests := if allowNewTests then set t | t in Targets(paths) && IsTest(t) && !Exists(s, t, env) else {})
  }

  /** Why a write to this path is refused, whatever is written. */
  function Refusal(s: State, rel: string, env: Env): Option<Reason> {
    if env.sensitive(rel) then Some(Sensitive)
    else if env.readOnly then Some(ReadOnly)
    else if s.allowed.Some? && rel !in s.allowed.value then Some(OutsideTargets)
    else if !s.allowTestEdits && IsTest(rel) && rel !in s.newTests then Some(ProtectedTest)
    else None
  }

  predicate NeedsRead(s: State, rel: string, rewrite: bool) {
    rel in s.files && !rewrite && rel !in s.readPaths && |SplitLines(Universal(s.files[rel]))| > REWRITE_MIN_LINES
  }

  // ---------------------------------------------------------------- searching

  /** Where `part` first occurs in `s`. */
  function Find(s: string, part: string): (k: Option<nat>)
    ensures k.Some? ==> k.value + |part| <= |s| && s[k.value..][..|part|] == part
    ensures k.Some? ==> forall i :: 0 <= i < k.value ==> !StartsWith(s[i..], part)
    ensures k.None? ==> forall i :: 0 <= i <= |s| ==> !StartsWith(s[i..], part)
  {
    if StartsWith(s, part) then Some(0)
    else if s == "" then None
    else
      match Find(s[1..], part)
      case None =>
        assert forall i :: 0 < i <= |s| ==> s[i..] == s[1..][i - 1..];
        None
      case Some(k) =>
        assert forall i :: 0 < i <= k ==> s[i..] == s[1..][i - 1..];
        assert s[k + 1..] == s[1..][k..];
        Some(k + 1)
  }

  /** `s.count(part)`: occurrences that do not overlap, from the left. */
  function CountOf(s: string, part: string): nat
    decreases |s|
  {
    if part == "" then |s| + 1
    else
      match Find(s, part)
      case None => 0
      case Some(k) => 1 + CountOf(s[k + |part|..], part)
  }

  function ReplaceFirst(s: string, part: string, with: string): string {
    match Find(s, part)
    case None => s
    case Some(k) => s[..k] + with + s[k + |part|..]
  }

  /** The lines from `offset` on, at most `limit` of them. */
  function Selected(lines: seq<string>, offset: int, limit: Option<int>): seq<string> {
    var from := if offset < 1 then 0 else if offset - 1 > |lines| then |lines| else offset - 1;
    var count := match limit
      case None => |lines| - from
      case Some(n) => if n < 0 then 0 else if n > |lines| - from then |lines| - from else n;
    lines[from..from + count]
  }

  // ---------------------------------------------------------------- the tools

  datatype Op =
    | Read(path: string, offset: int, limit: Option<int>, fails: bool)
    | Write(path: string, content: string, rewrite: bool, fails: bool)
    | Patch(path: string, search: string, with: string, fails: bool)

  datatype Answer = Answer(state: State, reply: Reply)

  function DidRead(s: State, path: string, offset: int, limit: Option<int>, fails: bool, env: Env): Answer {
    match env.resolve(path)
    case None => Answer(s, Denied(EscapesWorkspace))
    case Some(rel) =>
      if env.sensitive(rel) then Answer(s, Denied(Sensitive))
      else if rel !in s.files then Answer(s, Denied(NotFound))
      else if fails then Answer(s, Denied(SystemError))
      else
        var lines := SplitLines(Universal(s.files[rel]));
        Answer(s.(readPaths := s.readPaths + {rel}),
               Content(Concat(Selected(lines, offset, limit)), if offset > 1 then offset else 1, |lines|))
  }

  function DidWrite(s: State, path: string, content: string, rewrite: bool, fails: bool, env: Env): Answer {
    match env.resolve(path)
    case None => Answer(s, Denied(EscapesWorkspace))
    case Some(rel) =>
      if Refusal(s, rel, env).Some? then Answer(s, Denied(Refusal(s, rel, env).value))
      else if NeedsRead(s, rel, rewrite) then Answer(s, Denied(ReadFirst))
      else if fails then Answer(s, Denied(SystemError))
      else
        Answer(s.(files := s.files[rel := content],
                  created := if rel in s.files then s.created else s.created + {rel}),
               Saved)
  }

  function DidPatch(s: State, path: string, search: string, with: string, fails: bool, env: Env): Answer {
    match env.resolve(path)
    case None => Answer(s, Denied(EscapesWorkspace))
    case Some(rel) =>
      if Refusal(s, rel, env).Some? then Answer(s, Denied(Refusal(s, rel, env).value))
      else if rel !in s.files then Answer(s, Denied(NotFound))
      else
        var text := Universal(s.files[rel]);
        var count := CountOf(text, search);
        if count != 1 then Answer(s, Denied(NotUnique(count)))
        else if fails then Answer(s, Denied(SystemError))
        else Answer(s.(files := s.files[rel := ReplaceFirst(text, search, with)]), Saved)
  }

  function Did(s: State, op: Op, env: Env): Answer {
    match op
    case Read(path, offset, limit, fails) => DidRead(s, path, offset, limit, fails, env)
    case Write(path, content, rewrite, fails) => DidWrite(s, path, content, rewrite, fails, env)
    case Patch(path, search, with, fails) => DidPatch(s, path, search, with, fails, env)
  }

  function After(s: State, ops: seq<Op>, env: Env): State {
    if ops == [] then s else Did(After(s, ops[..|ops| - 1], env), ops[|ops| - 1], env).state
  }

  /** The tools keep their policy in module-level variables. */
  class FileTools {
    const env: Env
    var files: map<string, string>
    var allowTestEdits: bool
    var allowed: Option<set<string>>
    var readPaths: set<string>
    var created: set<string>
    var newTests: set<string>

    constructor (env: Env, files: map<string, string>)
      ensures this.env == env && Now() == State(files, false, None, {}, {}, {})
    {
      this.env, this.files, allowTestEdits, allowed := env, files, false, None;
      readPaths, created, newTests := {}, {}, {};
    }

    function Now(): State
      reads this
    {
      State(files, allowTestEdits, allowed, readPaths, created, newTests)
    }

    method SetAllowTestEdits(value: bool)
      modifies this
      ensures Now() == old(Now()).(allowTestEdits := value)
    {
      allowTestEdits := value;
    }

    method BeginMilestone(paths: seq<string>, allowNewTests: bool)
      modifies this
      ensures Now() == Begun(old(Now()), paths, allowNewTests, env)
    {
      if paths != [] {
        allowed := Some(Targets(paths));
      } else {
        allowed := None;
      }
      readPaths := {};
      created := {};
      newTests := {};
      if allowNewTests && allowed.Some? {
        newTests := set t | t in allowed.value && IsTest(t) &&
                            !(env.locate(t).Some? && env.locate(t).value in files);
      }
    }

    method ReadFile(path: string, offset: int, limit: Option<int>, fails: bool) returns (reply: Reply)
      modifies this
      ensures Answer(Now(), reply) == DidRead(old(Now()), path, offset, limit, fails, env)
    {
      var target := env.resolve(path);
      if target.None? {
        return Denied(EscapesWorkspace);
      }
      var rel := target.value;
      if env.sensitive(rel) {
        return Denied(Sensitive);
      }
      if rel !in files {
        return Denied(NotFound);
      }
      if fails {
        return Denied(SystemError);
      }
      readPaths := readPaths + {rel};
      var lines := SplitLines(Universal(files[rel]));
      var start := if offset > 1 then offset else 1;
      var from := if start - 1 > |lines| then |lines| else start - 1;
      var selected := lines[from..];
      if limit.Some? {
        var n := if limit.value > 0 then limit.value else 0;
        selected := if n < |selected| then selected[..n] else selected;
      }
      assert selected == Selected(lines, offset, limit);
      return Content(Concat(selected), start, |lines|);
    }

    method WriteError(rel: string) returns (reason: Option<Reason>)
      ensures reason == Refusal(Now(), rel, env)
    {
      if env.sensitive(rel) {
        return Some(Sensitive);
      }
      if env.readOnly {
        return Some(ReadOnly);
      }
      if allowed != None && rel !in allowed.value {
        return Some(OutsideTargets);
      }
      if allowTestEdits || !IsTest(rel) || rel in newTests {
        return None;
      }
      return Some(ProtectedTest);
    }

    method WriteFile(path: string, content: string, rewrite: bool, fails: bool) returns (reply: Reply)
      modifies this
      ensures Answer(Now(), reply) == DidWrite(old(Now()), path, content, rewrite, fails, env)
    {
      var target := env.resolve(path);
      if target.None? {
        return Denied(EscapesWorkspace);
      }
      var rel := target.value;
      var refusal := WriteError(rel);
      if refusal.Some? {
        return Denied(refusal.value);
      }
      if rel in files && !rewrite && rel !in readPaths {
        if |SplitLines(Universal(files[rel]))| > REWRITE_MIN_LINES {
          return Denied(ReadFirst);
        }
      }
      var wasNew := rel !in files;
      if fails {
        return Denied(SystemError);
      }
      files := files[rel := content];
      if wasNew {
        created := created + {rel};
      }
      return Saved;
    }

    method PatchFile(path: string, search: string, with: string, fails: bool) returns (reply: Reply)
      modifies this
      ensures Answer(Now(), reply) == DidPatch(old(Now()), path, search, with, fails, env)
    {
      var target := env.resolve(path);
      if target.None? {
        return Denied(EscapesWorkspace);
      }
      var rel := target.value;
      var refusal := WriteError(rel);
      if refusal.Some? {
        return Denied(refusal.value);
      }
      if rel !in files {
        return Denied(NotFound);
      }
      var text := Universal(files[rel]);
      var count := CountOf(text, search);
      if count != 1 {
        return Denied(NotUnique(count));
      }
      if fails {
        return Denied(SystemError);
      }
      files := files[rel := ReplaceFirst(text, search, with)];
      return Saved;
    }
  }
}
