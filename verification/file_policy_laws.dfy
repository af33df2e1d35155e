/** What a milestone's writes can and cannot touch, over any sequence of tool calls. */
module FilePolicyLaws {
  import opened JsonValues
  import opened Lines
  import opened Text
  import opened FilePolicy

  ghost predicate SameFile(before: map<string, string>, after: map<string, string>, path: string) {
    (path in before <==> path in after) && (path in before ==> before[path] == after[path])
  }

  /** Resolving a resolved path leads nowhere else. */
  ghost predicate Canonical(env: Env) {
    forall path :: env.resolve(path).Some? ==> env.locate(env.resolve(path).value) == env.resolve(path)
  }

  lemma OneCall(s: State, op: Op, env: Env)
    ensures var t := Did(s, op, env).state;
      && t.allowTestEdits == s.allowTestEdits && t.allowed == s.allowed && t.newTests == s.newTests
      && s.files.Keys <= t.files.Keys
      && (forall path :: !SameFile(s.files, t.files, path) ==>
            env.resolve(op.path) == Some(path) && Refusal(s, path, env) == None)
      && (forall path :: path in t.created <==> path in s.created || (path in t.files && path !in s.files))
      && (forall path :: path in t.readPaths <==>
            path in s.readPaths || (op.Read? && Did(s, op, env).reply.Content? && env.resolve(op.path) == Some(path)))
  {
  }

  /** Over any sequence of calls in a milestone: files outside its targets are untouched, existing tests
      are untouched unless test edits are on, and the created set is exactly what is new. */
  lemma {:induction false} PolicyHolds(start: State, paths: seq<string>, allowNewTests: bool, ops: seq<Op>, env: Env)
    requires paths != [] && Canonical(env)
    ensures var s := Begun(start, paths, allowNewTests, env); var t := After(s, ops, env);
      && t.allowTestEdits == s.allowTestEdits && t.allowed == s.allowed && t.newTests == s.newTests
      && (forall path :: path !in Targets(paths) ==> SameFile(start.files, t.files, path))
      && (forall path :: path in start.files && IsTest(path) && !start.allowTestEdits ==>
            SameFile(start.files, t.files, path))
      && start.files.Keys <= t.files.Keys
      && t.created == t.files.Keys - start.files.Keys
      && (env.readOnly ==> t.files == start.files)
    decreases |ops|
  {
    var s := Begun(start, paths, allowNewTests, env);
    if ops != [] {
      hide After, Did, Begun;
      StepHolds(start, paths, allowNewTests, ops, env);
    } else {
      assert start.files.Keys - start.files.Keys == {};
    }
  }

  lemma AfterLast(s: State, ops: seq<Op>, env: Env)
    requires ops != []
    ensures After(s, ops, env) == Did(After(s, ops[..|ops| - 1], env), ops[|ops| - 1], env).state
  {
  }

  lemma BegunShape(start: State, paths: seq<string>, allowNewTests: bool, env: Env)
    requires paths != []
    ensures var s := Begun(start, paths, allowNewTests, env);
      && s.files == start.files && s.allowTestEdits == start.allowTestEdits && s.allowed == Some(Targets(paths))
      && forall t :: t in s.newTests ==> !Exists(start, t, env)
  {
  }

  lemma StepHolds(start: State, paths: seq<string>, allowNewTests: bool, ops: seq<Op>, env: Env)
    requires paths != [] && Canonical(env) && ops != []
    ensures var s := Begun(start, paths, allowNewTests, env); var t := After(s, ops, env);
      && t.allowTestEdits == s.allowTestEdits && t.allowed == s.allowed && t.newTests == s.newTests
      && (forall path :: path !in Targets(paths) ==> SameFile(start.files, t.files, path))
      && (forall path :: path in start.files && IsTest(path) && !start.allowTestEdits ==>
            SameFile(start.files, t.files, path))
      && start.files.Keys <= t.files.Keys
      && t.created == t.files.Keys - start.files.Keys
      && (env.readOnly ==> t.files == start.files)
    decreases |ops|, 0
  {
    hide After, Did, Begun, IsTest, Targets;
    var s := Begun(start, paths, allowNewTests, env);
    var front, last := ops[..|ops| - 1], ops[|ops| - 1];
    var u := After(s, front, env);
    PolicyHolds(start, paths, allowNewTests, front, env);
    AfterLast(s, ops, env);
    BegunShape(start, paths, allowNewTests, env);
    OneCall(u, last, env);
    var t := Did(u, last, env).state;
    forall path | path !in Targets(paths) ensures SameFile(u.files, t.files, path) {
      assert SameFile(u.files, t.files, path) || Refusal(u, path, env) == None;
    }
    forall path | path in start.files && IsTest(path) && !start.allowTestEdits
      ensures SameFile(u.files, t.files, path)
    {
      assert SameFile(u.files, t.files, path) || (Refusal(u, path, env) == None && env.locate(path) == Some(path));
      assert path in s.newTests ==> !Exists(start, path, env);
    }
    if env.readOnly {
      forall path ensures SameFile(u.files, t.files, path) {
        assert SameFile(u.files, t.files, path) || Refusal(u, path, env) == None;
      }
      SameFiles(u.files, t.files);
    }
  }

  lemma SameFiles(a: map<string, string>, b: map<string, string>)
    requires forall path :: SameFile(a, b, path)
    ensures a == b
  {
    assert forall path :: path in a <==> path in b by {
      forall path ensures path in a <==> path in b {
        assert SameFile(a, b, path);
      }
    }
    forall path | path in a ensures a[path] == b[path] {
      assert SameFile(a, b, path);
    }
  }

  // ---------------------------------------------------------------- read before rewrite

  /** The j-th call of the milestone read this file. */
  ghost predicate ReadAt(s: State, ops: seq<Op>, j: nat, rel: string, env: Env) {
    && j < |ops| && ops[j].Read? && env.resolve(ops[j].path) == Some(rel)
    && Did(After(s, ops[..j], env), ops[j], env).reply.Content?
  }

  lemma ReadAtFront(s: State, ops: seq<Op>, j: nat, rel: string, env: Env)
    requires j < |ops| - 1
    ensures ReadAt(s, ops[..|ops| - 1], j, rel, env) <==> ReadAt(s, ops, j, rel, env)
  {
    assert ops[..|ops| - 1][..j] == ops[..j] && ops[..|ops| - 1][j] == ops[j];
  }

  lemma {:induction false} ReadPathsIff(s: State, ops: seq<Op>, rel: string, env: Env)
    ensures rel in After(s, ops, env).readPaths <==> rel in s.readPaths || exists j: nat :: ReadAt(s, ops, j, rel, env)
    decreases |ops|
  {
    hide After, Did;
    if ops == [] {
      AfterNone(s, env);
    } else {
      var front, last := ops[..|ops| - 1], |ops| - 1;
      ReadPathsIff(s, front, rel, env);
      AfterLast(s, ops, env);
      OneCall(After(s, front, env), ops[last], env);
      assert ops[..last] == front;
      forall j: nat | j < last ensures ReadAt(s, front, j, rel, env) <==> ReadAt(s, ops, j, rel, env) {
        ReadAtFront(s, ops, j, rel, env);
      }
      var before := After(s, front, env);
      assert ReadAt(s, ops, last, rel, env) <==>
        ops[last].Read? && Did(before, ops[last], env).reply.Content? && env.resolve(ops[last].path) == Some(rel);
      if rel in After(s, ops, env).readPaths && rel !in s.readPaths {
        if rel in before.readPaths {
          var j: nat :| ReadAt(s, front, j, rel, env);
          assert ReadAt(s, ops, j, rel, env);
        } else {
          assert ReadAt(s, ops, last, rel, env);
        }
      }
      forall j: nat | ReadAt(s, ops, j, rel, env) ensures rel in After(s, ops, env).readPaths {
        assert j < last ==> ReadAt(s, front, j, rel, env);
      }
    }
  }

  lemma AfterNone(s: State, env: Env)
    ensures After(s, [], env) == s
  {
  }

  /** An existing file of more than sixty lines is overwritten without the rewrite flag only if an earlier
      call of the same milestone read it. */
  lemma LargeFileWasRead(start: State, paths: seq<string>, allowNewTests: bool, ops: seq<Op>, i: nat, rel: string,
                         env: Env)
    requires i < |ops| && ops[i].Write? && !ops[i].rewrite && env.resolve(ops[i].path) == Some(rel)
    requires var before := After(Begun(start, paths, allowNewTests, env), ops[..i], env);
      && rel in before.files && |SplitLines(Universal(before.files[rel]))| > REWRITE_MIN_LINES
      && Did(before, ops[i], env).reply == Saved
    ensures exists j: nat :: ReadAt(Begun(start, paths, allowNewTests, env), ops[..i], j, rel, env)
  {
    ReadPathsIff(Begun(start, paths, allowNewTests, env), ops[..i], rel, env);
  }
}
