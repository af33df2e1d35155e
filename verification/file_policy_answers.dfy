/** What the file tools answer, reason by reason, and what counts as a target or a test. */
module FilePolicyAnswers {
  import opened JsonValues
  import opened Lines
  import opened Text
  import opened FilePolicy

  // ---------------------------------------------------------------- paths

  /** A path that is written as the tools keep it. */
  predicate Kept(path: string) {
    && path != "" && Trimmed(path) && '\\' !in path && path[0] != '/'
    && !StartsWith(path, "./") && !StartsWith(path, "workspace/")
  }

  lemma {:induction false} DroppedShape(s: string)
    ensures DropSlashes(s) != "" ==> DropSlashes(s)[0] != '/'
    ensures forall c :: c in DropSlashes(s) ==> c in s
  {
    if s != "" && s[0] == '/' {
      DroppedShape(s[1..]);
    }
  }

  lemma {:induction false} DotsShape(s: string)
    ensures forall c :: c in DropDots(s) ==> c in s
    ensures !StartsWith(DropDots(s), "./")
  {
    if StartsWith(s, "./") {
      DotsShape(s[2..]);
    }
  }

  /** Whatever the path: no backslash and no leading slash is left. */
  lemma NormalizedShape(path: string)
    ensures '\\' !in Normalize(path)
    ensures Normalize(path) != "" ==> Normalize(path)[0] != '/'
  {
    var slashed := Slashes(Strip(path));
    assert '\\' !in slashed;
    hide Slashes, Strip;
    var p := DropDots(slashed);
    DotsShape(slashed);
    var inside := if StartsWith(p, "workspace/") then p[|"workspace/"|..] else p;
    assert '\\' !in inside;
    DroppedShape(inside);
  }

  lemma SlashesOf(path: string)
    requires '\\' !in path
    ensures Slashes(path) == path
  {
  }

  lemma Prefixed(prefix: string, path: string)
    ensures StartsWith(prefix + path, prefix) && (prefix + path)[|prefix|..] == path
  {
  }

  lemma StartsElse(s: string, prefix: string)
    requires s != "" && prefix != "" && s[0] != prefix[0]
    ensures !StartsWith(s, prefix)
  {
    assert |prefix| <= |s| ==> s[..|prefix|][0] == s[0];
  }

  lemma KeptParts(path: string)
    requires Kept(path)
    ensures DropDots(path) == path && DropSlashes(path) == path
    ensures DropDots("/" + path) == "/" + path && DropSlashes("/" + path) == path
    ensures DropDots("./" + path) == path
    ensures DropDots("workspace/" + path) == "workspace/" + path
    ensures DropDots("./workspace/" + path) == "workspace/" + path
  {
    StartsElse("/" + path, "./");
    assert ("/" + path)[1..] == path;
    Prefixed("./", path);
    StartsElse("workspace/" + path, "./");
    Prefixed("./", "workspace/" + path);
    assert "./workspace/" + path == "./" + ("workspace/" + path);
  }

  /** A path as the tools keep it stays as it is, also behind a slash or the workspace prefix; behind "./" it is
      what it is without, and it may be written with backslashes. */
  lemma NormalizeIs(path: string)
    requires Kept(path)
    ensures Normalize(path) == path && Normalize("/" + path) == path && Normalize("workspace/" + path) == path
    ensures Normalize("./" + path) == path && Normalize("./workspace/" + path) == path
  {
    StripTrims(path);
    SlashesOf(path);
    Behind("/", path);
    Behind("workspace/", path);
    Behind("./", path);
    Behind("./workspace/", path);
    KeptParts(path);
    Prefixed("workspace/", path);
    StartsElse("/" + path, "workspace/");
    hide Strip, Slashes, Trimmed, DropDots, DropSlashes, StartsWith;
  }

  lemma Behind(prefix: string, path: string)
    requires Kept(path) && prefix != "" && !IsSpace(prefix[0]) && '\\' !in prefix
    ensures Strip(prefix + path) == prefix + path && Slashes(prefix + path) == prefix + path
  {
    StripTrims(prefix + path);
    assert (prefix + path)[|prefix + path| - 1] == path[|path| - 1];
    SlashesOf(prefix + path);
  }

  lemma BackslashesDoNotMatter(path: string, other: string)
    requires Trimmed(path) && Trimmed(other) && |path| == |other|
    requires forall i :: 0 <= i < |path| ==> other[i] == if path[i] == '\\' then '/' else path[i]
    ensures Normalize(path) == Normalize(other)
  {
    StripTrims(path);
    StripTrims(other);
    assert Slashes(path) == Slashes(other);
  }

  lemma IsTestIff(path: string)
    ensures IsTest(path) <==>
      || (|path| >= 6 && path[..6] == "tests/") || (|path| >= 5 && path[..5] == "test_")
      || exists i :: 0 <= i <= |path| - 6 && path[i..][..6] == "/test_"
  {
    if i :| 0 <= i <= |path| - 6 && path[i..][..6] == "/test_" {
      assert StartsWith(path[i..], "/test_");
    }
  }

  // ---------------------------------------------------------------- the policy of a milestone

  /** Beginning a milestone: its targets are what its paths are kept as, none without paths; its new tests those
      targets that are tests and do not exist; and nothing has been read or created. */
  lemma BegunIs(s: State, paths: seq<string>, allowNewTests: bool, env: Env)
    ensures var t := Begun(s, paths, allowNewTests, env);
      && t.files == s.files && t.allowTestEdits == s.allowTestEdits && t.readPaths == {} && t.created == {}
      && (t.allowed.None? <==> paths == [])
      && (t.allowed.Some? ==> forall target ::
            target in t.allowed.value <==> exists p :: p in paths && Strip(p) != "" && Normalize(p) == target)
      && (forall target :: target in t.newTests <==>
            && allowNewTests && t.allowed.Some? && target in t.allowed.value && IsTest(target)
            && !(env.locate(target).Some? && env.locate(target).value in s.files))
  {
  }

  // ---------------------------------------------------------------- refusals

  /** Why a write to this path is refused, whatever is written: the first of these reasons that applies. */
  predicate RefusedFor(s: State, rel: string, env: Env, reason: Reason) {
    if env.sensitive(rel) then reason == Sensitive
    else if env.readOnly then reason == ReadOnly
    else if s.allowed.Some? && rel !in s.allowed.value then reason == OutsideTargets
    else reason == ProtectedTest && IsTest(rel) && !s.allowTestEdits && rel !in s.newTests
  }

  predicate Free(s: State, rel: string, env: Env) {
    && !env.sensitive(rel) && !env.readOnly
    && (s.allowed.Some? ==> rel in s.allowed.value)
    && (IsTest(rel) ==> s.allowTestEdits || rel in s.newTests)
  }

  /** An overwrite that has to be preceded by a read. */
  predicate MustReadFirst(s: State, rel: string, rewrite: bool) {
    rel in s.files && !rewrite && rel !in s.readPaths && |SplitLines(Universal(s.files[rel]))| > 60
  }

  /** What a write answers. */
  lemma WriteReplyIff(s: State, path: string, content: string, rewrite: bool, fails: bool, env: Env, reply: Reply)
    ensures Did(s, Write(path, content, rewrite, fails), env).reply == reply <==>
      if env.resolve(path).None? then reply == Denied(EscapesWorkspace)
      else
        var rel := env.resolve(path).value;
        if !Free(s, rel, env) then reply.Denied? && RefusedFor(s, rel, env, reply.reason)
        else if MustReadFirst(s, rel, rewrite) then reply == Denied(ReadFirst)
        else reply == if fails then Denied(SystemError) else Saved
  {
    hide IsTest, SplitLines, Universal;
  }

  /** A write that is not denied changes this one file, and notes it as created if it is new; any other changes
      nothing. */
  lemma WriteEffect(s: State, path: string, content: string, rewrite: bool, fails: bool, env: Env)
    ensures var out := Did(s, Write(path, content, rewrite, fails), env);
      if out.reply != Saved then out.state == s
      else
        && env.resolve(path).Some?
        && var rel := env.resolve(path).value;
        && out.state.files == s.files[rel := content]
        && out.state.created == (if rel in s.files then s.created else s.created + {rel})
        && out.state == s.(files := out.state.files, created := out.state.created)
  {
    hide IsTest, SplitLines, Universal;
  }

  /** What a read answers: the selected lines of the text as it is read, where they start, and how many lines there
      are; and that the file has been read. */
  lemma ReadReplyIs(s: State, path: string, offset: int, limit: Option<int>, fails: bool, env: Env)
    ensures var out := Did(s, Read(path, offset, limit, fails), env);
      if env.resolve(path).None? then out == Answer(s, Denied(EscapesWorkspace))
      else
        var rel := env.resolve(path).value;
        if env.sensitive(rel) then out == Answer(s, Denied(Sensitive))
        else if rel !in s.files then out == Answer(s, Denied(NotFound))
        else if fails then out == Answer(s, Denied(SystemError))
        else
          var lines := SplitLines(Universal(s.files[rel]));
          && out.state == s.(readPaths := s.readPaths + {rel})
          && out.reply == Content(Concat(Selected(lines, offset, limit)), if offset >= 1 then offset else 1, |lines|)
  {
    hide SplitLines, Universal, Concat, Selected;
  }

  /** The window a read selects: from line `offset`, counted from one, as many as there are up to the limit. */
  lemma SelectedIs(lines: seq<string>, offset: int, limit: Option<int>, i: nat)
    ensures var from := if offset >= 1 then offset - 1 else 0;
      var out := Selected(lines, offset, limit);
      && (i < |out| <==> from + i < |lines| && (limit.Some? ==> i < limit.value))
      && (i < |out| ==> out[i] == lines[from + i])
  {
  }

  /** What a patch answers and does. */
  lemma PatchReplyIs(s: State, path: string, search: string, with: string, fails: bool, env: Env)
    ensures var out := Did(s, Patch(path, search, with, fails), env);
      if env.resolve(path).None? then out == Answer(s, Denied(EscapesWorkspace))
      else
        var rel := env.resolve(path).value;
        if !Free(s, rel, env) then
          out.state == s && out.reply.Denied? && RefusedFor(s, rel, env, out.reply.reason)
        else if rel !in s.files then out == Answer(s, Denied(NotFound))
        else
          var text := Universal(s.files[rel]);
          var count := CountOf(text, search);
          if count != 1 then out == Answer(s, Denied(NotUnique(count)))
          else if fails then out == Answer(s, Denied(SystemError))
          else out == Answer(s.(files := s.files[rel := ReplaceFirst(text, search, with)]), Saved)
  {
    hide IsTest, Universal, CountOf, ReplaceFirst;
  }
}
