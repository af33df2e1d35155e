/** What patches and reads do to the text of a file. */
module FileTextLaws {
  import opened JsonValues
  import opened Lines
  import opened Text
  import opened FilePolicy

  lemma CountZeroIff(s: string, part: string)
    requires part != ""
    ensures CountOf(s, part) == 0 <==> Find(s, part).None?
  {
  }

  /** A patch goes through exactly when the search string occurs in the text as it is read and does not
      occur again behind its first occurrence; then it replaces just that. */
  lemma PatchReplacesTheOnlyMatch(text: string, part: string, with: string)
    requires part != ""
    ensures CountOf(text, part) == 1 <==>
      Find(text, part).Some? && Find(text[Find(text, part).value + |part|..], part).None?
    ensures CountOf(text, part) == 1 ==>
      var k := Find(text, part).value;
      && text == text[..k] + part + text[k + |part|..]
      && ReplaceFirst(text, part, with) == text[..k] + with + text[k + |part|..]
  {
    if Find(text, part).Some? {
      var k := Find(text, part).value;
      CountZeroIff(text[k + |part|..], part);
      SplitAround(text, k, part);
    }
  }

  lemma SplitAround(s: string, k: nat, part: string)
    requires k + |part| <= |s| && s[k..][..|part|] == part
    ensures s == s[..k] + part + s[k + |part|..]
  {
    assert s[k..] == s[k..][..|part|] + s[k + |part|..];
    assert s == s[..k] + s[k..];
  }

  /** Reading a file in consecutive windows gives its lines without gap or overlap; reading it whole gives
      its text with line endings translated, which is the file exactly when it has no carriage return. */
  lemma WindowsTile(file: string, offset: nat, n: nat)
    requires offset >= 1
    ensures var lines := SplitLines(Universal(file));
      && Selected(lines, offset, Some(n)) + Selected(lines, offset + n, None) == Selected(lines, offset, None)
      && Concat(Selected(lines, 1, None)) == Universal(file)
      && (Concat(Selected(lines, 1, None)) == file <==> '\r' !in file)
  {
    hide Universal, SplitLines, Concat, WellSplit;
    UniversalIsIdentityIff(file);
    SplitIsWell(Universal(file));
    var lines := SplitLines(Universal(file));
    assert lines[0..|lines|] == lines;
  }

  // ---------------------------------------------------------------- line endings

  /** What an accepted write or patch puts into the file. */
  function Stored(s: State, op: Op, rel: string): string {
    match op
    case Write(_, content, _, _) => content
    case Patch(_, search, with, _) =>
      if rel in s.files then ReplaceFirst(Universal(s.files[rel]), search, with) else ""
    case Read(_, _, _, _) => ""
  }

  /** The next whole read gives what was written, or what the patch made, if and only if it has no carriage
      return; otherwise it gives it with line endings translated. */
  lemma ReadAfterWriteIff(s: State, op: Op, env: Env, rel: string)
    requires !op.Read? && Did(s, op, env).reply == Saved && env.resolve(op.path) == Some(rel)
    ensures var t := Did(s, op, env).state; var again := Did(t, Read(op.path, 1, None, false), env).reply;
      && again.Content? && again.text == Universal(Stored(s, op, rel))
      && (again.text == Stored(s, op, rel) <==> '\r' !in Stored(s, op, rel))
  {
    hide ReplaceFirst, CountOf, IsTest, Universal;
    var t := Did(s, op, env).state;
    assert t.files[rel] == Stored(s, op, rel);
    WindowsTile(t.files[rel], 1, 0);
  }

  /** What an accepted patch of a file does to the text as it is read. */
  lemma PatchSplits(s: State, op: Op, env: Env, rel: string) returns (x: string, y: string)
    requires op.Patch? && Did(s, op, env).reply == Saved && env.resolve(op.path) == Some(rel)
    ensures rel in s.files && Universal(s.files[rel]) == x + op.search + y
    ensures Did(s, op, env).state.files[rel] == x + op.with + y
  {
    hide Universal, IsTest;
    var text := Universal(s.files[rel]);
    assert CountOf(text, op.search) == 1;
    assert op.search == "" ==> text == "";
    var k := Find(text, op.search).value;
    SplitAround(text, k, op.search);
    x, y := text[..k], text[k + |op.search|..];
  }

  lemma ReturnsAdd(a: string, b: string, c: string)
    ensures multiset(a + b + c)['\r'] == multiset(a)['\r'] + multiset(b)['\r'] + multiset(c)['\r']
  {
  }

  /** One stretch of the file, holding the search string, was exchanged, and nothing else. */
  ghost predicate OnlyReplaced(before: string, search: string, with: string, after: string) {
    exists a, b :: before == a + search + b && after == a + with + b
  }

  /** An accepted patch changes nothing outside its match if and only if the file has no carriage return:
      the others lose theirs. */
  lemma PatchTouchesOnlyItsMatchIff(s: State, op: Op, env: Env, rel: string)
    requires op.Patch? && Did(s, op, env).reply == Saved && env.resolve(op.path) == Some(rel)
    ensures rel in s.files
    ensures OnlyReplaced(s.files[rel], op.search, op.with, Did(s, op, env).state.files[rel]) <==>
      '\r' !in s.files[rel]
  {
    var x, y := PatchSplits(s, op, env, rel);
    var before, after := s.files[rel], Did(s, op, env).state.files[rel];
    hide Universal, Did, OnlyReplaced;
    UniversalIsIdentityIff(before);
    ReplacedIff(before, x, op.search, op.with, y);
  }

  lemma ReplacedIff(before: string, x: string, search: string, with: string, y: string)
    requires '\r' !in x + search + y && ('\r' !in before ==> before == x + search + y)
    ensures OnlyReplaced(before, search, with, x + with + y) <==> '\r' !in before
  {
    ReturnsAdd(x, search, y);
    ReturnsAdd(x, with, y);
    if OnlyReplaced(before, search, with, x + with + y) {
      var a, b :| before == a + search + b && x + with + y == a + with + b;
      ReturnsAdd(a, search, b);
      ReturnsAdd(a, with, b);
    }
  }

  lemma FoundInside(text: string, part: string)
    requires Find(text, part).Some?
    ensures forall c :: c in part ==> c in text
  {
    var k := Find(text, part).value;
    SplitAround(text, k, part);
  }

  /** A search string with a carriage return is never found, wherever it was copied from. */
  lemma ReturnsAreNeverFound(file: string, part: string)
    requires '\r' in part
    ensures CountOf(Universal(file), part) == 0
  {
    if Find(Universal(file), part).Some? {
      FoundInside(Universal(file), part);
    }
  }

  /** Written with CR LF, read back with LF; and a patch of the first line rewrites the line ending. */
  lemma LineEndingsChange(s: State, path: string, env: Env, rel: string)
    requires Did(s, Write(path, "x\r\ny", true, false), env).reply == Saved && env.resolve(path) == Some(rel)
    ensures var t := Did(s, Write(path, "x\r\ny", true, false), env).state;
      && Did(t, Read(path, 1, None, false), env).reply.Content?
      && Did(t, Read(path, 1, None, false), env).reply.text == "x\ny"
      && Did(t, Patch(path, "x", "z", false), env).state.files[rel] == "z\ny"
  {
    hide Universal, CountOf, ReplaceFirst, IsTest, SplitLines, Concat, Selected;
    SampleText();
    var write := Write(path, "x\r\ny", true, false);
    ReadAfterWriteIff(s, write, env, rel);
    StillAllowed(s, write, Patch(path, "x", "z", false), env, rel);
  }

  /** After an accepted write the same file can be patched, if its text has one match. */
  lemma StillAllowed(s: State, write: Op, patch: Op, env: Env, rel: string)
    requires write.Write? && patch.Patch? && !patch.fails && write.path == patch.path
    requires Did(s, write, env).reply == Saved && env.resolve(write.path) == Some(rel)
    requires CountOf(Universal(write.content), patch.search) == 1
    ensures Did(Did(s, write, env).state, patch, env).state.files
      == s.files[rel := ReplaceFirst(Universal(write.content), patch.search, patch.with)]
  {
    hide Universal, CountOf, ReplaceFirst, IsTest, SplitLines;
    var t := Did(s, write, env).state;
    assert t.files[rel] == write.content && Refusal(t, rel, env) == None;
  }

  lemma SampleText()
    ensures Universal("x\r\ny") == "x\ny"
    ensures CountOf("x\ny", "x") == 1 && ReplaceFirst("x\ny", "x", "z") == "z\ny"
  {
    assert "x\r\ny"[1..] == "\r\ny" && "\r\ny"[2..] == "y" && "y"[1..] == "";
    assert Universal("\r\ny") == "\ny";
    assert StartsWith("x\ny", "x") && Find("x\ny", "x") == Some(0);
    assert "x\ny"[1..] == "\ny" && "\ny"[1..] == "y";
    assert Find("", "x") == None && Find("y", "x") == None && Find("\ny", "x") == None;
    assert "x\ny"[..0] == "";
  }
}
