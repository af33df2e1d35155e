/** Removing the sections of a unified diff that concern secret-bearing files. Which paths are
    sensitive is an arbitrary predicate here. */
module DiffFilter {
  import opened Lines
  import opened Text

  const HEADER := "diff --git "

  // ---------------------------------------------------------------- what a line says

  predicate IsHeader(line: string) {
    StartsWith(line, HEADER)
  }

  function RemovePrefix(s: string, prefix: string): string {
    if StartsWith(s, prefix) then s[|prefix|..] else s
  }

  function StripQuotesLeft(s: string): string {
    if s != "" && s[0] == '"' then StripQuotesLeft(s[1..]) else s
  }

  function StripQuotes(s: string): string {
    var t := StripQuotesLeft(s);
    StripQuotesRight(t)
  }

  function StripQuotesRight(s: string): string {
    if s != "" && s[|s| - 1] == '"' then StripQuotesRight(s[..|s| - 1]) else s
  }

  /** Where `part` first occurs, or the length of `s`. */
  function Find(s: string, part: string): (k: nat)
    ensures k <= |s|
    ensures k < |s| ==> StartsWith(s[k..], part)
  {
    if s == "" || StartsWith(s, part) then 0 else 1 + Find(s[1..], part)
  }

  predicate HeaderSensitive(line: string, sensitive: string -> bool)
    requires IsHeader(line)
  {
    var header := Strip(line[|HEADER|..]);
    var k := Find(header, " b/");
    var right := if k < |header| then StripQuotes(header[k + 3..]) else "";
    sensitive(StripQuotes(RemovePrefix(header[..k], "a/"))) || sensitive(right)
  }

  predicate MarkerSensitive(line: string, sensitive: string -> bool) {
    && (StartsWith(line, "--- ") || StartsWith(line, "+++ "))
    && var path := RemovePrefix(RemovePrefix(StripQuotes(Strip(line[4..])), "a/"), "b/");
       path != "/dev/null" && sensitive(path)
  }

  // ---------------------------------------------------------------- sections

  /** The length of the first section: up to the next header line. */
  function SectionEnd(lines: seq<string>): (n: nat)
    requires lines != []
    ensures 0 < n <= |lines|
    ensures n < |lines| ==> IsHeader(lines[n])
    ensures forall i :: 0 < i < n ==> !IsHeader(lines[i])
  {
    if |lines| == 1 || IsHeader(lines[1]) then 1 else 1 + SectionEnd(lines[1..])
  }

  function Sections(lines: seq<string>): seq<seq<string>> {
    if lines == [] then [] else [lines[..SectionEnd(lines)]] + Sections(lines[SectionEnd(lines)..])
  }

  predicate SectionSensitive(section: seq<string>, sensitive: string -> bool) {
    || (section != [] && IsHeader(section[0]) && HeaderSensitive(section[0], sensitive))
    || exists line :: line in section && !IsHeader(line) && MarkerSensitive(line, sensitive)
  }

  function Kept(sections: seq<seq<string>>, sensitive: string -> bool): seq<seq<string>> {
    if sections == [] then []
    else (if SectionSensitive(sections[0], sensitive) then [] else [sections[0]]) + Kept(sections[1..], sensitive)
  }

  function Flatten(sections: seq<seq<string>>): seq<string> {
    if sections == [] then [] else sections[0] + Flatten(sections[1..])
  }

  /** Split at headers, drop the sensitive sections, put the rest together again. */
  function FilteredLines(lines: seq<string>, sensitive: string -> bool): seq<string> {
    Flatten(Kept(Sections(lines), sensitive))
  }

  function Filtered(text: string, sensitive: string -> bool): string {
    Concat(FilteredLines(SplitLines(text), sensitive))
  }

  // ---------------------------------------------------------------- one pass

  /** A section cannot stop before its next header. */
  lemma {:induction false} SectionOf(current: seq<string>, rest: seq<string>)
    requires current != [] && forall i :: 0 < i < |current| ==> !IsHeader(current[i])
    requires rest != [] ==> IsHeader(rest[0])
    ensures SectionEnd(current + rest) == |current|
  {
    if |current| == 1 {
      if rest != [] {
        assert (current + rest)[1] == rest[0];
      }
    } else {
      assert (current + rest)[1] == current[1];
      assert (current + rest)[1..] == current[1..] + rest;
      SectionOf(current[1..], rest);
    }
  }

  /** What the rest of the lines contributes when `current` is the section so far. */
  lemma FlushSection(current: seq<string>, rest: seq<string>, sensitive: string -> bool)
    requires forall i :: 0 < i < |current| ==> !IsHeader(current[i])
    requires rest != [] ==> IsHeader(rest[0])
    ensures FilteredLines(current + rest, sensitive)
         == (if SectionSensitive(current, sensitive) then [] else current) + FilteredLines(rest, sensitive)
  {
    if current == [] {
      assert current + rest == rest;
      assert !SectionSensitive(current, sensitive);
    } else {
      SectionOf(current, rest);
      var all := current + rest;
      assert all[..|current|] == current && all[|current|..] == rest;
      assert Sections(all)[1..] == Sections(rest);
      if !SectionSensitive(current, sensitive) {
        assert Kept(Sections(all), sensitive)[0] == current;
        assert Kept(Sections(all), sensitive)[1..] == Kept(Sections(rest), sensitive);
      } else {
        assert Kept(Sections(all), sensitive) == Kept(Sections(rest), sensitive);
      }
    }
  }

  /** At a header the section so far is flushed, and a new one begins. */
  lemma HeaderStep(sections: seq<string>, current: seq<string>, rest: seq<string>, sensitive: string -> bool)
    requires forall i :: 0 < i < |current| ==> !IsHeader(current[i])
    requires rest != [] ==> IsHeader(rest[0])
    ensures sections + FilteredLines(current + rest, sensitive)
         == (if current != [] && !SectionSensitive(current, sensitive) then sections + current else sections)
            + FilteredLines(rest, sensitive)
  {
    hide FilteredLines, SectionSensitive;
    FlushSection(current, rest, sensitive);
    var tail := FilteredLines(rest, sensitive);
    assert sections + (current + tail) == (sections + current) + tail;
    assert current == [] ==> current + tail == tail;
    assert [] + tail == tail;
  }

  lemma NewSection(line: string, sensitive: string -> bool)
    requires IsHeader(line)
    ensures SectionSensitive([line], sensitive) <==> HeaderSensitive(line, sensitive)
    ensures !SectionSensitive([], sensitive)
  {
    hide HeaderSensitive, MarkerSensitive, IsHeader;
    assert forall l :: l in [line] <==> l == line;
  }

  lemma NoSection(sensitive: string -> bool)
    ensures !SectionSensitive([], sensitive)
  {
  }

  lemma Shift(lines: seq<string>, i: nat, current: seq<string>)
    requires i < |lines|
    ensures lines[i..] == [lines[i]] + lines[i + 1..]
    ensures current + lines[i..] == (current + [lines[i]]) + lines[i + 1..]
  {
  }

  method FilterSensitiveDiff(text: string, sensitive: string -> bool) returns (out: string)
    ensures out == Filtered(text, sensitive)
  {
    hide FilteredLines, HeaderSensitive, MarkerSensitive, SectionSensitive, IsHeader, Concat, SplitLines;
    var lines := SplitLines(text);
    var sections: seq<string>, current: seq<string> := [], [];
    var currentSensitive := false;
    NoSection(sensitive);
    assert lines[0..] == lines && [] + lines == lines;
    assert [] + FilteredLines(lines, sensitive) == FilteredLines(lines, sensitive);
    for i := 0 to |lines|
      invariant forall k :: 0 < k < |current| ==> !IsHeader(current[k])
      invariant currentSensitive == SectionSensitive(current, sensitive)
      invariant FilteredLines(lines, sensitive) == sections + FilteredLines(current + lines[i..], sensitive)
    {
      var line := lines[i];
      Shift(lines, i, current);
      if IsHeader(line) {
        HeaderStep(sections, current, lines[i..], sensitive);
        if current != [] && !currentSensitive {
          sections := sections + current;
        }
        current := [line];
        currentSensitive := HeaderSensitive(line, sensitive);
        NewSection(line, sensitive);
      } else {
        ExtendSection(current, line, sensitive);
        current := current + [line];
        if MarkerSensitive(line, sensitive) {
          currentSensitive := true;
        }
      }
    }
    assert lines[|lines|..] == [];
    HeaderStep(sections, current, [], sensitive);
    NothingFiltered(sensitive);
    if current != [] && !currentSensitive {
      sections := sections + current;
    }
    assert sections + [] == sections;
    out := Concat(sections);
  }

  lemma NothingFiltered(sensitive: string -> bool)
    ensures FilteredLines([], sensitive) == []
  {
  }

  lemma ExtendSection(current: seq<string>, line: string, sensitive: string -> bool)
    requires !IsHeader(line)
    ensures SectionSensitive(current + [line], sensitive) <==>
            SectionSensitive(current, sensitive) || MarkerSensitive(line, sensitive)
  {
    hide HeaderSensitive, MarkerSensitive, IsHeader;
    var longer := current + [line];
    assert forall l :: l in longer <==> l in current || l == line;
    assert longer[0] == if current == [] then line else current[0];
  }

  // ---------------------------------------------------------------- filtering twice

  lemma {:induction false} KeptTwice(sections: seq<seq<string>>, sensitive: string -> bool)
    ensures Kept(Kept(sections, sensitive), sensitive) == Kept(sections, sensitive)
  {
    if sections != [] {
      KeptTwice(sections[1..], sensitive);
      if !SectionSensitive(sections[0], sensitive) {
        assert Kept(sections, sensitive)[1..] == Kept(sections[1..], sensitive);
      } else {
        assert [] + Kept(sections[1..], sensitive) == Kept(sections[1..], sensitive);
      }
    }
  }

  /** Non-empty sections, each but the first starting with a header and having no other. */
  ghost predicate Sectioned(sections: seq<seq<string>>) {
    && (forall k :: 0 <= k < |sections| ==> sections[k] != [])
    && (forall k :: 0 < k < |sections| ==> IsHeader(sections[k][0]))
    && (forall k, i :: 0 <= k < |sections| && 0 < i < |sections[k]| ==> !IsHeader(sections[k][i]))
  }

  lemma SectionedCons(first: seq<string>, rest: seq<seq<string>>)
    requires Sectioned(rest) && first != [] && forall i :: 0 < i < |first| ==> !IsHeader(first[i])
    requires rest != [] ==> rest[0] != [] && IsHeader(rest[0][0])
    ensures Sectioned([first] + rest)
  {
    hide IsHeader;
    var all := [first] + rest;
    assert forall k :: 0 < k < |all| ==> all[k] == rest[k - 1];
  }

  lemma SectionsCons(lines: seq<string>)
    requires lines != []
    ensures var n := SectionEnd(lines);
      && Sections(lines) == [lines[..n]] + Sections(lines[n..])
      && Flatten(Sections(lines)) == lines[..n] + Flatten(Sections(lines[n..]))
      && lines[..n] + lines[n..] == lines
  {
    hide SectionEnd, IsHeader;
    var n := SectionEnd(lines);
    assert ([lines[..n]] + Sections(lines[n..]))[1..] == Sections(lines[n..]);
  }

  lemma {:induction false} SectionsAreSectioned(lines: seq<string>)
    ensures Sectioned(Sections(lines)) && Flatten(Sections(lines)) == lines
    ensures lines != [] ==> Sections(lines) != [] && Sections(lines)[0] != [] && Sections(lines)[0][0] == lines[0]
    decreases |lines|
  {
    if lines != [] {
      var n := SectionEnd(lines);
      hide IsHeader, Sectioned, Sections, Flatten, SectionEnd;
      SectionsCons(lines);
      SectionsAreSectioned(lines[n..]);
      HasFirst(lines[n..]);
      SectionedCons(lines[..n], Sections(lines[n..]));
    } else {
      NoSectionsSectioned();
    }
  }

  lemma HasFirst(lines: seq<string>)
    ensures Sections(lines) != [] <==> lines != []
    ensures lines != [] ==> Sections(lines)[0] != []
  {
  }

  lemma NoSectionsSectioned()
    ensures Sectioned([])
  {
  }

  lemma {:induction false} SectionsOfFlat(sections: seq<seq<string>>)
    requires Sectioned(sections)
    ensures Sections(Flatten(sections)) == sections
  {
    if sections != [] {
      var rest := Flatten(sections[1..]);
      SectionsOfFlat(sections[1..]);
      if |sections| > 1 {
        assert rest[0] == sections[1][0];
      }
      SectionOf(sections[0], rest);
      assert (sections[0] + rest)[..|sections[0]|] == sections[0] && (sections[0] + rest)[|sections[0]|..] == rest;
    }
  }

  lemma {:induction false} KeptIsSectioned(sections: seq<seq<string>>, sensitive: string -> bool)
    requires Sectioned(sections)
    ensures Sectioned(Kept(sections, sensitive))
    ensures forall s :: s in Kept(sections, sensitive) ==> s in sections
  {
    hide SectionSensitive, Sectioned, IsHeader;
    if sections == [] {
      NoSections();
    } else {
      var tail := sections[1..];
      var rest := Kept(tail, sensitive);
      TailIsSectioned(sections);
      KeptIsSectioned(tail, sensitive);
      if SectionSensitive(sections[0], sensitive) {
        assert Kept(sections, sensitive) == rest;
      } else {
        assert Kept(sections, sensitive) == [sections[0]] + rest;
        PutInFront(sections, rest);
      }
    }
  }

  lemma NoSections()
    ensures Sectioned([])
  {
  }

  lemma TailIsSectioned(sections: seq<seq<string>>)
    requires Sectioned(sections) && sections != []
    ensures Sectioned(sections[1..])
  {
    hide IsHeader;
    var tail := sections[1..];
    assert forall k :: 0 <= k < |tail| ==> tail[k] == sections[k + 1];
  }

  lemma PutInFront(sections: seq<seq<string>>, rest: seq<seq<string>>)
    requires Sectioned(sections) && sections != [] && Sectioned(rest)
    requires forall s :: s in rest ==> s in sections[1..]
    ensures Sectioned([sections[0]] + rest)
  {
    hide IsHeader;
    var out := [sections[0]] + rest;
    assert forall k :: 0 < k < |out| ==> out[k] == rest[k - 1];
    forall k | 0 <= k < |rest| ensures rest[k] != [] && IsHeader(rest[k][0]) {
      assert rest[k] in sections[1..];
      var i :| 0 <= i < |sections| - 1 && sections[1..][i] == rest[k];
      assert sections[i + 1] == rest[k];
    }
    forall k, i | 0 <= k < |out| && 0 < i < |out[k]| ensures !IsHeader(out[k][i]) {
      if k > 0 {
        assert !IsHeader(rest[k - 1][i]);
      }
    }
  }

  // ---------------------------------------------------------------- text level

  /** Replacing what follows some lines by text that starts with a header keeps them well split. */
  lemma {:induction false} WellAfterSwap(section: seq<string>, rest: seq<string>, other: seq<string>)
    requires WellSplit(section + rest) && WellSplit(other)
    requires other != [] ==> rest != [] && IsHeader(other[0])
    ensures WellSplit(section + other)
  {
    if section == [] {
      assert section + other == other;
    } else {
      var line := section[0];
      assert (section + rest)[1..] == section[1..] + rest && (section + other)[1..] == section[1..] + other;
      WellAfterSwap(section[1..], rest, other);
      var before, after := section[1..] + rest, section[1..] + other;
      if after != [] {
        FirstChar(after);
        assert before != [] && before[0] != "";
        FirstChar(before);
        if section[1..] == [] {
          assert after[0] == other[0] && other[0][0] == 'd' by {
            assert other[0][..|HEADER|][0] == HEADER[0];
          }
        } else {
          assert after[0] == before[0] == section[1];
        }
      }
      LineEndSwap(line, Concat(before), Concat(after));
    }
  }

  lemma {:induction false} WellDrop(a: seq<string>, b: seq<string>)
    requires WellSplit(a + b)
    ensures WellSplit(b)
  {
    if a == [] {
      assert a + b == b;
    } else {
      assert (a + b)[1..] == a[1..] + b;
      WellDrop(a[1..], b);
    }
  }

  lemma {:induction false} KeptIsWell(sections: seq<seq<string>>, sensitive: string -> bool)
    requires Sectioned(sections) && WellSplit(Flatten(sections))
    ensures WellSplit(Flatten(Kept(sections, sensitive)))
  {
    hide SectionSensitive, WellSplit, IsHeader;
    if sections == [] {
    } else {
      var section, rest := sections[0], Flatten(sections[1..]);
      var kept := Kept(sections[1..], sensitive);
      WellDrop(section, rest);
      KeptIsWell(sections[1..], sensitive);
      if SectionSensitive(section, sensitive) {
        assert Kept(sections, sensitive) == kept;
      } else {
        assert Kept(sections, sensitive)[0] == section && Kept(sections, sensitive)[1..] == kept;
        KeptStarts(sections, sensitive);
        WellAfterSwap(section, rest, Flatten(kept));
      }
    }
  }

  lemma KeptStarts(sections: seq<seq<string>>, sensitive: string -> bool)
    requires Sectioned(sections) && sections != []
    ensures var kept := Flatten(Kept(sections[1..], sensitive));
      kept != [] ==> Flatten(sections[1..]) != [] && IsHeader(kept[0])
  {
    hide SectionSensitive, IsHeader;
    var tail := sections[1..];
    KeptIsSectioned(tail, sensitive);
    var kept := Kept(tail, sensitive);
    if kept != [] {
      assert kept[0] in tail;
      var i :| 0 <= i < |tail| && tail[i] == kept[0];
      assert sections[i + 1] == kept[0];
      assert tail[0] == sections[1];
    }
  }

  /** The filter keeps every line of every section that is not sensitive, in order, and nothing else;
      filtering what it returned changes nothing. */
  lemma FilterTwice(text: string, sensitive: string -> bool)
    ensures Filtered(Filtered(text, sensitive), sensitive) == Filtered(text, sensitive)
    ensures SplitLines(Filtered(text, sensitive)) == FilteredLines(SplitLines(text), sensitive)
    ensures Sections(SplitLines(Filtered(text, sensitive))) == Kept(Sections(SplitLines(text)), sensitive)
  {
    hide SectionSensitive, WellSplit, Sectioned;
    var lines := SplitLines(text);
    SplitIsWell(text);
    SectionsAreSectioned(lines);
    var sections := Sections(lines);
    KeptIsWell(sections, sensitive);
    WellIsSplit(FilteredLines(lines, sensitive));
    KeptIsSectioned(sections, sensitive);
    SectionsOfFlat(Kept(sections, sensitive));
    KeptTwice(sections, sensitive);
  }

  /** No line that names a sensitive path gets through. */
  lemma NothingSensitiveLeft(text: string, sensitive: string -> bool, section: seq<string>)
    requires section in Sections(SplitLines(Filtered(text, sensitive)))
    ensures !SectionSensitive(section, sensitive)
    ensures section in Sections(SplitLines(text))
  {
    FilterTwice(text, sensitive);
    KeptIff(Sections(SplitLines(text)), sensitive, section);
  }

  lemma {:induction false} KeptIff(sections: seq<seq<string>>, sensitive: string -> bool, section: seq<string>)
    ensures section in Kept(sections, sensitive) <==> section in sections && !SectionSensitive(section, sensitive)
  {
    hide SectionSensitive;
    if sections != [] {
      KeptIff(sections[1..], sensitive, section);
    }
  }

  // ---------------------------------------------------------------- headers and markers as git writes them

  /** A path that git would not quote and that cannot be mistaken for the separator of a header. */
  ghost predicate Plain(path: string) {
    && path != "" && path[0] != '"' && path[|path| - 1] != '"'
    && !IsSpace(path[0]) && !IsSpace(path[|path| - 1])
    && forall i :: 0 <= i <= |path| ==> !StartsWith(path[i..], " b/")
  }

  ghost predicate Ending(s: string) {
    forall i :: 0 <= i < |s| ==> IsSpace(s[i])
  }

  lemma {:induction false} StripRightEnding(s: string, ending: string)
    requires s != "" && !IsSpace(s[|s| - 1]) && Ending(ending)
    ensures StripRight(s + ending) == s
  {
    if ending == "" {
      assert s + ending == s;
    } else {
      var front := ending[..|ending| - 1];
      assert (s + ending)[..|s + ending| - 1] == s + front;
      StripRightEnding(s, front);
    }
  }

  lemma StripEnding(s: string, ending: string)
    requires s != "" && !IsSpace(s[0]) && !IsSpace(s[|s| - 1]) && Ending(ending)
    ensures Strip(s + ending) == s
  {
    assert (s + ending)[0] == s[0];
    StripRightEnding(s, ending);
  }

  lemma {:induction false} FindSeparator(left: string, right: string)
    requires forall i :: 0 <= i <= |left| ==> !StartsWith(left[i..], " b/")
    ensures Find(left + " b/" + right, " b/") == |left|
  {
    var all := left + " b/" + right;
    if left == "" {
      assert all[..3] == " b/";
    } else {
      assert left[0..] == left;
      NoEarlier(left, right);
      assert all[1..] == left[1..] + " b/" + right;
      forall i | 0 <= i <= |left[1..]| ensures !StartsWith(left[1..][i..], " b/") {
        assert left[1..][i..] == left[i + 1..];
      }
      FindSeparator(left[1..], right);
    }
  }

  /** The separator cannot straddle the end of the left side. */
  lemma NoEarlier(left: string, right: string)
    requires left != "" && !StartsWith(left, " b/")
    ensures !StartsWith(left + " b/" + right, " b/")
  {
    var all := left + " b/" + right;
    assert all[..3][1] == all[1] && all[..3][2] == all[2];
    assert " b/"[1] == 'b' && " b/"[2] == '/';
    if |left| == 1 {
      assert all[1] == ' ';
    } else if |left| == 2 {
      assert all[2] == ' ';
    } else {
      assert left[..3] == all[..3];
    }
  }

  lemma {:induction false} PlainQuotes(path: string)
    requires path != "" && path[0] != '"' && path[|path| - 1] != '"'
    ensures StripQuotes(path) == path
  {
  }

  lemma PlainBehind(prefix: string, path: string)
    requires Plain(path) && prefix == "a/"
    ensures forall i :: 0 <= i <= |prefix + path| ==> !StartsWith((prefix + path)[i..], " b/")
  {
    var all := prefix + path;
    forall i | 0 <= i <= |all| ensures !StartsWith(all[i..], " b/") {
      if i >= 2 {
        assert all[i..] == path[i - 2..];
      } else {
        assert |all| > i && all[i..][0] == all[i];
      }
    }
  }

  /** A header that names plain paths is sensitive if and only if one of them is, on either side. */
  lemma HeaderSensitiveIff(left: string, right: string, ending: string, sensitive: string -> bool)
    requires Plain(left) && Plain(right) && Ending(ending)
    ensures var line := "diff --git a/" + left + " b/" + right + ending;
      IsHeader(line) && (HeaderSensitive(line, sensitive) <==> sensitive(left) || sensitive(right))
  {
    var line := "diff --git a/" + left + " b/" + right + ending;
    var names := "a/" + left + " b/" + right;
    assert line[..|HEADER|] == HEADER && line[|HEADER|..] == names + ending;
    assert names[0] == 'a' && names[|names| - 1] == right[|right| - 1];
    StripEnding(names, ending);
    PlainBehind("a/", left);
    assert names == ("a/" + left) + " b/" + right;
    FindSeparator("a/" + left, right);
    var k := |"a/" + left|;
    assert names[..k] == "a/" + left && names[k + 3..] == right;
    assert ("a/" + left)[..2] == "a/" && ("a/" + left)[2..] == left;
    PlainQuotes(left);
    PlainQuotes(right);
  }

  /** A marker line that names a plain path is sensitive if and only if the path is. */
  lemma MarkerSensitiveIff(removed: bool, path: string, ending: string, sensitive: string -> bool)
    requires Plain(path) && Ending(ending) && (removed ==> !StartsWith(path, "b/"))
    ensures var line := (if removed then "--- a/" else "+++ b/") + path + ending;
      !IsHeader(line) && (MarkerSensitive(line, sensitive) <==> path != "/dev/null" && sensitive(path))
  {
    var side := if removed then "a/" else "b/";
    var line := (if removed then "--- a/" else "+++ b/") + path + ending;
    var name := side + path;
    assert line[..4] == (if removed then "--- " else "+++ ") && line[4..] == name + ending;
    NotAHeader(line);
    StripEnding(name, ending);
    PlainQuotes(name);
    SideRemoved(side, path);
  }

  /** A marker line in quotes, as git writes special characters, is understood too. */
  lemma QuotedMarkerIff(path: string, ending: string, sensitive: string -> bool)
    requires Plain(path) && Ending(ending)
    ensures var line := "+++ \"b/" + path + "\"" + ending;
      !IsHeader(line) && (MarkerSensitive(line, sensitive) <==> path != "/dev/null" && sensitive(path))
  {
    var line := "+++ \"b/" + path + "\"" + ending;
    var name := "b/" + path;
    var quoted := "\"" + name + "\"";
    assert line[..4] == "+++ " && line[4..] == quoted + ending;
    NotAHeader(line);
    StripEnding(quoted, ending);
    QuotesStripped(name);
    SideRemoved("b/", path);
  }

  lemma QuotesStripped(name: string)
    requires name != "" && name[0] != '"' && name[|name| - 1] != '"'
    ensures StripQuotes("\"" + name + "\"") == name
  {
    var quoted := "\"" + name + "\"";
    assert quoted[0] == '"' && quoted[1..] == name + "\"";
    assert (name + "\"")[0] == name[0];
    assert StripQuotesLeft(quoted) == StripQuotesLeft(name + "\"") == name + "\"";
    assert (name + "\"")[..|name|] == name;
    assert StripQuotesRight(name + "\"") == StripQuotesRight(name);
  }

  lemma NotAHeader(line: string)
    requires line != "" && line[0] != 'd'
    ensures !IsHeader(line)
  {
    assert HEADER[0] == 'd';
    assert |HEADER| <= |line| ==> line[..|HEADER|][0] == line[0];
  }

  lemma SideRemoved(side: string, path: string)
    requires side == "a/" || side == "b/"
    requires side == "a/" ==> !StartsWith(path, "b/")
    ensures RemovePrefix(RemovePrefix(side + path, "a/"), "b/") == path
  {
    var name := side + path;
    assert name[..2] == side && name[2..] == path;
    assert "a/"[0] != "b/"[0];
  }

  /** A section whose header names two plain paths, and that has no marker lines, as for a mode change, stays if
      and only if neither path is sensitive. */
  lemma SectionStaysIff(text: string, sensitive: string -> bool, section: seq<string>, left: string, right: string,
                        ending: string)
    requires Plain(left) && Plain(right) && Ending(ending)
    requires section in Sections(SplitLines(text)) && section != []
    requires section[0] == "diff --git a/" + left + " b/" + right + ending
    requires forall line :: line in section ==> !StartsWith(line, "--- ") && !StartsWith(line, "+++ ")
    ensures section in Sections(SplitLines(Filtered(text, sensitive))) <==> !sensitive(left) && !sensitive(right)
  {
    hide HeaderSensitive, IsHeader, Filtered, Sections, Plain, Ending;
    HeaderSensitiveIff(left, right, ending, sensitive);
    FilterTwice(text, sensitive);
    KeptIff(Sections(SplitLines(text)), sensitive, section);
  }

  /** No section that stays names a sensitive plain path, on either side of its header or on a marker line. */
  lemma NoSensitiveNameStays(text: string, sensitive: string -> bool, section: seq<string>, path: string, other: string,
                             ending: string)
    requires Plain(path) && Plain(other) && Ending(ending) && sensitive(path) && path != "/dev/null"
    requires section in Sections(SplitLines(Filtered(text, sensitive))) && section != []
    ensures section[0] != "diff --git a/" + path + " b/" + other + ending
    ensures section[0] != "diff --git a/" + other + " b/" + path + ending
    ensures "+++ b/" + path + ending !in section
    ensures !StartsWith(path, "b/") ==> "--- a/" + path + ending !in section
  {
    hide HeaderSensitive, MarkerSensitive, IsHeader, Filtered, Sections, Plain, Ending, StartsWith;
    NothingSensitiveLeft(text, sensitive, section);
    HeaderSensitiveIff(path, other, ending, sensitive);
    HeaderSensitiveIff(other, path, ending, sensitive);
    MarkerSensitiveIff(false, path, ending, sensitive);
    if !StartsWith(path, "b/") {
      MarkerSensitiveIff(true, path, ending, sensitive);
    }
  }
}
