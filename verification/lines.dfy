/** Splitting text into lines the way Python does, line breaks included. */
module Lines {

  /** The characters after which `str.splitlines` ends a line. */
  predicate IsBreak(c: char) {
    '\n' <= c <= '\r' || '\U{1C}' <= c <= '\U{1E}' || c == '\U{85}' || c == '\U{2028}' || c == '\U{2029}'
  }

  /** The length of the first line with its line break. */
  function LineEnd(s: string): (n: nat)
    requires s != ""
    ensures 0 < n <= |s|
  {
    if IsBreak(s[0]) then (if s[0] == '\r' && |s| > 1 && s[1] == '\n' then 2 else 1)
    else if |s| == 1 then 1
    else 1 + LineEnd(s[1..])
  }

  /** `s.splitlines(keepends=True)` */
  function SplitLines(s: string): seq<string> {
    if s == "" then [] else [s[..LineEnd(s)]] + SplitLines(s[LineEnd(s)..])
  }

  function Concat(lines: seq<string>): string {
    if lines == [] then "" else lines[0] + Concat(lines[1..])
  }

  lemma {:induction false} ConcatSplit(a: seq<string>, b: seq<string>)
    ensures Concat(a + b) == Concat(a) + Concat(b)
  {
    if a == [] {
      assert a + b == b;
    } else {
      assert (a + b)[1..] == a[1..] + b;
      ConcatSplit(a[1..], b);
    }
  }

  /** Lines as `splitlines` yields them: each ends where a line of the joined text ends. */
  ghost predicate WellSplit(lines: seq<string>) {
    lines != [] ==>
      && lines[0] != "" && LineEnd(lines[0] + Concat(lines[1..])) == |lines[0]|
      && WellSplit(lines[1..])
  }

  lemma {:induction false} SplitIsWell(s: string)
    ensures WellSplit(SplitLines(s)) && Concat(SplitLines(s)) == s
  {
    if s != "" {
      var n := LineEnd(s);
      SplitIsWell(s[n..]);
      assert s[..n] + s[n..] == s;
    }
  }

  lemma {:induction false} WellIsSplit(lines: seq<string>)
    requires WellSplit(lines)
    ensures SplitLines(Concat(lines)) == lines
  {
    if lines != [] {
      WellIsSplit(lines[1..]);
      var s := lines[0] + Concat(lines[1..]);
      assert s[..|lines[0]|] == lines[0] && s[|lines[0]|..] == Concat(lines[1..]);
    }
  }

  /** Whether a line ends there depends only on whether a line feed follows. */
  lemma {:induction false} LineEndSwap(line: string, rest: string, other: string)
    requires line != "" && LineEnd(line + rest) == |line|
    requires other != "" ==> rest != "" && (other[0] == rest[0] || other[0] != '\n')
    ensures LineEnd(line + other) == |line|
  {
    if IsBreak(line[0]) {
    } else if |line| > 1 {
      assert (line + rest)[1..] == line[1..] + rest && (line + other)[1..] == line[1..] + other;
      LineEndSwap(line[1..], rest, other);
    }
  }

  lemma FirstChar(lines: seq<string>)
    requires lines != [] && lines[0] != ""
    ensures Concat(lines) != "" && Concat(lines)[0] == lines[0][0]
  {
  }

  /** What reading a file in text mode makes of it: CR LF, and a CR on its own, become LF. */
  function Universal(s: string): (r: string)
    ensures '\r' !in r
  {
    if s == "" then ""
    else if s[0] == '\r' then "\n" + Universal(s[if |s| > 1 && s[1] == '\n' then 2 else 1..])
    else [s[0]] + Universal(s[1..])
  }

  /** Reading changes nothing exactly when there is no carriage return. */
  lemma {:induction false} UniversalIsIdentityIff(s: string)
    ensures Universal(s) == s <==> '\r' !in s
  {
    if s != "" && '\r' !in s {
      UniversalIsIdentityIff(s[1..]);
    }
  }

  // ---------------------------------------------------------------- what lines and translated texts look like

  /** Line feed, vertical tab, form feed, carriage return, the three separators, next line, and the line and
      paragraph separators. */
  predicate EndsLine(c: char) {
    c == '\n' || c == '\U{B}' || c == '\U{C}' || c == '\r' || c == '\U{1C}' || c == '\U{1D}' || c == '\U{1E}'
    || c == '\U{85}' || c == '\U{2028}' || c == '\U{2029}'
  }

  /** A line: no break inside but CR LF at its end. */
  predicate OneLine(line: string) {
    && line != ""
    && forall i :: 0 <= i < |line| - 1 && EndsLine(line[i]) ==>
         i == |line| - 2 && line[i] == '\r' && line[i + 1] == '\n'
  }

  lemma {:induction false} LineEndIs(s: string)
    requires s != ""
    ensures OneLine(s[..LineEnd(s)])
    ensures LineEnd(s) < |s| ==>
      && EndsLine(s[LineEnd(s) - 1])
      && !(s[LineEnd(s) - 1] == '\r' && s[LineEnd(s)] == '\n')
  {
    var n := LineEnd(s);
    if !IsBreak(s[0]) && |s| > 1 {
      var rest := s[1..];
      LineEndIs(rest);
      assert s[..n][1..] == rest[..n - 1];
      assert forall i :: 0 < i < n ==> s[..n][i] == rest[..n - 1][i - 1];
    }
  }

  /** Lines in a row: each but the last with its break, and CR LF not torn apart. */
  predicate LinesInARow(lines: seq<string>) {
    lines != [] ==>
      && OneLine(lines[0])
      && (|lines| > 1 ==>
            && lines[1] != "" && EndsLine(lines[0][|lines[0]| - 1])
            && !(lines[0][|lines[0]| - 1] == '\r' && lines[1][0] == '\n'))
      && LinesInARow(lines[1..])
  }

  lemma FirstOf(s: string)
    requires s != ""
    ensures SplitLines(s) != [] && SplitLines(s)[0] != "" && SplitLines(s)[0][0] == s[0]
  {
  }

  /** The lines of a text are lines in a row, and together the text. */
  lemma {:induction false} LinesAre(s: string)
    ensures Concat(SplitLines(s)) == s && LinesInARow(SplitLines(s))
  {
    SplitIsWell(s);
    if s != "" {
      var n := LineEnd(s);
      LineEndIs(s);
      if n < |s| {
        FirstOf(s[n..]);
      }
      LinesAre(s[n..]);
      hide LineEnd, OneLine, EndsLine, Concat, LinesInARow;
      SplitCons(s);
      RowCons(s[..n], SplitLines(s[n..]));
    }
  }

  lemma SplitCons(s: string)
    requires s != ""
    ensures SplitLines(s) == [s[..LineEnd(s)]] + SplitLines(s[LineEnd(s)..])
    ensures LineEnd(s) == |s| ==> SplitLines(s[LineEnd(s)..]) == []
  {
    hide LineEnd;
  }

  lemma RowCons(line: string, rest: seq<string>)
    requires OneLine(line) && LinesInARow(rest)
    requires rest != [] ==>
      && rest[0] != "" && EndsLine(line[|line| - 1]) && !(line[|line| - 1] == '\r' && rest[0][0] == '\n')
    ensures LinesInARow([line] + rest)
  {
    hide EndsLine;
    assert ([line] + rest)[1..] == rest;
  }

  /** Up to its first carriage return a text is read as it is; CR LF, and a CR before anything else, is read as
      LF. */
  lemma {:induction false} UniversalIs(before: string, rest: string)
    requires '\r' !in before
    ensures Universal(before + "\r\n" + rest) == before + "\n" + Universal(rest)
    ensures rest == "" || rest[0] != '\n' ==> Universal(before + "\r" + rest) == before + "\n" + Universal(rest)
  {
    var crlf, cr := before + "\r\n" + rest, before + "\r" + rest;
    if before == "" {
      assert crlf[0] == '\r' && crlf[1] == '\n' && crlf[2..] == rest;
      assert cr[0] == '\r' && cr[1..] == rest;
    } else {
      UniversalIs(before[1..], rest);
      assert crlf[0] == before[0] && crlf[1..] == before[1..] + "\r\n" + rest;
      assert cr[0] == before[0] && cr[1..] == before[1..] + "\r" + rest;
      assert [before[0]] + (before[1..] + "\n" + Universal(rest)) == before + "\n" + Universal(rest);
    }
  }
}
