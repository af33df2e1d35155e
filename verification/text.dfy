/** The few string operations of Python that the harness relies on. */
module Text {

  /** The characters `str.isspace` treats as white space, which `strip` and `split` use. */
  predicate IsSpace(c: char) {
    '\U{9}' <= c <= '\U{D}' || '\U{1C}' <= c <= '\U{20}' || c == '\U{85}' || c == '\U{A0}' ||
    c == '\U{1680}' || '\U{2000}' <= c <= '\U{200A}' || c == '\U{2028}' || c == '\U{2029}' ||
    c == '\U{202F}' || c == '\U{205F}' || c == '\U{3000}'
  }

  function StripLeft(s: string): string {
    if s != "" && IsSpace(s[0]) then StripLeft(s[1..]) else s
  }

  function StripRight(s: string): string {
    if s != "" && IsSpace(s[|s| - 1]) then StripRight(s[..|s| - 1]) else s
  }

  /** `s.strip()` */
  function Strip(s: string): string {
    StripRight(StripLeft(s))
  }

  predicate Trimmed(s: string) {
    s == "" || (!IsSpace(s[0]) && !IsSpace(s[|s| - 1]))
  }

  /** Stripping is the identity exactly on trimmed text, and always yields trimmed text. */
  lemma StripTrims(s: string)
    ensures Trimmed(Strip(s))
    ensures Strip(s) == s <==> Trimmed(s)
    ensures |Strip(s)| <= |s|
  {
    StripLeftShape(s);
    StripRightShape(StripLeft(s));
  }

  lemma {:induction false} StripLeftShape(s: string)
    ensures |StripLeft(s)| <= |s|
    ensures StripLeft(s) != "" ==> !IsSpace(StripLeft(s)[0])
    ensures s != "" && IsSpace(s[0]) ==> |StripLeft(s)| < |s|
  {
    if s != "" && IsSpace(s[0]) {
      StripLeftShape(s[1..]);
    }
  }

  lemma {:induction false} StripRightShape(s: string)
    ensures |StripRight(s)| <= |s|
    ensures StripRight(s) != "" ==> !IsSpace(StripRight(s)[|StripRight(s)| - 1]) && StripRight(s)[0] == s[0]
    ensures s != "" && IsSpace(s[|s| - 1]) ==> |StripRight(s)| < |s|
  {
    if s != "" && IsSpace(s[|s| - 1]) {
      StripRightShape(s[..|s| - 1]);
    }
  }

  predicate Blank(s: string) {
    forall i :: 0 <= i < |s| ==> IsSpace(s[i])
  }

  lemma {:induction false} LeftIs(s: string) returns (before: string)
    ensures Blank(before) && s == before + StripLeft(s)
  {
    before := "";
    if s != "" && IsSpace(s[0]) {
      before := LeftIs(s[1..]);
      before := [s[0]] + before;
    }
  }

  lemma {:induction false} RightIs(s: string) returns (after: string)
    ensures Blank(after) && s == StripRight(s) + after
  {
    after := "";
    if s != "" && IsSpace(s[|s| - 1]) {
      after := RightIs(s[..|s| - 1]);
      after := after + [s[|s| - 1]];
    }
  }

  /** Stripping takes white space off both ends, all of it, and nothing else. */
  lemma StripIs(s: string) returns (before: string, after: string)
    ensures Blank(before) && Blank(after) && s == before + Strip(s) + after && Trimmed(Strip(s))
  {
    StripTrims(s);
    before := LeftIs(s);
    after := RightIs(StripLeft(s));
  }

  /** What counts as white space, code point by code point. */
  lemma SpacesAre(c: char)
    ensures IsSpace(c) <==>
      || c == '\t' || c == '\n' || c == '\U{B}' || c == '\U{C}' || c == '\r' || c == '\U{1C}' || c == '\U{1D}'
      || c == '\U{1E}' || c == '\U{1F}' || c == ' ' || c == '\U{85}' || c == '\U{A0}' || c == '\U{1680}'
      || c == '\U{2000}' || c == '\U{2001}' || c == '\U{2002}' || c == '\U{2003}' || c == '\U{2004}'
      || c == '\U{2005}' || c == '\U{2006}' || c == '\U{2007}' || c == '\U{2008}' || c == '\U{2009}'
      || c == '\U{200A}' || c == '\U{2028}' || c == '\U{2029}' || c == '\U{202F}' || c == '\U{205F}'
      || c == '\U{3000}'
  {
  }

  /** Only capital letters change, each to its small one. */
  lemma LowerIs(s: string, i: nat)
    requires i < |s|
    ensures |Lower(s)| == |s|
    ensures 'A' <= s[i] <= 'Z' ==> Lower(s)[i] as int == s[i] as int + 32
    ensures !('A' <= s[i] <= 'Z') ==> Lower(s)[i] == s[i]
  {
  }

  /** `s.lower()`, restricted to ASCII letters. */
  function Lower(s: string): string {
    seq(|s|, i requires 0 <= i < |s| => if 'A' <= s[i] <= 'Z' then s[i] - 'A' + 'a' else s[i])
  }

  predicate StartsWith(s: string, prefix: string) {
    |prefix| <= |s| && s[..|prefix|] == prefix
  }
}
