/** The encoding whose size the budget bounds is that of the brief: it reads back as the brief, and each
    character takes up what JSON needs for it. */
module BriefEncoding {
  import opened JsonValues
  import opened Text
  import opened Briefs

  // ---------------------------------------------------------------- a reader

  function HexValue(c: char): Option<nat> {
    if '0' <= c <= '9' then Some(c as int - '0' as int)
    else if 'a' <= c <= 'f' then Some(c as int - 'a' as int + 10)
    else None
  }

  /** What a backslash and this character stand for. */
  function Plain(c: char): Option<char> {
    if c == '"' then Some('"')
    else if c == '\\' then Some('\\')
    else if c == 'n' then Some('\n')
    else if c == 'r' then Some('\r')
    else if c == 't' then Some('\t')
    else if c == 'b' then Some('\U{8}')
    else if c == 'f' then Some('\U{C}')
    else None
  }

  /** The first character of a string body, and how much of the text it takes; control characters must be
      escaped. */
  function FirstChar(s: string): (r: Option<(char, nat)>)
    ensures r.Some? ==> 0 < r.value.1 <= |s|
  {
    if s == "" || s[0] == '"' || s[0] < ' ' then None
    else if s[0] != '\\' then Some((s[0], 1))
    else if |s| >= 6 && s[1] == 'u' && s[2] == '0' && s[3] == '0' && HexValue(s[4]).Some? && HexValue(s[5]).Some? then
      Some(((HexValue(s[4]).value * 16 + HexValue(s[5]).value) as char, 6))
    else if |s| >= 2 && Plain(s[1]).Some? then Some((Plain(s[1]).value, 2))
    else None
  }

  /** Reads up to the closing quote. */
  function ReadChars(s: string): (r: Option<(string, string)>)
    ensures r.Some? ==> |r.value.1| < |s|
    decreases |s|
  {
    if s != "" && s[0] == '"' then Some(("", s[1..]))
    else
      match FirstChar(s)
      case None => None
      case Some((c, n)) =>
        match ReadChars(s[n..])
        case None => None
        case Some((t, rest)) => Some(([c] + t, rest))
  }

  function Skip(s: string, prefix: string): (r: Option<string>)
    ensures r.Some? ==> |r.value| == |s| - |prefix|
  {
    if StartsWith(s, prefix) then Some(s[|prefix|..]) else None
  }

  function ReadString(s: string): (r: Option<(string, string)>)
    ensures r.Some? ==> |r.value.1| < |s|
  {
    match Skip(s, "\"")
    case None => None
    case Some(rest) => ReadChars(rest)
  }

  /** Reads strings up to the closing bracket. */
  function ReadItems(s: string): Option<(seq<string>, string)>
    decreases |s|
  {
    match ReadString(s)
    case None => None
    case Some((item, rest)) =>
      if StartsWith(rest, "]") then Some(([item], rest[1..]))
      else if StartsWith(rest, ", ") then
        match ReadItems(rest[2..])
        case None => None
        case Some((items, end)) => Some(([item] + items, end))
      else None
  }

  function ReadList(s: string): Option<(seq<string>, string)> {
    if StartsWith(s, "[]") then Some(([], s[2..]))
    else if StartsWith(s, "[") then ReadItems(s[1..])
    else None
  }

  function ReadMember(s: string, name: string): Option<(seq<string>, string)> {
    match Skip(s, ", \"" + name + "\": ")
    case None => None
    case Some(rest) => ReadList(rest)
  }

  function ReadLists(s: string): Option<(seq<seq<string>>, string)> {
    match ReadMember(s, "preferences")
    case None => None
    case Some((preferences, s1)) =>
      match ReadMember(s1, "constraints")
      case None => None
      case Some((constraints, s2)) =>
        match ReadMember(s2, "decisions")
        case None => None
        case Some((decisions, s3)) =>
          match ReadMember(s3, "open_questions")
          case None => None
          case Some((questions, s4)) => Some(([preferences, constraints, decisions, questions], s4))
  }

  function ReadBrief(s: string): Option<Brief> {
    match Skip(s, "{\"user_goal\": ")
    case None => None
    case Some(s0) =>
      match ReadString(s0)
      case None => None
      case Some((goal, s1)) =>
        match ReadLists(s1)
        case None => None
        case Some((lists, end)) => if end == "}" && |lists| == 4 then Some(Brief(goal, lists)) else None
  }

  // ---------------------------------------------------------------- reading back

  lemma SkipsPrefix(prefix: string, rest: string)
    ensures Skip(prefix + rest, prefix) == Some(rest)
  {
    assert (prefix + rest)[..|prefix|] == prefix && (prefix + rest)[|prefix|..] == rest;
  }

  lemma HexReadsBack(d: nat)
    requires d < 16
    ensures HexValue(Hex(d)) == Some(d)
  {
  }

  lemma EscapeStarts(c: char)
    ensures Escape(c) != "" && Escape(c)[0] != '"'
    ensures |Escape(c)| == 1 ==> Escape(c)[0] == c && c != '\\' && c >= ' '
    ensures |Escape(c)| == 2 ==> Escape(c)[0] == '\\' && Escape(c)[1] != 'u' && Plain(Escape(c)[1]) == Some(c)
    ensures |Escape(c)| != 1 && |Escape(c)| != 2 ==>
      && c < ' ' && |Escape(c)| == 6 && Escape(c)[..4] == "\\u00"
      && Escape(c)[4] == Hex(c as int / 16) && Escape(c)[5] == Hex(c as int % 16)
  {
  }

  lemma ReadsOne(c: char, tail: string)
    ensures FirstChar(Escape(c) + tail) == Some((c, |Escape(c)|))
  {
    EscapeStarts(c);
    var e := Escape(c);
    var s := e + tail;
    hide Escape, Hex, HexValue, Plain;
    assert forall i :: 0 <= i < |e| ==> s[i] == e[i];
    if |e| != 1 && |e| != 2 {
      HexReadsBack(c as int / 16);
      HexReadsBack(c as int % 16);
      assert e[..4][0] == e[0] && e[..4][1] == e[1] && e[..4][2] == e[2] && e[..4][3] == e[3];
    }
  }

  lemma ReadsStep(e: string, tail: string, c: char, s: string, rest: string)
    requires e != "" && e[0] != '"'
    requires FirstChar(e + tail) == Some((c, |e|)) && ReadChars(tail) == Some((s, rest))
    ensures ReadChars(e + tail) == Some(([c] + s, rest))
  {
    hide FirstChar;
    assert (e + tail)[0] == e[0] && (e + tail)[|e|..] == tail;
  }

  lemma EscapedInFront(s: string, end: string)
    requires s != ""
    ensures Escaped(s) + end == Escape(s[0]) + (Escaped(s[1..]) + end)
  {
    hide Escape;
  }

  /** A string body is read back up to the quote that closes it. */
  lemma {:induction false} ReadsEscaped(s: string, rest: string)
    ensures ReadChars(Escaped(s) + ("\"" + rest)) == Some((s, rest))
  {
    if s == "" {
      var all := "\"" + rest;
      assert Escaped(s) + all == all && all[0] == '"' && all[1..] == rest;
    } else {
      hide Escape, Escaped, FirstChar, ReadChars;
      EscapedInFront(s, "\"" + rest);
      EscapeStarts(s[0]);
      ReadsOne(s[0], Escaped(s[1..]) + ("\"" + rest));
      ReadsEscaped(s[1..], rest);
      ReadsStep(Escape(s[0]), Escaped(s[1..]) + ("\"" + rest), s[0], s[1..], rest);
      assert [s[0]] + s[1..] == s;
    }
  }

  lemma ReadsQuoted(s: string, rest: string)
    ensures ReadString(Quoted(s) + rest) == Some((s, rest))
  {
    hide Escaped, ReadChars;
    assert Quoted(s) + rest == "\"" + (Escaped(s) + ("\"" + rest));
    SkipsPrefix("\"", Escaped(s) + ("\"" + rest));
    ReadsEscaped(s, rest);
  }

  lemma {:induction false} ItemsFirst(items: seq<string>)
    requires |items| > 1
    ensures Items(items) == Quoted(items[0]) + ", " + Items(items[1..])
    decreases |items|
  {
    hide Quoted;
    var front, last := items[..|items| - 1], items[|items| - 1];
    if |items| == 2 {
      assert front == [items[0]] && items[1..] == [last];
    } else {
      ItemsFirst(front);
      assert front[1..] == items[1..][..|items[1..]| - 1];
      assert Items(items) == Quoted(items[0]) + ", " + (Items(front[1..]) + ", " + Quoted(last));
    }
  }

  lemma ReadsLast(s: string, item: string, rest: string)
    requires ReadString(s) == Some((item, "]" + rest))
    ensures ReadItems(s) == Some(([item], rest))
  {
    hide ReadString;
    var tail := "]" + rest;
    assert tail[..1] == "]" && tail[1..] == rest;
  }

  lemma ReadsNext(s: string, item: string, later: string, items: seq<string>, rest: string)
    requires ReadString(s) == Some((item, ", " + later)) && ReadItems(later) == Some((items, rest))
    ensures ReadItems(s) == Some(([item] + items, rest))
  {
    hide ReadString;
    var tail := ", " + later;
    assert tail[..2] == ", " && tail[2..] == later && tail[..1][0] == ',';
  }

  lemma FirstInFront(first: string, items: string, rest: string)
    ensures (first + ", " + items) + "]" + rest == first + (", " + (items + "]" + rest))
  {
  }

  lemma OnlyItem(item: string, rest: string)
    ensures Items([item]) + "]" + rest == Quoted(item) + ("]" + rest)
  {
    hide Quoted;
  }

  lemma {:induction false} ReadsItems(items: seq<string>, rest: string)
    requires items != []
    ensures ReadItems(Items(items) + "]" + rest) == Some((items, rest))
    decreases |items|
  {
    hide Quoted, ReadString, ReadItems, Items;
    var first, others := items[0], items[1..];
    var all := Items(items) + "]" + rest;
    if others == [] {
      assert items == [first];
      OnlyItem(first, rest);
      ReadsQuoted(first, "]" + rest);
      ReadsLast(all, first, rest);
    } else {
      ItemsFirst(items);
      FirstInFront(Quoted(first), Items(others), rest);
      var later := Items(others) + "]" + rest;
      ReadsQuoted(first, ", " + later);
      ReadsItems(others, rest);
      ReadsNext(all, first, later, others, rest);
      assert [first] + others == items;
    }
  }

  lemma ItemsStart(items: seq<string>)
    requires items != []
    ensures Items(items) != "" && Items(items)[0] == '"'
  {
    if |items| > 1 {
      ItemsFirst(items);
      assert Quoted(items[0])[0] == '"';
    }
  }

  lemma ReadsOpened(body: string, items: seq<string>, rest: string)
    requires body != "" && body[0] == '"' && ReadItems(body) == Some((items, rest))
    ensures ReadList("[" + body) == Some((items, rest))
  {
    hide ReadItems;
    var all := "[" + body;
    assert all[..1] == "[" && all[1..] == body && all[1] == '"';
    assert all[..2][1] == '"' && "[]"[1] == ']';
  }

  lemma ReadsList(items: seq<string>, rest: string)
    ensures ReadList("[" + Items(items) + "]" + rest) == Some((items, rest))
  {
    var all := "[" + Items(items) + "]" + rest;
    if items == [] {
      assert all[..2] == "[]" && all[2..] == rest;
    } else {
      hide Items, ReadItems, ReadList;
      ItemsStart(items);
      ReadsItems(items, rest);
      var body := Items(items) + "]" + rest;
      assert all == "[" + body;
      ReadsOpened(body, items, rest);
    }
  }

  /** A member of the encoding, up to its value. */
  function Tag(name: string): string {
    ", \"" + name + "\": "
  }

  lemma ReadsMember(name: string, items: seq<string>, rest: string)
    ensures ReadMember(Tag(name) + ("[" + Items(items) + "]" + rest), name) == Some((items, rest))
  {
    hide Items, ReadList;
    SkipsPrefix(Tag(name), "[" + Items(items) + "]" + rest);
    ReadsList(items, rest);
  }

  lemma ListEncoding(b: Brief, k: nat)
    requires k < 4
    ensures EncodedList(b, k) == Tag(LIST_KEYS[k]) + ("[" + Items(b.lists[k]) + "]")
  {
    hide Items;
  }

  lemma ReadsInTurn(s: string, s1: string, s2: string, s3: string, rest: string, lists: seq<seq<string>>)
    requires |lists| == 4
    requires ReadMember(s, "preferences") == Some((lists[0], s1))
    requires ReadMember(s1, "constraints") == Some((lists[1], s2))
    requires ReadMember(s2, "decisions") == Some((lists[2], s3))
    requires ReadMember(s3, "open_questions") == Some((lists[3], rest))
    ensures ReadLists(s) == Some((lists, rest))
  {
    hide ReadMember;
    assert [lists[0], lists[1], lists[2], lists[3]] == lists;
  }

  lemma ReadsEncodedList(b: Brief, k: nat, rest: string)
    requires k < 4
    ensures ReadMember(EncodedList(b, k) + rest, LIST_KEYS[k]) == Some((b.lists[k], rest))
  {
    ListEncoding(b, k);
    hide Items, ReadMember, EncodedList, Tag;
    MoveRest(Tag(LIST_KEYS[k]), b.lists[k], rest);
    ReadsMember(LIST_KEYS[k], b.lists[k], rest);
  }

  lemma ReadsLists(b: Brief, rest: string)
    ensures ReadLists(EncodedList(b, 0) + (EncodedList(b, 1) + (EncodedList(b, 2) + (EncodedList(b, 3) + rest))))
         == Some((b.lists, rest))
  {
    assert LIST_KEYS[0] == "preferences" && LIST_KEYS[1] == "constraints";
    assert LIST_KEYS[2] == "decisions" && LIST_KEYS[3] == "open_questions";
    hide ReadMember, EncodedList, ReadLists;
    var s3 := EncodedList(b, 3) + rest;
    var s2 := EncodedList(b, 2) + s3;
    var s1 := EncodedList(b, 1) + s2;
    ReadsEncodedList(b, 3, rest);
    ReadsEncodedList(b, 2, s3);
    ReadsEncodedList(b, 1, s2);
    ReadsEncodedList(b, 0, s1);
    ReadsInTurn(EncodedList(b, 0) + s1, s1, s2, s3, rest, b.lists);
  }

  lemma MoveRest(tag: string, items: seq<string>, rest: string)
    ensures (tag + ("[" + Items(items) + "]")) + rest == tag + ("[" + Items(items) + "]" + rest)
  {
    hide Items;
  }

  /** For every brief, the encoding reads back as the brief. */
  lemma EncodedReadsBack(b: Brief)
    ensures ReadBrief(Encoded(b)) == Some(b)
  {
    hide Items, EncodedList, Quoted, ReadString, ReadLists;
    var lists := EncodedList(b, 0) + (EncodedList(b, 1) + (EncodedList(b, 2) + (EncodedList(b, 3) + "}")));
    assert Encoded(b) == "{\"user_goal\": " + (Quoted(b.goal) + lists);
    SkipsPrefix("{\"user_goal\": ", Quoted(b.goal) + lists);
    ReadsQuoted(b.goal, lists);
    ReadsLists(b, "}");
  }

  // ---------------------------------------------------------------- and it is no longer than need be

  predicate TakesTwo(c: char) {
    c == '"' || c == '\\' || c == '\n' || c == '\r' || c == '\t' || c == '\U{8}' || c == '\U{C}'
  }

  /** How much room a text takes up in the encoding: one for a character as it is, two for one with a short
      escape, six for any other control character. */
  function Room(s: string): nat {
    if s == "" then 0
    else (if TakesTwo(s[0]) then 2 else if s[0] < ' ' then 6 else 1) + Room(s[1..])
  }

  lemma {:induction false} EscapedTakes(s: string)
    ensures |Escaped(s)| == Room(s)
  {
    if s != "" {
      EscapedTakes(s[1..]);
    }
  }

  function ItemsRoom(items: seq<string>): nat {
    if items == [] then 0 else if |items| == 1 then Room(items[0]) + 2 else Room(items[0]) + 4 + ItemsRoom(items[1..])
  }

  lemma {:induction false} ItemsTake(items: seq<string>)
    ensures |Items(items)| == ItemsRoom(items)
    decreases |items|
  {
    if items != [] {
      EscapedTakes(items[0]);
      if |items| > 1 {
        ItemsFirst(items);
        ItemsTake(items[1..]);
      }
    }
  }

  /** The size of the encoding: 94 characters of punctuation and names, and the room its texts take up. */
  lemma EncodedTakes(b: Brief)
    ensures |Encoded(b)| == 94 + Room(b.goal) + ItemsRoom(b.lists[0]) + ItemsRoom(b.lists[1]) + ItemsRoom(b.lists[2])
      + ItemsRoom(b.lists[3])
  {
    EscapedTakes(b.goal);
    ItemsTake(b.lists[0]);
    ItemsTake(b.lists[1]);
    ItemsTake(b.lists[2]);
    ItemsTake(b.lists[3]);
    ListEncoding(b, 0);
    ListEncoding(b, 1);
    ListEncoding(b, 2);
    ListEncoding(b, 3);
    hide Items, EncodedList, Escaped, Room, ItemsRoom;
    assert |"user_goal"| == 9 && |LIST_KEYS[0]| == 11 && |LIST_KEYS[1]| == 11 && |LIST_KEYS[2]| == 9;
    assert |LIST_KEYS[3]| == 14;
    assert |Member("user_goal", Quoted(b.goal))| == 9 + 4 + |Escaped(b.goal)| + 2;
  }
}
