/** The conversation brief: a goal and four short lists, kept within a fixed encoded size. */
module Briefs {
  import opened JsonValues
  import opened Text

  const MAX_BRIEF_CHARS := 4000
  const MAX_LIST_ITEMS := 12
  const MAX_ITEM_CHARS := 280
  const MAX_GOAL_CHARS := 600
  const ELLIPSIS := '\U{2026}'

  /** The lists are preferences, constraints, decisions and open questions, in this order. */
  datatype AnyBrief = Brief(goal: string, lists: seq<seq<string>>)

  type Brief = b: AnyBrief | |b.lists| == 4 witness Brief("", [[], [], [], []])

  const LIST_KEYS: seq<string> := ["preferences", "constraints", "decisions", "open_questions"]

  function EmptyBrief(): Brief {
    Brief("", [[], [], [], []])
  }

  // ---------------------------------------------------------------- capped text

  function WordEnd(s: string): (n: nat)
    ensures n <= |s|
    ensures forall i :: 0 <= i < n ==> !IsSpace(s[i])
    ensures n < |s| ==> IsSpace(s[n])
  {
    if s == "" || IsSpace(s[0]) then 0 else 1 + WordEnd(s[1..])
  }

  /** `s.split()` */
  function Split(s: string): seq<string>
    decreases |s|
  {
    StripLeftShape(s);
    var t := StripLeft(s);
    if t == "" then [] else [t[..WordEnd(t)]] + Split(t[WordEnd(t)..])
  }

  /** `" ".join(words)` */
  function Join(words: seq<string>): string {
    if words == [] then ""
    else if |words| == 1 then words[0]
    else words[0] + " " + Join(words[1..])
  }

  function Cap(text: string, limit: nat): string
    requires limit > 0
  {
    var words := Join(Split(text));
    if |words| <= limit then words else words[..limit - 1] + [ELLIPSIS]
  }

  function CapText(value: Json, limit: nat): string
    requires limit > 0
  {
    Cap(if Truthy(value) then PyStr(value) else "", limit)
  }

  // ---------------------------------------------------------------- capped lists

  function ListOf(value: Json): seq<Json> {
    match value
    case Str(s) => if Strip(s) != "" then [value] else []
    case Arr(items) => items
    case _ => []
  }

  function Texts(values: seq<Json>): seq<string> {
    seq(|values|, i requires 0 <= i < |values| => CapText(values[i], MAX_ITEM_CHARS))
  }

  /** The texts in order of first appearance, without the empty one. */
  function Distinct(texts: seq<string>): seq<string> {
    if texts == [] then []
    else
      var before := Distinct(texts[..|texts| - 1]);
      var last := texts[|texts| - 1];
      if last != "" && last !in before then before + [last] else before
  }

  function Take(items: seq<string>, n: nat): seq<string> {
    if |items| <= n then items else items[..n]
  }

  function CapList(value: Json): seq<string> {
    Take(Distinct(Texts(ListOf(value))), MAX_LIST_ITEMS)
  }

  // ---------------------------------------------------------------- the encoding

  function Hex(d: nat): char
    requires d < 16
  {
    "0123456789abcdef"[d]
  }

  /** How `json.dumps(..., ensure_ascii=False)` writes one character of a string. */
  function Escape(c: char): string {
    if c == '"' then "\\\""
    else if c == '\\' then "\\\\"
    else if c == '\n' then "\\n"
    else if c == '\r' then "\\r"
    else if c == '\t' then "\\t"
    else if c == '\U{8}' then "\\b"
    else if c == '\U{C}' then "\\f"
    else if c < ' ' then "\\u00" + [Hex(c as int / 16), Hex(c as int % 16)]
    else [c]
  }

  function Escaped(s: string): string {
    if s == "" then "" else Escape(s[0]) + Escaped(s[1..])
  }

  function Quoted(s: string): string {
    "\"" + Escaped(s) + "\""
  }

  function Items(items: seq<string>): string {
    if items == [] then ""
    else if |items| == 1 then Quoted(items[0])
    else Items(items[..|items| - 1]) + ", " + Quoted(items[|items| - 1])
  }

  function Member(key: string, value: string): string {
    "\"" + key + "\": " + value
  }

  function EncodedList(b: Brief, k: nat): string
    requires k < 4
  {
    ", " + Member(LIST_KEYS[k], "[" + Items(b.lists[k]) + "]")
  }

  function Encoded(b: Brief): string {
    "{" + Member("user_goal", Quoted(b.goal))
    + EncodedList(b, 0) + EncodedList(b, 1) + EncodedList(b, 2) + EncodedList(b, 3) + "}"
  }

  // ---------------------------------------------------------------- the budget

  function Total(lists: seq<seq<string>>): nat {
    if lists == [] then 0 else |lists[0]| + Total(lists[1..])
  }

  /** The first list that still has an item. */
  function FirstFilled(lists: seq<seq<string>>): (k: nat)
    ensures k <= |lists|
    ensures k < |lists| ==> lists[k] != []
    ensures forall j :: 0 <= j < k ==> lists[j] == []
  {
    if lists == [] || lists[0] != [] then 0 else 1 + FirstFilled(lists[1..])
  }

  lemma {:induction false} TotalDrops(lists: seq<seq<string>>, k: nat)
    requires k < |lists| && lists[k] != []
    ensures Total(lists[k := lists[k][..|lists[k]| - 1]]) < Total(lists)
  {
    if k > 0 {
      TotalDrops(lists[1..], k - 1);
      var shorter := lists[k][..|lists[k]| - 1];
      assert lists[k := shorter][1..] == lists[1..][k - 1 := shorter];
    }
  }

  function Dropped(b: Brief, k: nat): Brief
    requires k < 4 && b.lists[k] != []
  {
    b.(lists := b.lists[k := b.lists[k][..|b.lists[k]| - 1]])
  }

  predicate Fits(b: Brief) {
    |Encoded(b)| <= MAX_BRIEF_CHARS
  }

  /** What is left of the goal when there is no list item to drop. */
  function Shortened(goal: string): string {
    Cap(goal, if |goal| / 2 > 40 then |goal| / 2 else 40)
  }

  /** `enforce_brief_budget` */
  function Enforced(b: Brief): Brief
    decreases Total(b.lists)
  {
    var k := FirstFilled(b.lists);
    if Fits(b) then b
    else if k < 4 then
      TotalDrops(b.lists, k);
      Enforced(Dropped(b, k))
    else
      var shorter := b.(goal := Shortened(b.goal));
      if Fits(shorter) then shorter else shorter.(goal := Cap(shorter.goal, 80))
  }

  /** A brief before the budget is enforced. */
  function Capped(payload: Dict): Brief {
    Brief(CapText(Get(payload, "user_goal", Null), MAX_GOAL_CHARS),
          [CapList(Get(payload, LIST_KEYS[0], Null)), CapList(Get(payload, LIST_KEYS[1], Null)),
           CapList(Get(payload, LIST_KEYS[2], Null)), CapList(Get(payload, LIST_KEYS[3], Null))])
  }

  /** `normalize_conversation_brief`; anything but an object counts as an empty one. */
  function Normalized(payload: Json): Brief {
    Enforced(Capped(if payload.Obj? then payload.fields else map[]))
  }

  function Strs(items: seq<string>): seq<Json> {
    seq(|items|, i requires 0 <= i < |items| => Str(items[i]))
  }

  /** The JSON object a brief is stored as. */
  function Stored(b: Brief): Json {
    Obj(map["user_goal" := Str(b.goal), "preferences" := Arr(Strs(b.lists[0])), "constraints" := Arr(Strs(b.lists[1])),
            "decisions" := Arr(Strs(b.lists[2])), "open_questions" := Arr(Strs(b.lists[3]))])
  }

  // ---------------------------------------------------------------- the loops

  method CapItems(value: Json) returns (items: seq<string>)
    ensures items == CapList(value)
  {
    var values := ListOf(value);
    items := [];
    var i := 0;
    assert Texts(values)[..0] == [];
    while i < |values| && |items| < MAX_LIST_ITEMS
      invariant 0 <= i <= |values|
      invariant items == Distinct(Texts(values)[..i]) && |items| <= MAX_LIST_ITEMS
    {
      var text := CapText(values[i], MAX_ITEM_CHARS);
      assert Texts(values)[..i + 1][..i] == Texts(values)[..i];
      if text != "" && text !in items {
        items := items + [text];
      }
      i := i + 1;
    }
    DistinctGrows(Texts(values), i);
    assert Texts(values)[..|values|] == Texts(values);
  }

  /** What was distinct so far stays at the front. */
  lemma {:induction false} DistinctGrows(texts: seq<string>, n: nat)
    requires n <= |texts|
    ensures Distinct(texts[..n]) <= Distinct(texts)
    decreases |texts|
  {
    if n < |texts| {
      DistinctGrows(texts[..|texts| - 1], n);
      assert texts[..|texts| - 1][..n] == texts[..n];
    } else {
      assert texts[..n] == texts;
    }
  }

  method EnforceBudget(brief: Brief) returns (out: Brief)
    ensures out == Enforced(brief)
  {
    hide Encoded, Cap, Total;
    out := brief;
    while |Encoded(out)| > MAX_BRIEF_CHARS
      invariant Enforced(brief) == Enforced(out)
      decreases Total(out.lists)
    {
      var k := 0;
      while k < 4 && out.lists[k] == []
        invariant 0 <= k <= 4
        invariant forall j :: 0 <= j < k ==> out.lists[j] == []
      {
        k := k + 1;
      }
      assert k == FirstFilled(out.lists);
      if k < 4 {
        TotalDrops(out.lists, k);
        out := out.(lists := out.lists[k := out.lists[k][..|out.lists[k]| - 1]]);
      } else {
        var half := |out.goal| / 2;
        out := out.(goal := Cap(out.goal, if half > 40 then half else 40));
        if |Encoded(out)| > MAX_BRIEF_CHARS {
          out := out.(goal := Cap(out.goal, 80));
        }
        return;
      }
    }
  }
}
