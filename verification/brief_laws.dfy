/** What normalising a brief guarantees for every payload. */
module BriefLaws {
  import opened JsonValues
  import opened Text
  import opened Briefs

  // ---------------------------------------------------------------- words

  predicate Word(s: string) {
    s != "" && forall i :: 0 <= i < |s| ==> !IsSpace(s[i])
  }

  predicate Words(ws: seq<string>) {
    forall i :: 0 <= i < |ws| ==> Word(ws[i])
  }

  lemma {:induction false} StripLeftKeeps(s: string)
    requires s == "" || !IsSpace(s[0])
    ensures StripLeft(s) == s
  {
  }

  lemma {:induction false} SplitIsWords(s: string)
    ensures Words(Split(s))
    decreases |s|
  {
    StripLeftShape(s);
    var t := StripLeft(s);
    if t != "" {
      SplitIsWords(t[WordEnd(t)..]);
    }
  }

  lemma {:induction false} WordEndOf(w: string, rest: string)
    requires Word(w) && (rest == "" || IsSpace(rest[0]))
    ensures WordEnd(w + rest) == |w|
  {
    if |w| == 1 {
      assert (w + rest)[1..] == rest;
    } else {
      assert (w + rest)[1..] == w[1..] + rest;
      WordEndOf(w[1..], rest);
    }
  }

  /** Splitting what was joined from words gives the words back. */
  lemma {:induction false} SplitJoin(ws: seq<string>)
    requires Words(ws)
    ensures Split(Join(ws)) == ws
    decreases |ws|, 0
  {
    if ws != [] {
      var w := ws[0];
      var rest := if |ws| == 1 then "" else " " + Join(ws[1..]);
      assert Join(ws) == w + rest;
      StripLeftKeeps(w + rest);
      WordEndOf(w, rest);
      assert (w + rest)[..|w|] == w && (w + rest)[|w|..] == rest;
      SplitAfterSpace(ws[1..], rest);
    }
  }

  lemma {:induction false} SplitAfterSpace(ws: seq<string>, rest: string)
    requires Words(ws) && rest == (if ws == [] then "" else " " + Join(ws))
    ensures Split(rest) == ws
    decreases |ws|, 1
  {
    if ws != [] {
      SplitJoin(ws);
      JoinStarts(ws);
      StripLeftKeeps(Join(ws));
      assert rest[1..] == Join(ws);
      assert StripLeft(rest) == Join(ws) == StripLeft(Join(ws));
    }
  }

  lemma JoinStarts(ws: seq<string>)
    requires Words(ws) && ws != []
    ensures Join(ws) != "" && !IsSpace(Join(ws)[0])
  {
  }

  lemma {:induction false} WordEndAtSpace(u: string, c: char, v: string)
    requires IsSpace(c)
    ensures WordEnd(u + [c] + v) == WordEnd(u)
  {
    var all := u + [c] + v;
    if u == "" {
      assert all[0] == c;
    } else {
      assert all[0] == u[0] && all[1..] == u[1..] + [c] + v;
      WordEndAtSpace(u[1..], c, v);
    }
  }

  lemma {:induction false} StripAtSpace(u: string, c: char, v: string)
    requires IsSpace(c)
    ensures StripLeft(u + [c] + v) == if StripLeft(u) == "" then StripLeft(v) else StripLeft(u) + [c] + v
  {
    var all := u + [c] + v;
    if u == "" {
      assert all[0] == c && all[1..] == v;
    } else if IsSpace(u[0]) {
      assert all[0] == u[0] && all[1..] == u[1..] + [c] + v;
      StripAtSpace(u[1..], c, v);
    } else {
      assert all[0] == u[0];
    }
  }

  /** The words of a text are those before and those behind any white space in it; so words are cut at white
      space, and nowhere else. */
  lemma {:induction false} SplitAtSpace(u: string, c: char, v: string)
    requires IsSpace(c)
    ensures Split(u + [c] + v) == Split(u) + Split(v)
    decreases |u|
  {
    StripAtSpace(u, c, v);
    StripLeftShape(u);
    var t := StripLeft(u);
    var all := u + [c] + v;
    hide StripLeft, IsSpace;
    if t == "" {
      SplitByStrip(all, v);
    } else {
      var rest := t + [c] + v;
      var n := WordEnd(t);
      WordEndAtSpace(t, c, v);
      WordIsNotEmpty(u);
      assert rest[..n] == t[..n] && rest[n..] == t[n..] + [c] + v;
      SplitAtSpace(t[n..], c, v);
      assert Split(all) == [t[..n]] + (Split(t[n..]) + Split(v));
    }
  }

  lemma SplitByStrip(a: string, b: string)
    requires StripLeft(a) == StripLeft(b)
    ensures Split(a) == Split(b)
  {
  }

  lemma WordIsNotEmpty(s: string)
    requires StripLeft(s) != ""
    ensures |StripLeft(s)[WordEnd(StripLeft(s))..]| < |s|
  {
    StripLeftShape(s);
  }

  lemma SplitOfWord(w: string)
    requires Word(w)
    ensures Split(w) == [w] && Split("") == []
  {
    assert Join([w]) == w;
    SplitJoin([w]);
  }

  /** Capping keeps all words, with one space between them, if they fit, and else as much of that as fits before
      an ellipsis. */
  lemma CapKeepsWords(text: string, limit: nat)
    requires limit > 0
    ensures var words := Join(Split(text));
      && (|words| <= limit ==> Cap(text, limit) == words)
      && (|words| > limit ==> Cap(text, limit) == words[..limit - 1] + ['\U{2026}'])
  {
  }

  // ---------------------------------------------------------------- capped text is a fixpoint

  /** The words of a joined text cut after k characters, with an ellipsis put at the end. */
  function Cut(ws: seq<string>, k: nat): seq<string>
    requires k <= |Join(ws)|
  {
    if ws == [] then [[ELLIPSIS]]
    else if k <= |ws[0]| then [ws[0][..k] + [ELLIPSIS]]
    else [ws[0]] + Cut(ws[1..], k - |ws[0]| - 1)
  }

  lemma {:induction false} CutIsJoined(ws: seq<string>, k: nat)
    requires Words(ws) && k <= |Join(ws)|
    ensures Words(Cut(ws, k)) && Cut(ws, k) != []
    ensures Join(Cut(ws, k)) == Join(ws)[..k] + [ELLIPSIS]
  {
    if ws == [] {
    } else if k <= |ws[0]| {
      assert Word(ws[0]);
      assert Join(ws)[..k] == ws[0][..k];
    } else {
      var rest := k - |ws[0]| - 1;
      CutIsJoined(ws[1..], rest);
      assert Word(ws[0]);
      assert Cut(ws, k)[1..] == Cut(ws[1..], rest);
      assert Join(Cut(ws, k)) == ws[0] + " " + Join(Cut(ws[1..], rest));
      assert Join(ws)[..k] == ws[0] + " " + Join(ws[1..])[..rest];
    }
  }

  /** Capping shortens to the limit, and capping again changes nothing. */
  lemma CapIsFinal(text: string, limit: nat)
    requires limit > 0
    ensures |Cap(text, limit)| <= limit
    ensures Cap(Cap(text, limit), limit) == Cap(text, limit)
    ensures forall larger: nat :: larger >= limit ==> Cap(Cap(text, limit), larger) == Cap(text, limit)
  {
    var ws := Split(text);
    SplitIsWords(text);
    SplitJoin(ws);
    var joined := Join(ws);
    if |joined| > limit {
      CutIsJoined(ws, limit - 1);
      SplitJoin(Cut(ws, limit - 1));
      assert Join(Split(Cap(text, limit))) == Cap(text, limit);
    }
  }

  /** A text as it comes out of capping. */
  predicate Settled(s: string, limit: nat)
    requires limit > 0
  {
    |s| <= limit && Cap(s, limit) == s
  }

  lemma CapTextSettles(value: Json, limit: nat)
    requires limit > 0
    ensures Settled(CapText(value, limit), limit)
    ensures forall s: string :: Settled(s, limit) ==> CapText(Str(s), limit) == s
  {
    CapIsFinal(if Truthy(value) then PyStr(value) else "", limit);
  }

  // ---------------------------------------------------------------- capped lists are fixpoints

  predicate NoRepeats(items: seq<string>) {
    forall i, j :: 0 <= i < j < |items| ==> items[i] != items[j]
  }

  predicate ListSettled(items: seq<string>) {
    && |items| <= MAX_LIST_ITEMS
    && NoRepeats(items)
    && forall i :: 0 <= i < |items| ==> items[i] != "" && Settled(items[i], MAX_ITEM_CHARS)
  }

  lemma {:induction false} DistinctIff(texts: seq<string>, t: string)
    ensures t in Distinct(texts) <==> t in texts && t != ""
    ensures NoRepeats(Distinct(texts))
  {
    if texts != [] {
      DistinctIff(texts[..|texts| - 1], t);
      DistinctIff(texts[..|texts| - 1], texts[|texts| - 1]);
      assert texts == texts[..|texts| - 1] + [texts[|texts| - 1]];
    }
  }

  lemma {:induction false} DistinctOfDistinct(texts: seq<string>)
    requires NoRepeats(texts) && forall i :: 0 <= i < |texts| ==> texts[i] != ""
    ensures Distinct(texts) == texts
  {
    if texts != [] {
      var before, last := texts[..|texts| - 1], texts[|texts| - 1];
      DistinctOfDistinct(before);
      assert last !in before;
      assert texts == before + [last];
    }
  }

  /** A capped list has at most twelve distinct, non-empty, capped items, each of them coming from the
      list it was made from; and capping it again changes nothing. */
  lemma CapListSettles(value: Json)
    ensures ListSettled(CapList(value))
    ensures forall t :: t in CapList(value) ==> t in Texts(ListOf(value))
    ensures CapList(Arr(Strs(CapList(value)))) == CapList(value)
  {
    var texts := Texts(ListOf(value));
    var items := CapList(value);
    DistinctIff(texts, "");
    forall t | t in items ensures t in texts && t != "" && Settled(t, MAX_ITEM_CHARS) {
      DistinctIff(texts, t);
      var i :| 0 <= i < |texts| && texts[i] == t;
      CapTextSettles(ListOf(value)[i], MAX_ITEM_CHARS);
    }
    SettledListIsFinal(items);
  }

  lemma SettledListIsFinal(items: seq<string>)
    requires ListSettled(items)
    ensures CapList(Arr(Strs(items))) == items
  {
    forall i | 0 <= i < |items| ensures CapText(Str(items[i]), MAX_ITEM_CHARS) == items[i] {
      CapTextSettles(Null, MAX_ITEM_CHARS);
    }
    assert Texts(Strs(items)) == items;
    DistinctOfDistinct(items);
  }

  // ---------------------------------------------------------------- sizes

  lemma {:induction false} EscapedSize(s: string)
    ensures |s| <= |Escaped(s)| <= 6 * |s|
  {
    if s != "" {
      EscapedSize(s[1..]);
    }
  }

  function EmptyLists(): seq<seq<string>> {
    [[], [], [], []]
  }

  lemma MemberSize(key: string, value: string)
    ensures |Member(key, value)| == |key| + |value| + 4
  {
  }

  lemma ListSize(b: Brief, k: nat)
    requires k < 4
    ensures |EncodedList(b, k)| == |LIST_KEYS[k]| + |Items(b.lists[k])| + 8
  {
    MemberSize(LIST_KEYS[k], "[" + Items(b.lists[k]) + "]");
  }

  /** The size of an encoded brief: 94 characters of punctuation and names, and its texts. */
  lemma BriefSize(b: Brief)
    ensures |Encoded(b)| == 94 + |Escaped(b.goal)|
      + |Items(b.lists[0])| + |Items(b.lists[1])| + |Items(b.lists[2])| + |Items(b.lists[3])|
  {
    hide Items, Escaped, EncodedList, Member;
    MemberSize("user_goal", Quoted(b.goal));
    ListSize(b, 0);
    ListSize(b, 1);
    ListSize(b, 2);
    ListSize(b, 3);
    assert |"user_goal"| == 9 && |"preferences"| == 11 && |"constraints"| == 11 && |"decisions"| == 9
        && |"open_questions"| == 14;
    assert |Quoted(b.goal)| == |Escaped(b.goal)| + 2;
  }

  predicate NoItems(b: Brief) {
    b.lists == EmptyLists()
  }

  lemma NothingLeftIsSmall(b: Brief)
    requires FirstFilled(b.lists) == 4
    ensures NoItems(b) && |Encoded(b)| <= 94 + 6 * |b.goal|
  {
    BriefSize(b);
    EscapedSize(b.goal);
    assert b.lists == EmptyLists();
  }

  // ---------------------------------------------------------------- the budget

  /** Enforcing the budget always succeeds, even for a brief that was never normalised. */
  lemma {:induction false} EnforcedFits(b: Brief)
    ensures |Encoded(Enforced(b))| <= 4000
    decreases Total(b.lists)
  {
    hide Encoded, Cap;
    var k := FirstFilled(b.lists);
    if !Fits(b) {
      if k < 4 {
        TotalDrops(b.lists, k);
        EnforcedFits(Dropped(b, k));
      } else {
        var shorter := b.(goal := Shortened(b.goal));
        CapIsFinal(shorter.goal, 80);
        NothingLeftIsSmall(shorter.(goal := Cap(shorter.goal, 80)));
      }
    }
  }

  /** Each list keeps a prefix, a later list loses items only once the earlier ones are empty, and a goal
      of at most 600 characters is never touched. */
  ghost predicate TrimmedInOrder(b: Brief, out: Brief) {
    && (forall k :: 0 <= k < 4 ==> out.lists[k] <= b.lists[k])
    && (forall j, k :: 0 <= j < k < 4 && out.lists[k] != b.lists[k] ==> out.lists[j] == [])
  }

  lemma TrimmedOnce(b: Brief, k: nat)
    requires k < 4 && k == FirstFilled(b.lists)
    ensures TrimmedInOrder(b, Dropped(b, k))
  {
  }

  lemma TrimmedTwice(a: Brief, b: Brief, c: Brief)
    requires TrimmedInOrder(a, b) && TrimmedInOrder(b, c)
    ensures TrimmedInOrder(a, c)
  {
    forall j, k | 0 <= j < k < 4 && c.lists[k] != a.lists[k] ensures c.lists[j] == [] {
      if c.lists[k] == b.lists[k] {
        assert b.lists[j] == [] && c.lists[j] <= b.lists[j];
      }
    }
  }

  lemma {:induction false} EnforcedTrims(b: Brief)
    requires |b.goal| <= 600
    ensures TrimmedInOrder(b, Enforced(b)) && Enforced(b).goal == b.goal
    decreases Total(b.lists)
  {
    hide Encoded, Cap, TrimmedInOrder;
    var k := FirstFilled(b.lists);
    if Fits(b) {
      NothingTrimmed(b);
    } else if k < 4 {
      TotalDrops(b.lists, k);
      EnforcedTrims(Dropped(b, k));
      TrimmedOnce(b, k);
      TrimmedTwice(b, Dropped(b, k), Enforced(Dropped(b, k)));
    } else {
      NothingLeftIsSmall(b);
      assert false;
    }
  }

  /** Only a goal that does not fit on its own is shortened: with the lists emptied, to half its length but no less
      than 40 characters, and if that does not fit, to 80. */
  lemma {:induction false} LongGoalIsShortened(b: Brief)
    ensures var bare := Brief(b.goal, [[], [], [], []]); var out := Enforced(b);
      if |Encoded(bare)| <= 4000 then out.goal == b.goal
      else
        && out.lists == [[], [], [], []]
        && var half := if |b.goal| >= 80 then |b.goal| / 2 else 40;
        out.goal == if |Encoded(Brief(Cap(b.goal, half), [[], [], [], []]))| <= 4000 then Cap(b.goal, half)
                    else Cap(Cap(b.goal, half), 80)
    decreases Total(b.lists)
  {
    hide Encoded, Cap;
    var k := FirstFilled(b.lists);
    if Fits(b) {
      BareIsShorter(b);
    } else if k < 4 {
      TotalDrops(b.lists, k);
      LongGoalIsShortened(Dropped(b, k));
    } else {
      assert b.lists == [[], [], [], []];
    }
  }

  lemma BareIsShorter(b: Brief)
    ensures |Encoded(Brief(b.goal, [[], [], [], []]))| <= |Encoded(b)|
  {
    BriefSize(b);
    BriefSize(Brief(b.goal, [[], [], [], []]));
  }

  lemma NothingTrimmed(b: Brief)
    ensures TrimmedInOrder(b, b)
  {
  }

  /** The list that lost items last, if any did. */
  ghost predicate LastTrimmed(b: Brief, out: Brief, k: nat) {
    k < 4 && out.lists[k] != b.lists[k] && forall j :: k < j < 4 ==> out.lists[j] == b.lists[j]
  }

  /** The brief with the item dropped last put back. */
  function PutBack(b: Brief, out: Brief, k: nat): Brief
    requires k < 4 && |out.lists[k]| < |b.lists[k]|
  {
    out.(lists := out.lists[k := b.lists[k][..|out.lists[k]| + 1]])
  }

  /** No item is dropped needlessly: with the last one put back, the brief would not fit. */
  lemma {:induction false} EnforcedIsMaximal(b: Brief, k: nat)
    requires |b.goal| <= MAX_GOAL_CHARS && LastTrimmed(b, Enforced(b), k)
    ensures |Enforced(b).lists[k]| < |b.lists[k]|
    ensures |Encoded(PutBack(b, Enforced(b), k))| > 4000
    decreases Total(b.lists)
  {
    hide Encoded, Cap;
    EnforcedTrims(b);
    var f := FirstFilled(b.lists);
    if f < 4 {
      TotalDrops(b.lists, f);
      var next := Dropped(b, f);
      var out := Enforced(next);
      EnforcedTrims(next);
      if out.lists[k] != next.lists[k] {
        EnforcedIsMaximal(next, k);
        assert next.lists[k][..|out.lists[k]| + 1] == b.lists[k][..|out.lists[k]| + 1];
      } else {
        assert k == f;
        UntouchedMeansDone(next, k);
        assert PutBack(b, out, k).lists[k] == b.lists[k];
        assert PutBack(b, out, k).lists == b.lists;
      }
    } else {
      NothingLeftIsSmall(b);
      assert false;
    }
  }

  /** If the list that was trimmed last, and every later one, stays as it is, nothing more is trimmed. */
  lemma UntouchedMeansDone(b: Brief, k: nat)
    requires |b.goal| <= MAX_GOAL_CHARS && k < 4
    requires forall j :: 0 <= j < k ==> b.lists[j] == []
    requires forall j :: k <= j < 4 ==> Enforced(b).lists[j] == b.lists[j]
    ensures Enforced(b) == b
  {
    hide Encoded, Cap;
    EnforcedTrims(b);
    assert Enforced(b).lists == b.lists;
  }

  // ---------------------------------------------------------------- normalising

  predicate BriefSettled(b: Brief) {
    Settled(b.goal, MAX_GOAL_CHARS) && forall k :: 0 <= k < 4 ==> ListSettled(b.lists[k])
  }

  lemma CappedSettles(payload: Dict)
    ensures BriefSettled(Capped(payload))
  {
    hide CapText, CapList, ListSettled, Settled;
    CapTextSettles(Get(payload, "user_goal", Null), MAX_GOAL_CHARS);
    CapListSettles(Get(payload, LIST_KEYS[0], Null));
    CapListSettles(Get(payload, LIST_KEYS[1], Null));
    CapListSettles(Get(payload, LIST_KEYS[2], Null));
    CapListSettles(Get(payload, LIST_KEYS[3], Null));
    assert SettledGoal(Capped(payload).goal);
  }

  predicate SettledGoal(goal: string) {
    Settled(goal, MAX_GOAL_CHARS)
  }

  lemma StoredFields(b: Brief)
    ensures var d := Stored(b).fields;
      && Get(d, "user_goal", Null) == Str(b.goal)
      && forall k :: 0 <= k < 4 ==> Get(d, LIST_KEYS[k], Null) == Arr(Strs(b.lists[k]))
  {
    var d := Stored(b).fields;
    assert LIST_KEYS[0] == "preferences" && LIST_KEYS[1] == "constraints" && LIST_KEYS[2] == "decisions"
        && LIST_KEYS[3] == "open_questions";
    KeysDiffer();
  }

  lemma KeysDiffer()
    ensures "user_goal" != "preferences" && "user_goal" != "constraints" && "user_goal" != "decisions"
    ensures "user_goal" != "open_questions" && "preferences" != "constraints" && "preferences" != "decisions"
    ensures "preferences" != "open_questions" && "constraints" != "decisions" && "constraints" != "open_questions"
    ensures "decisions" != "open_questions"
  {
    assert "user_goal"[0] == 'u' && "preferences"[0] == 'p' && "constraints"[0] == 'c' && "decisions"[0] == 'd'
        && "open_questions"[0] == 'o';
  }

  lemma PrefixSettles(items: seq<string>, whole: seq<string>)
    requires ListSettled(whole) && items <= whole
    ensures ListSettled(items)
  {
  }

  lemma SettledIsFinal(b: Brief)
    requires BriefSettled(b) && Fits(b)
    ensures Normalized(Stored(b)) == b
  {
    hide CapText, CapList, ListSettled, Settled, Encoded;
    var d := Stored(b).fields;
    StoredFields(b);
    CapTextSettles(Null, MAX_GOAL_CHARS);
    forall k | 0 <= k < 4 ensures CapList(Arr(Strs(b.lists[k]))) == b.lists[k] {
      SettledListIsFinal(b.lists[k]);
    }
    assert Capped(d).lists == b.lists;
    assert Capped(d) == b;
  }

  /** Every payload normalises to a brief that fits, whose goal and lists are the capped ones, cut back
      list by list and no further than needed; and that brief normalises to itself. */
  lemma NormalizedIsSettled(payload: Json)
    ensures var capped := Capped(if payload.Obj? then payload.fields else map[]);
      var brief := Normalized(payload);
      && |Encoded(brief)| <= MAX_BRIEF_CHARS
      && brief.goal == capped.goal
      && TrimmedInOrder(capped, brief)
      && (forall k: nat :: LastTrimmed(capped, brief, k) ==>
            |brief.lists[k]| < |capped.lists[k]| && !Fits(PutBack(capped, brief, k)))
      && Normalized(Stored(brief)) == brief
  {
    hide Encoded, Capped, CapText, CapList, Enforced, Settled, ListSettled;
    var d := if payload.Obj? then payload.fields else map[];
    var capped := Capped(d);
    CappedSettles(d);
    GoalIsShort(capped);
    EnforcedFits(capped);
    EnforcedTrims(capped);
    forall k: nat | LastTrimmed(capped, Enforced(capped), k)
      ensures |Enforced(capped).lists[k]| < |capped.lists[k]| && !Fits(PutBack(capped, Enforced(capped), k))
    {
      EnforcedIsMaximal(capped, k);
    }
    forall k | 0 <= k < 4 ensures ListSettled(Enforced(capped).lists[k]) {
      PrefixSettles(Enforced(capped).lists[k], capped.lists[k]);
    }
    SettledIsFinal(Enforced(capped));
  }

  lemma GoalIsShort(b: Brief)
    requires BriefSettled(b)
    ensures |b.goal| <= MAX_GOAL_CHARS
  {
  }

  // ---------------------------------------------------------------- saving and loading

  /** The brief file of a session: absent, unreadable, or a JSON document. */
  datatype File = Missing | Unreadable | Document(json: Json)

  function Load(file: File): Brief {
    match file
    case Document(json) => Normalized(json)
    case _ => EmptyBrief()
  }

  function Save(payload: Json): (File, Brief) {
    var brief := Normalized(payload);
    (Document(Stored(brief)), brief)
  }

  /** Loading returns exactly what saving returned, and saving what was loaded changes nothing. */
  lemma SaveThenLoad(payload: Json, file: File)
    ensures Load(Save(payload).0) == Save(payload).1
    ensures Save(Stored(Load(file))).1 == Load(file)
  {
    hide Normalized;
    NormalizedIsSettled(payload);
    if file.Document? {
      NormalizedIsSettled(file.json);
    } else {
      EmptyIsSettled();
    }
  }

  lemma EmptyIsSettled()
    ensures Normalized(Stored(EmptyBrief())) == EmptyBrief()
  {
    var b := EmptyBrief();
    assert Split("") == [];
    assert BriefSettled(b) && FirstFilled(b.lists) == 4;
    NothingLeftIsSmall(b);
    SettledIsFinal(b);
  }

  // ---------------------------------------------------------------- where it all comes from

  /** The k-th member of the stored lists. */
  function MemberName(k: nat): string {
    if k == 0 then "preferences" else if k == 1 then "constraints" else if k == 2 then "decisions" else "open_questions"
  }

  /** A list of items: a list, or a text that is not blank on its own; anything else has none. */
  function ItemsOf(value: Json): seq<Json> {
    if value.Arr? then value.items else if value.Str? && Split(value.s) != [] then [value] else []
  }

  /** The text of an item in at most 280 characters. */
  function ItemText(item: Json): string {
    Cap(if Truthy(item) then PyStr(item) else "", 280)
  }

  lemma {:induction false} BlankIff(s: string)
    ensures Strip(s) == "" <==> Split(s) == []
  {
    StripLeftShape(s);
    StripRightShape(StripLeft(s));
    if StripLeft(s) != "" {
      NotBlank(StripLeft(s));
    }
  }

  lemma {:induction false} NotBlank(s: string)
    requires s != "" && !IsSpace(s[0])
    ensures StripRight(s) != ""
  {
    if IsSpace(s[|s| - 1]) {
      NotBlank(s[..|s| - 1]);
    }
  }

  lemma ListComesFrom(value: Json)
    ensures forall t :: t in CapList(value) ==> exists item :: item in ItemsOf(value) && ItemText(item) == t
    ensures |CapList(value)| <= 12 && CapList(value) <= Distinct(Texts(ItemsOf(value)))
    ensures |CapList(value)| < 12 ==>
      forall item :: item in ItemsOf(value) && ItemText(item) != "" ==> ItemText(item) in CapList(value)
  {
    if value.Str? {
      BlankIff(value.s);
    }
    var items := ItemsOf(value);
    assert ListOf(value) == items;
    var texts := Texts(items);
    forall t ensures t in Distinct(texts) <==> t in texts && t != "" {
      DistinctIff(texts, t);
    }
    forall t | t in CapList(value) ensures exists item :: item in items && ItemText(item) == t {
      assert t in Distinct(texts);
      var i :| 0 <= i < |texts| && texts[i] == t;
      assert items[i] in items && ItemText(items[i]) == t;
    }
    forall item | item in items ensures ItemText(item) in texts {
      var i :| 0 <= i < |items| && items[i] == item;
      assert texts[i] == ItemText(item);
    }
  }

  /** Normalising takes the goal and each list from the payload's member of that name: the goal capped to 600
      characters, of each list the capped texts of its items, first come first, up to twelve, and less only where
      the budget demands it. */
  lemma NormalizedComesFrom(payload: Dict, k: nat)
    requires k < 4
    ensures var out := Normalized(Obj(payload)); var goal := Get(payload, "user_goal", Null);
      var list := CapList(Get(payload, MemberName(k), Null));
      && out.goal == Cap(if Truthy(goal) then PyStr(goal) else "", 600)
      && out.lists[k] <= list
      && (Fits(Capped(payload)) ==> out.lists[k] == list)
  {
    CappedSettles(payload);
    GoalIsShort(Capped(payload));
    EnforcedTrims(Capped(payload));
  }
}
