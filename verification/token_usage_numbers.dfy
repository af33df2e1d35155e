/** What counts as a number in stored totals, and what the totals of a list of calls are. */
module TokenUsageNumbers {
  import opened JsonValues
  import opened Text
  import opened TokenUsage
  import opened TokenUsageLaws

  predicate IsDigit(c: char) {
    '0' <= c <= '9'
  }

  predicate AllDigits(s: string) {
    s != "" && forall i :: 0 <= i < |s| ==> IsDigit(s[i])
  }

  /** The number that digits stand for. */
  function ValueOf(s: string): nat
    requires forall i :: 0 <= i < |s| ==> IsDigit(s[i])
  {
    if s == "" then 0
    else
      assert IsDigit(s[|s| - 1]);
      10 * ValueOf(s[..|s| - 1]) + (s[|s| - 1] as int - '0' as int)
  }

  /** Digits with single underscores between them, which do not matter. */
  predicate Grouped(s: string) {
    && s != "" && IsDigit(s[0]) && IsDigit(s[|s| - 1])
    && (forall i :: 0 <= i < |s| ==> IsDigit(s[i]) || s[i] == '_')
    && (forall i :: 0 <= i < |s| - 1 ==> !(s[i] == '_' && s[i + 1] == '_'))
  }

  function WithoutMarks(s: string): (r: string)
    ensures (forall i :: 0 <= i < |s| ==> IsDigit(s[i]) || s[i] == '_') ==> forall i :: 0 <= i < |r| ==> IsDigit(r[i])
  {
    if s == "" then ""
    else WithoutMarks(s[..|s| - 1]) + (if s[|s| - 1] == '_' then "" else [s[|s| - 1]])
  }

  lemma GroupedFront(s: string)
    requires |s| > 1 && IsDigit(s[|s| - 1])
    ensures var cut := if s[|s| - 2] == '_' then |s| - 2 else |s| - 1;
      Grouped(s) <==> cut > 0 && Grouped(s[..cut])
  {
    var cut := if s[|s| - 2] == '_' then |s| - 2 else |s| - 1;
    if cut > 0 && Grouped(s[..cut]) {
      assert forall i :: 0 <= i < cut ==> s[..cut][i] == s[i];
      forall i | 0 <= i < |s| - 1 ensures !(s[i] == '_' && s[i + 1] == '_') {
        if i + 1 < cut {
          assert !(s[..cut][i] == '_' && s[..cut][i + 1] == '_');
        }
      }
    }
  }

  lemma MarksLast(s: string)
    requires s != ""
    ensures WithoutMarks(s) == if s[|s| - 1] == '_' then WithoutMarks(s[..|s| - 1])
                               else WithoutMarks(s[..|s| - 1]) + [s[|s| - 1]]
  {
    assert WithoutMarks(s[..|s| - 1]) + "" == WithoutMarks(s[..|s| - 1]);
  }

  lemma MarksFront(s: string)
    requires |s| > 1 && IsDigit(s[|s| - 1])
    ensures var cut := if s[|s| - 2] == '_' then |s| - 2 else |s| - 1;
      WithoutMarks(s) == WithoutMarks(s[..cut]) + [s[|s| - 1]]
  {
    hide WithoutMarks;
    var front := s[..|s| - 1];
    MarksLast(s);
    MarksLast(front);
    assert front[..|front| - 1] == s[..|s| - 2];
  }

  lemma OneDigit(s: string)
    requires |s| == 1 && IsDigit(s[0])
    ensures Grouped(s) && WithoutMarks(s) == s && ValueOf(s) == s[0] as int - '0' as int
  {
    assert s[..0] == "" && [s[0]] == s;
    MarksLast(s);
    assert WithoutMarks("") == "";
    hide WithoutMarks;
  }

  lemma ValueLast(s: string, c: char)
    requires IsDigit(c) && forall i :: 0 <= i < |s| ==> IsDigit(s[i])
    ensures (forall i :: 0 <= i < |s + [c]| ==> IsDigit((s + [c])[i]))
    ensures ValueOf(s + [c]) == 10 * ValueOf(s) + (c as int - '0' as int)
  {
    assert (s + [c])[..|s|] == s;
  }

  /** Unsigned text is a number if and only if it is grouped digits, and stands for their value. */
  lemma {:induction false} DigitsIff(s: string)
    ensures ParseDigits(s).Some? <==> Grouped(s)
    ensures Grouped(s) ==> ParseDigits(s) == Some(ValueOf(WithoutMarks(s)))
    decreases |s|
  {
    if s == "" || !IsDigit(s[|s| - 1]) {
      NotGrouped(s);
    } else if |s| == 1 {
      OneDigit(s);
    } else {
      hide Grouped, WithoutMarks, ValueOf;
      var cut := if s[|s| - 2] == '_' then |s| - 2 else |s| - 1;
      GroupedFront(s);
      MarksFront(s);
      DigitsIff(s[..cut]);
      if Grouped(s) {
        AreDigits(s[..cut]);
        ValueLast(WithoutMarks(s[..cut]), s[|s| - 1]);
      }
    }
  }

  lemma NotGrouped(s: string)
    requires s == "" || !IsDigit(s[|s| - 1])
    ensures !Grouped(s)
  {
  }

  lemma AreDigits(s: string)
    requires Grouped(s)
    ensures forall i :: 0 <= i < |WithoutMarks(s)| ==> IsDigit(WithoutMarks(s)[i])
  {
  }

  /** Text is a number if and only if, without white space around it, it is grouped digits behind at most one sign;
      it is negative exactly behind a minus. */
  lemma NumberIff(s: string)
    ensures var t := Strip(s); var body := if t != "" && (t[0] == '-' || t[0] == '+') then t[1..] else t;
      && (ParseInt(s).Some? <==> Grouped(body))
      && (Grouped(body) ==>
            ParseInt(s) == Some(if t[0] == '-' then 0 - ValueOf(WithoutMarks(body)) else ValueOf(WithoutMarks(body))))
  {
    var t := Strip(s);
    DigitsIff(if t != "" && (t[0] == '-' || t[0] == '+') then t[1..] else t);
  }

  lemma {:induction false} DigitsShape(n: nat)
    ensures AllDigits(Digits(n)) && ValueOf(Digits(n)) == n
    ensures n > 0 ==> Digits(n)[0] != '0'
  {
    if n < 10 {
      assert Digits(n)[..0] == "";
    } else {
      DigitsShape(n / 10);
      ValueLast(Digits(n / 10), "0123456789"[n % 10]);
    }
  }

  lemma {:induction false} NoMarks(s: string)
    requires forall i :: 0 <= i < |s| ==> IsDigit(s[i])
    ensures WithoutMarks(s) == s
  {
    if s != "" {
      NoMarks(s[..|s| - 1]);
      assert s == s[..|s| - 1] + [s[|s| - 1]];
    }
  }

  lemma PlainDigits(s: string)
    requires AllDigits(s)
    ensures Grouped(s) && WithoutMarks(s) == s && Trimmed(s) && Trimmed("-" + s)
    ensures s[0] != '-' && s[0] != '+'
  {
    NoMarks(s);
    assert ("-" + s)[|s|] == s[|s| - 1];
  }

  lemma UnsignedIs(s: string, n: nat)
    requires Trimmed(s) && Grouped(s) && s[0] != '-' && s[0] != '+'
    requires (forall i :: 0 <= i < |WithoutMarks(s)| ==> IsDigit(WithoutMarks(s)[i])) && ValueOf(WithoutMarks(s)) == n
    ensures ParseInt(s) == Some(n)
  {
    StripTrims(s);
    DigitsIff(s);
    hide Grouped, WithoutMarks, ValueOf, ParseDigits, Strip, Trimmed;
  }

  lemma NegativeIs(s: string, n: nat)
    requires Trimmed("-" + s) && Grouped(s)
    requires (forall i :: 0 <= i < |WithoutMarks(s)| ==> IsDigit(WithoutMarks(s)[i])) && ValueOf(WithoutMarks(s)) == n
    ensures ParseInt("-" + s) == Some(0 - n)
  {
    StripTrims("-" + s);
    DigitsIff(s);
    hide Grouped, WithoutMarks, ValueOf, ParseDigits, Strip, Trimmed;
    assert ("-" + s)[1..] == s;
  }

  lemma DigitsReadBack(n: nat)
    ensures ParseInt(Digits(n)) == Some(n) && ParseInt("-" + Digits(n)) == Some(0 - n)
  {
    DigitsShape(n);
    PlainDigits(Digits(n));
    hide Digits, Grouped, WithoutMarks, ValueOf, AllDigits, ParseInt, Trimmed;
    UnsignedIs(Digits(n), n);
    NegativeIs(Digits(n), n);
  }

  /** Every integer reads back from its decimal text. */
  lemma DecimalReadsBack(n: int)
    ensures ParseInt(Decimal(n)) == Some(n)
  {
    hide Digits, ParseInt;
    DigitsReadBack(if n < 0 then -n else n);
  }

  /** A stored value adds to a total if and only if it is a positive number, `true`, or text for a positive
      number. */
  lemma FieldIff(part: Dict, key: string)
    ensures var value := Get(part, key, Null);
      Field(Some(part), key) ==
        if value.Num? && value.n > 0 then value.n
        else if value == Bool(true) then 1
        else if value.Str? && ParseInt(value.s).Some? && ParseInt(value.s).value > 0 then ParseInt(value.s).value
        else 0
  {
    NumberIff("");
    assert Strip("") == "";
  }

  /** The parts of a reading come from the members of those names. */
  lemma ReadingComesFrom(part: Dict)
    ensures Reading(Some(part)) == Usage(Field(Some(part), "prompt"), Field(Some(part), "generated"),
                                         Field(Some(part), "calls"), Field(Some(part), "estimated_calls"))
    ensures Reading(None) == Usage(0, 0, 0, 0)
  {
  }

  // ---------------------------------------------------------------- sums

  function Positive(n: int): nat {
    if n > 0 then n else 0
  }

  function PromptTotal(calls: seq<Call>): nat {
    if calls == [] then 0 else Positive(calls[0].prompt) + PromptTotal(calls[1..])
  }

  function GeneratedTotal(calls: seq<Call>): nat {
    if calls == [] then 0 else Positive(calls[0].generated) + GeneratedTotal(calls[1..])
  }

  function EstimatedTotal(calls: seq<Call>): nat {
    if calls == [] then 0 else (if calls[0].estimated then 1 else 0) + EstimatedTotal(calls[1..])
  }

  lemma {:induction false} TotalsLast(calls: seq<Call>, call: Call)
    ensures PromptTotal(calls + [call]) == PromptTotal(calls) + Positive(call.prompt)
    ensures GeneratedTotal(calls + [call]) == GeneratedTotal(calls) + Positive(call.generated)
    ensures EstimatedTotal(calls + [call]) == EstimatedTotal(calls) + (if call.estimated then 1 else 0)
  {
    if calls == [] {
      assert calls + [call] == [call] && [call][1..] == [];
    } else {
      assert (calls + [call])[0] == calls[0] && (calls + [call])[1..] == calls[1..] + [call];
      TotalsLast(calls[1..], call);
    }
  }

  /** The totals of a list of calls: what was positive of prompts and generations, the number of calls, and of
      those estimated. */
  lemma {:induction false} SumIs(calls: seq<Call>)
    ensures Sum(calls) == Usage(PromptTotal(calls), GeneratedTotal(calls), |calls|, EstimatedTotal(calls))
  {
    if calls != [] {
      var front, last := calls[..|calls| - 1], calls[|calls| - 1];
      SumIs(front);
      TotalsLast(front, last);
      assert calls == front + [last];
    }
  }

  /** A file's totals are those it holds, and none without a file. */
  lemma OnFileIs(file: Option<Meta>)
    ensures OnFile(file) == match file case None => Usage(0, 0, 0, 0) case Some(meta) => Reading(meta.tokens)
  {
    if file.Some? {
      MergeOfTwo(file.value.tokens, None);
    }
  }
}
