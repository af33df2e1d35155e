/** Running token totals of a session: every call is added to the metadata file, and saving a session
    object merges its possibly stale copy with what is on file. */
module TokenUsage {
  import opened JsonValues
  import opened Text

  datatype Usage = Usage(prompt: nat, generated: nat, calls: nat, estimated: nat)

  const ZERO := Usage(0, 0, 0, 0)
  const KEYS: seq<string> := ["prompt", "generated", "calls", "estimated_calls"]

  // ---------------------------------------------------------------- merging

  /** `int(text)`, for ASCII digits. */
  function ParseDigits(s: string): Option<nat> {
    if s == "" || !('0' <= s[|s| - 1] <= '9') then None
    else
      var last := s[|s| - 1] as int - '0' as int;
      if |s| == 1 then Some(last)
      else
        var cut := if s[|s| - 2] == '_' then |s| - 2 else |s| - 1;
        match ParseDigits(s[..cut])
        case Some(n) => Some(10 * n + last)
        case None => None
  }

  function ParseInt(s: string): Option<int> {
    var t := Strip(s);
    var signed := t != "" && (t[0] == '-' || t[0] == '+');
    match ParseDigits(if signed then t[1..] else t)
    case Some(n) =>
      var value: int := if signed && t[0] == '-' then 0 - n else n;
      Some(value)
    case None => None
  }

  /** `int(value or 0)`, or None where Python raises TypeError or ValueError. */
  function AsInt(value: Json): Option<int> {
    if !Truthy(value) then Some(0)
    else
      match value
      case Bool(_) => Some(1)
      case Num(n) => Some(n)
      case Str(s) => ParseInt(s)
      case _ => None
  }

  /** What a part contributes under a key: never less than zero. */
  function Field(part: Option<Dict>, key: string): nat {
    match part
    case None => 0
    case Some(d) =>
      var n := AsInt(Get(d, key, Null));
      if n.Some? && n.value > 0 then n.value else 0
  }

  function Reading(part: Option<Dict>): Usage {
    Usage(Field(part, KEYS[0]), Field(part, KEYS[1]), Field(part, KEYS[2]), Field(part, KEYS[3]))
  }

  function Greater(a: nat, b: nat): nat {
    if a >= b then a else b
  }

  function Max(a: Usage, b: Usage): Usage {
    Usage(Greater(a.prompt, b.prompt), Greater(a.generated, b.generated), Greater(a.calls, b.calls),
          Greater(a.estimated, b.estimated))
  }

  /** `merge_token_usage` */
  function Merged(parts: seq<Option<Dict>>): Usage {
    if parts == [] then ZERO else Max(Merged(parts[..|parts| - 1]), Reading(parts[|parts| - 1]))
  }

  function Dump(u: Usage): Dict {
    map["prompt" := Num(u.prompt), "generated" := Num(u.generated), "calls" := Num(u.calls),
        "estimated_calls" := Num(u.estimated)]
  }

  predicate AtMost(a: Usage, b: Usage) {
    a.prompt <= b.prompt && a.generated <= b.generated && a.calls <= b.calls && a.estimated <= b.estimated
  }

  function ToUsage(totals: seq<nat>): Usage
    requires |totals| == 4
  {
    Usage(totals[0], totals[1], totals[2], totals[3])
  }

  method MergeTokenUsage(parts: seq<Option<Dict>>) returns (merged: Usage)
    ensures merged == Merged(parts)
  {
    var totals: seq<nat> := [0, 0, 0, 0];
    for i := 0 to |parts|
      invariant |totals| == 4 && ToUsage(totals) == Merged(parts[..i])
    {
      assert parts[..i + 1][..i] == parts[..i];
      if parts[i].Some? {
        ghost var before := totals;
        for k := 0 to 4
          invariant |totals| == 4
          invariant forall j :: 0 <= j < k ==> totals[j] == Greater(before[j], Field(parts[i], KEYS[j]))
          invariant forall j :: k <= j < 4 ==> totals[j] == before[j]
        {
          var n := AsInt(Get(parts[i].value, KEYS[k], Null));
          if n.Some? && n.value > totals[k] {
            totals := totals[k := n.value];
          }
        }
      }
    }
    assert parts[..|parts|] == parts;
    return ToUsage(totals);
  }

  // ---------------------------------------------------------------- the metadata file

  /** A session's metadata file; the token totals are JSON as found there. */
  datatype Meta = Meta(status: string, tokens: Option<Dict>)

  /** One call into the model. */
  datatype Call = Call(prompt: int, generated: int, estimated: bool)

  function Plus(u: Usage, call: Call): Usage {
    Usage(u.prompt + (if call.prompt > 0 then call.prompt else 0),
          u.generated + (if call.generated > 0 then call.generated else 0),
          u.calls + 1,
          u.estimated + (if call.estimated then 1 else 0))
  }

  /** The totals on file; no file, or no totals in it, counts as nothing. */
  function OnFile(file: Option<Meta>): Usage {
    match file
    case None => ZERO
    case Some(meta) => Merged([meta.tokens])
  }

  class SessionContext {
    var status: string
    var usage: Usage

    constructor (status: string, usage: Usage)
      ensures this.status == status && this.usage == usage
    {
      this.status, this.usage := status, usage;
    }
  }

  class SessionStore {
    var file: Option<Meta>

    method RecordSessionTokens(call: Call) returns (current: Usage)
      modifies this
      ensures current == Plus(OnFile(old(file)), call)
      ensures file == Some(Meta(if old(file).Some? then old(file).value.status else "", Some(Dump(current))))
    {
      current := ZERO;
      var status := "";
      if file.Some? {
        status := file.value.status;
        current := MergeTokenUsage([file.value.tokens]);
      }
      current := current.(prompt := current.prompt + if call.prompt > 0 then call.prompt else 0);
      current := current.(generated := current.generated + if call.generated > 0 then call.generated else 0);
      current := current.(calls := current.calls + 1);
      if call.estimated {
        current := current.(estimated := current.estimated + 1);
      }
      file := Some(Meta(status, Some(Dump(current))));
    }

    /** The file gets the session object's fields, except that totals never go down. */
    method SaveMeta(ctx: SessionContext)
      modifies this, ctx
      ensures ctx.status == old(ctx.status)
      ensures ctx.usage == Max(OnFile(old(file)), old(ctx.usage))
      ensures file == Some(Meta(ctx.status, Some(Dump(ctx.usage))))
    {
      var existing := if file.Some? then file.value.tokens else None;
      var merged := MergeTokenUsage([existing, Some(Dump(ctx.usage))]);
      MergeOfTwo(existing, Some(Dump(ctx.usage)));
      DumpReadsBack(ctx.usage);
      ctx.usage := merged;
      file := Some(Meta(ctx.status, Some(Dump(merged))));
    }

    method UpdateStatus(ctx: SessionContext, status: string)
      modifies this, ctx
      ensures ctx.status == status
      ensures ctx.usage == Max(OnFile(old(file)), old(ctx.usage))
      ensures file == Some(Meta(status, Some(Dump(ctx.usage))))
    {
      ctx.status := status;
      SaveMeta(ctx);
    }

    method LoadSession() returns (ctx: SessionContext?)
      ensures ctx == null <==> file == None
      ensures ctx != null ==> fresh(ctx) && ctx.status == file.value.status && ctx.usage == OnFile(file)
    {
      if file == None {
        return null;
      }
      var usage := MergeTokenUsage([file.value.tokens]);
      ctx := new SessionContext(file.value.status, usage);
    }
  }

  lemma MergeOfTwo(a: Option<Dict>, b: Option<Dict>)
    ensures Merged([a, b]) == Max(Reading(a), Reading(b))
    ensures Merged([a]) == Reading(a)
  {
    assert [a, b][..1] == [a] && [a][..0] == [];
    assert Merged([a]) == Max(ZERO, Reading(a));
    assert Merged([a, b]) == Max(Merged([a]), Reading(b));
  }

  /** Totals written to the file read back as they were. */
  lemma DumpReadsBack(u: Usage)
    ensures Reading(Some(Dump(u))) == u
    ensures Merged([Some(Dump(u))]) == u
  {
    MergeOfTwo(Some(Dump(u)), None);
    assert "prompt"[0] == 'p' && "generated"[0] == 'g' && "calls"[0] == 'c' && "estimated_calls"[0] == 'e';
  }
}
