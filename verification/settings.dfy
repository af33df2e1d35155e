/** Settings: patches are merged deeply, and API keys are kept in a store of their own. */
module Settings {
  import opened JsonValues

  const MODELS_BY_ROLE := "models_by_role"

  // ---------------------------------------------------------------- deep merge

  /** Two objects are merged member by member, except the models chosen per role, which are replaced. */
  predicate Nested(base: Dict, patch: Dict, key: string) {
    key in base && key in patch && base[key].Obj? && patch[key].Obj? && key != MODELS_BY_ROLE
  }

  /** `_deep_merge`, extended to values that are not objects: there the patch replaces the base. */
  function Merge(base: Json, patch: Json): Json
    decreases patch
  {
    if !base.Obj? || !patch.Obj? then patch
    else
      Obj(map key | key in base.fields.Keys + patch.fields.Keys ::
            if Nested(base.fields, patch.fields, key) then Merge(base.fields[key], patch.fields[key])
            else if key in patch.fields then patch.fields[key]
            else base.fields[key])
  }

  method DeepMerge(base: Json, patch: Json) returns (out: Dict)
    requires base.Obj? && patch.Obj?
    ensures Obj(out) == Merge(base, patch)
    decreases patch
  {
    out := base.fields;
    var keys := patch.fields.Keys;
    var done: set<string> := {};
    while keys != {}
      invariant keys + done == patch.fields.Keys && keys !! done
      invariant out.Keys == base.fields.Keys + done
      invariant forall key :: key in out && key !in done ==> out[key] == base.fields[key]
      invariant forall key :: key in done ==> out[key] == Merge(base, patch).fields[key]
      decreases keys
    {
      var key :| key in keys;
      var value := patch.fields[key];
      if key in out && out[key].Obj? && value.Obj? && key != MODELS_BY_ROLE {
        assert Nested(base.fields, patch.fields, key);
        var inner := DeepMerge(out[key], value);
        out := out[key := Obj(inner)];
      } else {
        out := out[key := value];
      }
      keys, done := keys - {key}, done + {key};
    }
  }

  /** The patch has been applied: every value it sets is there. */
  ghost predicate Applied(value: Json, patch: Json)
    decreases patch
  {
    if !value.Obj? || !patch.Obj? then value == patch
    else
      forall key :: key in patch.fields ==>
        && key in value.fields
        && (if Nested(value.fields, patch.fields, key) then Applied(value.fields[key], patch.fields[key])
            else value.fields[key] == patch.fields[key])
  }

  lemma {:induction false} AppliedToItself(patch: Json)
    ensures Applied(patch, patch)
    decreases patch
  {
    if patch.Obj? {
      forall key | key in patch.fields && Nested(patch.fields, patch.fields, key)
        ensures Applied(patch.fields[key], patch.fields[key])
      {
        AppliedToItself(patch.fields[key]);
      }
    }
  }

  lemma {:induction false} MergeApplies(base: Json, patch: Json)
    ensures Applied(Merge(base, patch), patch)
    decreases patch
  {
    if base.Obj? && patch.Obj? {
      var out := Merge(base, patch);
      forall key | key in patch.fields
        ensures key in out.fields
        ensures if Nested(out.fields, patch.fields, key) then Applied(out.fields[key], patch.fields[key])
                else out.fields[key] == patch.fields[key]
      {
        if Nested(base.fields, patch.fields, key) {
          MergeApplies(base.fields[key], patch.fields[key]);
        } else {
          AppliedToItself(patch.fields[key]);
        }
      }
    } else {
      AppliedToItself(patch);
    }
  }

  /** A patch changes nothing exactly when everything it sets is already there. */
  lemma {:induction false} MergeIsIdentityIff(base: Json, patch: Json)
    ensures Merge(base, patch) == base <==> Applied(base, patch)
    decreases patch
  {
    if base.Obj? && patch.Obj? {
      var out := Merge(base, patch).fields;
      forall key | key in patch.fields && Nested(base.fields, patch.fields, key)
        ensures out[key] == base.fields[key] <==> Applied(base.fields[key], patch.fields[key])
      {
        MergeIsIdentityIff(base.fields[key], patch.fields[key]);
      }
      if Applied(base, patch) {
        assert out.Keys == base.fields.Keys;
        forall key | key in out ensures out[key] == base.fields[key] {
        }
        assert out == base.fields;
      }
      if out == base.fields {
        forall key | key in patch.fields
          ensures key in base.fields
          ensures if Nested(base.fields, patch.fields, key) then Applied(base.fields[key], patch.fields[key])
                  else base.fields[key] == patch.fields[key]
        {
          assert key in out;
        }
      }
    }
  }

  /** Applying a patch twice is applying it once. */
  lemma MergeTwice(base: Json, patch: Json)
    ensures Merge(Merge(base, patch), patch) == Merge(base, patch)
  {
    MergeApplies(base, patch);
    MergeIsIdentityIff(Merge(base, patch), patch);
  }

  // ---------------------------------------------------------------- what a patch leaves alone

  function Lookup(value: Json, path: seq<string>): Option<Json> {
    if path == [] then Some(value)
    else if value.Obj? && path[0] in value.fields then Lookup(value.fields[path[0]], path[1..])
    else None
  }

  /** The patch says nothing about this path: it ends before it, and not inside the models per role, which
      are replaced as a whole. */
  predicate Silent(patch: Json, path: seq<string>) {
    patch.Obj? && path != [] &&
    (path[0] in patch.fields ==> path[0] != "models_by_role" && Silent(patch.fields[path[0]], path[1..]))
  }

  lemma {:induction false} SilentPathStays(base: Json, patch: Json, path: seq<string>)
    requires base.Obj? && Silent(patch, path)
    ensures Lookup(Merge(base, patch), path) == Lookup(base, path)
    decreases path
  {
    var key, rest := path[0], path[1..];
    if Nested(base.fields, patch.fields, key) {
      SilentPathStays(base.fields[key], patch.fields[key], rest);
    } else if key in patch.fields {
      assert Lookup(patch.fields[key], rest) == None by {
        NothingWhereSilent(patch.fields[key], rest);
      }
    }
  }

  lemma {:induction false} NothingWhereSilent(patch: Json, path: seq<string>)
    requires Silent(patch, path)
    ensures Lookup(patch, path) == None
  {
    if path[0] in patch.fields {
      NothingWhereSilent(patch.fields[path[0]], path[1..]);
    }
  }

  /** Nested objects with one value at the end of the path. */
  function Chain(path: seq<string>, value: Json): Json {
    if path == [] then value else Obj(map[path[0] := Chain(path[1..], value)])
  }

  lemma {:induction false} SpokenPathMoves(patch: Json, path: seq<string>, value: Json)
    requires patch.Obj? && path != [] && !Silent(patch, path)
    requires !value.Obj? && Lookup(patch, path) != Some(value)
    ensures Lookup(Chain(path, value), path) == Some(value)
    ensures Lookup(Merge(Chain(path, value), patch), path) != Some(value)
  {
    var key, rest := path[0], path[1..];
    ChainEnds(path, value);
    if rest != [] && patch.fields[key].Obj? && key != MODELS_BY_ROLE {
      SpokenPathMoves(patch.fields[key], rest, value);
    }
  }

  lemma {:induction false} ChainEnds(path: seq<string>, value: Json)
    ensures Lookup(Chain(path, value), path) == Some(value)
  {
    if path != [] {
      ChainEnds(path[1..], value);
    }
  }

  /** A patch leaves what is at a path as it was in all settings, present or not, if and only if it is
      silent about the path. */
  lemma MergeLeavesPathIff(patch: Json, path: seq<string>)
    requires patch.Obj? && path != []
    ensures Silent(patch, path) <==>
      forall base: Json :: base.Obj? ==> Lookup(Merge(base, patch), path) == Lookup(base, path)
  {
    if Silent(patch, path) {
      forall base: Json | base.Obj? ensures Lookup(Merge(base, patch), path) == Lookup(base, path) {
        SilentPathStays(base, patch, path);
      }
    } else {
      var value := if Lookup(patch, path) == Some(Num(0)) then Num(1) else Num(0);
      SpokenPathMoves(patch, path, value);
    }
  }
}
