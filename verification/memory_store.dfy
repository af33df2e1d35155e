/** The session's memory store: completed milestones per plan, and the recent validator failures. */
module MemoryStore {
  import opened JsonValues

  datatype Failure = Failure(timestamp: string, filePath: string, payload: string)

  /** The stored JSON document; `legacy` holds milestones written without a plan id. */
  datatype Store = Store(plans: map<string, map<string, Dict>>, legacy: map<string, Dict>, errors: seq<Failure>)

  const EMPTY := Store(map[], map[], [])
  const MAX_ERRORS := 50

  /** An unreadable file is read as an empty store. */
  function Loaded(file: Option<Store>): Store {
    match file
    case Some(store) => store
    case None => EMPTY
  }

  /** The plan id given, else the one in the metadata, else none. */
  function PlanKey(planId: string, meta: Dict): string {
    if planId != "" then planId
    else
      var plan, mission := Get(meta, "plan_id", Null), Get(meta, "mission_id", Null);
      if Truthy(plan) then PyStr(plan) else if Truthy(mission) then PyStr(mission) else ""
  }

  /** What is stored for a milestone: metadata fields come last, so they win. */
  function EntryOf(status: string, now: string, meta: Dict): Dict {
    map["status" := Str(status), "updated_at" := Str(now)] + (meta - {"error_log"})
  }

  function Put(store: Store, plan: string, key: string, entry: Dict): Store {
    if plan == "" then store.(legacy := store.legacy[key := entry])
    else
      var known := if plan in store.plans then store.plans[plan] else map[];
      store.(plans := store.plans[plan := known[key := entry]])
  }

  function Found(store: Store, plan: string, key: string): Option<Dict> {
    if plan == "" then (if key in store.legacy then Some(store.legacy[key]) else None)
    else if plan in store.plans && key in store.plans[plan] then Some(store.plans[plan][key])
    else None
  }

  function LastErrors(errors: seq<Failure>): seq<Failure> {
    if |errors| <= MAX_ERRORS then errors else errors[|errors| - MAX_ERRORS..]
  }

  class MissionMemory {
    var file: Option<Store>

    /** `_ensure_store`: a missing file is created; an unreadable one is replaced by an empty store. */
    constructor (existing: Option<Store>)
      ensures file == Some(Loaded(existing))
    {
      file := Some(match existing case Some(store) => store case None => EMPTY);
    }

    method LogMilestoneState(key: string, meta: Dict, status: string, planId: string, now: string)
      modifies this
      ensures file == Some(Put(Loaded(old(file)), PlanKey(planId, meta), key, EntryOf(status, now, meta)))
    {
      var plan := planId;
      if plan == "" {
        plan := PlanKey("", meta);
      }
      var store := Loaded(file);
      var entry: Dict := map["status" := Str(status)];
      entry := entry["updated_at" := Str(now)];
      entry := entry + (meta - {"error_log"});
      assert entry == EntryOf(status, now, meta);
      if plan != "" {
        var milestones := map[];
        if plan in store.plans {
          milestones := store.plans[plan];
        }
        milestones := milestones[key := entry];
        store := store.(plans := store.plans[plan := milestones]);
      } else {
        store := store.(legacy := store.legacy[key := entry]);
      }
      file := Some(store);
    }

    method CheckResumePoint(key: string, planId: string) returns (entry: Option<Dict>)
      ensures entry == Found(Loaded(file), planId, key)
    {
      var store := Loaded(file);
      if planId != "" {
        if planId !in store.plans || key !in store.plans[planId] {
          return None;
        }
        return Some(store.plans[planId][key]);
      }
      return if key in store.legacy then Some(store.legacy[key]) else None;
    }

    method LogCompilationFailure(failure: Failure)
      modifies this
      ensures file == Some(Loaded(old(file)).(errors := LastErrors(Loaded(old(file)).errors + [failure])))
    {
      var store := Loaded(file);
      var errors := store.errors + [failure];
      if |errors| > MAX_ERRORS {
        errors := errors[|errors| - MAX_ERRORS..];
      }
      file := Some(store.(errors := errors));
    }

    method ClearErrorLog()
      modifies this
      ensures file == Some(Loaded(old(file)).(errors := []))
    {
      file := Some(Loaded(file).(errors := []));
    }
  }

  // ---------------------------------------------------------------- what a session can rely on

  datatype Op =
    | LogState(key: string, meta: Dict, status: string, planId: string, now: string)
    | LogFailure(failure: Failure)
    | ClearErrors

  function Did(store: Store, op: Op): Store {
    match op
    case LogState(key, meta, status, planId, now) => Put(store, PlanKey(planId, meta), key, EntryOf(status, now, meta))
    case LogFailure(failure) => store.(errors := LastErrors(store.errors + [failure]))
    case ClearErrors => store.(errors := [])
  }

  function DidAll(store: Store, ops: seq<Op>): Store {
    if ops == [] then store else Did(DidAll(store, ops[..|ops| - 1]), ops[|ops| - 1])
  }

  /** The last thing that was logged for this milestone under this plan. */
  ghost predicate LastLog(ops: seq<Op>, i: nat, plan: string, key: string)
  {
    && i < |ops|
    && ops[i].LogState? && PlanKey(ops[i].planId, ops[i].meta) == plan && ops[i].key == key
    && forall j :: i < j < |ops| ==>
        !(ops[j].LogState? && PlanKey(ops[j].planId, ops[j].meta) == plan && ops[j].key == key)
  }

  lemma FoundAfterPut(store: Store, plan: string, key: string, entry: Dict, plan': string, key': string)
    ensures Found(Put(store, plan, key, entry), plan', key') ==
            if plan == plan' && key == key' then Some(entry) else Found(store, plan', key')
  {
  }

  lemma FoundAfterOp(store: Store, op: Op, plan: string, key: string)
    ensures Found(Did(store, op), plan, key) ==
            if op.LogState? && PlanKey(op.planId, op.meta) == plan && op.key == key
            then Some(EntryOf(op.status, op.now, op.meta)) else Found(store, plan, key)
  {
    if op.LogState? {
      FoundAfterPut(store, PlanKey(op.planId, op.meta), op.key, EntryOf(op.status, op.now, op.meta), plan, key);
    }
  }

  lemma LastLogOfFront(ops: seq<Op>, i: nat, plan: string, key: string)
    requires ops != []
    requires var op := ops[|ops| - 1]; !(op.LogState? && PlanKey(op.planId, op.meta) == plan && op.key == key)
    ensures LastLog(ops, i, plan, key) <==> LastLog(ops[..|ops| - 1], i, plan, key)
  {
    var front := ops[..|ops| - 1];
    assert forall j :: 0 <= j < |front| ==> front[j] == ops[j];
  }

  /** Whatever was logged in between, failures and other milestones included, a look-up returns what was
      logged last for that milestone under that plan, and nothing if nothing was. */
  lemma {:induction false} FindsTheLastLog(ops: seq<Op>, plan: string, key: string)
    ensures var found := Found(DidAll(EMPTY, ops), plan, key);
      && (found.None? <==> !exists i: nat :: LastLog(ops, i, plan, key))
      && forall i: nat :: LastLog(ops, i, plan, key) ==> found == Some(EntryOf(ops[i].status, ops[i].now, ops[i].meta))
  {
    hide Found, Did, PlanKey, EntryOf;
    if ops == [] {
      NothingFound(plan, key);
    } else {
      var front, last := ops[..|ops| - 1], |ops| - 1;
      FindsTheLastLog(front, plan, key);
      FoundAfterOp(DidAll(EMPTY, front), ops[last], plan, key);
      if ops[last].LogState? && PlanKey(ops[last].planId, ops[last].meta) == plan && ops[last].key == key {
        assert LastLog(ops, last, plan, key);
      } else {
        forall i: nat ensures LastLog(ops, i, plan, key) <==> LastLog(front, i, plan, key) {
          LastLogOfFront(ops, i, plan, key);
        }
        assert forall i: nat :: LastLog(ops, i, plan, key) ==> ops[i] == front[i];
      }
    }
  }

  lemma NothingFound(plan: string, key: string)
    ensures Found(EMPTY, plan, key) == None
  {
  }

  function Failures(ops: seq<Op>): seq<Failure> {
    if ops == [] then []
    else
      var before := Failures(ops[..|ops| - 1]);
      match ops[|ops| - 1]
      case LogFailure(failure) => before + [failure]
      case ClearErrors => []
      case LogState(_, _, _, _, _) => before
  }

  /** The error log is always the last fifty failures since it was last cleared. */
  lemma {:induction false} ErrorLogIsTheTail(ops: seq<Op>)
    ensures DidAll(EMPTY, ops).errors == LastErrors(Failures(ops))
    ensures var all := Failures(ops); var log := DidAll(EMPTY, ops).errors;
      && |log| == (if |all| <= 50 then |all| else 50)
      && log == all[|all| - |log|..]
  {
    if ops != [] {
      ErrorLogIsTheTail(ops[..|ops| - 1]);
      TailOfTail(Failures(ops[..|ops| - 1]), ops[|ops| - 1]);
    }
  }

  lemma TailOfTail(errors: seq<Failure>, op: Op)
    ensures op.LogFailure? ==> LastErrors(LastErrors(errors) + [op.failure]) == LastErrors(errors + [op.failure])
  {
  }

  /** Where a milestone's state goes: under the plan given, else under the one its metadata names, else under the
      mission it names, else to the part without a plan. */
  lemma PlanKeyIs(planId: string, meta: Dict)
    ensures planId != "" ==> PlanKey(planId, meta) == planId
    ensures planId == "" && "plan_id" in meta && Truthy(meta["plan_id"]) ==>
      PlanKey(planId, meta) == PyStr(meta["plan_id"])
    ensures planId == "" && !("plan_id" in meta && Truthy(meta["plan_id"])) ==>
      PlanKey(planId, meta)
        == if "mission_id" in meta && Truthy(meta["mission_id"]) then PyStr(meta["mission_id"]) else ""
  {
  }

  /** What is stored: every field of the metadata as it is, except the error log; the status and the time where the
      metadata has no such field. */
  lemma EntryIs(status: string, now: string, meta: Dict, field: string)
    ensures var entry := EntryOf(status, now, meta);
      if field in meta && field != "error_log" then field in entry && entry[field] == meta[field]
      else if field == "status" then field in entry && entry[field] == Str(status)
      else if field == "updated_at" then field in entry && entry[field] == Str(now)
      else field !in entry
  {
  }
}
