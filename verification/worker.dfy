/** The worker's tool loop for one attempt at a milestone. Every model reply, tool result and
    failure fingerprint is an arbitrary input; when the replies run out the run is cancelled. */
module Worker {
  import opened JsonValues
  import opened Text

  datatype Limits = Limits(
    toolBudget: int,
    batchCap: int,
    autorunMax: int,
    sameFailures: int,
    consecutiveFailures: int)

  const NON_JSON_RETRIES := 3
  const SEARCH_TOOLS := "search_tools"

  datatype ToolResult = ToolResult(success: bool, signature: string, suggestHandoff: bool, tools: set<string>)

  /** One requested call: whether its name and arguments satisfy the tool's schema, the fingerprint
      of its rejection, and what running it would return. */
  datatype Call = Call(tool: string, fitsSchema: bool, rejection: string, result: ToolResult)

  datatype Turn =
    | NotJson
    | RequestScope(namesPaths: bool)
    | SignalComplete(targetsPresent: bool, dependenciesPresent: bool)
    | SignalBlocked(clarification: string)
    | NoCalls
    | Single(call: Call, contractRan: bool)
    | Batch(calls: seq<Call>, contractRan: bool)

  /** Failure counts, preserved across the retries of one milestone. */
  datatype Failures = Failures(counts: map<string, nat>, consecutive: nat)

  /** A `tool.called` event, with the tools that were available when its turn began. */
  datatype Called = Called(call: Call, available: set<string>)

  datatype Work = Work(
    calls: nat,
    nonJson: nat,
    autoruns: nat,
    failures: Failures,
    active: set<string>,
    called: seq<Called>)

  datatype Status =
    | Cancelled
    | Complete
    | ScopeRequested(namesPaths: bool)
    | Blocked(clarification: string)
    | BreakerTripped

  datatype Result = Result(status: Status, work: Work)

  // ---------------------------------------------------------------- one tool call

  datatype BatchState = BatchState(work: Work, wrote: bool, discovered: bool, tripped: bool)

  predicate Rejected(call: Call, active: set<string>) {
    !call.fitsSchema || call.tool !in active
  }

  /** Calls without a name, and calls after a discovery in the same batch, are passed over. */
  predicate Skipped(b: BatchState, call: Call) {
    call.tool == "" || b.discovered
  }

  predicate Executed(b: BatchState, call: Call) {
    !Skipped(b, call) && !Rejected(call, b.work.active)
  }

  function Count(f: Failures, signature: string): nat {
    if signature in f.counts then f.counts[signature] else 0
  }

  function Fail(f: Failures, signature: string): Failures {
    Failures(f.counts[signature := Count(f, signature) + 1], f.consecutive + 1)
  }

  predicate Trips(f: Failures, signature: string, limits: Limits) {
    Count(f, signature) >= limits.sameFailures || f.consecutive >= limits.consecutiveFailures
  }

  function Handled(b: BatchState, call: Call, limits: Limits, searcher: bool, available: set<string>): BatchState {
    var w := b.work;
    if Skipped(b, call) then b
    else if Rejected(call, w.active) then
      var f := Fail(w.failures, call.rejection);
      b.(work := w.(calls := w.calls + 1, failures := f), tripped := Trips(f, call.rejection, limits))
    else
      var search := call.tool == SEARCH_TOOLS;
      var success := call.result.success && !(search && !searcher);
      var handoff := call.tool == "inspect_ui" && !success && call.result.suggestHandoff;
      var ran := w.(calls := w.calls + 1,
                    called := w.called + [Called(call, available)],
                    active := if search && searcher then w.active + call.result.tools else w.active);
      var out := b.(discovered := search && searcher,
                    wrote := b.wrote || (call.tool in {"write_file", "patch_file"} && success));
      if success || handoff then
        out.(work := ran.(failures := ran.failures.(consecutive := 0)))
      else
        var f := Fail(w.failures, call.result.signature);
        out.(work := ran.(failures := f), tripped := Trips(f, call.result.signature, limits))
  }

  /** The batch ends early when a breaker trips, or when an executed call reaches the budget; a
      rejected call is counted but does not look at the budget. */
  predicate EndsBatch(b: BatchState, call: Call, limits: Limits, searcher: bool, available: set<string>) {
    var after := Handled(b, call, limits, searcher, available);
    after.tripped || (Executed(b, call) && after.work.calls >= limits.toolBudget)
  }

  function HandledAll(b: BatchState, calls: seq<Call>, limits: Limits, searcher: bool, available: set<string>):
    BatchState
    decreases |calls|
  {
    if calls == [] then b
    else
      var after := Handled(b, calls[0], limits, searcher, available);
      if EndsBatch(b, calls[0], limits, searcher, available) then after
      else HandledAll(after, calls[1..], limits, searcher, available)
  }

  /** `calls[:cap]` once there are more than `cap` calls, negative caps included. */
  function Capped(calls: seq<Call>, cap: int): seq<Call> {
    if |calls| <= cap then calls
    else if cap >= 0 then calls[..cap]
    else if |calls| + cap > 0 then calls[..|calls| + cap]
    else []
  }

  // ---------------------------------------------------------------- one turn

  datatype Next = Continue(work: Work) | Finish(result: Result)

  function AfterBatch(w: Work, calls: seq<Call>, contractRan: bool, limits: Limits, searcher: bool): Next {
    var b := HandledAll(BatchState(w, false, false, false), calls, limits, searcher, w.active);
    var autorun := b.wrote && b.work.autoruns < limits.autorunMax && contractRan;
    var after := if autorun then b.work.(autoruns := b.work.autoruns + 1) else b.work;
    if b.tripped then Finish(Result(BreakerTripped, after)) else Continue(after)
  }

  function AfterTurn(w0: Work, turn: Turn, limits: Limits, searcher: bool): Next {
    if turn.NotJson? then
      var w := w0.(nonJson := w0.nonJson + 1);
      if w.nonJson >= NON_JSON_RETRIES then Finish(Result(Blocked(""), w)) else Continue(w)
    else
      var w := w0.(nonJson := 0);
      match turn
      case RequestScope(namesPaths) => Finish(Result(ScopeRequested(namesPaths), w))
      case SignalComplete(targets, dependencies) =>
        if targets && dependencies then Finish(Result(Complete, w)) else Continue(w)
      case SignalBlocked(clarification) => Finish(Result(Blocked(clarification), w))
      case NoCalls => Continue(w)
      case Single(call, contractRan) => AfterBatch(w, [call], contractRan, limits, searcher)
      case Batch(calls, contractRan) =>
        if calls == [] then Continue(w)
        else AfterBatch(w, Capped(calls, limits.batchCap), contractRan, limits, searcher)
  }

  function RunFrom(w: Work, turns: seq<Turn>, targetsMissing: bool, limits: Limits, searcher: bool): Result
    decreases |turns|
  {
    if w.calls >= limits.toolBudget then
      Result(if targetsMissing then Blocked("") else Complete, w)
    else if turns == [] then Result(Cancelled, w)
    else
      match AfterTurn(w, turns[0], limits, searcher)
      case Finish(r) => r
      case Continue(next) => RunFrom(next, turns[1..], targetsMissing, limits, searcher)
  }

  function Start(active: set<string>, failures: Failures): Work {
    Work(0, 0, 0, failures, active + {SEARCH_TOOLS}, [])
  }

  /** What `run_worker` returns for one attempt. */
  function Ran(active: set<string>, failures: Failures, turns: seq<Turn>, targetsMissing: bool,
               limits: Limits, searcher: bool): Result
  {
    RunFrom(Start(active, failures), turns, targetsMissing, limits, searcher)
  }

  // ---------------------------------------------------------------- the loops

  /** A call that does not fit its schema or the active set is counted and fails. */
  method RejectCall(start: Work, call: Call, limits: Limits) returns (work: Work, tripped: bool)
    ensures work == start.(calls := start.calls + 1, failures := Fail(start.failures, call.rejection))
    ensures tripped == Trips(work.failures, call.rejection, limits)
  {
    work := start.(calls := start.calls + 1);
    work := work.(failures := Fail(work.failures, call.rejection));
    if Count(work.failures, call.rejection) >= limits.sameFailures {
      return work, true;
    }
    tripped := work.failures.consecutive >= limits.consecutiveFailures;
  }

  method ExecuteCall(start: Work, wrote0: bool, call: Call, limits: Limits, searcher: bool, available: set<string>)
    returns (work: Work, wrote: bool, discovered: bool, tripped: bool)
    requires call.tool != "" && !Rejected(call, start.active)
    ensures BatchState(work, wrote, discovered, tripped)
         == Handled(BatchState(start, wrote0, false, false), call, limits, searcher, available)
  {
    work, wrote, discovered, tripped := start, wrote0, false, false;
    var success := call.result.success;
    work := work.(called := work.called + [Called(call, available)]);
    if call.tool == SEARCH_TOOLS {
      if searcher {
        discovered := true;
        work := work.(active := work.active + call.result.tools);
      } else {
        success := false;
      }
    }
    work := work.(calls := work.calls + 1);
    if call.tool in {"write_file", "patch_file"} && success {
      wrote := true;
    }
    var handoff := call.tool == "inspect_ui" && !success && call.result.suggestHandoff;
    if success || handoff {
      work := work.(failures := work.failures.(consecutive := 0));
    } else {
      work := work.(failures := Fail(work.failures, call.result.signature));
      tripped := Trips(work.failures, call.result.signature, limits);
    }
  }

  lemma SkippedChangesNothing(b: BatchState, call: Call, limits: Limits, searcher: bool, available: set<string>)
    requires Skipped(b, call) && !b.tripped
    ensures Handled(b, call, limits, searcher, available) == b && !EndsBatch(b, call, limits, searcher, available)
  {
  }

  lemma RejectedIsHandled(b: BatchState, call: Call, limits: Limits, searcher: bool, available: set<string>)
    requires !Skipped(b, call) && Rejected(call, b.work.active)
    ensures var f := Fail(b.work.failures, call.rejection);
      Handled(b, call, limits, searcher, available)
        == b.(work := b.work.(calls := b.work.calls + 1, failures := f), tripped := Trips(f, call.rejection, limits))
    ensures EndsBatch(b, call, limits, searcher, available) <==> Handled(b, call, limits, searcher, available).tripped
  {
  }

  method RunBatch(start: Work, calls: seq<Call>, limits: Limits, searcher: bool)
    returns (work: Work, wrote: bool, tripped: bool)
    ensures var b := HandledAll(BatchState(start, false, false, false), calls, limits, searcher, start.active);
      work == b.work && wrote == b.wrote && tripped == b.tripped
  {
    hide Handled, Trips, Fail, Rejected;
    work, wrote, tripped := start, false, false;
    var discovered := false;
    var i := 0;
    while i < |calls|
      invariant 0 <= i <= |calls| && !tripped
      invariant HandledAll(BatchState(start, false, false, false), calls, limits, searcher, start.active)
             == HandledAll(BatchState(work, wrote, discovered, false), calls[i..], limits, searcher, start.active)
    {
      assert calls[i..][0] == calls[i] && calls[i..][1..] == calls[i + 1..];
      ghost var b := BatchState(work, wrote, discovered, false);
      var call := calls[i];
      i := i + 1;
      if call.tool == "" || discovered {
        SkippedChangesNothing(b, call, limits, searcher, start.active);
        continue;
      }
      if Rejected(call, work.active) {
        RejectedIsHandled(b, call, limits, searcher, start.active);
        work, tripped := RejectCall(work, call, limits);
        if tripped {
          break;
        }
        continue;
      }
      work, wrote, discovered, tripped := ExecuteCall(work, wrote, call, limits, searcher, start.active);
      if tripped || work.calls >= limits.toolBudget {
        break;
      }
    }
  }

  /** The batch, and the harness-side contract run after a write. */
  method RunCalls(start: Work, calls: seq<Call>, contractRan: bool, limits: Limits, searcher: bool)
    returns (work: Work, tripped: bool)
    ensures AfterBatch(start, calls, contractRan, limits, searcher)
         == if tripped then Finish(Result(BreakerTripped, work)) else Continue(work)
  {
    var wrote;
    work, wrote, tripped := RunBatch(start, calls, limits, searcher);
    if wrote && work.autoruns < limits.autorunMax && contractRan {
      work := work.(autoruns := work.autoruns + 1);
    }
  }

  method RunWorker(active: set<string>, failures: Failures, turns: seq<Turn>, targetsMissing: bool,
                   limits: Limits, searcher: bool) returns (r: Result)
    ensures r == Ran(active, failures, turns, targetsMissing, limits, searcher)
  {
    hide HandledAll, Capped, Start, AfterBatch;
    var work := Start(active, failures);
    var t := 0;
    while work.calls < limits.toolBudget
      invariant 0 <= t <= |turns|
      invariant Ran(active, failures, turns, targetsMissing, limits, searcher)
             == RunFrom(work, turns[t..], targetsMissing, limits, searcher)
      decreases |turns| - t
    {
      if t == |turns| {
        return Result(Cancelled, work);
      }
      assert turns[t..][0] == turns[t] && turns[t..][1..] == turns[t + 1..];
      var turn := turns[t];
      t := t + 1;
      if turn.NotJson? {
        work := work.(nonJson := work.nonJson + 1);
        if work.nonJson >= NON_JSON_RETRIES {
          return Result(Blocked(""), work);
        }
        continue;
      }
      work := work.(nonJson := 0);
      var calls: seq<Call> := [];
      match turn {
        case RequestScope(namesPaths) => return Result(ScopeRequested(namesPaths), work);
        case SignalComplete(targets, dependencies) =>
          if !targets || !dependencies {
            continue;
          }
          return Result(Complete, work);
        case SignalBlocked(clarification) => return Result(Blocked(clarification), work);
        case NoCalls => continue;
        case Single(call, _) => calls := [call];
        case Batch(raw, _) =>
          if raw == [] {
            continue;
          }
          calls := Capped(raw, limits.batchCap);
      }
      var tripped;
      work, tripped := RunCalls(work, calls, turn.contractRan, limits, searcher);
      if tripped {
        return Result(BreakerTripped, work);
      }
    }
    return Result(if targetsMissing then Blocked("") else Complete, work);
  }
}
