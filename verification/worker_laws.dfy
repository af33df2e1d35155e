/** What the tool loop guarantees for every sequence of model replies and tool results. */
module WorkerLaws {
  import opened JsonValues
  import opened Worker

  // ---------------------------------------------------------------- failure breakers

  /** Neither breaker has been reached. */
  ghost predicate Healthy(f: Failures, limits: Limits) {
    && (forall s :: s in f.counts ==> f.counts[s] < limits.sameFailures)
    && f.consecutive < limits.consecutiveFailures
  }

  lemma FailHealthyIff(f: Failures, signature: string, limits: Limits)
    requires Healthy(f, limits)
    ensures Healthy(Fail(f, signature), limits) <==> !Trips(Fail(f, signature), signature, limits)
  {
    var g := Fail(f, signature);
    assert forall s :: s in g.counts && s != signature ==> g.counts[s] == f.counts[s];
  }

  lemma HandledHealthyIff(b: BatchState, call: Call, limits: Limits, searcher: bool, available: set<string>)
    requires Healthy(b.work.failures, limits) && !b.tripped
    ensures var after := Handled(b, call, limits, searcher, available);
      Healthy(after.work.failures, limits) <==> !after.tripped
  {
    FailHealthyIff(b.work.failures, call.rejection, limits);
    FailHealthyIff(b.work.failures, call.result.signature, limits);
  }

  lemma {:induction false} HandledAllHealthyIff(b: BatchState, calls: seq<Call>, limits: Limits, searcher: bool,
                                                available: set<string>)
    requires Healthy(b.work.failures, limits) && !b.tripped
    ensures var after := HandledAll(b, calls, limits, searcher, available);
      Healthy(after.work.failures, limits) <==> !after.tripped
    decreases |calls|
  {
    if calls != [] {
      HandledHealthyIff(b, calls[0], limits, searcher, available);
      if !EndsBatch(b, calls[0], limits, searcher, available) {
        HandledAllHealthyIff(Handled(b, calls[0], limits, searcher, available), calls[1..], limits, searcher,
            available);
      }
    }
  }

  ghost predicate NextHealthyIff(next: Next, limits: Limits) {
    match next
    case Continue(w) => Healthy(w.failures, limits)
    case Finish(r) => Healthy(r.work.failures, limits) <==> !r.status.BreakerTripped?
  }

  lemma AfterTurnHealthyIff(w: Work, turn: Turn, limits: Limits, searcher: bool)
    requires Healthy(w.failures, limits)
    ensures NextHealthyIff(AfterTurn(w, turn, limits, searcher), limits)
  {
    var w' := w.(nonJson := 0);
    var b := BatchState(w', false, false, false);
    match turn {
      case Single(call, _) => HandledAllHealthyIff(b, [call], limits, searcher, w'.active);
      case Batch(calls, _) => HandledAllHealthyIff(b, Capped(calls, limits.batchCap), limits, searcher, w'.active);
      case _ =>
    }
  }

  /** A run that starts below both caps ends above one of them exactly when it reports a tripped
      breaker. */
  lemma {:induction false} BreakerTripsIff(w: Work, turns: seq<Turn>, targetsMissing: bool, limits: Limits,
                                           searcher: bool)
    requires Healthy(w.failures, limits)
    ensures var r := RunFrom(w, turns, targetsMissing, limits, searcher);
      Healthy(r.work.failures, limits) <==> !r.status.BreakerTripped?
    decreases |turns|
  {
    if w.calls < limits.toolBudget && turns != [] {
      AfterTurnHealthyIff(w, turns[0], limits, searcher);
      match AfterTurn(w, turns[0], limits, searcher) {
        case Finish(_) =>
        case Continue(next) => BreakerTripsIff(next, turns[1..], targetsMissing, limits, searcher);
      }
    }
  }

  // ---------------------------------------------------------------- the loop head

  /** The worker's state at the n-th model call, if it gets that far. */
  function Head(w: Work, turns: seq<Turn>, n: nat, limits: Limits, searcher: bool): Option<Work>
    decreases n
  {
    if w.calls >= limits.toolBudget then None
    else if n == 0 then Some(w)
    else if turns == [] then None
    else
      match AfterTurn(w, turns[0], limits, searcher)
      case Finish(_) => None
      case Continue(next) => Head(next, turns[1..], n - 1, limits, searcher)
  }

  /** At every model call both failure breakers are below their caps. */
  lemma {:induction false} HeadIsHealthy(w: Work, turns: seq<Turn>, n: nat, limits: Limits, searcher: bool)
    requires Healthy(w.failures, limits)
    ensures Head(w, turns, n, limits, searcher).Some? ==>
      Healthy(Head(w, turns, n, limits, searcher).value.failures, limits)
    decreases n
  {
    if w.calls < limits.toolBudget && n > 0 && turns != [] {
      AfterTurnHealthyIff(w, turns[0], limits, searcher);
      match AfterTurn(w, turns[0], limits, searcher) {
        case Finish(_) =>
        case Continue(next) => HeadIsHealthy(next, turns[1..], n - 1, limits, searcher);
      }
    }
  }

  // ---------------------------------------------------------------- budgets

  function Max(a: int, b: int): int {
    if a < b then b else a
  }

  function Min(a: int, b: int): int {
    if a < b then a else b
  }

  /** The most calls one batch can have handled. */
  function Overshoot(limits: Limits): int {
    if limits.batchCap >= 0 then Min(Max(1, limits.batchCap), Max(1, limits.consecutiveFailures))
    else Max(1, limits.consecutiveFailures)
  }

  /** Once the budget is used up, every further counted call was a rejection in a row. */
  ghost predicate WithinBudget(b: BatchState, limits: Limits) {
    b.work.calls >= limits.toolBudget ==> b.work.calls - limits.toolBudget < b.work.failures.consecutive
  }

  lemma {:induction false} BatchCallsBound(b: BatchState, calls: seq<Call>, limits: Limits, searcher: bool,
                                           available: set<string>)
    requires !b.tripped && WithinBudget(b, limits) && Healthy(b.work.failures, limits)
    ensures var after := HandledAll(b, calls, limits, searcher, available);
      && b.work.calls <= after.work.calls <= b.work.calls + |calls|
      && after.work.calls <= Max(b.work.calls, limits.toolBudget - 1 + Max(1, limits.consecutiveFailures))
    decreases |calls|
  {
    if calls != [] {
      var after := Handled(b, calls[0], limits, searcher, available);
      HandledHealthyIff(b, calls[0], limits, searcher, available);
      if !EndsBatch(b, calls[0], limits, searcher, available) {
        BatchCallsBound(after, calls[1..], limits, searcher, available);
      }
    }
  }

  lemma TurnCallsBound(w: Work, turn: Turn, limits: Limits, searcher: bool)
    requires w.calls < limits.toolBudget && Healthy(w.failures, limits)
    ensures match AfterTurn(w, turn, limits, searcher)
      case Continue(next) => w.calls <= next.calls <= limits.toolBudget - 1 + Overshoot(limits)
      case Finish(r) => w.calls <= r.work.calls <= limits.toolBudget - 1 + Overshoot(limits)
  {
    var w' := w.(nonJson := 0);
    var b := BatchState(w', false, false, false);
    match turn {
      case Single(call, _) => BatchCallsBound(b, [call], limits, searcher, w'.active);
      case Batch(calls, _) => BatchCallsBound(b, Capped(calls, limits.batchCap), limits, searcher, w'.active);
      case _ =>
    }
  }

  lemma {:induction false} CallsBoundFrom(w: Work, turns: seq<Turn>, targetsMissing: bool, limits: Limits,
                                          searcher: bool)
    requires Healthy(w.failures, limits)
    ensures RunFrom(w, turns, targetsMissing, limits, searcher).work.calls
         <= Max(w.calls, limits.toolBudget - 1 + Overshoot(limits))
    decreases |turns|
  {
    if w.calls < limits.toolBudget && turns != [] {
      AfterTurnHealthyIff(w, turns[0], limits, searcher);
      TurnCallsBound(w, turns[0], limits, searcher);
      match AfterTurn(w, turns[0], limits, searcher) {
        case Finish(_) =>
        case Continue(next) => CallsBoundFrom(next, turns[1..], targetsMissing, limits, searcher);
      }
    }
  }

  /** One worker run counts at most budget - 1 calls plus one batch, and what one batch can add is
      capped by the batch size and by the consecutive-failure breaker, whichever is smaller. */
  lemma ToolCallsBound(active: set<string>, failures: Failures, turns: seq<Turn>, targetsMissing: bool,
                       limits: Limits, searcher: bool)
    requires Healthy(failures, limits)
    ensures Ran(active, failures, turns, targetsMissing, limits, searcher).work.calls
         <= Max(0, limits.toolBudget - 1 + Overshoot(limits))
  {
    CallsBoundFrom(Start(active, failures), turns, targetsMissing, limits, searcher);
  }

  /** Harness-side contract runs stay within their cap. */
  lemma {:induction false} AutorunsBound(w: Work, turns: seq<Turn>, targetsMissing: bool, limits: Limits,
                                         searcher: bool)
    requires w.autoruns <= Max(0, limits.autorunMax)
    ensures RunFrom(w, turns, targetsMissing, limits, searcher).work.autoruns <= Max(0, limits.autorunMax)
    decreases |turns|
  {
    if w.calls < limits.toolBudget && turns != [] {
      TurnKeeps(w, turns[0], limits, searcher);
      match AfterTurn(w, turns[0], limits, searcher) {
        case Finish(_) =>
        case Continue(next) => AutorunsBound(next, turns[1..], targetsMissing, limits, searcher);
      }
    }
  }

  // ---------------------------------------------------------------- tool discovery

  /** Every logged call ran a tool that was available when its turn began. */
  ghost predicate CallsWereAvailable(called: seq<Called>) {
    forall i :: 0 <= i < |called| ==> called[i].call.tool in called[i].available
  }

  /** Until a discovery, the active set is the one the turn began with. */
  ghost predicate TurnActive(b: BatchState, available: set<string>) {
    !b.discovered ==> b.work.active == available
  }

  lemma {:induction false} BatchKeeps(b: BatchState, calls: seq<Call>, limits: Limits, searcher: bool,
                                      available: set<string>)
    requires TurnActive(b, available)
    ensures var after := HandledAll(b, calls, limits, searcher, available);
      && (CallsWereAvailable(b.work.called) ==> CallsWereAvailable(after.work.called))
      && b.work.active <= after.work.active
      && b.work.called <= after.work.called
      && after.work.autoruns == b.work.autoruns
      && |after.work.called| - |b.work.called| <= after.work.calls - b.work.calls
    decreases |calls|
  {
    if calls != [] {
      var after := Handled(b, calls[0], limits, searcher, available);
      assert b.work.active <= after.work.active && b.work.called <= after.work.called;
      if !EndsBatch(b, calls[0], limits, searcher, available) {
        BatchKeeps(after, calls[1..], limits, searcher, available);
      }
    }
  }

  ghost predicate Keeps(w: Work, after: Work, limits: Limits) {
    && (CallsWereAvailable(w.called) ==> CallsWereAvailable(after.called))
    && w.active <= after.active
    && (w.autoruns <= Max(0, limits.autorunMax) ==> after.autoruns <= Max(0, limits.autorunMax))
    && |after.called| - |w.called| <= after.calls - w.calls
  }

  lemma TurnKeeps(w: Work, turn: Turn, limits: Limits, searcher: bool)
    ensures match AfterTurn(w, turn, limits, searcher)
      case Continue(next) => Keeps(w, next, limits)
      case Finish(r) => Keeps(w, r.work, limits)
  {
    var w' := w.(nonJson := 0);
    match turn {
      case Single(call, _) => BatchGrows(w', [call], limits, searcher);
      case Batch(calls, _) => BatchGrows(w', Capped(calls, limits.batchCap), limits, searcher);
      case _ =>
    }
  }

  lemma BatchGrows(w: Work, calls: seq<Call>, limits: Limits, searcher: bool)
    ensures var after := HandledAll(BatchState(w, false, false, false), calls, limits, searcher, w.active).work;
      Keeps(w, after, limits) && after.autoruns == w.autoruns
  {
    BatchKeeps(BatchState(w, false, false, false), calls, limits, searcher, w.active);
  }

  /** For every run: each executed tool was active when its turn began (a tool found in mid-batch
      waits a turn), the active set only grows, and every executed call is a counted call. */
  lemma {:induction false} RunKeeps(w: Work, turns: seq<Turn>, targetsMissing: bool, limits: Limits, searcher: bool)
    ensures Keeps(w, RunFrom(w, turns, targetsMissing, limits, searcher).work, limits)
    decreases |turns|
  {
    if w.calls < limits.toolBudget && turns != [] {
      TurnKeeps(w, turns[0], limits, searcher);
      match AfterTurn(w, turns[0], limits, searcher) {
        case Finish(_) =>
        case Continue(next) => RunKeeps(next, turns[1..], targetsMissing, limits, searcher);
      }
    }
  }
}
