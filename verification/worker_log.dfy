/** What a worker run executes, and what follows from it, said over the log of executed calls. */
module WorkerLog {
  import opened JsonValues
  import opened Worker
  import opened WorkerLaws

  /** The call is executed: it is named, nothing was discovered before it in its batch, its arguments fit and
      its tool is active. */
  predicate IsRun(b: BatchState, call: Call) {
    call.tool != "" && !b.discovered && call.fitsSchema && call.tool in b.work.active
  }

  predicate Discovers(call: Call, searcher: bool) {
    searcher && call.tool == "search_tools"
  }

  predicate Writes(call: Call) {
    (call.tool == "write_file" || call.tool == "patch_file") && call.result.success
  }

  lemma CallEffect(b: BatchState, call: Call, limits: Limits, searcher: bool, available: set<string>)
    ensures var after := Handled(b, call, limits, searcher, available); var run := IsRun(b, call);
      && after.work.called == b.work.called + (if run then [Called(call, available)] else [])
      && after.work.active == b.work.active + (if run && Discovers(call, searcher) then call.result.tools else {})
      && (after.discovered <==> b.discovered || (run && Discovers(call, searcher)))
      && (after.wrote <==> b.wrote || (run && Writes(call)))
      && after.work.calls == b.work.calls + (if call.tool != "" && !b.discovered then 1 else 0)
      && after.work.autoruns == b.work.autoruns
      && (EndsBatch(b, call, limits, searcher, available) <==>
            after.tripped || (run && after.work.calls >= limits.toolBudget))
  {
  }

  // ---------------------------------------------------------------- one batch

  ghost predicate Fits(entry: Called) {
    entry.call.tool != "" && entry.call.fitsSchema && entry.call.tool in entry.available
  }

  /** Some logged search found this tool. */
  ghost predicate Found(log: seq<Called>, tool: string, searcher: bool) {
    exists i :: 0 <= i < |log| && Discovers(log[i].call, searcher) && tool in log[i].call.result.tools
  }

  ghost predicate SomeDiscovers(log: seq<Called>, searcher: bool) {
    exists i :: 0 <= i < |log| && Discovers(log[i].call, searcher)
  }

  ghost predicate SomeWrites(log: seq<Called>) {
    exists i :: 0 <= i < |log| && Writes(log[i].call)
  }

  /** What a stretch of one batch logs: fitting calls of tools available when the turn began, none after a
      discovery; and what it makes of the batch. */
  ghost predicate BatchLogged(b: BatchState, log: seq<Called>, after: BatchState, available: set<string>,
                              searcher: bool)
  {
    && after.work.called == b.work.called + log
    && (forall i :: 0 <= i < |log| ==> Fits(log[i]) && log[i].available == available)
    && (forall i :: 0 <= i < |log| - 1 ==> !Discovers(log[i].call, searcher))
    && (b.discovered ==> log == [])
    && (forall tool :: tool in after.work.active <==> tool in b.work.active || Found(log, tool, searcher))
    && (after.discovered <==> b.discovered || SomeDiscovers(log, searcher))
    && (after.wrote <==> b.wrote || SomeWrites(log))
    && after.work.autoruns == b.work.autoruns
  }

  lemma NothingLogged(b: BatchState, available: set<string>, searcher: bool)
    ensures BatchLogged(b, [], b, available, searcher)
  {
  }

  lemma CallLogged(b: BatchState, call: Call, limits: Limits, searcher: bool, available: set<string>)
    requires TurnActive(b, available)
    ensures BatchLogged(b, if IsRun(b, call) then [Called(call, available)] else [],
                        Handled(b, call, limits, searcher, available), available, searcher)
    ensures TurnActive(Handled(b, call, limits, searcher, available), available)
  {
    CallEffect(b, call, limits, searcher, available);
    hide Handled, EndsBatch;
    var log := if IsRun(b, call) then [Called(call, available)] else [];
    if IsRun(b, call) {
      assert log[0].call == call;
      assert Discovers(call, searcher) <==> SomeDiscovers(log, searcher);
      assert Writes(call) <==> SomeWrites(log);
      forall tool ensures Found(log, tool, searcher) <==> Discovers(call, searcher) && tool in call.result.tools {
        if Discovers(call, searcher) && tool in call.result.tools {
          assert Discovers(log[0].call, searcher) && tool in log[0].call.result.tools;
        }
      }
    }
  }

  lemma LogsJoin(a: BatchState, first: seq<Called>, b: BatchState, second: seq<Called>, c: BatchState,
                 available: set<string>, searcher: bool)
    requires BatchLogged(a, first, b, available, searcher) && BatchLogged(b, second, c, available, searcher)
    ensures BatchLogged(a, first + second, c, available, searcher)
  {
    hide Fits, Discovers, Writes;
    var log := first + second;
    assert forall i :: 0 <= i < |first| ==> log[i] == first[i];
    assert forall i :: 0 <= i < |second| ==> log[|first| + i] == second[i];
    forall tool
      ensures Found(log, tool, searcher) <==> Found(first, tool, searcher) || Found(second, tool, searcher)
    {
      FoundJoin(first, second, tool, searcher);
    }
    SomeJoin(first, second, searcher);
    forall i | 0 <= i < |log| - 1 ensures !Discovers(log[i].call, searcher) {
      if i < |first| && second != [] {
        assert !b.discovered;
      }
    }
  }

  lemma FoundJoin(first: seq<Called>, second: seq<Called>, tool: string, searcher: bool)
    ensures Found(first + second, tool, searcher) <==> Found(first, tool, searcher) || Found(second, tool, searcher)
  {
    hide Discovers;
    var log := first + second;
    assert forall i :: 0 <= i < |first| ==> log[i] == first[i];
    assert forall i :: 0 <= i < |second| ==> log[|first| + i] == second[i];
  }

  lemma SomeJoin(first: seq<Called>, second: seq<Called>, searcher: bool)
    ensures SomeDiscovers(first + second, searcher) <==>
            SomeDiscovers(first, searcher) || SomeDiscovers(second, searcher)
    ensures SomeWrites(first + second) <==> SomeWrites(first) || SomeWrites(second)
  {
    hide Discovers, Writes;
    var log := first + second;
    assert forall i :: 0 <= i < |first| ==> log[i] == first[i];
    assert forall i :: 0 <= i < |second| ==> log[|first| + i] == second[i];
  }

  lemma {:induction false} BatchLog(b: BatchState, calls: seq<Call>, limits: Limits, searcher: bool,
                                    available: set<string>) returns (log: seq<Called>)
    requires TurnActive(b, available)
    ensures BatchLogged(b, log, HandledAll(b, calls, limits, searcher, available), available, searcher)
    decreases |calls|
  {
    if calls == [] {
      NothingLogged(b, available, searcher);
      log := [];
    } else {
      hide TurnActive, BatchLogged, Handled, EndsBatch, IsRun;
      var after := Handled(b, calls[0], limits, searcher, available);
      log := if IsRun(b, calls[0]) then [Called(calls[0], available)] else [];
      CallLogged(b, calls[0], limits, searcher, available);
      if !EndsBatch(b, calls[0], limits, searcher, available) {
        var rest := BatchLog(after, calls[1..], limits, searcher, available);
        LogsJoin(b, log, after, rest, HandledAll(after, calls[1..], limits, searcher, available), available, searcher);
        log := log + rest;
      }
    }
  }

  // ---------------------------------------------------------------- one turn, and a whole run

  predicate ContractRan(turn: Turn) {
    (turn.Single? || turn.Batch?) && turn.contractRan
  }

  /** The log of one turn, and what it does to the run. */
  ghost predicate TurnLogged(w: Work, turn: Turn, log: seq<Called>, after: Work, limits: Limits, searcher: bool) {
    && RunLogged(w, log, after, searcher)
    && (forall i :: 0 <= i < |log| ==> log[i].available == w.active)
    && (forall i :: 0 <= i < |log| - 1 ==> !Discovers(log[i].call, searcher))
    && after.autoruns
       == w.autoruns + (if SomeWrites(log) && w.autoruns < limits.autorunMax && ContractRan(turn) then 1 else 0)
  }

  /** A stretch of a run logs fitting calls only, and makes active exactly what its searches found. */
  ghost predicate RunLogged(w: Work, log: seq<Called>, after: Work, searcher: bool) {
    && after.called == w.called + log
    && (forall i :: 0 <= i < |log| ==> Fits(log[i]))
    && (forall tool :: tool in after.active <==> tool in w.active || Found(log, tool, searcher))
  }

  function WorkOf(next: Next): Work {
    match next
    case Continue(work) => work
    case Finish(r) => r.work
  }

  lemma CallsLog(w: Work, turn: Turn, calls: seq<Call>, limits: Limits, searcher: bool) returns (log: seq<Called>)
    requires turn.Single? || turn.Batch?
    ensures var w' := w.(nonJson := 0);
      TurnLogged(w, turn, log, WorkOf(AfterBatch(w', calls, turn.contractRan, limits, searcher)), limits, searcher)
  {
    hide HandledAll, Fits, Found, SomeWrites, SomeDiscovers;
    var b := BatchState(w.(nonJson := 0), false, false, false);
    log := BatchLog(b, calls, limits, searcher, w.active);
  }

  lemma NoLog(w: Work, turn: Turn, after: Work, limits: Limits, searcher: bool)
    requires after.called == w.called && after.active == w.active && after.autoruns == w.autoruns
    ensures TurnLogged(w, turn, [], after, limits, searcher)
  {
    assert w.called + [] == w.called;
  }

  /** What one turn executes, and what follows: calls that fit, of tools active when the turn began, none after a
      discovery; and a contract run exactly after a successful write, while the cap allows one. */
  lemma TurnLog(w: Work, turn: Turn, limits: Limits, searcher: bool) returns (log: seq<Called>)
    ensures TurnLogged(w, turn, log, WorkOf(AfterTurn(w, turn, limits, searcher)), limits, searcher)
  {
    hide TurnLogged, AfterBatch, Capped;
    log := [];
    match turn {
      case Single(call, _) => log := CallsLog(w, turn, [call], limits, searcher);
      case Batch(calls, _) =>
        if calls == [] {
          NoLog(w, turn, WorkOf(AfterTurn(w, turn, limits, searcher)), limits, searcher);
        } else {
          log := CallsLog(w, turn, Capped(calls, limits.batchCap), limits, searcher);
        }
      case _ => NoLog(w, turn, WorkOf(AfterTurn(w, turn, limits, searcher)), limits, searcher);
    }
  }

  lemma RunsJoin(a: Work, first: seq<Called>, b: Work, second: seq<Called>, c: Work, searcher: bool)
    requires RunLogged(a, first, b, searcher) && RunLogged(b, second, c, searcher)
    ensures RunLogged(a, first + second, c, searcher)
  {
    hide Fits, Found;
    forall tool
      ensures Found(first + second, tool, searcher) <==> Found(first, tool, searcher) || Found(second, tool, searcher)
    {
      FoundJoin(first, second, tool, searcher);
    }
  }

  /** Over a whole run, every executed call was named, fitted its schema and ran a tool available when its turn
      began, and a tool is active in the end if and only if it was at the start or an executed search found it. */
  lemma {:induction false} RunLog(w: Work, turns: seq<Turn>, targetsMissing: bool, limits: Limits, searcher: bool)
    returns (log: seq<Called>)
    ensures RunLogged(w, log, RunFrom(w, turns, targetsMissing, limits, searcher).work, searcher)
    decreases |turns|
  {
    if w.calls >= limits.toolBudget || turns == [] {
      log := [];
    } else {
      log := TurnLog(w, turns[0], limits, searcher);
      hide AfterTurn, Fits, Found, RunLogged;
      match AfterTurn(w, turns[0], limits, searcher) {
        case Finish(_) =>
        case Continue(next) =>
          var rest := RunLog(next, turns[1..], targetsMissing, limits, searcher);
          RunsJoin(w, log, next, rest, RunFrom(next, turns[1..], targetsMissing, limits, searcher).work, searcher);
          log := log + rest;
      }
    }
  }

  /** For every run from its start: what is active in the end. */
  lemma ActiveIffFound(active: set<string>, failures: Failures, turns: seq<Turn>, targetsMissing: bool, limits: Limits,
                       searcher: bool)
    ensures var end := Ran(active, failures, turns, targetsMissing, limits, searcher).work;
      && (forall i :: 0 <= i < |end.called| ==> Fits(end.called[i]))
      && (forall tool :: tool in end.active <==>
            tool in active || tool == "search_tools" || Found(end.called, tool, searcher))
  {
    var log := RunLog(Start(active, failures), turns, targetsMissing, limits, searcher);
    assert [] + log == log;
  }

  /** `calls[:cap]`, applied only when there are more calls than that. */
  lemma CappedIsPrefix(calls: seq<Call>, cap: int)
    ensures Capped(calls, cap) <= calls
    ensures |Capped(calls, cap)|
      == if |calls| <= cap then |calls| else if cap >= 0 then cap else Max(0, |calls| + cap)
  {
  }
}
