/** The failure counters as what they stand for: a ledger of every counted call of a run. */
module WorkerLedger {
  import opened JsonValues
  import opened Worker
  import opened WorkerLaws

  datatype Entry = Fine | Failed(signature: string)

  /** What one call adds to the ledger: nothing if it is passed over. */
  function Posted(b: BatchState, call: Call, searcher: bool): seq<Entry> {
    if Skipped(b, call) then []
    else if Rejected(call, b.work.active) then [Failed(call.rejection)]
    else
      var success := call.result.success && !(call.tool == SEARCH_TOOLS && !searcher);
      if success || (call.tool == "inspect_ui" && call.result.suggestHandoff) then [Fine]
      else [Failed(call.result.signature)]
  }

  function BatchLedger(b: BatchState, calls: seq<Call>, limits: Limits, searcher: bool, available: set<string>):
    seq<Entry>
    decreases |calls|
  {
    if calls == [] then []
    else
      Posted(b, calls[0], searcher)
      + if EndsBatch(b, calls[0], limits, searcher, available) then []
        else BatchLedger(Handled(b, calls[0], limits, searcher, available), calls[1..], limits, searcher, available)
  }

  function TurnLedger(w0: Work, turn: Turn, limits: Limits, searcher: bool): seq<Entry> {
    var w := w0.(nonJson := 0);
    var b := BatchState(w, false, false, false);
    match turn
    case Single(call, _) => BatchLedger(b, [call], limits, searcher, w.active)
    case Batch(calls, _) => BatchLedger(b, Capped(calls, limits.batchCap), limits, searcher, w.active)
    case _ => []
  }

  function RunLedger(w: Work, turns: seq<Turn>, limits: Limits, searcher: bool): seq<Entry>
    decreases |turns|
  {
    if w.calls >= limits.toolBudget || turns == [] then []
    else
      TurnLedger(w, turns[0], limits, searcher)
      + match AfterTurn(w, turns[0], limits, searcher)
        case Finish(_) => []
        case Continue(next) => RunLedger(next, turns[1..], limits, searcher)
  }

  /** How often a failure stands in the ledger. */
  function Times(ledger: seq<Entry>, signature: string): nat {
    if ledger == [] then 0
    else Times(ledger[..|ledger| - 1], signature) + (if ledger[|ledger| - 1] == Failed(signature) then 1 else 0)
  }

  /** The failures in a row at the end of a ledger that continues after `before` failures in a row. */
  function InARow(before: nat, ledger: seq<Entry>): nat {
    if ledger == [] then before
    else if ledger[|ledger| - 1].Fine? then 0
    else InARow(before, ledger[..|ledger| - 1]) + 1
  }

  lemma {:induction false} TimesSplit(a: seq<Entry>, b: seq<Entry>, signature: string)
    ensures Times(a + b, signature) == Times(a, signature) + Times(b, signature)
  {
    if b == [] {
      assert a + b == a;
    } else {
      TimesSplit(a, b[..|b| - 1], signature);
      assert (a + b)[..|a + b| - 1] == a + b[..|b| - 1];
    }
  }

  lemma {:induction false} InARowSplit(before: nat, a: seq<Entry>, b: seq<Entry>)
    ensures InARow(before, a + b) == InARow(InARow(before, a), b)
  {
    if b == [] {
      assert a + b == a;
    } else {
      InARowSplit(before, a, b[..|b| - 1]);
      assert (a + b)[..|a + b| - 1] == a + b[..|b| - 1];
    }
  }

  /** The counters after a stretch of calls are those before it and what the ledger says in between. */
  ghost predicate Balanced(before: Work, ledger: seq<Entry>, after: Work) {
    && after.calls == before.calls + |ledger|
    && after.failures.consecutive == InARow(before.failures.consecutive, ledger)
    && forall s :: Worker.Count(after.failures, s) == Worker.Count(before.failures, s) + Times(ledger, s)
  }

  lemma BalancedNothing(w: Work)
    ensures Balanced(w, [], w)
  {
  }

  lemma BalancedJoin(a: Work, first: seq<Entry>, b: Work, second: seq<Entry>, c: Work)
    requires Balanced(a, first, b) && Balanced(b, second, c)
    ensures Balanced(a, first + second, c)
  {
    hide Times, InARow;
    InARowSplit(a.failures.consecutive, first, second);
    forall s ensures Worker.Count(c.failures, s) == Worker.Count(a.failures, s) + Times(first + second, s) {
      TimesSplit(first, second, s);
    }
  }

  lemma TimesOne(e: Entry, s: string)
    ensures Times([e], s) == if e == Failed(s) then 1 else 0
    ensures Times([], s) == 0
  {
    assert [e][..0] == [];
  }

  lemma InARowOne(before: nat, e: Entry)
    ensures InARow(before, [e]) == if e.Fine? then 0 else before + 1
  {
    assert [e][..0] == [];
  }

  lemma PostedBalances(b: BatchState, call: Call, limits: Limits, searcher: bool, available: set<string>)
    ensures Balanced(b.work, Posted(b, call, searcher), Handled(b, call, limits, searcher, available).work)
  {
    var posted := Posted(b, call, searcher);
    if posted == [] {
      BalancedNothing(b.work);
    } else {
      InARowOne(b.work.failures.consecutive, posted[0]);
      forall s ensures Times(posted, s) == if posted[0] == Failed(s) then 1 else 0 {
        TimesOne(posted[0], s);
      }
      hide Times, InARow;
      assert posted == [posted[0]];
    }
  }

  lemma {:induction false} BatchBalances(b: BatchState, calls: seq<Call>, limits: Limits, searcher: bool,
                                         available: set<string>)
    ensures Balanced(b.work, BatchLedger(b, calls, limits, searcher, available),
                     HandledAll(b, calls, limits, searcher, available).work)
    decreases |calls|
  {
    hide Balanced, Posted, Handled, EndsBatch;
    if calls == [] {
      BalancedNothing(b.work);
    } else {
      var posted := Posted(b, calls[0], searcher);
      var after := Handled(b, calls[0], limits, searcher, available);
      PostedBalances(b, calls[0], limits, searcher, available);
      if EndsBatch(b, calls[0], limits, searcher, available) {
        assert posted + [] == posted;
      } else {
        BatchBalances(after, calls[1..], limits, searcher, available);
        BalancedJoin(b.work, posted, after.work, BatchLedger(after, calls[1..], limits, searcher, available),
                     HandledAll(after, calls[1..], limits, searcher, available).work);
      }
    }
  }

  function WorkAfter(next: Next): Work {
    match next
    case Continue(w) => w
    case Finish(r) => r.work
  }

  lemma SameCounters(before: Work, ledger: seq<Entry>, after: Work, from: Work, to: Work)
    requires Balanced(before, ledger, after)
    requires from.calls == before.calls && from.failures == before.failures
    requires to.calls == after.calls && to.failures == after.failures
    ensures Balanced(from, ledger, to)
  {
  }

  lemma TurnBalances(w: Work, turn: Turn, limits: Limits, searcher: bool)
    ensures Balanced(w, TurnLedger(w, turn, limits, searcher), WorkAfter(AfterTurn(w, turn, limits, searcher)))
  {
    hide Balanced, BatchLedger, HandledAll, Capped;
    var w' := w.(nonJson := 0);
    var b := BatchState(w', false, false, false);
    BalancedNothing(w);
    match turn {
      case Single(call, _) =>
        BatchBalances(b, [call], limits, searcher, w'.active);
        SameCounters(w', BatchLedger(b, [call], limits, searcher, w'.active),
                     HandledAll(b, [call], limits, searcher, w'.active).work, w,
                     WorkAfter(AfterTurn(w, turn, limits, searcher)));
      case Batch(calls, _) =>
        var capped := Capped(calls, limits.batchCap);
        BatchBalances(b, capped, limits, searcher, w'.active);
        if calls == [] {
          NothingCapped(limits.batchCap);
        }
        SameCounters(w', BatchLedger(b, capped, limits, searcher, w'.active),
                     HandledAll(b, capped, limits, searcher, w'.active).work, w,
                     WorkAfter(AfterTurn(w, turn, limits, searcher)));
      case _ =>
        SameCounters(w, [], w, w, WorkAfter(AfterTurn(w, turn, limits, searcher)));
    }
  }

  lemma NothingCapped(cap: int)
    ensures Capped([], cap) == []
    ensures forall b, limits, searcher, available :: HandledAll(b, [], limits, searcher, available) == b
  {
  }

  /** Over a whole run the call count is the length of the ledger, each failure count is how often that
      failure stands in it, and the consecutive count is the run of failures at its end. */
  lemma {:induction false} RunBalances(w: Work, turns: seq<Turn>, targetsMissing: bool, limits: Limits, searcher: bool)
    ensures Balanced(w, RunLedger(w, turns, limits, searcher), RunFrom(w, turns, targetsMissing, limits, searcher).work)
    decreases |turns|
  {
    hide Balanced, TurnLedger, AfterTurn;
    if w.calls >= limits.toolBudget || turns == [] {
      BalancedNothing(w);
    } else {
      TurnBalances(w, turns[0], limits, searcher);
      match AfterTurn(w, turns[0], limits, searcher) {
        case Finish(_) =>
          assert TurnLedger(w, turns[0], limits, searcher) + [] == TurnLedger(w, turns[0], limits, searcher);
        case Continue(next) =>
          RunBalances(next, turns[1..], targetsMissing, limits, searcher);
          BalancedJoin(w, TurnLedger(w, turns[0], limits, searcher), next,
                       RunLedger(next, turns[1..], limits, searcher),
                       RunFrom(next, turns[1..], targetsMissing, limits, searcher).work);
      }
    }
  }

  lemma HealthyByCount(f: Failures, limits: Limits)
    requires limits.sameFailures >= 1
    ensures Healthy(f, limits) <==>
      f.consecutive < limits.consecutiveFailures && forall s :: Worker.Count(f, s) < limits.sameFailures
  {
    if forall s :: Worker.Count(f, s) < limits.sameFailures {
      forall s | s in f.counts ensures f.counts[s] < limits.sameFailures {
        assert f.counts[s] == Worker.Count(f, s);
      }
    }
  }

  lemma CountsAreTimes(w: Work, ledger: seq<Entry>, after: Work, s: string)
    requires Balanced(w, ledger, after) && w.failures == Failures(map[], 0)
    ensures Worker.Count(after.failures, s) == Times(ledger, s)
    ensures after.failures.consecutive == InARow(0, ledger)
  {
    hide Times, InARow;
  }

  /** So a first attempt ends with a tripped breaker exactly when its ledger says so: one failure stands in
      it as often as the cap allows, or as many failures as the other cap allows stand at its end. */
  lemma TripsIffLedgerSays(active: set<string>, turns: seq<Turn>, targetsMissing: bool, limits: Limits, searcher: bool)
    requires limits.sameFailures >= 1 && limits.consecutiveFailures >= 1
    ensures var w := Start(active, Failures(map[], 0)); var ledger := RunLedger(w, turns, limits, searcher);
      RunFrom(w, turns, targetsMissing, limits, searcher).status.BreakerTripped? <==>
        InARow(0, ledger) >= limits.consecutiveFailures || exists s :: Times(ledger, s) >= limits.sameFailures
  {
    hide RunFrom, RunLedger, Times, InARow, Balanced, Healthy, Worker.Count;
    var w := Start(active, Failures(map[], 0));
    var after := RunFrom(w, turns, targetsMissing, limits, searcher).work;
    var ledger := RunLedger(w, turns, limits, searcher);
    RunBalances(w, turns, targetsMissing, limits, searcher);
    NothingFailed(limits);
    BreakerTripsIff(w, turns, targetsMissing, limits, searcher);
    HealthyByCount(after.failures, limits);
    forall s ensures Worker.Count(after.failures, s) == Times(ledger, s) {
      CountsAreTimes(w, ledger, after, s);
    }
    CountsAreTimes(w, ledger, after, "");
    if exists s :: Times(ledger, s) >= limits.sameFailures {
      var s :| Times(ledger, s) >= limits.sameFailures;
      assert Worker.Count(after.failures, s) >= limits.sameFailures;
    }
    if !Healthy(after.failures, limits) && after.failures.consecutive < limits.consecutiveFailures {
      var s :| Worker.Count(after.failures, s) >= limits.sameFailures;
      assert Times(ledger, s) >= limits.sameFailures;
    }
  }

  lemma NothingFailed(limits: Limits)
    requires limits.sameFailures >= 1 && limits.consecutiveFailures >= 1
    ensures Healthy(Failures(map[], 0), limits)
  {
  }
}
