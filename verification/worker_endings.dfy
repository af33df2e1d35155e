/** How a worker run ends, said over the replies and the loop heads at which they are read. */
module WorkerEndings {
  import opened JsonValues
  import opened Worker

  /** The state in which the loop condition is evaluated for the n-th time, counted from zero. */
  function LoopHead(w: Work, turns: seq<Turn>, n: nat, limits: Limits, searcher: bool): Option<Work>
    decreases n
  {
    if n == 0 then Some(w)
    else if w.calls >= limits.toolBudget || turns == [] then None
    else
      match AfterTurn(w, turns[0], limits, searcher)
      case Finish(_) => None
      case Continue(next) => LoopHead(next, turns[1..], n - 1, limits, searcher)
  }

  /** The n-th reply is read. */
  ghost predicate Asked(w: Work, turns: seq<Turn>, n: nat, limits: Limits, searcher: bool) {
    && n < |turns| && LoopHead(w, turns, n, limits, searcher).Some?
    && LoopHead(w, turns, n, limits, searcher).value.calls < limits.toolBudget
  }

  ghost predicate SpentAt(w: Work, turns: seq<Turn>, n: nat, limits: Limits, searcher: bool) {
    && LoopHead(w, turns, n, limits, searcher).Some?
    && LoopHead(w, turns, n, limits, searcher).value.calls >= limits.toolBudget
  }

  /** At some loop head the budget was used up. */
  ghost predicate UsedUp(w: Work, turns: seq<Turn>, limits: Limits, searcher: bool) {
    exists n: nat :: SpentAt(w, turns, n, limits, searcher)
  }

  /** All replies were read, and another one was asked for. */
  ghost predicate RanDry(w: Work, turns: seq<Turn>, limits: Limits, searcher: bool) {
    && LoopHead(w, turns, |turns|, limits, searcher).Some?
    && LoopHead(w, turns, |turns|, limits, searcher).value.calls < limits.toolBudget
  }

  /** How many replies in a row, just before the n-th, were not JSON; `before` of them before the first. */
  function Garbled(before: nat, turns: seq<Turn>, n: nat): nat
    requires n <= |turns|
  {
    if n == 0 then before else if turns[n - 1].NotJson? then Garbled(before, turns, n - 1) + 1 else 0
  }

  /** A reply that ends the run with this status; `garbled` counts it and those just before it that are
      not JSON. */
  ghost predicate Ends(turn: Turn, garbled: nat, status: Status) {
    match status
    case Complete => turn == SignalComplete(true, true)
    case ScopeRequested(namesPaths) => turn == RequestScope(namesPaths)
    case Blocked(clarification) =>
      turn == SignalBlocked(clarification) || (clarification == "" && turn.NotJson? && garbled >= 3)
    case _ => false
  }

  ghost predicate SignalledAt(w: Work, turns: seq<Turn>, n: nat, status: Status, limits: Limits, searcher: bool) {
    Asked(w, turns, n, limits, searcher) && Ends(turns[n], Garbled(w.nonJson, turns, n + 1), status)
  }

  ghost predicate Signalled(w: Work, turns: seq<Turn>, status: Status, limits: Limits, searcher: bool) {
    exists n: nat :: SignalledAt(w, turns, n, status, limits, searcher)
  }

  // ---------------------------------------------------------------- one turn further

  lemma {:induction false} GarbledShift(before: nat, turns: seq<Turn>, n: nat)
    requires 0 < n <= |turns|
    ensures Garbled(before, turns, n) == Garbled(if turns[0].NotJson? then before + 1 else 0, turns[1..], n - 1)
  {
    if n > 1 {
      GarbledShift(before, turns, n - 1);
    }
  }

  lemma FirstGarbled(before: nat, turns: seq<Turn>)
    requires turns != []
    ensures Garbled(before, turns, 1) == if turns[0].NotJson? then before + 1 else 0
  {
    assert Garbled(before, turns, 0) == before;
  }

  /** What a turn does to the run, from the reply alone. */
  lemma TurnEnds(w: Work, turn: Turn, status: Status, limits: Limits, searcher: bool)
    requires w.nonJson < 3
    ensures var garbled := if turn.NotJson? then w.nonJson + 1 else 0;
      match AfterTurn(w, turn, limits, searcher)
      case Finish(r) =>
        if r.status == BreakerTripped then !Ends(turn, garbled, status)
        else Ends(turn, garbled, status) <==> r.status == status
      case Continue(next) => !Ends(turn, garbled, status) && next.nonJson == garbled < 3
  {
    hide HandledAll, Capped;
    var b := BatchState(w.(nonJson := 0), false, false, false);
    match turn {
      case Single(call, _) => BatchKeepsNonJson(b, [call], limits, searcher, w.active);
      case Batch(calls, _) => BatchKeepsNonJson(b, Capped(calls, limits.batchCap), limits, searcher, w.active);
      case _ =>
    }
  }

  lemma {:induction false} BatchKeepsNonJson(b: BatchState, calls: seq<Call>, limits: Limits, searcher: bool,
                                             available: set<string>)
    ensures HandledAll(b, calls, limits, searcher, available).work.nonJson == b.work.nonJson
    decreases |calls|
  {
    if calls != [] {
      BatchKeepsNonJson(Handled(b, calls[0], limits, searcher, available), calls[1..], limits, searcher, available);
    }
  }

  lemma AskedLater(w: Work, turns: seq<Turn>, n: nat, status: Status, limits: Limits, searcher: bool)
    requires w.calls < limits.toolBudget && turns != [] && w.nonJson < 3
    requires AfterTurn(w, turns[0], limits, searcher).Continue?
    ensures var next := AfterTurn(w, turns[0], limits, searcher).work;
      SignalledAt(w, turns, n + 1, status, limits, searcher) <==>
      SignalledAt(next, turns[1..], n, status, limits, searcher)
  {
    TurnEnds(w, turns[0], status, limits, searcher);
    hide AfterTurn, Ends;
    if n + 1 < |turns| {
      GarbledShift(w.nonJson, turns, n + 2);
      assert turns[1..][n] == turns[n + 1];
    }
  }

  lemma SignalledLater(w: Work, turns: seq<Turn>, status: Status, limits: Limits, searcher: bool)
    requires w.calls < limits.toolBudget && turns != [] && w.nonJson < 3
    requires AfterTurn(w, turns[0], limits, searcher).Continue?
    ensures var next := AfterTurn(w, turns[0], limits, searcher).work;
      Signalled(w, turns, status, limits, searcher) <==> Signalled(next, turns[1..], status, limits, searcher)
  {
    var next := AfterTurn(w, turns[0], limits, searcher).work;
    TurnEnds(w, turns[0], status, limits, searcher);
    FirstGarbled(w.nonJson, turns);
    hide AfterTurn, Ends;
    forall n: nat
      ensures SignalledAt(w, turns, n + 1, status, limits, searcher) <==>
              SignalledAt(next, turns[1..], n, status, limits, searcher)
    {
      AskedLater(w, turns, n, status, limits, searcher);
    }
    assert !SignalledAt(w, turns, 0, status, limits, searcher);
    if n: nat :| SignalledAt(w, turns, n, status, limits, searcher) {
      assert SignalledAt(next, turns[1..], n - 1, status, limits, searcher);
    }
    if n: nat :| SignalledAt(next, turns[1..], n, status, limits, searcher) {
      assert SignalledAt(w, turns, n + 1, status, limits, searcher);
    }
  }

  lemma UsedUpLater(w: Work, turns: seq<Turn>, limits: Limits, searcher: bool)
    requires w.calls < limits.toolBudget && turns != [] && AfterTurn(w, turns[0], limits, searcher).Continue?
    ensures var next := AfterTurn(w, turns[0], limits, searcher).work;
      && (UsedUp(w, turns, limits, searcher) <==> UsedUp(next, turns[1..], limits, searcher))
      && (RanDry(w, turns, limits, searcher) <==> RanDry(next, turns[1..], limits, searcher))
  {
    hide AfterTurn;
    var next := AfterTurn(w, turns[0], limits, searcher).work;
    if n: nat :| SpentAt(w, turns, n, limits, searcher) {
      assert SpentAt(next, turns[1..], n - 1, limits, searcher);
    }
    if n: nat :| SpentAt(next, turns[1..], n, limits, searcher) {
      assert SpentAt(w, turns, n + 1, limits, searcher);
    }
  }

  lemma EndsAtOnce(w: Work, turns: seq<Turn>, status: Status, limits: Limits, searcher: bool)
    requires w.calls >= limits.toolBudget || turns == [] || AfterTurn(w, turns[0], limits, searcher).Finish?
    ensures UsedUp(w, turns, limits, searcher) <==> w.calls >= limits.toolBudget
    ensures RanDry(w, turns, limits, searcher) <==> turns == [] && w.calls < limits.toolBudget
    ensures Signalled(w, turns, status, limits, searcher) <==>
      turns != [] && w.calls < limits.toolBudget && Ends(turns[0], Garbled(w.nonJson, turns, 1), status)
  {
    hide AfterTurn, Ends;
    assert LoopHead(w, turns, 0, limits, searcher) == Some(w);
    assert w.calls >= limits.toolBudget ==> SpentAt(w, turns, 0, limits, searcher);
    forall n: nat | n > 0 ensures LoopHead(w, turns, n, limits, searcher).None? {
    }
    if turns != [] && w.calls < limits.toolBudget && Ends(turns[0], Garbled(w.nonJson, turns, 1), status) {
      assert SignalledAt(w, turns, 0, status, limits, searcher);
    }
  }

  /** The status of a run, from the replies that were read. */
  ghost predicate EndsAs(w: Work, turns: seq<Turn>, targetsMissing: bool, limits: Limits, searcher: bool,
                         status: Status)
  {
    || Signalled(w, turns, status, limits, searcher)
    || (UsedUp(w, turns, limits, searcher) && status == (if targetsMissing then Blocked("") else Complete))
    || (RanDry(w, turns, limits, searcher) && status == Cancelled)
  }

  lemma {:induction false} EndsAsIff(w: Work, turns: seq<Turn>, targetsMissing: bool, limits: Limits, searcher: bool,
                                     status: Status)
    requires w.nonJson < 3 && status != BreakerTripped
    ensures RunFrom(w, turns, targetsMissing, limits, searcher).status == status <==>
            EndsAs(w, turns, targetsMissing, limits, searcher, status)
    decreases |turns|
  {
    hide Ends, Signalled, UsedUp, RanDry, AfterTurn;
    if w.calls >= limits.toolBudget || turns == [] {
      EndsAtOnce(w, turns, status, limits, searcher);
    } else {
      TurnEnds(w, turns[0], status, limits, searcher);
      FirstGarbled(w.nonJson, turns);
      match AfterTurn(w, turns[0], limits, searcher) {
        case Finish(r) =>
          EndsAtOnce(w, turns, status, limits, searcher);
        case Continue(next) =>
          SignalledLater(w, turns, status, limits, searcher);
          UsedUpLater(w, turns, limits, searcher);
          EndsAsIff(next, turns[1..], targetsMissing, limits, searcher, status);
      }
    }
  }

  // ---------------------------------------------------------------- one law per status

  /** A run completes if and only if some reply it read signals completion with all targets and dependencies
      present, or its budget was used up with no target missing. */
  lemma CompleteIff(active: set<string>, failures: Failures, turns: seq<Turn>, targetsMissing: bool, limits: Limits,
                    searcher: bool)
    ensures var w := Start(active, failures);
      Ran(active, failures, turns, targetsMissing, limits, searcher).status == Complete <==>
        || (exists n: nat :: Asked(w, turns, n, limits, searcher) && turns[n] == SignalComplete(true, true))
        || (UsedUp(w, turns, limits, searcher) && !targetsMissing)
  {
    var w := Start(active, failures);
    hide UsedUp, LoopHead, RunFrom;
    EndsAsIff(w, turns, targetsMissing, limits, searcher, Complete);
    forall n: nat | n < |turns|
      ensures SignalledAt(w, turns, n, Complete, limits, searcher) <==>
              Asked(w, turns, n, limits, searcher) && turns[n] == SignalComplete(true, true)
    {
    }
  }

  /** A run is blocked, with this question or with none, if and only if some reply it read signals just that, or,
      with none, the third reply in a row was not JSON or the budget was used up with a target missing. */
  lemma BlockedIff(active: set<string>, failures: Failures, turns: seq<Turn>, targetsMissing: bool, limits: Limits,
                   searcher: bool, question: string)
    ensures var w := Start(active, failures);
      Ran(active, failures, turns, targetsMissing, limits, searcher).status == Blocked(question) <==>
        || (exists n: nat :: Asked(w, turns, n, limits, searcher) && turns[n] == SignalBlocked(question))
        || (question == "" && exists n: nat :: Asked(w, turns, n, limits, searcher) && ThirdInARow(turns, n))
        || (question == "" && UsedUp(w, turns, limits, searcher) && targetsMissing)
  {
    var w := Start(active, failures);
    hide UsedUp, LoopHead, RunFrom;
    EndsAsIff(w, turns, targetsMissing, limits, searcher, Blocked(question));
    forall n: nat | n < |turns|
      ensures SignalledAt(w, turns, n, Blocked(question), limits, searcher) <==>
              Asked(w, turns, n, limits, searcher)
              && (turns[n] == SignalBlocked(question) || (question == "" && ThirdInARow(turns, n)))
    {
      ThreeInARow(turns, n);
    }
  }

  ghost predicate ThirdInARow(turns: seq<Turn>, n: nat) {
    2 <= n < |turns| && turns[n - 2].NotJson? && turns[n - 1].NotJson? && turns[n].NotJson?
  }

  lemma ThreeInARow(turns: seq<Turn>, n: nat)
    requires n < |turns|
    ensures turns[n].NotJson? && Garbled(0, turns, n + 1) >= 3 <==> ThirdInARow(turns, n)
  {
    assert n >= 1 ==> Garbled(0, turns, n) == if turns[n - 1].NotJson? then Garbled(0, turns, n - 1) + 1 else 0;
    assert n >= 2 ==> Garbled(0, turns, n - 1) == if turns[n - 2].NotJson? then Garbled(0, turns, n - 2) + 1 else 0;
  }

  /** A run asks for scope if and only if some reply it read does. */
  lemma ScopeRequestedIff(active: set<string>, failures: Failures, turns: seq<Turn>, targetsMissing: bool,
                          limits: Limits, searcher: bool, namesPaths: bool)
    ensures var w := Start(active, failures);
      Ran(active, failures, turns, targetsMissing, limits, searcher).status == ScopeRequested(namesPaths) <==>
        exists n: nat :: Asked(w, turns, n, limits, searcher) && turns[n] == RequestScope(namesPaths)
  {
    var w := Start(active, failures);
    hide UsedUp, LoopHead, RunFrom;
    EndsAsIff(w, turns, targetsMissing, limits, searcher, ScopeRequested(namesPaths));
    forall n: nat | n < |turns|
      ensures SignalledAt(w, turns, n, ScopeRequested(namesPaths), limits, searcher) <==>
              Asked(w, turns, n, limits, searcher) && turns[n] == RequestScope(namesPaths)
    {
    }
  }

  /** A run is cancelled if and only if it asked for one more reply than it got. */
  lemma CancelledIff(active: set<string>, failures: Failures, turns: seq<Turn>, targetsMissing: bool, limits: Limits,
                     searcher: bool)
    ensures Ran(active, failures, turns, targetsMissing, limits, searcher).status == Cancelled <==>
            RanDry(Start(active, failures), turns, limits, searcher)
  {
    var w := Start(active, failures);
    hide UsedUp, LoopHead, RunFrom, RanDry;
    EndsAsIff(w, turns, targetsMissing, limits, searcher, Cancelled);
  }
}
