/** What is carried from one attempt at a milestone to the next, said over everything that was called before. */
module MilestoneLedger {
  import opened JsonValues
  import opened Worker
  import opened WorkerLedger
  import opened WorkerLog
  import opened MilestoneLoop
  import opened MilestoneLaws

  /** What the worker run of the first attempt does. */
  function FirstRun(st: Retry, attempts: seq<Attempt>, limits: Limits, searcher: bool): Worker.Result
    requires attempts != []
  {
    Ran(st.active, st.failures, attempts[0].turns, attempts[0].targetsMissing, limits, searcher)
  }

  /** The ledger of all counted calls of the first `k` attempts. */
  ghost function LedgerBefore(st: Retry, attempts: seq<Attempt>, k: nat, limits: Limits, searcher: bool): seq<Entry>
    decreases k
  {
    if k == 0 || attempts == [] then []
    else
      RunLedger(Start(st.active, st.failures), attempts[0].turns, limits, searcher)
      + match AfterAttempt(st, attempts[0], limits, searcher)
        case Ends(_) => []
        case Again(next) => LedgerBefore(next, attempts[1..], k - 1, limits, searcher)
  }

  /** The log of all executed calls of the first `k` attempts. */
  ghost function LogBefore(st: Retry, attempts: seq<Attempt>, k: nat, limits: Limits, searcher: bool): seq<Called>
    decreases k
  {
    if k == 0 || attempts == [] then []
    else
      FirstRun(st, attempts, limits, searcher).work.called
      + match AfterAttempt(st, attempts[0], limits, searcher)
        case Ends(_) => []
        case Again(next) => LogBefore(next, attempts[1..], k - 1, limits, searcher)
  }

  lemma AttemptCarries(st: Retry, attempts: seq<Attempt>, limits: Limits, searcher: bool)
    requires attempts != [] && AfterAttempt(st, attempts[0], limits, searcher).Again?
    ensures var next := AfterAttempt(st, attempts[0], limits, searcher).state;
      var work := FirstRun(st, attempts, limits, searcher).work;
      next.failures == work.failures && next.active == st.active + work.active
  {
    hide Ran;
  }

  ghost predicate SameCounts(f: Failures, consecutive: nat, before: Failures, ledger: seq<Entry>) {
    && f.consecutive == InARow(consecutive, ledger)
    && forall s :: Worker.Count(f, s) == Worker.Count(before, s) + Times(ledger, s)
  }

  lemma FirstRunBalances(st: Retry, attempts: seq<Attempt>, limits: Limits, searcher: bool)
    requires attempts != []
    ensures SameCounts(FirstRun(st, attempts, limits, searcher).work.failures, st.failures.consecutive, st.failures,
                       RunLedger(Start(st.active, st.failures), attempts[0].turns, limits, searcher))
  {
    hide RunFrom, RunLedger, Times, InARow;
    RunBalances(Start(st.active, st.failures), attempts[0].turns, attempts[0].targetsMissing, limits, searcher);
  }

  lemma CountsJoin(a: Failures, first: seq<Entry>, b: Failures, second: seq<Entry>, c: Failures)
    requires SameCounts(b, a.consecutive, a, first) && SameCounts(c, b.consecutive, b, second)
    ensures SameCounts(c, a.consecutive, a, first + second)
  {
    hide Times, InARow, Worker.Count;
    InARowSplit(a.consecutive, first, second);
    forall s ensures Worker.Count(c, s) == Worker.Count(a, s) + Times(first + second, s) {
      TimesSplit(first, second, s);
    }
  }

  /** The failure counts an attempt starts with are those of all counted calls of all attempts before it. */
  lemma {:induction false} CountsAreCarried(st: Retry, attempts: seq<Attempt>, k: nat, limits: Limits, searcher: bool)
    requires AttemptStart(st, attempts, k, limits, searcher).Some?
    ensures var start := AttemptStart(st, attempts, k, limits, searcher).value;
      SameCounts(start.failures, st.failures.consecutive, st.failures, LedgerBefore(st, attempts, k, limits, searcher))
    decreases k
  {
    if k > 0 {
      AttemptCarries(st, attempts, limits, searcher);
      FirstRunBalances(st, attempts, limits, searcher);
      hide AfterAttempt, SameCounts, RunLedger, FirstRun;
      var next := AfterAttempt(st, attempts[0], limits, searcher).state;
      CountsAreCarried(next, attempts[1..], k - 1, limits, searcher);
      CountsJoin(st.failures, RunLedger(Start(st.active, st.failures), attempts[0].turns, limits, searcher),
                 next.failures, LedgerBefore(next, attempts[1..], k - 1, limits, searcher),
                 AttemptStart(next, attempts[1..], k - 1, limits, searcher).value.failures);
    }
  }

  /** The failures counted before the k-th attempt of a milestone: each as often as it stands in the ledger of all
      attempts before, and in a row as many as stand at the end of that ledger. */
  lemma FailuresAreCounted(tools: set<string>, attempts: seq<Attempt>, k: nat, limits: Limits, searcher: bool)
    requires AttemptStart(Begin(tools), attempts, k, limits, searcher).Some?
    ensures var start := AttemptStart(Begin(tools), attempts, k, limits, searcher).value;
      var ledger := LedgerBefore(Begin(tools), attempts, k, limits, searcher);
      && start.failures.consecutive == InARow(0, ledger)
      && forall s :: Worker.Count(start.failures, s) == Times(ledger, s)
  {
    hide AttemptStart, LedgerBefore, Times, InARow;
    CountsAreCarried(Begin(tools), attempts, k, limits, searcher);
  }

  /** The tools active at the start of an attempt: those before the milestone, those found by searches of earlier
      attempts, and, once there was one, the search itself. */
  lemma {:induction false} ToolsAreCarried(st: Retry, attempts: seq<Attempt>, k: nat, limits: Limits, searcher: bool,
                                           tool: string)
    requires AttemptStart(st, attempts, k, limits, searcher).Some?
    ensures tool in AttemptStart(st, attempts, k, limits, searcher).value.active <==>
      || tool in st.active || (k > 0 && tool == "search_tools")
      || Found(LogBefore(st, attempts, k, limits, searcher), tool, searcher)
    decreases k
  {
    if k > 0 {
      AttemptCarries(st, attempts, limits, searcher);
      ActiveIffFound(st.active, st.failures, attempts[0].turns, attempts[0].targetsMissing, limits, searcher);
      hide AfterAttempt, Found, Ran, Fits;
      var next := AfterAttempt(st, attempts[0], limits, searcher).state;
      ToolsAreCarried(next, attempts[1..], k - 1, limits, searcher, tool);
      FoundJoin(FirstRun(st, attempts, limits, searcher).work.called,
                LogBefore(next, attempts[1..], k - 1, limits, searcher), tool, searcher);
    }
  }
}
