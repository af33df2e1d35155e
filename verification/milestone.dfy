/** The retry loop around the worker: implement, validate, retry, for a single milestone. Worker
    replies and validator verdicts are arbitrary; when they run out the run is cancelled. */
module MilestoneLoop {
  import opened JsonValues
  import opened Text
  import opened Worker

  const MAX_RETRY_CYCLES := 3

  /** A validator verdict. `Fail` carries the normalised failure text, "" when there is none;
      `UnguidedReplan` is a REPLAN without usable guidance; `Escalate` comes from the fix verifier. */
  datatype Verdict =
    | Pass
    | Fail(signature: string)
    | UnguidedReplan
    | Replan(fingerprint: string)
    | Escalate

  datatype Attempt = Attempt(turns: seq<Turn>, targetsMissing: bool, verdict: Verdict)

  datatype Handoff =
    | Passed
    | Failed
    | BlockedOff
    | ReplanRequested(fingerprint: string)
    | Interrupted

  /** What survives from one attempt to the next, and how many implementer runs were made. */
  datatype Retry = Retry(
    retries: nat,
    previousFailure: Option<string>,
    active: set<string>,
    failures: Failures,
    runs: nat)

  datatype Outcome = Outcome(handoff: Handoff, state: Retry)

  datatype After = Again(state: Retry) | Ends(outcome: Outcome)

  function AfterWorker(st: Retry, attempt: Attempt, r: Worker.Result): After {
    var st' := st.(active := st.active + r.work.active, failures := r.work.failures, runs := st.runs + 1);
    match r.status
    case Cancelled => Ends(Outcome(Interrupted, st'))
    case BreakerTripped => Ends(Outcome(BlockedOff, st'))   // its reason is not under "clarification"
    case Blocked(clarification) =>
      Ends(Outcome(if Strip(clarification) != "" then ReplanRequested("") else BlockedOff, st'))
    case ScopeRequested(namesPaths) => Ends(Outcome(if namesPaths then ReplanRequested("") else BlockedOff, st'))
    case Complete =>
      match attempt.verdict
      case Pass => Ends(Outcome(Passed, st'))
      case Escalate => Ends(Outcome(ReplanRequested(""), st'))
      case Replan(fingerprint) => Ends(Outcome(ReplanRequested(fingerprint), st'))
      case UnguidedReplan => Again(st'.(retries := st.retries + 1))
      case Fail(signature) =>
        if signature != "" && st.previousFailure == Some(signature) then Ends(Outcome(Failed, st'))
        else Again(st'.(retries := st.retries + 1, previousFailure := Some(signature)))
  }

  function AfterAttempt(st: Retry, attempt: Attempt, limits: Limits, searcher: bool): After {
    AfterWorker(st, attempt,
                Ran(st.active, st.failures, attempt.turns, attempt.targetsMissing, limits, searcher))
  }

  function ExecutedFrom(st: Retry, attempts: seq<Attempt>, limits: Limits, searcher: bool): Outcome
    decreases |attempts|
  {
    if st.retries >= MAX_RETRY_CYCLES then Outcome(Failed, st)
    else if attempts == [] then Outcome(Interrupted, st)
    else
      match AfterAttempt(st, attempts[0], limits, searcher)
      case Ends(outcome) => outcome
      case Again(next) => ExecutedFrom(next, attempts[1..], limits, searcher)
  }

  function Begin(tools: set<string>): Retry {
    Retry(0, None, tools, Failures(map[], 0), 0)
  }

  /** What `_execute_milestone` hands back. */
  function MilestoneRun(tools: set<string>, attempts: seq<Attempt>, limits: Limits, searcher: bool): Outcome {
    ExecutedFrom(Begin(tools), attempts, limits, searcher)
  }

  method ExecuteMilestone(tools: set<string>, attempts: seq<Attempt>, limits: Limits, searcher: bool)
    returns (outcome: Outcome)
    ensures outcome == MilestoneRun(tools, attempts, limits, searcher)
  {
    var st := Begin(tools);
    var next := 0;
    while st.retries < MAX_RETRY_CYCLES
      invariant 0 <= next <= |attempts|
      invariant MilestoneRun(tools, attempts, limits, searcher) == ExecutedFrom(st, attempts[next..], limits, searcher)
      decreases |attempts| - next
    {
      if next == |attempts| {
        return Outcome(Interrupted, st);
      }
      assert attempts[next..][0] == attempts[next] && attempts[next..][1..] == attempts[next + 1..];
      var attempt := attempts[next];
      next := next + 1;
      var result := RunWorker(st.active, st.failures, attempt.turns, attempt.targetsMissing, limits, searcher);
      st := st.(active := st.active + result.work.active, failures := result.work.failures, runs := st.runs + 1);
      match result.status {
        case Cancelled => return Outcome(Interrupted, st);
        case BreakerTripped => return Outcome(BlockedOff, st);
        case Blocked(clarification) =>
          return Outcome(if Strip(clarification) != "" then ReplanRequested("") else BlockedOff, st);
        case ScopeRequested(namesPaths) =>
          return Outcome(if namesPaths then ReplanRequested("") else BlockedOff, st);
        case Complete =>
      }
      match attempt.verdict {
        case Pass => return Outcome(Passed, st);
        case Escalate => return Outcome(ReplanRequested(""), st);
        case Replan(fingerprint) => return Outcome(ReplanRequested(fingerprint), st);
        case UnguidedReplan => st := st.(retries := st.retries + 1);
        case Fail(signature) =>
          if signature != "" && st.previousFailure == Some(signature) {
            return Outcome(Failed, st);
          }
          st := st.(previousFailure := Some(signature), retries := st.retries + 1);
      }
    }
    return Outcome(Failed, st);
  }
}
