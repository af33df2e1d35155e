/** What the retry loop guarantees over all attempts at one milestone. */
module MilestoneLaws {
  import opened JsonValues
  import opened Text
  import opened Worker
  import opened WorkerLaws
  import opened MilestoneLoop

  /** The retry state in which the k-th attempt starts, if it is made. */
  function AttemptStart(st: Retry, attempts: seq<Attempt>, k: nat, limits: Limits, searcher: bool):
    (start: Option<Retry>)
    ensures start.Some? ==> k < |attempts|
    decreases k
  {
    if st.retries >= MAX_RETRY_CYCLES || attempts == [] then None
    else if k == 0 then Some(st)
    else
      match AfterAttempt(st, attempts[0], limits, searcher)
      case Ends(_) => None
      case Again(next) => AttemptStart(next, attempts[1..], k - 1, limits, searcher)
  }

  lemma AttemptKeepsHealth(st: Retry, attempt: Attempt, limits: Limits, searcher: bool)
    requires Healthy(st.failures, limits)
    ensures match AfterAttempt(st, attempt, limits, searcher)
      case Again(next) => Healthy(next.failures, limits) && st.active <= next.active
      case Ends(outcome) =>
        Healthy(outcome.state.failures, limits) || outcome.handoff == BlockedOff
  {
    var r := Ran(st.active, st.failures, attempt.turns, attempt.targetsMissing, limits, searcher);
    BreakerTripsIff(Start(st.active, st.failures), attempt.turns, attempt.targetsMissing, limits, searcher);
  }

  lemma {:induction false} AttemptStartIsHealthy(st: Retry, attempts: seq<Attempt>, k: nat, limits: Limits,
                                                 searcher: bool)
    requires Healthy(st.failures, limits) && AttemptStart(st, attempts, k, limits, searcher).Some?
    ensures Healthy(AttemptStart(st, attempts, k, limits, searcher).value.failures, limits)
    ensures st.active <= AttemptStart(st, attempts, k, limits, searcher).value.active
    ensures AttemptStart(st, attempts, k, limits, searcher).value.runs == st.runs + k < st.runs + |attempts|
    ensures AttemptStart(st, attempts, k, limits, searcher).value.retries == st.retries + k < MAX_RETRY_CYCLES
    decreases k
  {
    if k > 0 {
      AttemptKeepsHealth(st, attempts[0], limits, searcher);
      AttemptStartIsHealthy(AfterAttempt(st, attempts[0], limits, searcher).state, attempts[1..], k - 1, limits,
          searcher);
    }
  }

  /** At every model call of every attempt, each failure fingerprint has occurred fewer than
      `sameFailures` times over the whole milestone, and fewer than `consecutiveFailures` calls
      have failed in a row. */
  lemma BreakersHoldAcrossRetries(tools: set<string>, attempts: seq<Attempt>, limits: Limits, searcher: bool,
                                  k: nat, n: nat)
    requires limits.consecutiveFailures >= 1
    requires AttemptStart(Begin(tools), attempts, k, limits, searcher).Some?
    ensures var st := AttemptStart(Begin(tools), attempts, k, limits, searcher).value;
      var head := Head(Start(st.active, st.failures), attempts[k].turns, n, limits, searcher);
      head.Some? ==> Healthy(head.value.failures, limits)
  {
    AttemptStartIsHealthy(Begin(tools), attempts, k, limits, searcher);
    var st := AttemptStart(Begin(tools), attempts, k, limits, searcher).value;
    HeadIsHealthy(Start(st.active, st.failures), attempts[k].turns, n, limits, searcher);
  }

  /** A breaker that trips is final: no further attempt is made and the milestone is blocked. */
  lemma {:induction false} TrippedBreakerIsNeverResumed(st: Retry, attempts: seq<Attempt>, limits: Limits,
                                                        searcher: bool)
    requires Healthy(st.failures, limits)
    ensures var outcome := ExecutedFrom(st, attempts, limits, searcher);
      !Healthy(outcome.state.failures, limits) ==> outcome.handoff == BlockedOff
    decreases |attempts|
  {
    if st.retries < MAX_RETRY_CYCLES && attempts != [] {
      AttemptKeepsHealth(st, attempts[0], limits, searcher);
      match AfterAttempt(st, attempts[0], limits, searcher) {
        case Ends(_) =>
        case Again(next) => TrippedBreakerIsNeverResumed(next, attempts[1..], limits, searcher);
      }
    }
  }

  /** Where a milestone run ended: which attempt was the last, and what its worker did. */
  ghost predicate EndedAt(st: Retry, attempts: seq<Attempt>, limits: Limits, searcher: bool, outcome: Outcome, k: nat) {
    && k < |attempts|
    && AttemptStart(st, attempts, k, limits, searcher).Some?
    && AfterAttempt(AttemptStart(st, attempts, k, limits, searcher).value, attempts[k], limits, searcher)
        == Ends(outcome)
  }

  ghost predicate RanOut(st: Retry, attempts: seq<Attempt>, outcome: Outcome) {
    && outcome.state.runs - st.runs == outcome.state.retries - st.retries <= |attempts|
    && outcome.state.retries <= MAX_RETRY_CYCLES
    && (outcome.handoff == Failed <==> outcome.state.retries >= MAX_RETRY_CYCLES)
    && (outcome.handoff == Interrupted <==> outcome.state.retries < MAX_RETRY_CYCLES)
  }

  /** One attempt is one run, and only a repeated attempt adds a retry. */
  lemma AttemptCounts(st: Retry, attempt: Attempt, limits: Limits, searcher: bool)
    ensures match AfterAttempt(st, attempt, limits, searcher)
      case Again(next) => next.runs == st.runs + 1 && next.retries == st.retries + 1
      case Ends(outcome) => outcome.state.runs == st.runs + 1 && outcome.state.retries == st.retries
  {
    hide Ran;
  }

  lemma EndedLater(st: Retry, attempts: seq<Attempt>, limits: Limits, searcher: bool, outcome: Outcome, k: nat)
    requires st.retries < MAX_RETRY_CYCLES && attempts != [] && AfterAttempt(st, attempts[0], limits, searcher).Again?
    requires EndedAt(AfterAttempt(st, attempts[0], limits, searcher).state, attempts[1..], limits, searcher, outcome, k)
    ensures EndedAt(st, attempts, limits, searcher, outcome, k + 1)
  {
    hide AfterAttempt;
    assert attempts[1..][k] == attempts[k + 1];
  }

  lemma {:induction false} HowItEnds(st: Retry, attempts: seq<Attempt>, limits: Limits, searcher: bool)
    requires st.retries <= MAX_RETRY_CYCLES
    ensures var outcome := ExecutedFrom(st, attempts, limits, searcher);
      RanOut(st, attempts, outcome) ||
      (outcome.state.runs - st.runs >= 1
       && EndedAt(st, attempts, limits, searcher, outcome, outcome.state.runs - st.runs - 1))
    ensures ExecutedFrom(st, attempts, limits, searcher).state.runs <= st.runs + (MAX_RETRY_CYCLES - st.retries)
    decreases |attempts|
  {
    hide AfterAttempt;
    if st.retries < MAX_RETRY_CYCLES && attempts != [] {
      AttemptCounts(st, attempts[0], limits, searcher);
      match AfterAttempt(st, attempts[0], limits, searcher) {
        case Ends(outcome) => assert EndedAt(st, attempts, limits, searcher, outcome, 0);
        case Again(next) =>
          HowItEnds(next, attempts[1..], limits, searcher);
          var outcome := ExecutedFrom(next, attempts[1..], limits, searcher);
          if !RanOut(next, attempts[1..], outcome) {
            EndedLater(st, attempts, limits, searcher, outcome, outcome.state.runs - next.runs - 1);
          }
      }
    }
  }

  lemma AtMostThreeRuns(tools: set<string>, attempts: seq<Attempt>, limits: Limits, searcher: bool)
    ensures MilestoneRun(tools, attempts, limits, searcher).state.runs <= MAX_RETRY_CYCLES
  {
    HowItEnds(Begin(tools), attempts, limits, searcher);
  }

  /** One milestone costs at most three implementer runs, and passes only when the worker of its
      last run completed and the validator passed that very run. */
  lemma PassIsValidated(tools: set<string>, attempts: seq<Attempt>, limits: Limits, searcher: bool)
    ensures var outcome := MilestoneRun(tools, attempts, limits, searcher);
      && outcome.state.runs <= MAX_RETRY_CYCLES
      && (outcome.handoff == Passed ==>
           && 1 <= outcome.state.runs <= |attempts|
           && var last := outcome.state.runs - 1;
           && attempts[last].verdict == Pass
           && AttemptStart(Begin(tools), attempts, last, limits, searcher).Some?
           && var st := AttemptStart(Begin(tools), attempts, last, limits, searcher).value;
              Ran(st.active, st.failures, attempts[last].turns, attempts[last].targetsMissing, limits, searcher)
                .status == Complete)
  {
    HowItEnds(Begin(tools), attempts, limits, searcher);
  }

  /** Giving up before three cycles means that a non-empty failure repeated the previous one. */
  lemma EarlyFailureRepeats(tools: set<string>, attempts: seq<Attempt>, limits: Limits, searcher: bool)
    ensures var outcome := MilestoneRun(tools, attempts, limits, searcher);
      outcome.handoff == Failed && outcome.state.retries < MAX_RETRY_CYCLES ==>
        && 1 <= outcome.state.runs <= |attempts|
        && var last := outcome.state.runs - 1;
        && attempts[last].verdict.Fail? && attempts[last].verdict.signature != ""
        && AttemptStart(Begin(tools), attempts, last, limits, searcher).Some?
        && AttemptStart(Begin(tools), attempts, last, limits, searcher).value.previousFailure
           == Some(attempts[last].verdict.signature)
  {
    HowItEnds(Begin(tools), attempts, limits, searcher);
  }

  /** The failure remembered at an attempt is the verdict of the last earlier FAIL: every attempt
      in between was an unguided replan. */
  lemma {:induction false} RememberedFailure(st: Retry, attempts: seq<Attempt>, k: nat, limits: Limits, searcher: bool)
    requires AttemptStart(st, attempts, k, limits, searcher).Some?
    ensures k <= |attempts|
    ensures var previous := AttemptStart(st, attempts, k, limits, searcher).value.previousFailure;
      || (previous == st.previousFailure && forall i :: 0 <= i < k ==> attempts[i].verdict == UnguidedReplan)
      || exists j :: 0 <= j < k && previous.Some? && attempts[j].verdict == Fail(previous.value)
                     && forall i :: j < i < k ==> attempts[i].verdict == UnguidedReplan
    decreases k
  {
    if k > 0 {
      var next := AfterAttempt(st, attempts[0], limits, searcher).state;
      RememberedFailure(next, attempts[1..], k - 1, limits, searcher);
      var previous := AttemptStart(st, attempts, k, limits, searcher).value.previousFailure;
      assert forall i :: 0 < i < k ==> attempts[i] == attempts[1..][i - 1];
      if !(previous == next.previousFailure && forall i :: 0 <= i < k - 1 ==>
          attempts[1..][i].verdict == UnguidedReplan) {
        var j :| 0 <= j < k - 1 && previous.Some? && attempts[1..][j].verdict == Fail(previous.value)
                 && forall i :: j < i < k - 1 ==> attempts[1..][i].verdict == UnguidedReplan;
        assert attempts[j + 1].verdict == Fail(previous.value);
      } else if attempts[0].verdict != UnguidedReplan {
        assert attempts[0].verdict == Fail(previous.value);
      }
    }
  }
}
