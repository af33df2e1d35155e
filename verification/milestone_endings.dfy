/** How a milestone run ends, said over the status of its last worker run and the verdict on it. */
module MilestoneEndings {
  import opened JsonValues
  import opened Text
  import opened Worker
  import opened MilestoneLoop
  import opened MilestoneLaws

  /** The k-th attempt is made, and it is the last one. */
  ghost predicate LastAttempt(st: Retry, attempts: seq<Attempt>, k: nat, limits: Limits, searcher: bool) {
    && AttemptStart(st, attempts, k, limits, searcher).Some?
    && AttemptStart(st, attempts, k + 1, limits, searcher).None?
  }

  /** What the worker run of the k-th attempt reports. */
  function StatusOf(st: Retry, attempts: seq<Attempt>, k: nat, limits: Limits, searcher: bool): Status
    requires AttemptStart(st, attempts, k, limits, searcher).Some?
  {
    var start := AttemptStart(st, attempts, k, limits, searcher).value;
    Ran(start.active, start.failures, attempts[k].turns, attempts[k].targetsMissing, limits, searcher).status
  }

  /** This verdict is a failure with the text that was remembered, and not an empty one. */
  predicate SameFailure(verdict: Verdict, remembered: Option<string>) {
    verdict.Fail? && verdict.signature != "" && remembered == Some(verdict.signature)
  }

  /** A verdict that asks for another attempt. */
  predicate AsksAgain(verdict: Verdict, remembered: Option<string>) {
    verdict == UnguidedReplan || (verdict.Fail? && !SameFailure(verdict, remembered))
  }

  /** What a last attempt is handed back as: `spent` says that it used up the third cycle, `left` that there
      are more attempts to make. */
  predicate HandedBack(status: Status, verdict: Verdict, remembered: Option<string>, spent: bool, left: bool,
                       handoff: Handoff)
  {
    match handoff
    case Passed => status == Complete && verdict == Pass
    case ReplanRequested(fingerprint) =>
      || (fingerprint == "" && status.Blocked? && Strip(status.clarification) != "")
      || (fingerprint == "" && status == ScopeRequested(true))
      || (fingerprint == "" && status == Complete && verdict == Escalate)
      || (status == Complete && verdict == Replan(fingerprint))
    case BlockedOff =>
      || (status.Blocked? && Strip(status.clarification) == "")
      || status == ScopeRequested(false)
      || status == BreakerTripped
    case Failed =>
      status == Complete && (SameFailure(verdict, remembered) || (AsksAgain(verdict, remembered) && spent))
    case Interrupted =>
      status == Cancelled || (status == Complete && AsksAgain(verdict, remembered) && !spent && !left)
  }

  ghost predicate EndsWith(st: Retry, attempts: seq<Attempt>, k: nat, limits: Limits, searcher: bool,
                           handoff: Handoff)
  {
    && LastAttempt(st, attempts, k, limits, searcher)
    && HandedBack(StatusOf(st, attempts, k, limits, searcher), attempts[k].verdict,
                  AttemptStart(st, attempts, k, limits, searcher).value.previousFailure,
                  AttemptStart(st, attempts, k, limits, searcher).value.retries + 1 == 3, k + 1 < |attempts|, handoff)
  }

  lemma OneHandoff(status: Status, verdict: Verdict, remembered: Option<string>, spent: bool, left: bool, a: Handoff,
                   b: Handoff)
    requires HandedBack(status, verdict, remembered, spent, left, a)
    requires HandedBack(status, verdict, remembered, spent, left, b)
    ensures a == b
  {
  }

  lemma StartLater(st: Retry, attempts: seq<Attempt>, k: nat, limits: Limits, searcher: bool)
    requires st.retries < MAX_RETRY_CYCLES && attempts != [] && AfterAttempt(st, attempts[0], limits, searcher).Again?
    ensures var next := AfterAttempt(st, attempts[0], limits, searcher).state;
      AttemptStart(st, attempts, k + 1, limits, searcher) == AttemptStart(next, attempts[1..], k, limits, searcher)
  {
    hide AfterAttempt;
  }

  lemma EndsLater(st: Retry, attempts: seq<Attempt>, k: nat, limits: Limits, searcher: bool, handoff: Handoff)
    requires st.retries < MAX_RETRY_CYCLES && attempts != [] && AfterAttempt(st, attempts[0], limits, searcher).Again?
    ensures var next := AfterAttempt(st, attempts[0], limits, searcher).state;
      EndsWith(st, attempts, k + 1, limits, searcher, handoff) <==>
      EndsWith(next, attempts[1..], k, limits, searcher, handoff)
  {
    StartLater(st, attempts, k, limits, searcher);
    StartLater(st, attempts, k + 1, limits, searcher);
    hide AttemptStart, AfterAttempt, HandedBack, Ran;
    if k + 1 < |attempts| {
      assert attempts[1..][k] == attempts[k + 1];
    }
  }

  /** An attempt that ends the run. */
  lemma EndsNow(st: Retry, attempts: seq<Attempt>, limits: Limits, searcher: bool)
    requires st.retries < MAX_RETRY_CYCLES && attempts != [] && AfterAttempt(st, attempts[0], limits, searcher).Ends?
    ensures EndsWith(st, attempts, 0, limits, searcher, AfterAttempt(st, attempts[0], limits, searcher).outcome.handoff)
  {
    hide Ran, Strip;
    assert AttemptStart(st, attempts, 0, limits, searcher) == Some(st);
    assert AttemptStart(st, attempts, 1, limits, searcher) == None;
  }

  /** An attempt that asks for another one when there is none to make. */
  lemma EndsForWant(st: Retry, attempts: seq<Attempt>, limits: Limits, searcher: bool)
    requires st.retries < MAX_RETRY_CYCLES && |attempts| > 0 && AfterAttempt(st, attempts[0], limits, searcher).Again?
    requires st.retries + 1 == MAX_RETRY_CYCLES || |attempts| == 1
    ensures EndsWith(st, attempts, 0, limits, searcher,
                     if st.retries + 1 == MAX_RETRY_CYCLES then Failed else Interrupted)
  {
    hide Ran;
    assert AttemptStart(st, attempts, 0, limits, searcher) == Some(st);
    assert AttemptStart(st, attempts, 1, limits, searcher) == None;
  }

  lemma {:induction false} HowItIsHandedBack(st: Retry, attempts: seq<Attempt>, limits: Limits, searcher: bool)
    returns (k: nat)
    requires st.retries < MAX_RETRY_CYCLES && attempts != []
    ensures EndsWith(st, attempts, k, limits, searcher, ExecutedFrom(st, attempts, limits, searcher).handoff)
    ensures ExecutedFrom(st, attempts, limits, searcher).state.runs == st.runs + k + 1
    decreases |attempts|
  {
    AttemptCounts(st, attempts[0], limits, searcher);
    if AfterAttempt(st, attempts[0], limits, searcher).Ends? {
      EndsNow(st, attempts, limits, searcher);
      k := 0;
    } else {
      var next := AfterAttempt(st, attempts[0], limits, searcher).state;
      hide AfterAttempt, EndsWith;
      if st.retries + 1 == MAX_RETRY_CYCLES || |attempts| == 1 {
        EndsForWant(st, attempts, limits, searcher);
        k := 0;
      } else {
        var later := HowItIsHandedBack(next, attempts[1..], limits, searcher);
        EndsLater(st, attempts, later, limits, searcher, ExecutedFrom(st, attempts, limits, searcher).handoff);
        k := later + 1;
      }
    }
  }

  lemma {:induction false} NoneAfterNone(st: Retry, attempts: seq<Attempt>, k: nat, limits: Limits, searcher: bool)
    requires AttemptStart(st, attempts, k, limits, searcher).None?
    ensures AttemptStart(st, attempts, k + 1, limits, searcher).None?
    decreases k
  {
    hide AfterAttempt;
    if st.retries < MAX_RETRY_CYCLES && attempts != [] {
      match AfterAttempt(st, attempts[0], limits, searcher) {
        case Ends(_) =>
        case Again(next) => NoneAfterNone(next, attempts[1..], k - 1, limits, searcher);
      }
    }
  }

  lemma {:induction false} NoneFrom(st: Retry, attempts: seq<Attempt>, k: nat, j: nat, limits: Limits, searcher: bool)
    requires AttemptStart(st, attempts, k, limits, searcher).None? && k <= j
    ensures AttemptStart(st, attempts, j, limits, searcher).None?
    decreases j
  {
    if k < j {
      NoneFrom(st, attempts, k, j - 1, limits, searcher);
      NoneAfterNone(st, attempts, j - 1, limits, searcher);
    }
  }

  lemma OneLastAttempt(st: Retry, attempts: seq<Attempt>, j: nat, k: nat, limits: Limits, searcher: bool)
    requires LastAttempt(st, attempts, j, limits, searcher) && LastAttempt(st, attempts, k, limits, searcher)
    ensures j == k
  {
    if j < k {
      NoneFrom(st, attempts, j + 1, k, limits, searcher);
    } else if k < j {
      NoneFrom(st, attempts, k + 1, j, limits, searcher);
    }
  }

  /** For every milestone run, the handoff is read off the status of its last worker run, the verdict on it,
      and the failure remembered before it; without any attempt the run counts as interrupted. */
  lemma HandoffIff(tools: set<string>, attempts: seq<Attempt>, limits: Limits, searcher: bool, handoff: Handoff)
    ensures MilestoneRun(tools, attempts, limits, searcher).handoff == handoff <==>
      || (exists k: nat :: EndsWith(Begin(tools), attempts, k, limits, searcher, handoff))
      || (attempts == [] && handoff == Interrupted)
  {
    var st := Begin(tools);
    if attempts == [] {
      forall k: nat ensures !EndsWith(st, attempts, k, limits, searcher, handoff) {
        assert AttemptStart(st, attempts, k, limits, searcher).None?;
      }
    } else {
      var k := HowItIsHandedBack(st, attempts, limits, searcher);
      hide ExecutedFrom, AttemptStart, HandedBack;
      var actual := MilestoneRun(tools, attempts, limits, searcher).handoff;
      forall j: nat | EndsWith(st, attempts, j, limits, searcher, handoff) ensures actual == handoff {
        OneLastAttempt(st, attempts, j, k, limits, searcher);
        OneHandoff(StatusOf(st, attempts, k, limits, searcher), attempts[k].verdict,
                   AttemptStart(st, attempts, k, limits, searcher).value.previousFailure,
                   AttemptStart(st, attempts, k, limits, searcher).value.retries + 1 == 3, k + 1 < |attempts|, handoff,
                   actual);
      }
    }
  }
}
