/** When the loop sends the implementer out for finished work. */
module MissionReruns {
  import opened JsonValues
  import opened Text
  import opened PlanOps
  import opened PlanPatchLaws
  import opened Worker
  import opened MilestoneLoop
  import opened Mission
  import opened MissionPatches
  import opened MissionLaws
  import opened MissionOrder
  import opened MissionLimits

  /** Some round finds a finished milestone at its head and sends the implementer out for it. */
  ghost predicate RunsFinishedWork(s: State, rounds: seq<Round>, config: Config)
    decreases |rounds|
  {
    s.index < |s.milestones| && rounds != [] &&
    (|| (IsDone(s.milestones[s.index]) && AfterRound(s, rounds[0], config).state.runs > s.runs)
     || (AfterRound(s, rounds[0], config).Goes?
          && RunsFinishedWork(AfterRound(s, rounds[0], config).state, rounds[1..], config)))
  }

  lemma RunsFinishedLater(s: State, round: Round, rest: seq<Round>, config: Config)
    requires s.index < |s.milestones|
    ensures RunsFinishedWork(s, [round] + rest, config) <==>
      || (IsDone(s.milestones[s.index]) && AfterRound(s, round, config).state.runs > s.runs)
      || (AfterRound(s, round, config).Goes? && RunsFinishedWork(AfterRound(s, round, config).state, rest, config))
  {
    hide AfterRound, IsDone;
    assert ([round] + rest)[1..] == rest;
  }

  // ---------------------------------------------------------------- passing everything on the way

  /** Rounds in which the milestone in hand passes at its first attempt. */
  function Passes(k: nat): seq<Round> {
    if k == 0 then [] else [PASSING] + Passes(k - 1)
  }

  /** What memory holds of the milestones from the head up to `j` once they have passed. */
  function KeysBefore(s: State, j: nat): set<string>
    requires j <= |s.milestones|
  {
    set i | s.index <= i < j :: JsonKey(MissionId(s.milestones[i]))
  }

  /** A finished milestone from the head on that memory does not answer for when the loop gets there. */
  ghost predicate Unanswered(s: State, j: nat, config: Config) {
    && s.index <= j < |s.milestones| && IsDone(s.milestones[j])
    && !(config.resume && config.memoryEnabled
         && Remembered(s.memory + KeysBefore(s, j), MissionId(s.milestones[j])))
  }

  lemma PassingRoundMoves(s: State, config: Config)
    requires s.index < |s.milestones|
    ensures var next := AfterRound(s, PASSING, config); var t := next.state;
      && next.Goes? && t.index == s.index + 1
      && t.milestones == s.milestones[s.index := Done(s.milestones[s.index])]
      && t.runs == s.runs + (if Answered(s, config) then 0 else 1)
      && (config.memoryEnabled ==> t.memory == s.memory + {JsonKey(MissionId(s.milestones[s.index]))})
  {
    hide MilestoneRun, Done, MissionId;
    ScriptedRun(config.tools, Pass, config.limits, config.searcher);
  }

  lemma KeysMove(s: State, t: State, j: nat)
    requires s.index < j < |s.milestones| && t.index == s.index + 1
    requires t.milestones == s.milestones[s.index := Done(s.milestones[s.index])]
    ensures KeysBefore(s, j) == {JsonKey(MissionId(s.milestones[s.index]))} + KeysBefore(t, j)
  {
    hide Done, MissionId, JsonKey;
    assert forall i :: s.index < i < |s.milestones| ==> t.milestones[i] == s.milestones[i];
    assert forall i :: s.index < i < j ==> JsonKey(MissionId(s.milestones[i])) in KeysBefore(t, j);
  }

  lemma UnansweredMoves(s: State, j: nat, config: Config)
    requires s.index < |s.milestones|
    ensures Unanswered(s, j, config) <==>
      if j == s.index then IsDone(s.milestones[j]) && !Answered(s, config)
      else Unanswered(AfterRound(s, PASSING, config).state, j, config)
  {
    PassingRoundMoves(s, config);
    hide AfterRound, Done, IsDone, MissionId, JsonKey, Remembered, KeysBefore;
    var t := AfterRound(s, PASSING, config).state;
    if j == s.index {
      NoKeys(s);
    } else if s.index < j < |s.milestones| && config.memoryEnabled {
      KeysMove(s, t, j);
      assert s.memory + KeysBefore(s, j) == t.memory + KeysBefore(t, j);
    }
  }

  lemma NoKeys(s: State)
    requires s.index <= |s.milestones|
    ensures s.memory + KeysBefore(s, s.index) == s.memory
  {
  }

  lemma {:induction false} PassesRunFinishedIff(s: State, k: nat, config: Config)
    ensures RunsFinishedWork(s, Passes(k), config) <==> exists j: nat :: j < s.index + k && Unanswered(s, j, config)
    decreases k
  {
    hide AfterRound, IsDone, Answered, Unanswered;
    if k == 0 {
      NotBeforeHead(s, config);
    } else if s.index < |s.milestones| {
      PassingRoundMoves(s, config);
      var t := AfterRound(s, PASSING, config).state;
      RunsFinishedLater(s, PASSING, Passes(k - 1), config);
      PassesRunFinishedIff(t, k - 1, config);
      forall j: nat
        ensures Unanswered(s, j, config) <==>
          if j == s.index then IsDone(s.milestones[j]) && !Answered(s, config) else Unanswered(t, j, config)
      {
        UnansweredMoves(s, j, config);
      }
      NotBeforeHead(t, config);
      assert Unanswered(s, s.index, config) <==> IsDone(s.milestones[s.index]) && !Answered(s, config);
    } else {
      NotBeforeHead(s, config);
    }
  }

  lemma NotBeforeHead(s: State, config: Config)
    ensures forall j: nat :: Unanswered(s, j, config) ==> s.index <= j < |s.milestones|
  {
  }

  /** Passing what comes, the loop executes finished work at some point if and only if there is finished work
      from its head on that memory does not answer for. */
  lemma FinishedWorkIsRerunIff(s: State, config: Config)
    ensures (exists k: nat :: RunsFinishedWork(s, Passes(k), config)) <==> exists j: nat :: Unanswered(s, j, config)
  {
    hide RunsFinishedWork, Passes, Unanswered;
    if k: nat :| RunsFinishedWork(s, Passes(k), config) {
      PassesRunFinishedIff(s, k, config);
    }
    if j: nat :| Unanswered(s, j, config) {
      NotBeforeHead(s, config);
      PassesRunFinishedIff(s, j - s.index + 1, config);
    }
  }

  // ---------------------------------------------------------------- which patches put finished work ahead

  /** Nothing at or after the head is completed. */
  ghost predicate NothingAhead(s: State) {
    forall i :: s.index <= i < |s.milestones| ==> !Completed(s.milestones[i])
  }

  /** All completed milestones are done: they read "completed" and not, say, "Completed". */
  ghost predicate CompletedAreDone(ms: seq<Dict>) {
    forall m :: m in ms && Completed(m) ==> IsDone(m)
  }

  lemma {:induction false} FinishedSplit(a: seq<Dict>, b: seq<Dict>)
    ensures |Finished(a + b)| == |Finished(a)| + |Finished(b)|
  {
    hide Completed;
    if a == [] {
      assert a + b == b;
    } else {
      assert (a + b)[1..] == a[1..] + b && (a + b)[0] == a[0];
      FinishedSplit(a[1..], b);
    }
  }

  lemma {:induction false} FinishedCount(ms: seq<Dict>)
    ensures |Finished(ms)| <= |ms|
    ensures |Finished(ms)| == |ms| <==> forall i :: 0 <= i < |ms| ==> Completed(ms[i])
    ensures |Finished(ms)| == 0 <==> forall i :: 0 <= i < |ms| ==> !Completed(ms[i])
  {
    hide Completed;
    if ms != [] {
      FinishedCount(ms[1..]);
      assert forall i :: 0 < i < |ms| ==> ms[1..][i - 1] == ms[i];
    }
  }

  lemma FinishedParts(ms: seq<Dict>, n: nat)
    requires n <= |ms|
    ensures |Finished(ms)| == |Finished(ms[..n])| + |Finished(ms[n..])|
    ensures |Finished(ms[..n])| <= n
    ensures |Finished(ms[..n])| == n <==> forall i :: 0 <= i < n ==> Completed(ms[i])
    ensures |Finished(ms[n..])| == 0 <==> forall i :: n <= i < |ms| ==> !Completed(ms[i])
  {
    hide Completed, Finished;
    assert ms == ms[..n] + ms[n..];
    FinishedSplit(ms[..n], ms[n..]);
    FinishedCount(ms[..n]);
    FinishedCount(ms[n..]);
    assert forall i :: n <= i < |ms| ==> ms[n..][i - n] == ms[i];
  }

  /** The milestone in hand stands before a completed one (or is completed); once it is gone, any unfinished
      milestone stands before a completed one. */
  ghost predicate BeforeFinished(ms: seq<Dict>, raw: Json) {
    match FirstWithId(ms, raw)
    case Some(p) => exists i :: p <= i < |ms| && Completed(ms[i])
    case None => exists i, j :: 0 <= i < j < |ms| && !Completed(ms[i]) && Completed(ms[j])
  }

  /** With `n` completed milestones, some unfinished one stands before a completed one exactly when not all
      completed ones are among the first `n`. */
  lemma GapIff(ms: seq<Dict>, n: nat)
    requires |Finished(ms)| == n
    ensures (exists i :: n <= i < |ms| && Completed(ms[i])) <==>
            exists i, j :: 0 <= i < j < |ms| && !Completed(ms[i]) && Completed(ms[j])
  {
    hide Completed, Finished;
    FinishedCount(ms);
    FinishedParts(ms, n);
    if j :| n <= j < |ms| && Completed(ms[j]) {
      var i :| 0 <= i < n && !Completed(ms[i]);
      assert i < j;
    }
  }

  lemma DonePrefixIsCompleted(s: State)
    requires InStep(s)
    ensures forall i :: 0 <= i < s.index ==> Completed(s.milestones[i])
  {
    forall i | 0 <= i < s.index ensures Completed(s.milestones[i]) {
      DoneIsCompleted(s.milestones[i]);
    }
  }

  /** Everything before the head is finished and nothing else is: the plan has as many completed milestones
      as the loop has counted, and a completed one is done. */
  lemma InStepCounts(s: State)
    requires InStep(s) && NothingAhead(s)
    ensures |Finished(s.milestones)| == s.index
    ensures CompletedAreDone(s.milestones)
  {
    DonePrefixIsCompleted(s);
    hide Completed, Finished, IsDone, UniqueIds;
    FinishedParts(s.milestones, s.index);
  }

  /** A patch completes nothing. */
  lemma CompletedStayDone(ms: seq<Dict>, ops: seq<Json>)
    requires ApplyOps(ms, ops).Ok? && CompletedAreDone(ms)
    ensures CompletedAreDone(ApplyOps(ms, ops).value)
  {
    var out := ApplyOps(ms, ops).value;
    hide ApplyOps, Completed, IsDone, Finished;
    PatchKeepsFinishedWork(ms, ops);
    forall m | m in out && Completed(m) ensures IsDone(m) {
      FinishedIff(out, m - {"depends_on"});
      FinishedIff(ms, m - {"depends_on"});
      var m0 :| m0 in ms && Completed(m0) && m0 - {"depends_on"} == m - {"depends_on"};
      SameCore(m0, m);
    }
  }

  /** With exactly the work before the head finished, an accepted patch makes the loop continue at or before
      finished work if and only if it leaves the milestone in hand before a completed one, or, once that is
      gone, any unfinished milestone before a completed one. */
  lemma FinishedAheadIff(s: State, ops: seq<Json>)
    requires InStep(s) && NothingAhead(s) && s.index < |s.milestones| && ApplyOps(s.milestones, ops).Ok?
    ensures var out := ApplyOps(s.milestones, ops).value; var raw := MissionId(s.milestones[s.index]);
      (exists i :: Reanchored(out, raw, s.index) <= i < |out| && Completed(out[i])) <==> BeforeFinished(out, raw)
  {
    InStepCounts(s);
    hide ApplyOps, Completed, Finished, InStep, NothingAhead, MissionId;
    PatchKeepsFinishedWork(s.milestones, ops);
    GapIff(ApplyOps(s.milestones, ops).value, s.index);
  }

  // ---------------------------------------------------------------- when finished work is rerun

  lemma UnansweredWithoutMemory(t: State, config: Config)
    requires NoMemory(config) && CompletedAreDone(t.milestones)
    ensures (exists j: nat :: Unanswered(t, j, config)) <==> !NothingAhead(t)
  {
    hide Completed, IsDone, Remembered, MissionId;
    forall m | m in t.milestones ensures IsDone(m) <==> Completed(m) {
      if IsDone(m) {
        DoneIsCompleted(m);
      }
    }
    if !NothingAhead(t) {
      var i: nat :| t.index <= i < |t.milestones| && Completed(t.milestones[i]);
      assert Unanswered(t, i, config);
    }
    if j: nat :| Unanswered(t, j, config) {
      assert IsDone(t.milestones[j]) && t.milestones[j] in t.milestones;
    }
  }

  /** After a replan, rounds that pass execute finished work again at some point if and only if the patch
      leaves the milestone in hand before a completed one, or, once that is gone, any unfinished milestone
      before a completed one. */
  lemma ReplanRerunsIff(s: State, round: Round, config: Config)
    requires InStep(s) && NothingAhead(s) && s.index < |s.milestones| && NoMemory(config)
    requires PatchTaken(s, round, config).Some?
    ensures (exists k: nat :: RunsFinishedWork(s, [round] + Passes(k), config)) <==>
      BeforeFinished(AfterRound(s, round, config).state.milestones, MissionId(s.milestones[s.index]))
  {
    var ops := PatchTaken(s, round, config).value;
    var t := AfterRound(s, round, config).state;
    HeadIsNotDone(s);
    InStepCounts(s);
    hide AfterRound, PatchTaken, ApplyOps, Reanchored, MissionId, Completed, IsDone, InStep, BeforeFinished,
      RunsFinishedWork, Unanswered, Finished, Passes;
    RoundMoves(s, round, config);
    FinishedAheadIff(s, ops);
    CompletedStayDone(s.milestones, ops);
    UnansweredWithoutMemory(t, config);
    FinishedWorkIsRerunIff(t, config);
    forall k: nat
      ensures RunsFinishedWork(s, [round] + Passes(k), config) <==> RunsFinishedWork(t, Passes(k), config)
    {
      RunsFinishedLater(s, round, Passes(k), config);
    }
  }

  lemma HeadIsNotDone(s: State)
    requires NothingAhead(s) && s.index < |s.milestones|
    ensures !IsDone(s.milestones[s.index])
  {
    if IsDone(s.milestones[s.index]) {
      DoneIsCompleted(s.milestones[s.index]);
    }
  }

  /** No patch applied during this run puts finished work at or behind the head. */
  ghost predicate KeepsFinishedBehind(s: State, rounds: seq<Round>, config: Config)
    decreases |rounds|
  {
    s.index < |s.milestones| && rounds != [] && AfterRound(s, rounds[0], config).Goes? ==>
      && NothingAhead(AfterRound(s, rounds[0], config).state)
      && KeepsFinishedBehind(AfterRound(s, rounds[0], config).state, rounds[1..], config)
  }

  lemma {:induction false} KeptBehindIsNotRun(s: State, rounds: seq<Round>, config: Config)
    requires NothingAhead(s) && KeepsFinishedBehind(s, rounds, config)
    ensures !RunsFinishedWork(s, rounds, config)
    decreases |rounds|
  {
    hide AfterRound, NothingAhead, IsDone;
    if s.index < |s.milestones| && rounds != [] {
      HeadIsNotDone(s);
      if AfterRound(s, rounds[0], config).Goes? {
        KeptBehindIsNotRun(AfterRound(s, rounds[0], config).state, rounds[1..], config);
      }
    }
  }

  /** The run, cut off somewhere and continued with passing rounds, executes finished work again. */
  ghost predicate SomeCutReruns(s: State, rounds: seq<Round>, config: Config) {
    exists n: nat, k: nat :: n <= |rounds| && RunsFinishedWork(s, rounds[..n] + Passes(k), config)
  }

  lemma NothingToRerun(s: State, config: Config)
    requires NothingAhead(s) && NoMemory(config) && CompletedAreDone(s.milestones)
    ensures forall k: nat :: !RunsFinishedWork(s, Passes(k), config)
  {
    hide NothingAhead, RunsFinishedWork, Passes, Unanswered, Completed, IsDone;
    UnansweredWithoutMemory(s, config);
    FinishedWorkIsRerunIff(s, config);
  }

  lemma FirstRound(rounds: seq<Round>, n: nat, more: seq<Round>)
    requires 0 < n <= |rounds|
    ensures rounds[..n] + more == [rounds[0]] + (rounds[1..][..n - 1] + more)
  {
  }

  lemma LaterCut(s: State, rounds: seq<Round>, config: Config)
    requires s.index < |s.milestones| && rounds != [] && AfterRound(s, rounds[0], config).Goes?
    requires !IsDone(s.milestones[s.index]) && forall k: nat :: !RunsFinishedWork(s, Passes(k), config)
    ensures SomeCutReruns(s, rounds, config) <==>
      SomeCutReruns(AfterRound(s, rounds[0], config).state, rounds[1..], config)
  {
    hide AfterRound, RunsFinishedWork, Passes, IsDone;
    var t, rest := AfterRound(s, rounds[0], config).state, rounds[1..];
    forall n: nat, k: nat | 0 < n <= |rounds|
      ensures RunsFinishedWork(s, rounds[..n] + Passes(k), config)
         <==> RunsFinishedWork(t, rest[..n - 1] + Passes(k), config)
    {
      FirstRound(rounds, n, Passes(k));
      RunsFinishedLater(s, rounds[0], rest[..n - 1] + Passes(k), config);
    }
    if n: nat, k: nat :| n <= |rounds| && RunsFinishedWork(s, rounds[..n] + Passes(k), config) {
      assert rounds[..0] + Passes(k) == Passes(k);
      assert RunsFinishedWork(t, rest[..n - 1] + Passes(k), config);
    }
    if n: nat, k: nat :| n <= |rest| && RunsFinishedWork(t, rest[..n] + Passes(k), config) {
      assert RunsFinishedWork(s, rounds[..n + 1] + Passes(k), config);
    }
  }

  lemma NoLaterCut(s: State, rounds: seq<Round>, config: Config)
    requires s.index < |s.milestones| && rounds != [] ==>
      !AfterRound(s, rounds[0], config).Goes? && !IsDone(s.milestones[s.index])
    requires forall k: nat :: !RunsFinishedWork(s, Passes(k), config)
    ensures !SomeCutReruns(s, rounds, config)
  {
    hide AfterRound, Passes, IsDone;
    forall n: nat, k: nat | n <= |rounds| ensures !RunsFinishedWork(s, rounds[..n] + Passes(k), config) {
      if n == 0 {
        assert rounds[..0] + Passes(k) == Passes(k);
      } else if s.index < |s.milestones| {
        FirstRound(rounds, n, Passes(k));
        RunsFinishedLater(s, rounds[0], rounds[1..][..n - 1] + Passes(k), config);
      }
    }
  }

  lemma CompletedAreDoneAfter(s: State, round: Round, config: Config)
    requires s.index < |s.milestones| && CompletedAreDone(s.milestones)
    ensures CompletedAreDone(AfterRound(s, round, config).state.milestones)
  {
    hide AfterRound, PatchTaken, ApplyOps, Completed, Reanchored, MilestoneRun, Answered, MissionId;
    RoundMoves(s, round, config);
    if PatchTaken(s, round, config).Some? {
      CompletedStayDone(s.milestones, PatchTaken(s, round, config).value);
    }
  }

  /** A run that starts with no finished work ahead, cut off anywhere and continued with passing rounds,
      executes finished work again for some cut if and only if some patch it applied put finished work at or
      behind the head. */
  lemma {:induction false} SomeCutRerunsIff(s: State, rounds: seq<Round>, config: Config)
    requires NothingAhead(s) && NoMemory(config) && CompletedAreDone(s.milestones)
    ensures SomeCutReruns(s, rounds, config) <==> !KeepsFinishedBehind(s, rounds, config)
    decreases |rounds|
  {
    hide AfterRound, NothingAhead, IsDone, CompletedAreDone, RunsFinishedWork, Passes;
    NothingToRerun(s, config);
    if s.index < |s.milestones| && rounds != [] {
      HeadIsNotDone(s);
      var next, rest := AfterRound(s, rounds[0], config), rounds[1..];
      if next.Goes? {
        CompletedAreDoneAfter(s, rounds[0], config);
        hide SomeCutReruns;
        LaterCut(s, rounds, config);
        if NothingAhead(next.state) {
          SomeCutRerunsIff(next.state, rest, config);
        } else {
          CutAtOnce(next.state, rest, config);
        }
      } else {
        NoLaterCut(s, rounds, config);
      }
    } else {
      NoLaterCut(s, rounds, config);
    }
  }

  lemma CutAtOnce(s: State, rounds: seq<Round>, config: Config)
    requires !NothingAhead(s) && NoMemory(config) && CompletedAreDone(s.milestones)
    ensures SomeCutReruns(s, rounds, config)
  {
    hide NothingAhead, RunsFinishedWork, Passes, Unanswered, Completed, IsDone;
    UnansweredWithoutMemory(s, config);
    FinishedWorkIsRerunIff(s, config);
    var k: nat :| RunsFinishedWork(s, Passes(k), config);
    assert rounds[..0] + Passes(k) == Passes(k);
  }

  /** Patches that stay behind the milestone in hand never put finished work ahead. */
  lemma NothingAheadAfterRound(s: State, round: Round, config: Config)
    requires InStep(s) && NothingAhead(s) && s.index < |s.milestones| && TakesBehind(s, round, config)
    ensures var next := AfterRound(s, round, config); next.Goes? ==> InStep(next.state) && NothingAhead(next.state)
  {
    var next := AfterRound(s, round, config);
    InStepAfterRound(s, round, config);
    InStepCounts(s);
    assert s.passed == s.index && (InStep(next.state) ==> next.state.passed == next.state.index);
    hide AfterRound, InStep, PatchTaken, ApplyOps, PatchStaysBehind, Reanchored, MissionId, MilestoneRun, Answered,
      Completed, Done, Finished, TakesBehind;
    RoundMoves(s, round, config);
    if next.Goes? && PatchTaken(s, round, config).Some? {
      PatchKeepsFinishedWork(s.milestones, PatchTaken(s, round, config).value);
      DonePrefixIsCompleted(next.state);
      InStepIsShort(next.state);
      FinishedParts(next.state.milestones, s.index);
    }
  }

  lemma InStepIsShort(s: State)
    requires InStep(s)
    ensures s.index <= |s.milestones|
  {
  }

  lemma {:induction false} DisciplinedKeepsBehind(s: State, rounds: seq<Round>, config: Config)
    requires InStep(s) && NothingAhead(s) && Disciplined(s, rounds, config)
    ensures KeepsFinishedBehind(s, rounds, config)
    decreases |rounds|
  {
    hide AfterRound, NothingAhead, InStep, TakesBehind;
    if s.index < |s.milestones| && rounds != [] && AfterRound(s, rounds[0], config).Goes? {
      NothingAheadAfterRound(s, rounds[0], config);
      DisciplinedKeepsBehind(AfterRound(s, rounds[0], config).state, rounds[1..], config);
    }
  }

  /** So a plan run from its start under patches that stay behind the head never sends the implementer out
      for finished work. */
  lemma FinishedWorkIsNotRunAgain(s: State, rounds: seq<Round>, config: Config)
    requires InStep(s) && NothingAhead(s) && Disciplined(s, rounds, config)
    ensures !RunsFinishedWork(s, rounds, config)
  {
    DisciplinedKeepsBehind(s, rounds, config);
    KeptBehindIsNotRun(s, rounds, config);
  }

  // ---------------------------------------------------------------- two ways to run finished work again

  /** Two passing rounds, a patch, and passing rounds up to a finished milestone from the new head on. */
  lemma RunsAgain(a: Dict, b: Dict, c: Dict, patch: seq<Json>, out: seq<Dict>, j: nat, config: Config)
    requires NoMemory(config) && config.replanBudget >= 1 && patch != []
    requires ApplyOps([Done(a), Done(b), c], patch) == Ok(out)
    requires Reanchored(out, MissionId(c), 2) <= j < |out| && IsDone(out[j])
    ensures RunsFinishedWork(Mission.Begin([a, b, c], {}),
      [PASSING] + ([PASSING] + ([Replanning(patch)] + Passes(j - Reanchored(out, MissionId(c), 2) + 1))), config)
  {
    hide AfterRound, ApplyOps, Done, IsDone, MissionId, Reanchored, RunsFinishedWork, Passes;
    var s0 := Mission.Begin([a, b, c], {});
    PassingRound(s0, config);
    var s1 := AfterRound(s0, PASSING, config).state;
    assert s1.milestones == [Done(a), b, c];
    PassingRound(s1, config);
    var s2 := AfterRound(s1, PASSING, config).state;
    assert s2.milestones == [Done(a), Done(b), c] && s2.index == 2;
    ReplanningRound(s2, patch, out, config);
    var s3 := AfterRound(s2, Replanning(patch), config).state;
    var rest := Passes(j - s3.index + 1);
    assert Unanswered(s3, j, config);
    PassesRunFinishedIff(s3, j - s3.index + 1, config);
    RunsFinishedLater(s2, Replanning(patch), rest, config);
    RunsFinishedLater(s1, PASSING, [Replanning(patch)] + rest, config);
    RunsFinishedLater(s0, PASSING, [PASSING] + ([Replanning(patch)] + rest), config);
  }

  lemma FewPasses()
    ensures Passes(1) == [PASSING] && Passes(2) == [PASSING, PASSING]
  {
    assert Passes(0) == [];
    assert Passes(1) == [PASSING] + Passes(0) && Passes(2) == [PASSING] + Passes(1);
  }

  lemma MovedUp(a: Dict, b: Dict, c: Dict)
    requires Id(a) == Some("A") && Id(b) == Some("B") && c == Stored("C")
    requires NoDependencies([a, b, c])
    ensures ApplyOps([a, b, c], [RemoveOp("C"), InsertOp("A", "C")]) == Ok([a, c, b])
  {
    hide ApplyOp, ApplyOps, Index, Stored, Completed, Id;
    StoredIsPending("C");
    IndexOfThree(a, b, c, "A", "B", "C");
    StripTrims("C");
    StripTrims("A");
    RemoveSample([a, b, c], "C");
    assert RemoveAt([a, b, c], 2) == [a, b];
    IndexOfTwo(a, b, "A", "B");
    InsertSample([a, b], "A", "C");
    assert InsertAt([a, b], 1, c) == [a, c, b];
    TwoOps([a, b, c], RemoveOp("C"), InsertOp("A", "C"), [a, b], [a, c, b]);
  }

  /** A planner may take the milestone in hand out and put it back further up; the loop follows it
      and then runs the finished milestones in between once more. */
  lemma FinishedWorkMayRunAgain(config: Config)
    requires NoMemory(config) && config.replanBudget >= 1
    ensures var ms := [Stored("A"), Stored("B"), Stored("C")];
      var patch := [RemoveOp("C"), InsertOp("A", "C")];
      RunsFinishedWork(Mission.Begin(ms, {}), [PASSING, PASSING, Replanning(patch), PASSING, PASSING], config)
  {
    hide ApplyOps, ApplyOp, Stored, Done, RunsFinishedWork, IsDone, Id;
    var a, b, c := Stored("A"), Stored("B"), Stored("C");
    StoredIsPending("A");
    StoredIsPending("B");
    StoredIsPending("C");
    MovedUp(Done(a), Done(b), c);
    var patch, out := [RemoveOp("C"), InsertOp("A", "C")], [Done(a), c, Done(b)];
    FirstIsAt(out, Str("C"), 1);
    RunsAgain(a, b, c, patch, out, 2, config);
    FewPasses();
    assert [PASSING] + ([PASSING] + ([Replanning(patch)] + [PASSING, PASSING]))
        == [PASSING, PASSING, Replanning(patch), PASSING, PASSING];
  }

  lemma ReplacedUp(a: Dict, b: Dict, c: Dict)
    requires Id(a) == Some("A") && Id(b) == Some("B") && c == Stored("C")
    requires NoDependencies([a, b, c])
    ensures ApplyOps([a, b, c], [RemoveOp("C"), InsertOp("A", "X")]) == Ok([a, Stored("X"), b])
  {
    hide ApplyOp, ApplyOps, Index, Stored, Completed, Id;
    StoredIsPending("C");
    IndexOfThree(a, b, c, "A", "B", "C");
    StripTrims("C");
    StripTrims("A");
    StripTrims("X");
    RemoveSample([a, b, c], "C");
    assert RemoveAt([a, b, c], 2) == [a, b];
    IndexOfTwo(a, b, "A", "B");
    InsertSample([a, b], "A", "X");
    assert InsertAt([a, b], 1, Stored("X")) == [a, Stored("X"), b];
    TwoOps([a, b, c], RemoveOp("C"), InsertOp("A", "X"), [a, b], [a, Stored("X"), b]);
  }

  /** Or it may replace the milestone in hand by another one further up; the loop stays at its position and
      runs the finished milestone that has moved there. */
  lemma ReplacementRunsFinishedWork(config: Config)
    requires NoMemory(config) && config.replanBudget >= 1
    ensures var ms := [Stored("A"), Stored("B"), Stored("C")];
      var patch := [RemoveOp("C"), InsertOp("A", "X")];
      RunsFinishedWork(Mission.Begin(ms, {}), [PASSING, PASSING, Replanning(patch), PASSING], config)
  {
    hide ApplyOps, ApplyOp, Stored, Done, RunsFinishedWork, IsDone, Id;
    var a, b, c := Stored("A"), Stored("B"), Stored("C");
    StoredIsPending("A");
    StoredIsPending("B");
    StoredIsPending("C");
    StoredIsPending("X");
    ReplacedUp(Done(a), Done(b), c);
    var patch, out := [RemoveOp("C"), InsertOp("A", "X")], [Done(a), Stored("X"), Done(b)];
    assert FirstWithId(out, Str("C")) == None;
    RunsAgain(a, b, c, patch, out, 2, config);
    FewPasses();
    assert [PASSING] + ([PASSING] + ([Replanning(patch)] + [PASSING]))
        == [PASSING, PASSING, Replanning(patch), PASSING];
  }
}
