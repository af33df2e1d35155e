/** What survives a crash, over any sequence of runs, crashes and resumes of one session. */
module RecoveryLaws {
  import opened JsonValues
  import opened PlanOps
  import opened Worker
  import opened MilestoneLoop
  import opened Mission
  import opened MissionLaws
  import opened Recovery

  // ---------------------------------------------------------------- what the log says about memory

  ghost predicate RecordedBefore(log: seq<Entry>, n: nat, plan: string, key: string)
    requires n <= |log|
  {
    exists j :: 0 <= j < n && log[j] == Recorded(plan, key)
  }

  ghost predicate PassedBefore(log: seq<Entry>, n: nat, plan: string, key: string)
    requires n <= |log|
  {
    exists j :: 0 <= j < n && log[j].Passed? && log[j].plan == plan && JsonKey(log[j].id) == key
  }

  /** What a log entry claims about the entries before it. */
  ghost predicate Justified(log: seq<Entry>, i: nat)
    requires i < |log|
  {
    match log[i]
    case Skipped(plan, id) => id.Str? && PassedBefore(log, i, plan, id.s)
    case Recorded(plan, key) => PassedBefore(log, i, plan, key)
    case Executed(plan, id, resuming) => resuming && id.Str? ==> !RecordedBefore(log, i, plan, id.s)
    case _ => true
  }

  /** The memory store holds exactly what the log says was recorded. */
  ghost predicate MemoryMatches(w: World) {
    forall plan, key :: key in Memory(w.disk, plan) <==> RecordedBefore(w.log, |w.log|, plan, key)
  }

  /** A running process knows its plan's memory, and between a verdict and its record the pass is the
      last thing in the log. */
  ghost predicate ProcessMatches(w: World) {
    w.process.Up? ==>
      var s := w.process.state;
      && w.process.plan in w.used
      && (w.process.config.memoryEnabled ==> s.memory == Memory(w.disk, w.process.plan))
      && (w.process.at == Running || w.process.at == Saving || w.process.at == Recording ==> s.index < |s.milestones|)
      && (w.process.at == Saving || w.process.at == Recording ==>
            && w.log != []
            && w.log[|w.log| - 1]
               == Entry.Passed(w.process.plan, MissionId(s.milestones[s.index]), w.process.config.memoryEnabled))
  }

  ghost predicate Consistent(w: World) {
    && MemoryMatches(w)
    && ProcessMatches(w)
    && forall i :: 0 <= i < |w.log| ==> Justified(w.log, i)
  }

  lemma NewSessionIsConsistent()
    ensures Consistent(NewSession())
  {
  }

  /** Adding an entry keeps what earlier entries claim. */
  lemma LogGrows(log: seq<Entry>, e: Entry)
    requires forall i :: 0 <= i < |log| ==> Justified(log, i)
    requires Justified(log + [e], |log|)
    ensures forall i :: 0 <= i < |log + [e]| ==> Justified(log + [e], i)
  {
    var longer := log + [e];
    forall i | 0 <= i < |log| ensures Justified(longer, i) {
      assert Justified(log, i);
      assert longer[i] == log[i] && forall j :: 0 <= j < i ==> longer[j] == log[j];
      forall plan, key ensures PassedBefore(longer, i, plan, key) <==> PassedBefore(log, i, plan, key)
        ensures RecordedBefore(longer, i, plan, key) <==> RecordedBefore(log, i, plan, key)
      {
        EarlierUnchanged(log, e, i, plan, key);
      }
    }
  }

  lemma EarlierUnchanged(log: seq<Entry>, e: Entry, n: nat, plan: string, key: string)
    requires n <= |log|
    ensures PassedBefore(log + [e], n, plan, key) <==> PassedBefore(log, n, plan, key)
    ensures RecordedBefore(log + [e], n, plan, key) <==> RecordedBefore(log, n, plan, key)
  {
    assert forall j :: 0 <= j < n ==> (log + [e])[j] == log[j];
  }

  lemma RecordedGrows(log: seq<Entry>, e: Entry, plan: string, key: string)
    ensures RecordedBefore(log + [e], |log + [e]|, plan, key) <==>
            RecordedBefore(log, |log|, plan, key) || e == Recorded(plan, key)
  {
    assert (log + [e])[|log|] == e;
    assert forall j :: 0 <= j < |log| ==> (log + [e])[j] == log[j];
  }

  lemma MemoryAfter(w: World, e: Entry, disk: Disk)
    requires MemoryMatches(w)
    requires forall plan, key :: key in Memory(disk, plan) <==> key in Memory(w.disk, plan) || e == Recorded(plan, key)
    ensures MemoryMatches(w.(disk := disk, log := w.log + [e]))
  {
    forall plan, key ensures key in Memory(disk, plan) <==>
      RecordedBefore(w.log + [e], |w.log + [e]|, plan, key)
    {
      RecordedGrows(w.log, e, plan, key);
    }
  }

  lemma Logged(w: World, e: Entry, disk: Disk, process: Process)
    requires MemoryMatches(w) && forall i :: 0 <= i < |w.log| ==> Justified(w.log, i)
    requires Justified(w.log + [e], |w.log|)
    requires forall plan, key :: key in Memory(disk, plan) <==> key in Memory(w.disk, plan) || e == Recorded(plan, key)
    requires ProcessMatches(World(disk, process, w.log + [e], w.used))
    ensures Consistent(World(disk, process, w.log + [e], w.used))
  {
    LogGrows(w.log, e);
    MemoryAfter(w, e, disk);
    assert MemoryMatches(World(disk, process, w.log + [e], w.used));
  }

  lemma SkipIsJustified(w: World, id: Json)
    requires Consistent(w) && w.process.Up? && w.process.config.memoryEnabled
    requires Remembered(w.process.state.memory, id)
    ensures Justified(w.log + [Skipped(w.process.plan, id)], |w.log|)
  {
    var plan := w.process.plan;
    assert id.s in Memory(w.disk, plan);
    assert RecordedBefore(w.log, |w.log|, plan, id.s);
    var j :| 0 <= j < |w.log| && w.log[j] == Recorded(plan, id.s);
    assert Justified(w.log, j);
    var i :| 0 <= i < j && w.log[i].Passed? && w.log[i].plan == plan && JsonKey(w.log[i].id) == id.s;
    assert (w.log + [Skipped(plan, id)])[i] == w.log[i];
  }

  lemma ExecutionIsJustified(w: World, id: Json)
    requires Consistent(w) && w.process.Up?
    requires !(w.process.config.resume && w.process.config.memoryEnabled && Remembered(w.process.state.memory, id))
    ensures var p := w.process;
      Justified(w.log + [Executed(p.plan, id, p.config.resume && p.config.memoryEnabled)], |w.log|)
  {
    var p := w.process;
    var e := Executed(p.plan, id, p.config.resume && p.config.memoryEnabled);
    if p.config.resume && p.config.memoryEnabled && id.Str? {
      assert id.s !in Memory(w.disk, p.plan);
      assert !RecordedBefore(w.log, |w.log|, p.plan, id.s);
      EarlierUnchanged(w.log, e, |w.log|, p.plan, id.s);
    }
  }

  lemma RecordIsJustified(w: World, key: string)
    requires Consistent(w) && w.process.Up? && w.process.at == Recording
    requires key == JsonKey(MissionId(w.process.state.milestones[w.process.state.index]))
    ensures Justified(w.log + [Recorded(w.process.plan, key)], |w.log|)
  {
    var n := |w.log| - 1;
    assert (w.log + [Recorded(w.process.plan, key)])[n] == w.log[n];
  }

  /** Steps that log nothing. */
  lemma QuietStep(w: World, disk: Disk, process: Process)
    requires Consistent(w) && disk.memory == w.disk.memory
    requires ProcessMatches(World(disk, process, w.log, w.used))
    ensures Consistent(World(disk, process, w.log, w.used))
  {
    assert forall plan :: Memory(disk, plan) == Memory(w.disk, plan);
  }

  lemma ConsistentStep(w: World, round: Round)
    requires Consistent(w) && w.process.Up?
    ensures Consistent(Stepped(w, round))
  {
    hide MemoryMatches, Justified, MilestoneRun, AfterReplan;
    var p := w.process;
    var s := p.state;
    var t := Stepped(w, round);
    if p.at == Rewriting || s.index >= |s.milestones| {
      QuietStep(w, t.disk, t.process);
    } else {
      var id := MissionId(s.milestones[s.index]);
      match p.at {
        case Head =>
          if Skips(s, p.config) {
            SkipIsJustified(w, id);
            Logged(w, Skipped(p.plan, id), t.disk, t.process);
          } else {
            ExecutionIsJustified(w, id);
            Logged(w, Executed(p.plan, id, p.config.resume && p.config.memoryEnabled), t.disk, t.process);
          }
        case Running => ConsistentVerdict(w, round);
        case Saving => QuietStep(w, t.disk, t.process);
        case Recording =>
          if p.config.memoryEnabled {
            RecordIsJustified(w, JsonKey(id));
            Logged(w, Recorded(p.plan, JsonKey(id)), t.disk, t.process);
          } else {
            QuietStep(w, t.disk, t.process);
          }
      }
    }
  }

  lemma ReplanKeepsMemory(s: State, id: Json, fingerprint: string, replies: seq<Option<Dict>>, config: Config)
    ensures AfterReplan(s, id, fingerprint, replies, config).state.memory == s.memory
  {
  }

  lemma PassIsUnremarkable(log: seq<Entry>, plan: string, id: Json, kept: bool)
    ensures Justified(log + [Entry.Passed(plan, id, kept)], |log|)
    ensures Justified(log + [Crashed], |log|)
  {
  }

  lemma ConsistentVerdict(w: World, round: Round)
    requires Consistent(w) && w.process.Up? && w.process.at == Running
    ensures Consistent(Stepped(w, round))
  {
    hide MemoryMatches, Justified, MilestoneRun, AfterReplan;
    var p := w.process;
    var s := p.state;
    var id := MissionId(s.milestones[s.index]);
    var t := Stepped(w, round);
    var run := MilestoneRun(p.config.tools, round.attempts, p.config.limits, p.config.searcher);
    if run.handoff == Handoff.Passed {
      PassIsUnremarkable(w.log, p.plan, id, p.config.memoryEnabled);
      Logged(w, Entry.Passed(p.plan, id, p.config.memoryEnabled), t.disk, t.process);
    } else {
      if run.handoff.ReplanRequested? {
        ReplanKeepsMemory(s.(runs := s.runs + run.state.runs), id, run.handoff.fingerprint, round.replies, p.config);
      }
      QuietStep(w, t.disk, t.process);
    }
  }

  lemma ConsistentNext(w: World, e: Event)
    requires Consistent(w)
    ensures Consistent(Happens(w, e))
  {
    hide MemoryMatches, Justified, Stepped;
    match e {
      case Begin(kind, drafted, edited, config) =>
        var t := Begun(w, kind, drafted, edited, config);
        if t != w {
          MoreUsed(w, t.used);
          QuietStep(w.(used := t.used), t.disk, t.process);
        }
      case Step(round) =>
        if w.process.Up? {
          ConsistentStep(w, round);
        }
      case Crash =>
        if w.process.Up? {
          PassIsUnremarkable(w.log, "", Null, false);
          Logged(w, Crashed, w.disk, Down);
        }
    }
  }

  lemma MoreUsed(w: World, used: set<string>)
    requires Consistent(w) && w.process.Down?
    ensures Consistent(w.(used := used))
  {
    assert forall plan :: Memory(w.(used := used).disk, plan) == Memory(w.disk, plan);
  }

  lemma {:induction false} ConsistentAlways(w: World, events: seq<Event>)
    requires Consistent(w)
    ensures Consistent(Played(w, events))
    decreases |events|
  {
    hide Consistent, Happens;
    if events != [] {
      ConsistentNext(w, events[0]);
      ConsistentAlways(Happens(w, events[0]), events[1..]);
    }
  }

  /** Over any sequence of runs, crashes and resumes: a milestone is skipped only if one whose id is
      written under the same key passed earlier under the same plan id. */
  lemma SkippedMeansPassed(events: seq<Event>, i: nat)
    requires i < |Played(NewSession(), events).log| && Played(NewSession(), events).log[i].Skipped?
    ensures var log := Played(NewSession(), events).log;
      log[i].id.Str? && PassedBefore(log, i, log[i].plan, log[i].id.s)
  {
    NewSessionIsConsistent();
    ConsistentAlways(NewSession(), events);
    assert Justified(Played(NewSession(), events).log, i);
  }

  /** And one with a text id whose completion reached the memory store is never executed again under
      that plan by a run that resumes with memory. */
  lemma RecordedIsNotExecutedAgain(events: seq<Event>, i: nat)
    requires i < |Played(NewSession(), events).log| && Played(NewSession(), events).log[i].Executed?
    requires Played(NewSession(), events).log[i].resuming && Played(NewSession(), events).log[i].id.Str?
    ensures var log := Played(NewSession(), events).log;
      !RecordedBefore(log, i, log[i].plan, log[i].id.s)
  {
    NewSessionIsConsistent();
    ConsistentAlways(NewSession(), events);
    assert Justified(Played(NewSession(), events).log, i);
  }

  // ---------------------------------------------------------------- what a crash can lose

  /** What follows a pass in the log: its record, or the crash that lost it. */
  ghost predicate Settled(log: seq<Entry>, j: nat)
    requires j + 1 < |log|
  {
    var next := j + 1;
    log[j].Passed? && log[j].kept ==> log[next] == Recorded(log[j].plan, JsonKey(log[j].id)) || log[next] == Crashed
  }

  ghost predicate PassesSettle(w: World) {
    && (forall j :: 0 <= j < |w.log| - 1 ==> Settled(w.log, j))
    && (w.log != [] && w.log[|w.log| - 1].Passed? && w.log[|w.log| - 1].kept ==>
          w.process.Up? && (w.process.at == Saving || w.process.at == Recording))
  }

  lemma SettledGrows(log: seq<Entry>, e: Entry)
    requires forall j :: 0 <= j < |log| - 1 ==> Settled(log, j)
    requires log != [] ==> Settled(log + [e], |log| - 1)
    ensures forall j :: 0 <= j < |log + [e]| - 1 ==> Settled(log + [e], j)
  {
    forall j | 0 <= j < |log| - 1 ensures Settled(log + [e], j) {
      assert Settled(log, j);
    }
  }

  lemma SettleNext(w: World, e: Event)
    requires Consistent(w) && PassesSettle(w)
    ensures PassesSettle(Happens(w, e))
  {
    hide MemoryMatches, Justified, Settled, MilestoneRun, AfterReplan;
    var t := Happens(w, e);
    if t.log != w.log {
      var added := t.log[|w.log|];
      assert t.log == w.log + [added];
      if w.log != [] {
        EndSettles(w, e, added);
      }
      SettledGrows(w.log, added);
    }
  }

  lemma EndSettles(w: World, e: Event, added: Entry)
    requires Consistent(w) && PassesSettle(w) && w.log != [] && Happens(w, e).log == w.log + [added]
    ensures Settled(w.log + [added], |w.log| - 1)
  {
    hide MemoryMatches, Justified, MilestoneRun, AfterReplan;
  }

  lemma {:induction false} SettleAlways(w: World, events: seq<Event>)
    requires Consistent(w) && PassesSettle(w)
    ensures PassesSettle(Played(w, events))
    decreases |events|
  {
    hide Consistent, PassesSettle, Happens;
    if events != [] {
      SettleNext(w, events[0]);
      ConsistentNext(w, events[0]);
      SettleAlways(Happens(w, events[0]), events[1..]);
    }
  }

  /** If a run that resumes with memory executes a milestone that had already passed under the same
      plan in a run with memory, then that run crashed before the pass could be recorded. */
  lemma OnlyACrashRepeatsWork(events: seq<Event>, j: nat, i: nat)
    requires j < i < |Played(NewSession(), events).log|
    requires var log := Played(NewSession(), events).log;
      && log[j].Passed? && log[j].kept && log[j].id.Str?
      && log[i] == Executed(log[j].plan, log[j].id, true)
    ensures Played(NewSession(), events).log[j + 1] == Crashed
  {
    NewSessionIsConsistent();
    ConsistentAlways(NewSession(), events);
    SettleAlways(NewSession(), events);
    var log := Played(NewSession(), events).log;
    assert Settled(log, j) && Justified(log, i);
  }

  // ---------------------------------------------------------------- the loop it refines

  function Outcome(round: Round, config: Config): MilestoneLoop.Handoff {
    MilestoneRun(config.tools, round.attempts, config.limits, config.searcher).handoff
  }

  /** How many steps one round takes when nothing crashes. */
  function StepsOf(s: State, round: Round, config: Config): seq<Event>
    requires s.index < |s.milestones|
  {
    if !Skips(s, config) && Outcome(round, config) == MilestoneLoop.Passed
    then [Step(round), Step(round), Step(round), Step(round)]
    else [Step(round), Step(round)]
  }

  lemma {:induction false} TwoSteps(w: World, round: Round, rest: seq<Event>)
    ensures Played(w, [Step(round), Step(round)] + rest)
         == Played(Happens(Happens(w, Step(round)), Step(round)), rest)
  {
    hide Happens;
    assert ([Step(round), Step(round)] + rest)[1..] == [Step(round)] + rest;
    assert ([Step(round)] + rest)[1..] == rest;
  }

  /** Without a crash, the small steps of one round are one round of the mission loop, and the memory
      the loop works with is what is on disk. */
  lemma RoundIsRefined(w: World, round: Round)
    requires Consistent(w) && w.process.Up? && w.process.at == Head
    requires w.process.state.index < |w.process.state.milestones|
    ensures var p := w.process;
      var t := Played(w, StepsOf(p.state, round, p.config));
      match AfterRound(p.state, round, p.config)
      case Goes(s') => t.process == p.(state := s') && (p.config.memoryEnabled ==> s'.memory == Memory(t.disk, p.plan))
      case Stops(_, _) => t.process == Down
  {
    hide MemoryMatches, Justified, MilestoneRun, AfterReplan;
    var p := w.process;
    var u := Happens(Happens(w, Step(round)), Step(round));
    if !Skips(p.state, p.config) && Outcome(round, p.config) == MilestoneLoop.Passed {
      TwoSteps(w, round, [Step(round), Step(round)]);
      TwoSteps(u, round, []);
      assert StepsOf(p.state, round, p.config) == [Step(round), Step(round)] + [Step(round), Step(round)];
      assert [Step(round), Step(round)] + [] == [Step(round), Step(round)];
      ConsistentNext(w, Step(round));
      ConsistentNext(Happens(w, Step(round)), Step(round));
      ConsistentNext(u, Step(round));
      ConsistentNext(Happens(u, Step(round)), Step(round));
    } else {
      TwoSteps(w, round, []);
      assert [Step(round), Step(round)] + [] == StepsOf(p.state, round, p.config);
      ConsistentNext(w, Step(round));
      ConsistentNext(Happens(w, Step(round)), Step(round));
    }
  }
}
