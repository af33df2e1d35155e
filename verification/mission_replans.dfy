/** When the supervisor turns to the planner: within a budget per milestone, and never twice over the
    same failure. */
module MissionReplans {
  import opened JsonValues
  import opened PlanOps
  import opened Worker
  import opened MilestoneLoop
  import opened Mission
  import opened MissionLaws

  /** The planner is asked to replan a milestone, over a failure with this fingerprint. */
  datatype Consult = Consult(id: Json, fingerprint: string)

  function RoundConsult(s: State, round: Round, config: Config): seq<Consult>
    requires s.index < |s.milestones|
  {
    var id := MissionId(s.milestones[s.index]);
    if config.resume && config.memoryEnabled && Remembered(s.memory, id) then []
    else
      match MilestoneRun(config.tools, round.attempts, config.limits, config.searcher).handoff
      case ReplanRequested(fingerprint) =>
        if Seen(s, id, fingerprint) || Mission.Count(s, id) >= config.replanBudget then []
        else [Consult(id, fingerprint)]
      case _ => []
  }

  /** Every time the planner was asked, in order. */
  function Consults(s: State, rounds: seq<Round>, config: Config): seq<Consult>
    decreases |rounds|
  {
    if s.index >= |s.milestones| || rounds == [] then []
    else
      RoundConsult(s, rounds[0], config)
      + match AfterRound(s, rounds[0], config)
        case Goes(next) => Consults(next, rounds[1..], config)
        case Stops(_, _) => []
  }

  function About(consults: seq<Consult>, id: Json): nat {
    if consults == [] then 0 else (if consults[0].id == id then 1 else 0) + About(consults[1..], id)
  }

  /** The breakers' books after a round are those before it, and what was asked in it. */
  lemma RoundBooks(s: State, round: Round, config: Config, id: Json, fingerprint: string)
    requires s.index < |s.milestones|
    ensures var asked := RoundConsult(s, round, config); var t := AfterRound(s, round, config).state;
      && Mission.Count(t, id) == Mission.Count(s, id) + About(asked, id)
      && (asked != [] ==> Mission.Count(s, asked[0].id) < config.replanBudget)
      && |asked| <= 1
      && (asked != [] ==> !Seen(s, asked[0].id, asked[0].fingerprint))
      && (Seen(t, id, fingerprint) <==>
            Seen(s, id, fingerprint) || (fingerprint != "" && asked == [Consult(id, fingerprint)]))
  {
    hide MilestoneRun, AfterReplan, Remembered, Seen, Mission.Count;
    var asked := RoundConsult(s, round, config);
    if asked != [] {
      assert asked == [asked[0]] && [asked[0]][1..] == [];
    }
    var head := MissionId(s.milestones[s.index]);
    var run := MilestoneRun(config.tools, round.attempts, config.limits, config.searcher);
    var s' := s.(runs := s.runs + run.state.runs);
    SameBooks(s, s', id, fingerprint);
    SameBooks(s, s', head, fingerprint);
    SameBooks(s', AfterPass(s', config.memoryEnabled), id, fingerprint);
    SameBooks(s, AfterPass(s, false), id, fingerprint);
    if run.handoff.ReplanRequested? {
      SameBooks(s, s', head, run.handoff.fingerprint);
      ReplanBooks(s', head, run.handoff.fingerprint, round.replies, config, id, fingerprint);
    }
  }

  lemma SameBooks(s: State, t: State, id: Json, fingerprint: string)
    requires s.replanCounts == t.replanCounts && s.replanSignatures == t.replanSignatures
    ensures Mission.Count(s, id) == Mission.Count(t, id) && (Seen(s, id, fingerprint) <==> Seen(t, id, fingerprint))
  {
  }

  lemma ReplanBooks(s: State, head: Json, asked: string, replies: seq<Option<Dict>>, config: Config,
                    id: Json, fingerprint: string)
    ensures var t := AfterReplan(s, head, asked, replies, config).state;
      if Seen(s, head, asked) || Mission.Count(s, head) >= config.replanBudget
      then Mission.Count(t, id) == Mission.Count(s, id) && (Seen(t, id, fingerprint) <==> Seen(s, id, fingerprint))
      else
        && Mission.Count(t, id) == Mission.Count(s, id) + (if id == head then 1 else 0)
        && (Seen(t, id, fingerprint) <==>
              Seen(s, id, fingerprint) || (fingerprint != "" && id == head && fingerprint == asked))
  {
    hide RequestedPatch, Reanchored;
  }

  lemma {:induction false} AboutSplit(a: seq<Consult>, b: seq<Consult>, id: Json)
    ensures About(a + b, id) == About(a, id) + About(b, id)
  {
    if a == [] {
      assert a + b == b;
    } else {
      AboutSplit(a[1..], b, id);
      assert (a + b)[1..] == a[1..] + b;
    }
  }

  lemma {:induction false} ConsultsWithinBudget(s: State, rounds: seq<Round>, config: Config, id: Json)
    ensures Mission.Count(Mission.RunFrom(s, rounds, config).state, id)
         == Mission.Count(s, id) + About(Consults(s, rounds, config), id)
    ensures About(Consults(s, rounds, config), id) > 0 ==>
      Mission.Count(s, id) + About(Consults(s, rounds, config), id) <= config.replanBudget
    decreases |rounds|
  {
    hide AfterRound, RoundConsult;
    if s.index < |s.milestones| && rounds != [] {
      var asked := RoundConsult(s, rounds[0], config);
      RoundBooks(s, rounds[0], config, id, "");
      match AfterRound(s, rounds[0], config) {
        case Stops(t, _) =>
          assert asked + [] == asked;
          OneConsult(asked, id);
        case Goes(t) =>
          ConsultsWithinBudget(t, rounds[1..], config, id);
          AboutSplit(asked, Consults(t, rounds[1..], config), id);
          OneConsult(asked, id);
      }
    }
  }

  lemma OneConsult(asked: seq<Consult>, id: Json)
    requires |asked| <= 1
    ensures About(asked, id) <= 1
    ensures About(asked, id) == 1 ==> asked != [] && asked[0].id == id
  {
  }

  ghost predicate NoRepeats(consults: seq<Consult>) {
    forall i, j :: 0 <= i < j < |consults| && consults[i].fingerprint != "" ==> consults[i] != consults[j]
  }

  lemma {:induction false} ConsultsAreNew(s: State, rounds: seq<Round>, config: Config)
    ensures NoRepeats(Consults(s, rounds, config))
    ensures forall c :: c in Consults(s, rounds, config) ==> !Seen(s, c.id, c.fingerprint)
    decreases |rounds|
  {
    hide AfterRound, RoundConsult, Seen;
    if s.index < |s.milestones| && rounds != [] {
      var asked := RoundConsult(s, rounds[0], config);
      RoundBooks(s, rounds[0], config, Null, "");
      match AfterRound(s, rounds[0], config) {
        case Stops(t, _) => assert asked + [] == asked;
        case Goes(t) =>
          ConsultsAreNew(t, rounds[1..], config);
          var rest := Consults(t, rounds[1..], config);
          forall c | c in rest ensures !Seen(s, c.id, c.fingerprint) && (c.fingerprint != "" ==> asked != [c]) {
            RoundBooks(s, rounds[0], config, c.id, c.fingerprint);
          }
          PutInFront(asked, rest);
      }
    }
  }

  lemma PutInFront(asked: seq<Consult>, rest: seq<Consult>)
    requires |asked| <= 1 && NoRepeats(rest)
    requires forall c :: c in rest && c.fingerprint != "" ==> asked != [c]
    ensures NoRepeats(asked + rest)
  {
    if asked == [] {
      assert asked + rest == rest;
    } else {
      assert asked == [asked[0]];
      assert forall j :: 0 < j <= |rest| ==> (asked + rest)[j] == rest[j - 1];
      assert forall c :: c in rest && c.fingerprint != "" ==> c != asked[0];
    }
  }

  /** In a whole mission the planner is asked about any one milestone at most as often as the budget
      allows, and never twice about the same milestone with the same fingerprint. */
  lemma PlannerIsAskedSparingly(ms: seq<Dict>, memory: set<string>, rounds: seq<Round>, config: Config, id: Json)
    ensures var consults := Consults(Mission.Begin(ms, memory), rounds, config);
      && About(consults, id) <= Replans(config)
      && NoRepeats(consults)
  {
    ConsultsWithinBudget(Mission.Begin(ms, memory), rounds, config, id);
    ConsultsAreNew(Mission.Begin(ms, memory), rounds, config);
  }
}
