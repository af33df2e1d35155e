/** What the totals of a session are, whoever saves and records in whatever order. */
module TokenUsageLaws {
  import opened JsonValues
  import opened TokenUsage

  // ---------------------------------------------------------------- the merge

  lemma MaxLaws(a: Usage, b: Usage, c: Usage)
    ensures Max(a, b) == Max(b, a) && Max(Max(a, b), c) == Max(a, Max(b, c)) && Max(a, a) == a && Max(ZERO, a) == a
    ensures AtMost(a, b) <==> Max(a, b) == b
    ensures AtMost(Max(a, b), c) <==> AtMost(a, c) && AtMost(b, c)
  {
  }

  lemma {:induction false} MergedSplit(a: seq<Option<Dict>>, b: seq<Option<Dict>>)
    ensures Merged(a + b) == Max(Merged(a), Merged(b))
  {
    if b == [] {
      assert a + b == a;
    } else {
      MergedSplit(a, b[..|b| - 1]);
      assert (a + b)[..|a + b| - 1] == a + b[..|b| - 1];
    }
  }

  /** The merge depends neither on the order of its parts nor on repeating any of them, and takes in
      nothing from an absent part. */
  lemma MergeIgnoresOrder(a: seq<Option<Dict>>, b: seq<Option<Dict>>)
    ensures Merged(a + b) == Merged(b + a) && Merged(a + a) == Merged(a) && Merged(a + [None]) == Merged(a)
  {
    hide Merged, Reading;
    MergedSplit(a, b);
    MergedSplit(b, a);
    MergedSplit(a, a);
    MergedSplit(a, [None]);
    NothingFromAbsent();
  }

  lemma NothingFromAbsent()
    ensures Merged([None]) == ZERO
  {
    var absent: seq<Option<Dict>> := [None];
    assert absent[..0] == [];
  }

  /** It is the least total above every part. */
  lemma {:induction false} LeastUpperBound(a: seq<Option<Dict>>, bound: Usage)
    ensures AtMost(Merged(a), bound) <==> forall part :: part in a ==> AtMost(Reading(part), bound)
  {
    if a != [] {
      var front, last := a[..|a| - 1], a[|a| - 1];
      LeastUpperBound(front, bound);
      MaxLaws(Merged(front), Reading(last), bound);
      assert a == front + [last];
      assert forall part :: part in a <==> part in front || part == last;
    }
  }

  // ---------------------------------------------------------------- any interleaving

  /** One session: the totals on file, the copies that session objects hold, and every call made. The
      reconciliation after a restart rewrites the file from what it read earlier, without the lock. */
  datatype State = State(disk: Usage, copies: map<nat, Usage>, calls: seq<Call>, snapshot: Option<Usage>)

  datatype Event =
    | Record(call: Call)
    | Load(copy: nat)
    | Save(copy: nat)
    | ReconcileRead
    | ReconcileWrite

  function Next(s: State, e: Event): State {
    match e
    case Record(call) => s.(disk := Plus(s.disk, call), calls := s.calls + [call])
    case Load(copy) => s.(copies := s.copies[copy := s.disk])
    case Save(copy) =>
      if copy !in s.copies then s
      else
        var merged := Max(s.disk, s.copies[copy]);
        s.(disk := merged, copies := s.copies[copy := merged])
    case ReconcileRead => s.(snapshot := Some(s.disk))
    case ReconcileWrite =>
      if s.snapshot.None? then s else s.(disk := s.snapshot.value, snapshot := None)
  }

  function After(s: State, schedule: seq<Event>): State
    decreases |schedule|
  {
    if schedule == [] then s else After(Next(s, schedule[0]), schedule[1..])
  }

  function NewSession(): State {
    State(ZERO, map[], [], None)
  }

  function Sum(calls: seq<Call>): Usage {
    if calls == [] then ZERO else Plus(Sum(calls[..|calls| - 1]), calls[|calls| - 1])
  }

  lemma SumAppend(calls: seq<Call>, call: Call)
    ensures Sum(calls + [call]) == Plus(Sum(calls), call)
  {
    assert (calls + [call])[..|calls|] == calls;
  }

  /** The file holds every recorded call, and no copy is ahead of it. */
  ghost predicate Exact(s: State) {
    && s.disk == Sum(s.calls)
    && forall copy :: copy in s.copies ==> AtMost(s.copies[copy], s.disk)
  }

  lemma ExactStep(s: State, e: Event)
    requires Exact(s) && e != ReconcileWrite
    ensures Exact(Next(s, e))
  {
    match e {
      case Record(call) =>
        SumAppend(s.calls, call);
        forall copy | copy in s.copies ensures AtMost(s.copies[copy], Plus(s.disk, call)) {
        }
      case Save(copy) =>
        if copy in s.copies {
          MaxLaws(s.copies[copy], s.disk, s.disk);
        }
      case _ =>
    }
  }

  /** However loads, stale saves and recordings interleave, the totals on file are the sum of all calls
      recorded, and dominate every copy held in memory. */
  lemma {:induction false} TotalsAreExact(s: State, schedule: seq<Event>)
    requires Exact(s) && ReconcileWrite !in schedule
    ensures Exact(After(s, schedule))
    decreases |schedule|
  {
    hide Exact, Next;
    if schedule != [] {
      assert schedule[0] in schedule;
      ExactStep(s, schedule[0]);
      TotalsAreExact(Next(s, schedule[0]), schedule[1..]);
    }
  }

  function CallsIn(schedule: seq<Event>): nat {
    if schedule == [] then 0 else (if schedule[0].Record? then 1 else 0) + CallsIn(schedule[1..])
  }

  lemma {:induction false} SnapshotKept(s: State, schedule: seq<Event>)
    requires ReconcileWrite !in schedule && ReconcileRead !in schedule
    ensures After(s, schedule).snapshot == s.snapshot && |After(s, schedule).calls| == |s.calls| + CallsIn(schedule)
    ensures CallsIn(schedule) == 0 ==> After(s, schedule).calls == s.calls
    decreases |schedule|
  {
    if schedule != [] {
      assert schedule[0] in schedule;
      SnapshotKept(Next(s, schedule[0]), schedule[1..]);
    }
  }

  lemma {:induction false} SumCountsCalls(calls: seq<Call>)
    ensures Sum(calls).calls == |calls|
  {
    if calls != [] {
      SumCountsCalls(calls[..|calls| - 1]);
    }
  }

  /** The rewrite without the lock leaves the totals exact if and only if no call was recorded between its
      read and its write. */
  lemma UnlockedRewriteIsExactIff(s: State, between: seq<Event>)
    requires Exact(s) && ReconcileWrite !in between && ReconcileRead !in between
    ensures var read := Next(s, ReconcileRead);
      var written := Next(After(read, between), ReconcileWrite);
      written.disk == Sum(written.calls) <==> CallsIn(between) == 0
  {
    hide After, Sum;
    var read := Next(s, ReconcileRead);
    SnapshotKept(read, between);
    SumCountsCalls(s.calls);
    SumCountsCalls(After(read, between).calls);
  }
}
