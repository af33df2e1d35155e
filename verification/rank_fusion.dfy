/** The tool search index: reciprocal rank fusion of two rankings, and the BM25 statistics. Scores are
    exact numbers here. */
module RankFusion {

  // ---------------------------------------------------------------- fusion

  function Reciprocal(rrfK: nat, rank: nat): (r: real)
    ensures r > 0.0
  {
    1.0 / (rrfK + rank + 1) as real
  }

  /** What a ranking contributes to an id, from `rank` on. */
  function Part(hits: seq<int>, id: int, rrfK: nat, rank: nat := 0): (r: real)
    ensures r >= 0.0
    ensures id in hits ==> r > 0.0
    decreases |hits|
  {
    if hits == [] then 0.0
    else (if hits[0] == id then Reciprocal(rrfK, rank) else 0.0) + Part(hits[1..], id, rrfK, rank + 1)
  }

  function Score(dense: seq<int>, sparse: seq<int>, rrfK: nat, id: int): real {
    Part(dense, id, rrfK) + Part(sparse, id, rrfK)
  }

  /** The candidates in the order in which they are first met. */
  function Candidates(hits: seq<int>): seq<int> {
    if hits == [] then []
    else
      var before := Candidates(hits[..|hits| - 1]);
      if hits[|hits| - 1] in before then before else before + [hits[|hits| - 1]]
  }

  /** Inserts an id behind all that score at least as much, so that ties keep their order. */
  function InsertSorted(ids: seq<int>, id: int, score: int -> real): seq<int> {
    if ids == [] then [id]
    else if score(ids[|ids| - 1]) >= score(id) then ids + [id]
    else InsertSorted(ids[..|ids| - 1], id, score) + [ids[|ids| - 1]]
  }

  /** `sorted(ids, key=score, reverse=True)`, which is stable. */
  function SortedByScore(ids: seq<int>, score: int -> real): seq<int> {
    if ids == [] then [] else InsertSorted(SortedByScore(ids[..|ids| - 1], score), ids[|ids| - 1], score)
  }

  function Fused(dense: seq<int>, sparse: seq<int>, rrfK: nat, topK: nat): seq<int> {
    var ids := SortedByScore(Candidates(dense + sparse), id => Score(dense, sparse, rrfK, id));
    if topK < |ids| then ids[..topK] else ids
  }

  // ---------------------------------------------------------------- the score loops

  lemma {:induction false} PartLast(hits: seq<int>, last: int, id: int, rrfK: nat, rank: nat)
    ensures Part(hits + [last], id, rrfK, rank) ==
            Part(hits, id, rrfK, rank) + (if last == id then Reciprocal(rrfK, rank + |hits|) else 0.0)
    decreases |hits|
  {
    if hits == [] {
      assert hits + [last] == [last];
      assert [last][1..] == [];
    } else {
      PartLast(hits[1..], last, id, rrfK, rank + 1);
      assert (hits + [last])[1..] == hits[1..] + [last];
    }
  }

  lemma PartNext(hits: seq<int>, n: nat, id: int, rrfK: nat)
    requires n < |hits|
    ensures Part(hits[..n + 1], id, rrfK) ==
            Part(hits[..n], id, rrfK) + (if hits[n] == id then Reciprocal(rrfK, n) else 0.0)
  {
    PartLast(hits[..n], hits[n], id, rrfK, 0);
    assert hits[..n + 1] == hits[..n] + [hits[n]];
  }

  lemma CandidatesNext(dense: seq<int>, sparse: seq<int>, n: nat)
    requires n < |sparse|
    ensures Candidates(dense + sparse[..n + 1]) ==
      if sparse[n] in Candidates(dense + sparse[..n]) then Candidates(dense + sparse[..n])
      else Candidates(dense + sparse[..n]) + [sparse[n]]
  {
    assert (dense + sparse[..n + 1])[..|dense| + n] == dense + sparse[..n];
  }

  /** The table after a ranking: its ids are those before and those of the ranking, and each has gained what
      the ranking contributes to it. */
  ghost predicate Ranked(scores0: map<int, real>, hits: seq<int>, rrfK: nat, scores: map<int, real>) {
    && (forall id :: id in scores <==> id in scores0 || id in hits)
    && (forall id :: id in scores ==> scores[id] == ScoreOf(scores0, id) + Part(hits, id, rrfK))
  }

  function ScoreOf(scores: map<int, real>, id: int): real {
    if id in scores then scores[id] else 0.0
  }

  lemma RankedNext(scores0: map<int, real>, hits: seq<int>, n: nat, rrfK: nat, scores: map<int, real>)
    requires n < |hits| && Ranked(scores0, hits[..n], rrfK, scores)
    ensures Ranked(scores0, hits[..n + 1], rrfK, scores[hits[n] := ScoreOf(scores, hits[n]) + Reciprocal(rrfK, n)])
  {
    hide Part, Reciprocal;
    var hit, after := hits[n], scores[hits[n] := ScoreOf(scores, hits[n]) + Reciprocal(rrfK, n)];
    assert hits[..n + 1] == hits[..n] + [hit];
    forall id | id in after ensures after[id] == ScoreOf(scores0, id) + Part(hits[..n + 1], id, rrfK) {
      PartNext(hits, n, id, rrfK);
      if id !in scores {
        NoPart(hits[..n], id, rrfK, 0);
      }
    }
  }

  /** Filling the score table: its keys are the candidates in order, its values the fused scores. */
  method AddRanking(first: seq<int>, hits: seq<int>, rrfK: nat, order0: seq<int>, scores0: map<int, real>)
    returns (order: seq<int>, scores: map<int, real>)
    requires order0 == Candidates(first)
    requires forall id :: id in scores0 <==> id in order0
    ensures order == Candidates(first + hits)
    ensures forall id :: id in scores <==> id in order
    ensures forall id :: id in scores ==>
      scores[id] == (if id in scores0 then scores0[id] else 0.0) + Part(hits, id, rrfK)
  {
    hide Part, Candidates, Reciprocal;
    order, scores := order0, scores0;
    assert first + hits[..0] == first && hits[..0] == [];
    NothingRanked(scores0, rrfK);
    for n := 0 to |hits|
      invariant order == Candidates(first + hits[..n])
      invariant forall id :: id in scores <==> id in order
      invariant Ranked(scores0, hits[..n], rrfK, scores)
    {
      var hit := hits[n];
      CandidatesNext(first, hits, n);
      RankedNext(scores0, hits, n, rrfK, scores);
      if hit !in scores {
        order := order + [hit];
      }
      scores := scores[hit := (if hit in scores then scores[hit] else 0.0) + Reciprocal(rrfK, n)];
    }
    assert hits[..|hits|] == hits;
  }

  lemma NothingRanked(scores0: map<int, real>, rrfK: nat)
    ensures Ranked(scores0, [], rrfK, scores0)
  {
  }

  lemma {:induction false} NoPart(hits: seq<int>, id: int, rrfK: nat, rank: nat)
    requires id !in hits
    ensures Part(hits, id, rrfK, rank) == 0.0
    decreases |hits|
  {
    if hits != [] {
      NoPart(hits[1..], id, rrfK, rank + 1);
    }
  }

  lemma {:induction false} InsertByValues(ids: seq<int>, id: int, f: int -> real, g: int -> real)
    requires f(id) == g(id) && forall x :: x in ids ==> f(x) == g(x)
    ensures InsertSorted(ids, id, f) == InsertSorted(ids, id, g)
  {
    if ids != [] {
      var front, last := ids[..|ids| - 1], ids[|ids| - 1];
      assert f(last) == g(last);
      InsertByValues(front, id, f, g);
      assert InsertSorted(ids, id, f) == if f(last) >= f(id) then ids + [id] else InsertSorted(front, id, f) + [last];
      assert InsertSorted(ids, id, g) == if g(last) >= g(id) then ids + [id] else InsertSorted(front, id, g) + [last];
    }
  }

  /** Sorting only looks at the scores of what it sorts. */
  lemma {:induction false} SortByValues(ids: seq<int>, f: int -> real, g: int -> real)
    requires NoRepeats(ids) && forall x :: x in ids ==> f(x) == g(x)
    ensures SortedByScore(ids, f) == SortedByScore(ids, g)
  {
    if ids != [] {
      var front, last := ids[..|ids| - 1], ids[|ids| - 1];
      SortByValues(front, f, g);
      SortIsSorted(front, f);
      InsertByValues(SortedByScore(front, f), last, f, g);
    }
  }

  lemma TableIsScore(dense: seq<int>, sparse: seq<int>, rrfK: nat, scores1: map<int, real>, scores: map<int, real>)
    requires forall id :: id in scores1 <==> id in dense
    requires forall id :: id in scores1 ==> scores1[id] == Part(dense, id, rrfK)
    requires forall id :: id in scores ==>
      scores[id] == (if id in scores1 then scores1[id] else 0.0) + Part(sparse, id, rrfK)
    ensures forall id :: id in scores ==> scores[id] == Score(dense, sparse, rrfK, id)
  {
    hide Part;
    forall id | id in scores ensures scores[id] == Score(dense, sparse, rrfK, id) {
      if id !in dense {
        NoPart(dense, id, rrfK, 0);
      }
    }
  }

  /** The search's own composition: both score loops into one table, the stable sort, the cut. */
  method Fuse(dense: seq<int>, sparse: seq<int>, rrfK: nat, topK: nat) returns (ids: seq<int>)
    ensures ids == Fused(dense, sparse, rrfK, topK)
  {
    var order1, scores1 := AddRanking([], dense, rrfK, [], map[]);
    assert [] + dense == dense;
    var order, scores := AddRanking(dense, sparse, rrfK, order1, scores1);
    CandidatesAre(dense);
    CandidatesAre(dense + sparse);
    TableIsScore(dense, sparse, rrfK, scores1, scores);
    var table := id => if id in scores then scores[id] else 0.0;
    SortByValues(order, table, id => Score(dense, sparse, rrfK, id));
    ids := SortedByScore(order, table);
    if topK < |ids| {
      ids := ids[..topK];
    }
  }

  // ---------------------------------------------------------------- sorting

  predicate NoRepeats(ids: seq<int>) {
    forall i, j :: 0 <= i < j < |ids| ==> ids[i] != ids[j]
  }

  ghost predicate Descending(ids: seq<int>, score: int -> real) {
    forall i, j :: 0 <= i < j < |ids| ==> score(ids[i]) >= score(ids[j])
  }

  lemma {:induction false} InsertIsSorted(ids: seq<int>, id: int, score: int -> real)
    requires Descending(ids, score) && NoRepeats(ids) && id !in ids
    ensures var out := InsertSorted(ids, id, score);
      && Descending(out, score) && NoRepeats(out) && |out| == |ids| + 1
      && forall x :: x in out <==> x in ids || x == id
  {
    if ids != [] {
      var front, last := ids[..|ids| - 1], ids[|ids| - 1];
      assert ids == front + [last];
      if score(last) >= score(id) {
        SortedAppend(ids, id, score);
      } else {
        FrontIsSorted(ids, score);
        InsertIsSorted(front, id, score);
        hide InsertSorted, Descending, NoRepeats;
        SortedAppend(InsertSorted(front, id, score), last, score);
      }
    }
  }

  lemma FrontIsSorted(ids: seq<int>, score: int -> real)
    requires Descending(ids, score) && NoRepeats(ids) && ids != []
    ensures var front := ids[..|ids| - 1]; var last := ids[|ids| - 1];
      && Descending(front, score) && NoRepeats(front) && last !in front
      && forall x :: x in front ==> score(x) >= score(last)
  {
  }

  lemma SortedAppend(ids: seq<int>, id: int, score: int -> real)
    requires Descending(ids, score) && NoRepeats(ids) && id !in ids
    requires (forall x :: x in ids ==> score(x) >= score(id)) || (ids != [] && score(ids[|ids| - 1]) >= score(id))
    ensures Descending(ids + [id], score) && NoRepeats(ids + [id])
  {
  }

  lemma {:induction false} SortIsSorted(ids: seq<int>, score: int -> real)
    requires NoRepeats(ids)
    ensures var out := SortedByScore(ids, score);
      && Descending(out, score) && NoRepeats(out) && |out| == |ids|
      && forall x :: x in out <==> x in ids
  {
    if ids != [] {
      var front, last := ids[..|ids| - 1], ids[|ids| - 1];
      SortIsSorted(front, score);
      assert ids == front + [last];
      assert last !in front;
      InsertIsSorted(SortedByScore(front, score), last, score);
    }
  }

  lemma {:induction false} CandidatesAre(hits: seq<int>)
    ensures NoRepeats(Candidates(hits))
    ensures forall x :: x in Candidates(hits) <==> x in hits
  {
    if hits != [] {
      CandidatesAre(hits[..|hits| - 1]);
      assert hits == hits[..|hits| - 1] + [hits[|hits| - 1]];
    }
  }

  /** Before, among ids that do not repeat. */
  ghost predicate Before(ids: seq<int>, a: int, b: int) {
    exists i, j :: 0 <= i < j < |ids| && ids[i] == a && ids[j] == b
  }

  lemma BeforeAppend(ids: seq<int>, x: int, a: int, b: int)
    ensures Before(ids + [x], a, b) <==> Before(ids, a, b) || (a in ids && b == x)
  {
    var out := ids + [x];
    if Before(ids, a, b) {
      var i, j :| 0 <= i < j < |ids| && ids[i] == a && ids[j] == b;
      assert out[i] == a && out[j] == b;
    }
    if a in ids && b == x {
      var i :| 0 <= i < |ids| && ids[i] == a;
      assert out[i] == a && out[|ids|] == b;
    }
  }

  lemma {:induction false} InsertIsStable(ids: seq<int>, id: int, score: int -> real, a: int, b: int)
    requires Descending(ids, score) && NoRepeats(ids) && id !in ids && score(a) == score(b)
    ensures Before(InsertSorted(ids, id, score), a, b) <==> Before(ids, a, b) || (a in ids && b == id)
  {
    if ids == [] {
      assert InsertSorted(ids, id, score) == ids + [id];
      BeforeAppend(ids, id, a, b);
    } else {
      var front, last := ids[..|ids| - 1], ids[|ids| - 1];
      assert ids == front + [last];
      BeforeAppend(ids, id, a, b);
      BeforeAppend(front, last, a, b);
      if score(last) < score(id) {
        FrontIsSorted(ids, score);
        InsertIsStable(front, id, score, a, b);
        InsertIsSorted(front, id, score);
        BeforeAppend(InsertSorted(front, id, score), last, a, b);
      }
    }
  }

  /** Equal scores keep the order in which the candidates were met. */
  lemma {:induction false} SortIsStable(ids: seq<int>, score: int -> real, a: int, b: int)
    requires NoRepeats(ids) && score(a) == score(b)
    ensures Before(SortedByScore(ids, score), a, b) <==> Before(ids, a, b)
  {
    if ids != [] {
      var front, last := ids[..|ids| - 1], ids[|ids| - 1];
      assert ids == front + [last];
      assert last !in front;
      SortIsSorted(front, score);
      SortIsStable(front, score, a, b);
      InsertIsStable(SortedByScore(front, score), last, score, a, b);
      BeforeAppend(front, last, a, b);
    }
  }

  /** The fused ranking lists distinct candidates in non-increasing score, as many as asked for if there
      are that many, and leaves out none that beats one it lists. */
  lemma FusedIsTop(dense: seq<int>, sparse: seq<int>, rrfK: nat, topK: nat)
    ensures var out := Fused(dense, sparse, rrfK, topK); var n := |Candidates(dense + sparse)|;
      && NoRepeats(out)
      && |out| == (if topK < n then topK else n)
      && (forall x :: x in out ==> x in dense || x in sparse)
      && (forall i, j :: 0 <= i < j < |out| ==>
            Score(dense, sparse, rrfK, out[i]) >= Score(dense, sparse, rrfK, out[j]))
      && (forall x, y :: (x in dense || x in sparse) && x !in out && y in out ==>
            Score(dense, sparse, rrfK, y) >= Score(dense, sparse, rrfK, x))
  {
    hide Score, Part, Candidates, SortedByScore;
    var all := Candidates(dense + sparse);
    var score := id => Score(dense, sparse, rrfK, id);
    CandidatesAre(dense + sparse);
    SortIsSorted(all, score);
    var sorted := SortedByScore(all, score);
    var out := Fused(dense, sparse, rrfK, topK);
    assert out <= sorted;
    forall i, j | 0 <= i < j < |out|
      ensures Score(dense, sparse, rrfK, out[i]) >= Score(dense, sparse, rrfK, out[j])
    {
      assert score(sorted[i]) >= score(sorted[j]);
    }
    forall x | x in out ensures x in dense || x in sparse {
      assert x in sorted;
    }
    forall x, y | (x in dense || x in sparse) && x !in out && y in out
      ensures Score(dense, sparse, rrfK, y) >= Score(dense, sparse, rrfK, x)
    {
      assert x in dense + sparse;
      CutOffIsWorse(sorted, |out|, x, y, score);
      assert score(y) >= score(x);
    }
  }

  /** What a descending list loses by being cut off scores no more than what it keeps. */
  lemma CutOffIsWorse(ids: seq<int>, n: nat, x: int, y: int, score: int -> real)
    requires Descending(ids, score) && n <= |ids| && x in ids && x !in ids[..n] && y in ids[..n]
    ensures score(y) >= score(x)
  {
    var i :| 0 <= i < |ids| && ids[i] == x;
    var j :| 0 <= j < n && ids[j] == y;
    assert forall t :: 0 <= t < n ==> ids[t] in ids[..n];
  }

  // ---------------------------------------------------------------- dominance

  /** Where a ranking lists an id first; past the end if it does not. */
  function Rank(hits: seq<int>, id: int): (r: nat)
    ensures r <= |hits|
    ensures r < |hits| ==> hits[r] == id
    ensures id in hits <==> r < |hits|
  {
    if hits == [] || hits[0] == id then 0 else 1 + Rank(hits[1..], id)
  }

  lemma ReciprocalFalls(rrfK: nat, better: nat, worse: nat)
    requires better < worse
    ensures Reciprocal(rrfK, better) > Reciprocal(rrfK, worse)
  {
    var x, y := (rrfK + better + 1) as real, (rrfK + worse + 1) as real;
    assert 1.0 / x - 1.0 / y == (y - x) / (x * y);
    assert x * y > 0.0 && (y - x) / (x * y) > 0.0;
  }

  lemma {:induction false} PartIsReciprocal(hits: seq<int>, id: int, rrfK: nat, rank: nat)
    requires NoRepeats(hits)
    ensures Part(hits, id, rrfK, rank) == if id in hits then Reciprocal(rrfK, rank + Rank(hits, id)) else 0.0
    decreases |hits|
  {
    if hits != [] {
      if hits[0] == id {
        NoPart(hits[1..], id, rrfK, rank + 1);
      } else {
        PartIsReciprocal(hits[1..], id, rrfK, rank + 1);
      }
    }
  }

  /** An id that one ranking lists strictly ahead of another id gains strictly more from it. */
  lemma BetterRankGainsMore(hits: seq<int>, a: int, b: int, rrfK: nat)
    requires NoRepeats(hits) && Rank(hits, a) < Rank(hits, b)
    ensures Part(hits, a, rrfK) > Part(hits, b, rrfK)
  {
    PartIsReciprocal(hits, a, rrfK, 0);
    PartIsReciprocal(hits, b, rrfK, 0);
    ReciprocalFalls(rrfK, Rank(hits, a), Rank(hits, b));
  }

  /** A skill that beats another in both rankings is never placed below it, and is not left out when the
      other one is listed. */
  lemma DominanceIsKept(dense: seq<int>, sparse: seq<int>, rrfK: nat, topK: nat, a: int, b: int, j: nat)
    requires NoRepeats(dense) && NoRepeats(sparse)
    requires Rank(dense, a) < Rank(dense, b) && Rank(sparse, a) < Rank(sparse, b)
    requires j < |Fused(dense, sparse, rrfK, topK)| && Fused(dense, sparse, rrfK, topK)[j] == b
    ensures exists i :: 0 <= i < j && Fused(dense, sparse, rrfK, topK)[i] == a
  {
    hide Fused, Part;
    BetterRankGainsMore(dense, a, b, rrfK);
    BetterRankGainsMore(sparse, a, b, rrfK);
    FusedIsTop(dense, sparse, rrfK, topK);
    var out := Fused(dense, sparse, rrfK, topK);
    assert Score(dense, sparse, rrfK, a) > Score(dense, sparse, rrfK, b);
    assert b in out;
    assert a in out;
    var i :| 0 <= i < |out| && out[i] == a;
    assert i != j && !(j < i);
  }

  // ---------------------------------------------------------------- what the constant does

  lemma ReciprocalIs(rrfK: nat, rank: nat)
    ensures Reciprocal(rrfK, rank) * (rrfK + rank + 1) as real == 1.0
  {
  }

  /** An id that both rankings list at the same rank outscores one that a single ranking lists first if and only
      if that rank is at most the fusion constant. */
  lemma BothBeatOneIff(dense: seq<int>, sparse: seq<int>, rrfK: nat, both: int, one: int)
    requires NoRepeats(dense) && NoRepeats(sparse)
    requires both in dense && both in sparse && Rank(dense, both) == Rank(sparse, both)
    requires one in dense && Rank(dense, one) == 0 && one !in sparse
    ensures Score(dense, sparse, rrfK, both) > Score(dense, sparse, rrfK, one) <==> Rank(dense, both) <= rrfK
  {
    var rank := Rank(dense, both);
    PartIsReciprocal(dense, both, rrfK, 0);
    PartIsReciprocal(sparse, both, rrfK, 0);
    PartIsReciprocal(dense, one, rrfK, 0);
    PartIsReciprocal(sparse, one, rrfK, 0);
    hide Part;
    assert Score(dense, sparse, rrfK, both) == Reciprocal(rrfK, rank) + Reciprocal(rrfK, rank);
    assert Score(dense, sparse, rrfK, one) == Reciprocal(rrfK, 0);
    TwiceBeatsOnceIff((rrfK + rank + 1) as real, (rrfK + 1) as real);
  }

  lemma TwiceBeatsOnceIff(x: real, y: real)
    requires x > 0.0 && y > 0.0
    ensures 1.0 / x + 1.0 / x > 1.0 / y <==> x < 2.0 * y
  {
    assert 1.0 / x + 1.0 / x - 1.0 / y == (2.0 * y - x) / (x * y);
    assert x * y > 0.0;
    QuotientSign(2.0 * y - x, x * y);
  }

  lemma QuotientSign(a: real, b: real)
    requires b > 0.0
    ensures a / b > 0.0 <==> a > 0.0
  {
    assert a == (a / b) * b;
  }
}
