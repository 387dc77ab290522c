/** Greedy maximal marginal relevance over ranked candidates, for any similarity. */
module Mmr {
  import opened Sequences
  import opened Rrf

  /** The similarity of two candidates by id, as their vectors make it. */
  type Similarity = (string, string) -> real

  // ---------------------------------------------------------------------------------------------
  // Relevance

  function Low<P>(cs: seq<Candidate<P>>): real
    requires cs != []
  {
    if |cs| == 1 then cs[0].score else if cs[0].score < Low(cs[1..]) then cs[0].score else Low(cs[1..])
  }

  function High<P>(cs: seq<Candidate<P>>): real
    requires cs != []
  {
    if |cs| == 1 then cs[0].score else if cs[0].score > High(cs[1..]) then cs[0].score else High(cs[1..])
  }

  lemma {:induction false} BetweenLowAndHigh<P>(cs: seq<Candidate<P>>)
    requires cs != []
    ensures forall c :: c in cs ==> Low(cs) <= c.score <= High(cs)
    ensures exists c :: c in cs && c.score == Low(cs)
    ensures exists c :: c in cs && c.score == High(cs)
  {
    if |cs| == 1 {
      assert cs[0] in cs;
    } else {
      BetweenLowAndHigh(cs[1..]);
      assert cs[0] in cs;
      forall c | c in cs
        ensures Low(cs) <= c.score <= High(cs)
      {
        assert c == cs[0] || c in cs[1..];
      }
      var low :| low in cs[1..] && low.score == Low(cs[1..]);
      var high :| high in cs[1..] && high.score == High(cs[1..]);
      assert low in cs && high in cs;
    }
  }

  /** A score on the scale from lowest to highest; one when they are all the same. */
  function Normal<P>(cs: seq<Candidate<P>>, score: real): real
    requires cs != []
  {
    if High(cs) == Low(cs) then 1.0 else (score - Low(cs)) / (High(cs) - Low(cs))
  }

  /** The score an id stands for: that of the last candidate carrying it, as a dictionary keeps it. */
  function ScoreOf<P>(cs: seq<Candidate<P>>, id: string): real
    requires Lists(cs, id)
  {
    if Last(cs).id == id then Last(cs).score
    else
      ListsGrow(Init(cs), Last(cs), id);
      assert cs == Init(cs) + [Last(cs)];
      ScoreOf(Init(cs), id)
  }

  function Relevance<P>(cs: seq<Candidate<P>>, id: string): real
    requires Lists(cs, id)
  {
    Normal(cs, ScoreOf(cs, id))
  }

  /** With distinct ids an id stands for its own candidate's score. */
  lemma {:induction false} OwnScore<P>(cs: seq<Candidate<P>>, i: nat)
    requires DistinctIds(cs) && i < |cs|
    ensures Lists(cs, cs[i].id) && ScoreOf(cs, cs[i].id) == cs[i].score
    decreases |cs|
  {
    assert Lists(cs, cs[i].id);
    if i < |cs| - 1 {
      assert Init(cs)[i] == cs[i] && cs[i].id != cs[|cs| - 1].id;
      OwnScore(Init(cs), i);
    }
  }

  /** Normalized relevance lies between zero and one, keeps the order of scores, and reaches one. */
  lemma NormalIsAScale<P>(cs: seq<Candidate<P>>, a: Candidate<P>, b: Candidate<P>)
    requires a in cs && b in cs
    ensures 0.0 <= Normal(cs, a.score) <= 1.0
    ensures a.score <= b.score ==> Normal(cs, a.score) <= Normal(cs, b.score)
    ensures a.score == High(cs) ==> Normal(cs, a.score) == 1.0
  {
    BetweenLowAndHigh(cs);
    var width := High(cs) - Low(cs);
    if width > 0.0 {
      DivideMonotone(a.score - Low(cs), width, width);
      DivideMonotone(0.0, a.score - Low(cs), width);
      if a.score <= b.score { DivideMonotone(a.score - Low(cs), b.score - Low(cs), width); }
    }
  }

  lemma DivideMonotone(x: real, y: real, d: real)
    requires x <= y && d > 0.0
    ensures x / d <= y / d && 0.0 / d == 0.0 && d / d == 1.0
  {
  }

  // ---------------------------------------------------------------------------------------------
  // Values

  /** The greatest similarity to a selected candidate; none selected costs nothing. */
  function Penalty<P>(sim: Similarity, id: string, selected: seq<Candidate<P>>): real {
    if selected == [] then 0.0
    else if |selected| == 1 then sim(id, selected[0].id)
    else
      var rest := Penalty(sim, id, Init(selected));
      var last := sim(id, Last(selected).id);
      if last > rest then last else rest
  }

  function Blend(weight: real, relevance: real, penalty: real): real {
    weight * relevance - (1.0 - weight) * penalty
  }

  function Value<P>(weight: real, cs: seq<Candidate<P>>, sim: Similarity, c: Candidate<P>,
                    selected: seq<Candidate<P>>): real
    requires Lists(cs, c.id)
  {
    Blend(weight, Relevance(cs, c.id), Penalty(sim, c.id, selected))
  }

  lemma ValueFalls<P>(weight: real, cs: seq<Candidate<P>>, sim: Similarity, c: Candidate<P>,
                      selected: seq<Candidate<P>>, s: Candidate<P>)
    requires Lists(cs, c.id) && weight <= 1.0
    requires selected != [] || sim(c.id, s.id) >= 0.0
    ensures Value(weight, cs, sim, c, selected + [s]) <= Value(weight, cs, sim, c, selected)
  {
    var p, q := Penalty(sim, c.id, selected), Penalty(sim, c.id, selected + [s]);
  }

  // ---------------------------------------------------------------------------------------------
  // Picking

  /** Not selected yet: by id, as the code looks it up. */
  predicate Left<P>(cs: seq<Candidate<P>>, selected: seq<Candidate<P>>, i: nat) {
    i < |cs| && !Lists(selected, cs[i].id)
  }

  lemma EachIsListed<P>(cs: seq<Candidate<P>>)
    ensures forall i: nat {:trigger cs[i]} :: i < |cs| ==> Lists(cs, cs[i].id)
  {
  }

  function ValueAt<P>(weight: real, cs: seq<Candidate<P>>, sim: Similarity, selected: seq<Candidate<P>>, i: nat): real
    requires i < |cs|
  {
    EachIsListed(cs);
    Value(weight, cs, sim, cs[i], selected)
  }

  /** Position m holds the best value among those left, and no earlier one has as much. */
  ghost predicate Best<P>(weight: real, cs: seq<Candidate<P>>, sim: Similarity, selected: seq<Candidate<P>>, m: nat) {
    && Left(cs, selected, m)
    && (forall i: nat {:trigger Left(cs, selected, i)} :: i < |cs| && Left(cs, selected, i) ==>
          ValueAt(weight, cs, sim, selected, i) <= ValueAt(weight, cs, sim, selected, m))
    && (forall i: nat {:trigger Left(cs, selected, i)} :: i < m && Left(cs, selected, i) ==>
          ValueAt(weight, cs, sim, selected, i) < ValueAt(weight, cs, sim, selected, m))
  }

  /** Candidate m as the pick made after `selected`. */
  function Pick<P>(weight: real, cs: seq<Candidate<P>>, sim: Similarity, selected: seq<Candidate<P>>, m: nat)
    : Candidate<P>
    requires m < |cs|
  {
    cs[m].(rank := |selected| + 1, score := ValueAt(weight, cs, sim, selected, m))
  }

  /** Pick number n is the best of what the first n picks left, and carries its rank and value. */
  ghost predicate PickedAt<P>(weight: real, cs: seq<Candidate<P>>, sim: Similarity, r: seq<Candidate<P>>, n: nat)
    requires n < |r|
  {
    exists m: nat {:trigger cs[m]} ::
      m < |cs| && Best(weight, cs, sim, r[..n], m) && r[n] == Pick(weight, cs, sim, r[..n], m)
  }

  ghost predicate AllPicked<P>(weight: real, cs: seq<Candidate<P>>, sim: Similarity, r: seq<Candidate<P>>) {
    forall n: nat {:trigger r[n]} :: n < |r| ==> PickedAt(weight, cs, sim, r, n)
  }

  /** What diversifying must return: picks made one after the other, until every id is taken. */
  ghost predicate Diversified<P>(weight: real, cs: seq<Candidate<P>>, sim: Similarity, r: seq<Candidate<P>>) {
    && AllPicked(weight, cs, sim, r)
    && (forall i: nat {:trigger cs[i]} :: i < |cs| ==> Lists(r, cs[i].id))
  }

  // ---------------------------------------------------------------------------------------------
  // Main results

  /** The position pick number n came from. */
  lemma PickOf<P>(weight: real, cs: seq<Candidate<P>>, sim: Similarity, r: seq<Candidate<P>>, n: nat) returns (m: nat)
    requires AllPicked(weight, cs, sim, r) && n < |r|
    ensures m < |cs| && Best(weight, cs, sim, r[..n], m) && r[n] == Pick(weight, cs, sim, r[..n], m)
  {
    hide Best, Pick;
    var c := r[n];
    assert PickedAt(weight, cs, sim, r, n);
    m :| m < |cs| && Best(weight, cs, sim, r[..n], m) && r[n] == Pick(weight, cs, sim, r[..n], m);
  }

  /** Relevance: the score the id stands for - that of the last candidate with this id - scaled to the range
      of all scores; one where these are all equal. */
  lemma RelevanceReadOff<P>(cs: seq<Candidate<P>>, i: nat) returns (l: nat, low: real, high: real)
    requires i < |cs|
    ensures l < |cs| && cs[l].id == cs[i].id && forall j {:trigger cs[j]} :: l < j < |cs| ==> cs[j].id != cs[i].id
    ensures (exists c :: c in cs && c.score == low) && (exists c :: c in cs && c.score == high)
    ensures forall c :: c in cs ==> low <= c.score <= high
    ensures Lists(cs, cs[i].id)
    ensures Relevance(cs, cs[i].id) == if low < high then (cs[l].score - low) / (high - low) else 1.0
  {
    EachIsListed(cs);
    BetweenLowAndHigh(cs);
    low, high := Low(cs), High(cs);
    l := LastOfItsId(cs, cs[i].id);
    RelevanceIs(cs, cs[i].id, cs[l].score);
    assert low <= high by { assert cs[l] in cs; }
    hide Low, High, Lists, Normal, Relevance;
    NormalIs(cs, cs[l].score, low, high);
  }

  lemma RelevanceIs<P>(cs: seq<Candidate<P>>, id: string, score: real)
    requires Lists(cs, id) && score == ScoreOf(cs, id)
    ensures cs != [] && Relevance(cs, id) == Normal(cs, score)
  {
    hide Normal, ScoreOf;
  }

  lemma NormalIs<P>(cs: seq<Candidate<P>>, score: real, low: real, high: real)
    requires cs != [] && low == Low(cs) && high == High(cs) && low <= high
    ensures Normal(cs, score) == if low < high then (score - low) / (high - low) else 1.0
  {
    hide Low, High;
  }

  /** What a candidate is worth: its weighted relevance, less the rest of the weight times its greatest
      similarity to a selected candidate - nothing where none is selected. */
  lemma ValueReadOff<P>(weight: real, cs: seq<Candidate<P>>, sim: Similarity, selected: seq<Candidate<P>>, i: nat)
    returns (penalty: real)
    requires i < |cs|
    ensures selected == [] ==> penalty == 0.0
    ensures selected != [] ==>
      && (forall s :: s in selected ==> sim(cs[i].id, s.id) <= penalty)
      && exists s :: s in selected && sim(cs[i].id, s.id) == penalty
    ensures Lists(cs, cs[i].id)
    ensures ValueAt(weight, cs, sim, selected, i)
            == weight * Relevance(cs, cs[i].id) - (1.0 - weight) * penalty
  {
    penalty := Penalty(sim, cs[i].id, selected);
    PenaltyIs(sim, cs[i].id, selected);
    hide Relevance, Penalty, Lists;
    ValueIs(weight, cs, sim, selected, i);
  }

  lemma {:induction false} LastOfItsId<P>(cs: seq<Candidate<P>>, id: string) returns (l: nat)
    requires Lists(cs, id)
    ensures l < |cs| && cs[l].id == id && cs[l].score == ScoreOf(cs, id)
    ensures forall j {:trigger cs[j]} :: l < j < |cs| ==> cs[j].id != id
  {
    l := |cs| - 1;
    if cs[l].id != id {
      assert cs == Init(cs) + [cs[l]];
      ListsGrow(Init(cs), cs[l], id);
      l := LastOfItsId(Init(cs), id);
    }
  }

  lemma {:induction false} PenaltyIs<P>(sim: Similarity, id: string, selected: seq<Candidate<P>>)
    ensures var penalty := Penalty(sim, id, selected);
      if selected == [] then penalty == 0.0
      else
        && (forall s :: s in selected ==> sim(id, s.id) <= penalty)
        && exists s :: s in selected && sim(id, s.id) == penalty
  {
    if |selected| == 1 {
      assert selected[0] in selected;
    } else if |selected| > 1 {
      PenaltyIs(sim, id, Init(selected));
      var some :| some in Init(selected) && sim(id, some.id) == Penalty(sim, id, Init(selected));
      assert some in selected && Last(selected) in selected;
      assert forall s :: s in selected ==> s in Init(selected) || s == Last(selected);
    }
  }

  /** A pick in words: a candidate none of the earlier picks has the id of, with the next rank and its worth
      as score; no other such candidate is worth more, and none that stands before it as much. */
  lemma PickReadOff<P>(weight: real, cs: seq<Candidate<P>>, sim: Similarity, r: seq<Candidate<P>>, n: nat)
    returns (m: nat)
    requires Diversified(weight, cs, sim, r) && n < |r|
    ensures m < |cs| && r[n] == cs[m].(rank := n + 1, score := ValueAt(weight, cs, sim, r[..n], m))
    ensures forall j {:trigger r[j]} :: 0 <= j < n ==> r[j].id != cs[m].id
    ensures forall i: nat {:trigger cs[i]} :: i < |cs| && !Lists(r[..n], cs[i].id) ==>
      var v := ValueAt(weight, cs, sim, r[..n], i);
      v <= r[n].score && (i < m ==> v < r[n].score)
  {
    hide ValueAt, AllPicked;
    m := PickOf(weight, cs, sim, r, n);
    forall j {:trigger r[j]} | 0 <= j < n
      ensures r[j].id != cs[m].id
    {
      assert r[..n][j] == r[j];
    }
    forall i: nat {:trigger cs[i]} | i < |cs| && !Lists(r[..n], cs[i].id)
      ensures ValueAt(weight, cs, sim, r[..n], i) <= r[n].score
      ensures i < m ==> ValueAt(weight, cs, sim, r[..n], i) < r[n].score
    {
      assert Left(cs, r[..n], i);
    }
  }

  /** Every pick is a candidate not picked before, with the next rank. */
  lemma PicksAreNew<P>(weight: real, cs: seq<Candidate<P>>, sim: Similarity, r: seq<Candidate<P>>)
    requires AllPicked(weight, cs, sim, r)
    ensures DistinctIds(r)
    ensures forall n: nat {:trigger r[n]} :: n < |r| ==> Lists(cs, r[n].id) && r[n].rank == n + 1
  {
    hide AllPicked, ValueAt;
    EachIsListed(cs);
    forall n: nat | n < |r|
      ensures Lists(cs, r[n].id) && r[n].rank == n + 1
      ensures forall i: nat {:trigger r[i]} :: i < n ==> r[i].id != r[n].id
    {
      var m := PickOf(weight, cs, sim, r, n);
      assert r[n].id == cs[m].id && !Lists(r[..n], cs[m].id);
      forall i: nat | i < n
        ensures r[i].id != r[n].id
      {
        assert r[..n][i] == r[i];
      }
    }
  }

  /** Every id comes out exactly once, and ranks count from one. */
  lemma EachIdOnce<P>(weight: real, cs: seq<Candidate<P>>, sim: Similarity, r: seq<Candidate<P>>)
    requires Diversified(weight, cs, sim, r)
    ensures DistinctIds(r)
    ensures forall id :: Lists(r, id) <==> Lists(cs, id)
    ensures forall n: nat {:trigger r[n]} :: n < |r| ==> r[n].rank == n + 1
  {
    PicksAreNew(weight, cs, sim, r);
    hide AllPicked;
    forall id
      ensures Lists(r, id) <==> Lists(cs, id)
    {
      if Lists(r, id) { var n := First(r, id); assert Lists(cs, r[n].id); }
      if Lists(cs, id) { var i := First(cs, id); assert Lists(r, cs[i].id); }
    }
  }

  /** With distinct ids the result is a permutation of the candidates, but for rank and score. */
  lemma PermutesDistinct<P>(weight: real, cs: seq<Candidate<P>>, sim: Similarity, r: seq<Candidate<P>>)
    requires Diversified(weight, cs, sim, r) && DistinctIds(cs)
    ensures |r| == |cs|
    ensures forall n: nat {:trigger r[n]} :: n < |r| ==>
              exists m: nat {:trigger cs[m]} :: m < |cs| && r[n] == cs[m].(rank := r[n].rank, score := r[n].score)
  {
    EachIdOnce(weight, cs, sim, r);
    hide Lists, Best, ValueAt, DistinctIds;
    forall id
      ensures id in IdSet(r) <==> id in IdSet(cs)
    {
      ListsIsIdSet(r, id);
      ListsIsIdSet(cs, id);
    }
    assert IdSet(r) == IdSet(cs);
    DistinctIdsCount(r);
    DistinctIdsCount(cs);
    hide AllPicked, IdSet;
    forall n: nat | n < |r|
      ensures exists m: nat {:trigger cs[m]} :: m < |cs| && r[n] == cs[m].(rank := r[n].rank, score := r[n].score)
    {
      var m := PickOf(weight, cs, sim, r, n);
      assert r[n] == cs[m].(rank := r[n].rank, score := r[n].score);
    }
  }

  function IdSet<P>(cs: seq<Candidate<P>>): set<string> {
    if cs == [] then {} else IdSet(Init(cs)) + {Last(cs).id}
  }

  lemma {:induction false} ListsIsIdSet<P>(cs: seq<Candidate<P>>, id: string)
    ensures id in IdSet(cs) <==> Lists(cs, id)
  {
    if cs != [] {
      assert cs == Init(cs) + [Last(cs)];
      ListsGrow(Init(cs), Last(cs), id);
      ListsIsIdSet(Init(cs), id);
    }
  }

  lemma {:induction false} DistinctIdsCount<P>(cs: seq<Candidate<P>>)
    requires DistinctIds(cs)
    ensures |IdSet(cs)| == |cs|
  {
    if cs != [] {
      DistinctIdsCount(Init(cs));
      ListsIsIdSet(Init(cs), Last(cs).id);
      forall i | 0 <= i < |cs| - 1
        ensures Init(cs)[i].id != Last(cs).id
      {
        assert cs[i].id != cs[|cs| - 1].id;
      }
    }
  }

  lemma {:induction false} FewIds<P>(cs: seq<Candidate<P>>)
    ensures |IdSet(cs)| <= |cs|
  {
    if cs != [] { FewIds(Init(cs)); }
  }

  /** Scores never rise from the second pick on - nor from the first, where similarity to it is not
      negative. */
  lemma ScoresFall<P>(weight: real, cs: seq<Candidate<P>>, sim: Similarity, r: seq<Candidate<P>>, n: nat)
    requires AllPicked(weight, cs, sim, r) && n + 1 < |r| && weight <= 1.0
    requires n >= 1 || sim(r[n + 1].id, r[n].id) >= 0.0
    ensures r[n + 1].score <= r[n].score
  {
    hide AllPicked, ValueAt;
    var m := PickOf(weight, cs, sim, r, n);
    var l := PickOf(weight, cs, sim, r, n + 1);
    assert r[..n + 1] == r[..n] + [r[n]];
    hide Best;
    LeftIsNoBetter(weight, cs, sim, r[..n], r[n], m, l);
  }

  /** What was left over at a pick is not worth more after it than the pick was. */
  lemma LeftIsNoBetter<P>(weight: real, cs: seq<Candidate<P>>, sim: Similarity, selected: seq<Candidate<P>>,
                          s: Candidate<P>, m: nat, l: nat)
    requires Best(weight, cs, sim, selected, m) && Left(cs, selected + [s], l) && weight <= 1.0
    requires selected != [] || sim(cs[l].id, s.id) >= 0.0
    ensures m < |cs| && ValueAt(weight, cs, sim, selected + [s], l) <= ValueAt(weight, cs, sim, selected, m)
  {
    EachIsListed(cs);
    ListsGrow(selected, s, cs[l].id);
    assert Left(cs, selected, l);
    ValueFalls(weight, cs, sim, cs[l], selected, s);
  }

  lemma BestIsUnique<P>(weight: real, cs: seq<Candidate<P>>, sim: Similarity,
                        selected: seq<Candidate<P>>, m: nat, n: nat)
    requires Best(weight, cs, sim, selected, m) && Best(weight, cs, sim, selected, n)
    ensures m == n
  {
    assert cs[m] == cs[m] && cs[n] == cs[n];
  }

  /** The greedy choices determine the result. */
  lemma {:induction false} PicksAreUnique<P>(
    weight: real, cs: seq<Candidate<P>>, sim: Similarity, a: seq<Candidate<P>>, b: seq<Candidate<P>>, n: nat)
    requires AllPicked(weight, cs, sim, a) && AllPicked(weight, cs, sim, b) && n <= |a| && n <= |b|
    ensures a[..n] == b[..n]
    decreases n
  {
    hide AllPicked, Best, Pick;
    if n > 0 {
      var i := n - 1;
      PicksAreUnique(weight, cs, sim, a, b, i);
      var m := PickOf(weight, cs, sim, a, i);
      var l := PickOf(weight, cs, sim, b, i);
      BestIsUnique(weight, cs, sim, a[..i], m, l);
      assert a[..n] == a[..i] + [a[i]] && b[..n] == b[..i] + [b[i]];
    }
  }

  // ---------------------------------------------------------------------------------------------
  // The selection itself

  /** Relevance by id; later candidates overwrite earlier ones of the same id. */
  method NormalizedScores<P>(cs: seq<Candidate<P>>) returns (relevance: map<string, real>)
    requires cs != []
    ensures forall id :: id in relevance <==> Lists(cs, id)
    ensures forall id :: id in relevance ==> relevance[id] == Relevance(cs, id)
  {
    var minimum, maximum := Low(cs), High(cs);
    relevance := map[];
    for k := 0 to |cs|
      invariant forall id {:trigger id in relevance} :: id in relevance <==> Lists(cs[..k], id)
      invariant forall id {:trigger relevance[id]} :: id in relevance ==>
        relevance[id] == Normal(cs, ScoreOf(cs[..k], id))
    {
      var c := cs[k];
      assert cs[..k + 1] == cs[..k] + [c];
      ListedNext(cs[..k], c);
      forall id | Lists(cs[..k + 1], id)
        ensures c.id != id ==> Lists(cs[..k], id)
        ensures ScoreOf(cs[..k + 1], id) == if c.id == id then c.score else ScoreOf(cs[..k], id)
      {
      }
      relevance := relevance[c.id := if maximum == minimum then 1.0 else (c.score - minimum) / (maximum - minimum)];
    }
    assert cs[..|cs|] == cs;
  }

  method MaxSimilarity<P>(sim: Similarity, id: string, selected: seq<Candidate<P>>) returns (penalty: real)
    ensures penalty == Penalty(sim, id, selected)
  {
    if selected == [] { return 0.0; }
    penalty := sim(id, selected[0].id);
    assert selected[..1] == [selected[0]];
    for k := 1 to |selected|
      invariant penalty == Penalty(sim, id, selected[..k])
    {
      assert Init(selected[..k + 1]) == selected[..k];
      var next := sim(id, selected[k].id);
      if next > penalty { penalty := next; }
    }
    assert selected[..|selected|] == selected;
  }

  lemma ValueIs<P>(weight: real, cs: seq<Candidate<P>>, sim: Similarity, selected: seq<Candidate<P>>, i: nat)
    requires i < |cs|
    ensures Lists(cs, cs[i].id)
    ensures ValueAt(weight, cs, sim, selected, i)
            == Blend(weight, Relevance(cs, cs[i].id), Penalty(sim, cs[i].id, selected))
  {
    EachIsListed(cs);
  }

  /** One pass over the candidates for the best one left. */
  method FindBest<P>(weight: real, cs: seq<Candidate<P>>, relevance: map<string, real>, sim: Similarity,
                     selected: seq<Candidate<P>>, taken: set<string>)
    returns (best: Option<nat>, value: real)
    requires forall id :: id in relevance <==> Lists(cs, id)
    requires forall id :: id in relevance ==> relevance[id] == Relevance(cs, id)
    requires forall id :: id in taken <==> Lists(selected, id)
    ensures best.None? ==> forall i: nat {:trigger cs[i]} :: i < |cs| ==> Lists(selected, cs[i].id)
    ensures best.Some? ==> Best(weight, cs, sim, selected, best.value)
                           && value == ValueAt(weight, cs, sim, selected, best.value)
  {
    EachIsListed(cs);
    hide Value, Relevance, Penalty, Blend;
    best, value := None, 0.0;
    for k := 0 to |cs|
      invariant best.None? ==> forall i: nat {:trigger Left(cs, selected, i)} :: i < k ==> !Left(cs, selected, i)
      invariant best.Some? ==>
        && best.value < k && Left(cs, selected, best.value)
        && value == ValueAt(weight, cs, sim, selected, best.value)
        && (forall i: nat {:trigger Left(cs, selected, i)} :: i < k && Left(cs, selected, i) ==>
              ValueAt(weight, cs, sim, selected, i) <= value)
        && (forall i: nat {:trigger Left(cs, selected, i)} :: i < best.value && Left(cs, selected, i) ==>
              ValueAt(weight, cs, sim, selected, i) < value)
    {
      var c := cs[k];
      if c.id !in taken {
        var penalty := MaxSimilarity(sim, c.id, selected);
        var v := Blend(weight, relevance[c.id], penalty);
        ValueIs(weight, cs, sim, selected, k);
        if best.None? || v > value { best, value := Some(k), v; }
      }
    }
    if best.None? {
      forall i: nat | i < |cs|
        ensures Lists(selected, cs[i].id)
      {
        assert !Left(cs, selected, i);
      }
    }
  }

  datatype Mode = Off | Moderate | High | Other(name: string)

  function Weight(mode: Mode): real { if mode.Moderate? then 0.75 else 0.5 }

  method Diversify<P>(cs: seq<Candidate<P>>, mode: Mode, sim: Similarity) returns (r: Result<seq<Candidate<P>>>)
    ensures r.Err? <==> mode.Other?
    ensures mode.Off? ==> r == Ok(cs)
    ensures mode.Moderate? ==> Diversified(0.75, cs, sim, r.value)
    ensures mode.High? ==> Diversified(0.5, cs, sim, r.value)
  {
    if mode.Off? { return Ok(cs); }
    if mode.Other? { return Err("unsupported diversity mode: " + mode.name); }
    if cs == [] { return Ok(cs); }
    var weight := Weight(mode);
    var relevance := NormalizedScores(cs);
    var selected: seq<Candidate<P>> := [];
    var taken: set<string> := {};
    var done := false;
    while |selected| < |cs| && !done
      invariant forall id :: id in taken <==> Lists(selected, id)
      invariant AllPicked(weight, cs, sim, selected)
      invariant done ==> forall i: nat {:trigger cs[i]} :: i < |cs| ==> Lists(selected, cs[i].id)
      decreases |cs| - |selected|, !done
    {
      var best, value := FindBest(weight, cs, relevance, sim, selected, taken);
      if best.None? {
        done := true;
      } else {
        var pick := cs[best.value].(rank := |selected| + 1, score := value);
        OneMorePick(weight, cs, sim, selected, best.value);
        ListedNext(selected, pick);
        taken := taken + {pick.id};
        selected := selected + [pick];
      }
    }
    if !done { AllTaken(weight, cs, sim, selected); }
    r := Ok(selected);
  }

  lemma OneMorePick<P>(weight: real, cs: seq<Candidate<P>>, sim: Similarity, selected: seq<Candidate<P>>, m: nat)
    requires AllPicked(weight, cs, sim, selected) && Best(weight, cs, sim, selected, m)
    ensures AllPicked(weight, cs, sim, selected + [Pick(weight, cs, sim, selected, m)])
  {
    assert m < |cs|;
    hide Best, Pick;
    var next := selected + [Pick(weight, cs, sim, selected, m)];
    forall n: nat | n < |next|
      ensures PickedAt(weight, cs, sim, next, n)
    {
      if n < |selected| {
        assert next[..n] == selected[..n];
        var l := PickOf(weight, cs, sim, selected, n);
        assert cs[l] == cs[l];
      } else {
        assert next[..n] == selected && cs[m] == cs[m];
      }
    }
  }

  /** As many picks as candidates leave no id untaken. */
  lemma AllTaken<P>(weight: real, cs: seq<Candidate<P>>, sim: Similarity, r: seq<Candidate<P>>)
    requires AllPicked(weight, cs, sim, r) && |r| >= |cs|
    ensures forall i: nat {:trigger cs[i]} :: i < |cs| ==> Lists(r, cs[i].id)
  {
    PicksAreNew(weight, cs, sim, r);
    hide AllPicked;
    DistinctIdsCount(r);
    FewIds(cs);
    forall id | id in IdSet(r)
      ensures id in IdSet(cs)
    {
      ListsIsIdSet(r, id);
      var n := First(r, id);
      ListsIsIdSet(cs, r[n].id);
    }
    SubsetAsBig(IdSet(r), IdSet(cs));
    EachIsListed(cs);
    forall i: nat | i < |cs|
      ensures Lists(r, cs[i].id)
    {
      ListsIsIdSet(cs, cs[i].id);
      ListsIsIdSet(r, cs[i].id);
    }
  }

  lemma SubsetAsBig(a: set<string>, b: set<string>)
    requires a <= b && |a| >= |b|
    ensures a == b
  {
    assert b == a + (b - a) && |b| == |a| + |b - a|;
    assert |b - a| == 0;
  }
}
