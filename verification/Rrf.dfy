/** Reciprocal-rank fusion of several ranked result sets. */
module Rrf {
  import opened Sequences

  /** A ranked candidate; a rank of zero counts as none. */
  datatype Candidate<+P> = Candidate(id: string, payload: P, rank: int, score: real)

  // ---------------------------------------------------------------------------------------------
  // Scores

  predicate Lists<P>(results: seq<Candidate<P>>, id: string) {
    exists i :: 0 <= i < |results| && results[i].id == id
  }

  /** Where a result set first lists this candidate. */
  function First<P>(results: seq<Candidate<P>>, id: string): (i: nat)
    requires Lists(results, id)
    ensures i < |results| && results[i].id == id
    ensures forall j :: 0 <= j < i ==> results[j].id != id
  {
    if results[0].id == id then 0
    else
      assert Lists(results[1..], id) by {
        var k :| 0 <= k < |results| && results[k].id == id;
        assert results[1..][k - 1].id == id;
      }
      1 + First(results[1..], id)
  }

  /** The rank a result set gives a candidate: its own, or else its position counted from one. */
  function EffectiveRank<P>(results: seq<Candidate<P>>, id: string): int
    requires Lists(results, id)
  {
    var i := First(results, id);
    if results[i].rank != 0 then results[i].rank else i + 1
  }

  function Reciprocal(n: int): real {
    if n == 0 then 0.0 else 1.0 / (n as real)
  }

  function Contribution<P>(k: nat, results: seq<Candidate<P>>, id: string): real {
    if Lists(results, id) then Reciprocal(k + EffectiveRank(results, id)) else 0.0
  }

  function Score<P>(k: nat, sets: seq<seq<Candidate<P>>>, id: string): real {
    if sets == [] then 0.0 else Score(k, Init(sets), id) + Contribution(k, Last(sets), id)
  }

  /** No candidate's rank makes the denominator zero, which the code answers with an exception. */
  ghost predicate Defined<P>(k: nat, results: seq<Candidate<P>>) {
    forall id {:trigger Lists(results, id)} :: Lists(results, id) ==> k + EffectiveRank(results, id) != 0
  }

  ghost predicate AllDefined<P>(k: nat, sets: seq<seq<Candidate<P>>>) {
    forall s {:trigger sets[s]} :: 0 <= s < |sets| ==> Defined(k, sets[s])
  }

  // ---------------------------------------------------------------------------------------------
  // First-seen order and ranking

  /** Each candidate once, as it was first seen. */
  function Firsts<P>(all: seq<Candidate<P>>): seq<Candidate<P>> {
    if all == [] then []
    else Firsts(Init(all)) + if Lists(Init(all), Last(all).id) then [] else [Last(all)]
  }

  ghost predicate DistinctIds<P>(cs: seq<Candidate<P>>) {
    forall i, j {:trigger cs[i], cs[j]} :: 0 <= i < j < |cs| ==> cs[i].id != cs[j].id
  }

  /** Rank order: higher scores first, equal scores as first seen. */
  predicate Precedes<P>(k: nat, sets: seq<seq<Candidate<P>>>, seen: seq<Candidate<P>>, a: string, b: string)
    requires Lists(seen, a) && Lists(seen, b)
  {
    || Score(k, sets, a) > Score(k, sets, b)
    || (Score(k, sets, a) == Score(k, sets, b) && First(seen, a) < First(seen, b))
  }

  /** What fusing must return: every candidate of the sets once, as first seen but for rank and score,
      in rank order, numbered from one. */
  ghost predicate Fused<P>(k: nat, sets: seq<seq<Candidate<P>>>, r: seq<Candidate<P>>) {
    var seen := Firsts(Flatten(sets));
    && |r| == |seen|
    && DistinctIds(r)
    && (forall id {:trigger Lists(seen, id)} :: Lists(seen, id) ==> Lists(r, id))
    && (forall i {:trigger r[i]} :: 0 <= i < |r| ==>
          && Lists(seen, r[i].id)
          && r[i] == seen[First(seen, r[i].id)].(rank := i + 1, score := Score(k, sets, r[i].id)))
    && (forall i, j {:trigger r[i], r[j]} :: 0 <= i < j < |r| ==> Precedes(k, sets, seen, r[i].id, r[j].id))
  }

  lemma {:induction false} FirstsListTheSame<P>(all: seq<Candidate<P>>)
    ensures DistinctIds(Firsts(all))
    ensures forall id :: Lists(Firsts(all), id) <==> Lists(all, id)
  {
    if all != [] {
      var early, last := Firsts(Init(all)), Last(all);
      FirstsListTheSame(Init(all));
      forall id
        ensures Lists(Firsts(all), id) <==> Lists(all, id)
      {
        ListsGrow(Init(all), last, id);
        assert all == Init(all) + [last];
        ListsGrow(early, last, id);
        assert Firsts(all) == if Lists(Init(all), last.id) then early else early + [last];
      }
      if !Lists(Init(all), last.id) {
        forall i | 0 <= i < |early|
          ensures early[i].id != last.id
        {
          assert Lists(early, early[i].id);
        }
      }
    }
  }

  lemma ListsGrow<P>(cs: seq<Candidate<P>>, c: Candidate<P>, id: string)
    ensures Lists(cs + [c], id) <==> Lists(cs, id) || c.id == id
  {
    var all := cs + [c];
    if Lists(cs, id) {
      var i :| 0 <= i < |cs| && cs[i].id == id;
      assert all[i].id == id;
    }
    if c.id == id { assert all[|cs|].id == id; }
  }

  /** Appending to a set changes what it contributes only for a candidate it did not list yet. */
  lemma ContributionGrows<P>(k: nat, results: seq<Candidate<P>>, c: Candidate<P>, id: string)
    ensures Contribution(k, results + [c], id)
            == if Lists(results, id) then Contribution(k, results, id)
               else if c.id == id then Reciprocal(k + if c.rank != 0 then c.rank else |results| + 1)
               else 0.0
  {
    ListsGrow(results, c, id);
    if Lists(results + [c], id) { EffectiveGrows(results, c, id); }
  }

  // ---------------------------------------------------------------------------------------------
  // Dominance

  /** In every set that lists b, a is listed too and ranked no worse. */
  ghost predicate NoWorse<P>(sets: seq<seq<Candidate<P>>>, a: string, b: string) {
    forall s {:trigger sets[s]} :: 0 <= s < |sets| && Lists(sets[s], b) ==>
      Lists(sets[s], a) && EffectiveRank(sets[s], a) <= EffectiveRank(sets[s], b)
  }

  /** In some set a is ranked strictly better, or listed where b is not. */
  ghost predicate SomewhereBetter<P>(sets: seq<seq<Candidate<P>>>, a: string, b: string) {
    exists s {:trigger sets[s]} :: 0 <= s < |sets| && Lists(sets[s], a)
      && (Lists(sets[s], b) ==> EffectiveRank(sets[s], a) < EffectiveRank(sets[s], b))
  }

  /** Ranks count from one upwards (negative ones are never assigned). */
  ghost predicate PositiveRanks<P>(k: nat, sets: seq<seq<Candidate<P>>>) {
    forall s, id {:trigger EffectiveRank(sets[s], id)} :: 0 <= s < |sets| && Lists(sets[s], id) ==>
      k + EffectiveRank(sets[s], id) > 0
  }

  lemma ReciprocalFalls(m: int, n: int)
    requires 0 < m <= n
    ensures 0.0 < Reciprocal(n) <= Reciprocal(m)
    ensures m < n ==> Reciprocal(n) < Reciprocal(m)
  {
    var x, y := m as real, n as real;
    assert 1.0 / x - 1.0 / y == (y - x) / (x * y);
  }

  lemma ContributionDominates<P>(k: nat, sets: seq<seq<Candidate<P>>>, s: nat, a: string, b: string)
    requires s < |sets| && NoWorse(sets, a, b) && PositiveRanks(k, sets)
    ensures Contribution(k, sets[s], a) >= Contribution(k, sets[s], b) >= 0.0
    ensures Lists(sets[s], a) && (Lists(sets[s], b) ==> EffectiveRank(sets[s], a) < EffectiveRank(sets[s], b))
            ==> Contribution(k, sets[s], a) > Contribution(k, sets[s], b)
  {
    if Lists(sets[s], a) {
      assert k + EffectiveRank(sets[s], a) > 0;
      ReciprocalFalls(k + EffectiveRank(sets[s], a), k + EffectiveRank(sets[s], a));
      if Lists(sets[s], b) {
        ReciprocalFalls(k + EffectiveRank(sets[s], a), k + EffectiveRank(sets[s], b));
      }
    }
  }

  lemma {:induction false} ScoreDominates<P>(k: nat, sets: seq<seq<Candidate<P>>>, n: nat, a: string, b: string)
    requires n <= |sets| && NoWorse(sets, a, b) && PositiveRanks(k, sets)
    ensures Score(k, sets[..n], a) >= Score(k, sets[..n], b)
    ensures (exists s {:trigger sets[s]} :: 0 <= s < n && Lists(sets[s], a)
               && (Lists(sets[s], b) ==> EffectiveRank(sets[s], a) < EffectiveRank(sets[s], b)))
            ==> Score(k, sets[..n], a) > Score(k, sets[..n], b)
    decreases n
  {
    if n > 0 {
      assert Init(sets[..n]) == sets[..n - 1] && Last(sets[..n]) == sets[n - 1];
      ScoreDominates(k, sets, n - 1, a, b);
      ContributionDominates(k, sets, n - 1, a, b);
    }
  }

  /** A candidate never ranked worse than another, and better somewhere, comes out before it - wherever
      the two appear in a correct fusion. */
  lemma Dominance<P>(k: nat, sets: seq<seq<Candidate<P>>>, r: seq<Candidate<P>>, i: nat, j: nat)
    requires Fused(k, sets, r) && i < |r| && j < |r| && PositiveRanks(k, sets)
    requires NoWorse(sets, r[i].id, r[j].id) && SomewhereBetter(sets, r[i].id, r[j].id)
    ensures i < j
  {
    ScoreDominates(k, sets, |sets|, r[i].id, r[j].id);
    assert sets[..|sets|] == sets;
  }

  /** There is only one correct fusion: contents and order are fully determined. */
  lemma FusionIsUnique<P>(k: nat, sets: seq<seq<Candidate<P>>>, a: seq<Candidate<P>>, b: seq<Candidate<P>>)
    requires Fused(k, sets, a) && Fused(k, sets, b)
    ensures a == b
  {
    SameUpTo(k, sets, a, b, |a|);
    assert a[..|a|] == a && b[..|a|] == b;
  }

  lemma {:induction false} SameUpTo<P>(
    k: nat, sets: seq<seq<Candidate<P>>>, a: seq<Candidate<P>>, b: seq<Candidate<P>>, n: nat)
    requires Fused(k, sets, a) && Fused(k, sets, b) && n <= |a|
    ensures a[..n] == b[..n]
    decreases n
  {
    assert |a| == |b|;
    hide Fused;
    if n > 0 {
      var i := n - 1;
      SameUpTo(k, sets, a, b, i);
      SameAt(k, sets, a, b, i);
      SameOneMore(a, b, i);
    }
  }

  lemma SameOneMore<T>(a: seq<T>, b: seq<T>, i: nat)
    requires i < |a| == |b| && a[..i] == b[..i] && a[i] == b[i]
    ensures a[..i + 1] == b[..i + 1]
  {
    assert a[..i + 1] == a[..i] + [a[i]] && b[..i + 1] == b[..i] + [b[i]];
  }

  lemma SameAt<P>(k: nat, sets: seq<seq<Candidate<P>>>, a: seq<Candidate<P>>, b: seq<Candidate<P>>, i: nat)
    requires Fused(k, sets, a) && Fused(k, sets, b) && i < |a| == |b| && a[..i] == b[..i]
    ensures a[i] == b[i]
  {
    hide Score, First, Firsts, Flatten;
    forall m | 0 <= m < i ensures a[m].id != b[i].id && b[m].id != a[i].id {
      assert a[..i][m] == b[..i][m] && b[m].id != b[i].id && a[m].id != a[i].id;
    }
    hide DistinctIds;
    if a[i].id != b[i].id {
      ComesBefore(k, sets, a, i, b[i].id);
      ComesBefore(k, sets, b, i, a[i].id);
    }
  }

  /** What stands at a position precedes every listed id that has not come out up to there. */
  lemma ComesBefore<P>(k: nat, sets: seq<seq<Candidate<P>>>, a: seq<Candidate<P>>, i: nat, id: string)
    requires Fused(k, sets, a) && i < |a| && Lists(Firsts(Flatten(sets)), id)
    requires forall m {:trigger a[m]} :: 0 <= m <= i ==> a[m].id != id
    ensures var seen := Firsts(Flatten(sets));
      Lists(seen, a[i].id) && Precedes(k, sets, seen, a[i].id, id)
  {
    hide Score, First, Firsts, Flatten, Precedes;
    assert Lists(a, id);
    var m :| 0 <= m < |a| && a[m].id == id;
  }

  // ---------------------------------------------------------------------------------------------
  // The fusion read off the result sets

  /** The candidate at position p is the first of its id. */
  ghost predicate FirstOfItsId<P>(all: seq<Candidate<P>>, p: nat)
    requires p < |all|
  {
    forall j {:trigger all[j]} :: 0 <= j < p ==> all[j].id != all[p].id
  }

  /** A result set adds one over k plus the rank of the first candidate with this id, or plus its position
      counted from one when that rank is zero; nothing when there is none. */
  lemma ScoreStep<P>(k: nat, sets: seq<seq<Candidate<P>>>, results: seq<Candidate<P>>, id: string) returns (p: nat)
    ensures Score<P>(k, [], id) == 0.0
    ensures p <= |results| && forall j {:trigger results[j]} :: 0 <= j < p ==> results[j].id != id
    ensures p == |results| ==> Score(k, sets + [results], id) == Score(k, sets, id)
    ensures p < |results| ==>
      && results[p].id == id
      && var n := k + if results[p].rank == 0 then p + 1 else results[p].rank;
         n != 0 ==> Score(k, sets + [results], id) == Score(k, sets, id) + 1.0 / (n as real)
  {
    assert Init(sets + [results]) == sets && Last(sets + [results]) == results;
    p := if Lists(results, id) then First(results, id) else |results|;
  }

  /** When fusing fails: some result set's first candidate of an id has a rank, or a position counted from
      one, that takes k to zero. */
  lemma DefinedIs<P>(k: nat, results: seq<Candidate<P>>)
    ensures Defined(k, results) <==>
      forall p: nat {:trigger results[p]} :: p < |results| && FirstOfItsId(results, p) ==>
        k + (if results[p].rank == 0 then p + 1 else results[p].rank) != 0
  {
    forall p: nat | p < |results| && FirstOfItsId(results, p)
      ensures Lists(results, results[p].id) && First(results, results[p].id) == p
    {
    }
    if !Defined(k, results) {
      var id :| Lists(results, id) && k + EffectiveRank(results, id) == 0;
      assert FirstOfItsId(results, First(results, id));
    }
  }

  /** A correct fusion without the helpers that define it: result i is the candidate at position at[i] of
      all the sets together, which is the first of its id, with rank i + 1 and its score; every id comes
      out; and the order is that of falling scores, for equal ones that of first appearance. */
  lemma FusionReadOff<P>(k: nat, sets: seq<seq<Candidate<P>>>, r: seq<Candidate<P>>) returns (at: seq<nat>)
    requires Fused(k, sets, r)
    ensures |at| == |r|
    ensures var all := Flatten(sets);
      && (forall i {:trigger r[i]} :: 0 <= i < |r| ==>
            && at[i] < |all| && FirstOfItsId(all, at[i])
            && r[i] == all[at[i]].(rank := i + 1, score := Score(k, sets, all[at[i]].id)))
      && (forall p {:trigger all[p]} :: 0 <= p < |all| ==> Lists(r, all[p].id))
    ensures forall i, j {:trigger r[i], r[j]} :: 0 <= i < j < |r| ==>
      r[i].score > r[j].score || (r[i].score == r[j].score && at[i] < at[j])
  {
    var all := Flatten(sets);
    var seen := Firsts(all);
    var ps := FirstPositions(all);
    FirstsListTheSame(all);
    hide Score, Firsts, Flatten;
    at := seq(|r|, i requires 0 <= i < |r| => assert Lists(seen, r[i].id); ps[First(seen, r[i].id)]);
    forall p {:trigger all[p]} | 0 <= p < |all|
      ensures Lists(r, all[p].id)
    {
      assert Lists(all, all[p].id) && Lists(seen, all[p].id);
    }
    forall i, j {:trigger r[i], r[j]} | 0 <= i < j < |r|
      ensures r[i].score > r[j].score || (r[i].score == r[j].score && at[i] < at[j])
    {
      assert Precedes(k, sets, seen, r[i].id, r[j].id);
      assert r[i].score == Score(k, sets, r[i].id) && r[j].score == Score(k, sets, r[j].id);
    }
  }

  lemma {:induction false} FirstPositions<P>(all: seq<Candidate<P>>) returns (ps: seq<nat>)
    ensures |ps| == |Firsts(all)|
    ensures forall i {:trigger ps[i]} :: 0 <= i < |ps| ==>
      ps[i] < |all| && FirstOfItsId(all, ps[i]) && Firsts(all)[i] == all[ps[i]]
    ensures forall i, j {:trigger ps[i], ps[j]} :: 0 <= i < j < |ps| ==> ps[i] < ps[j]
  {
    ps := [];
    if all != [] {
      ps := FirstPositions(Init(all));
      var n := |all| - 1;
      assert forall i {:trigger ps[i]} :: 0 <= i < |ps| ==> FirstOfItsId(all, ps[i]) by {
        assert forall i {:trigger ps[i]} :: 0 <= i < |ps| ==> FirstOfItsId(Init(all), ps[i]);
      }
      if !Lists(Init(all), all[n].id) {
        assert FirstOfItsId(all, n) by { assert forall j :: 0 <= j < n ==> Init(all)[j] == all[j]; }
        ps := ps + [n];
      }
    }
  }

  // ---------------------------------------------------------------------------------------------
  // The fusion itself

  lemma {:induction false} UnlistedScoresNothing<P>(k: nat, sets: seq<seq<Candidate<P>>>, id: string)
    requires !Lists(Flatten(sets), id)
    ensures Score(k, sets, id) == 0.0
  {
    if sets != [] {
      assert sets == Init(sets) + [Last(sets)];
      FlattenGrows(Init(sets), Last(sets));
      ListsOfSum(Flatten(Init(sets)), Last(sets), id);
      UnlistedScoresNothing(k, Init(sets), id);
    }
  }

  lemma ListsOfSum<P>(a: seq<Candidate<P>>, b: seq<Candidate<P>>, id: string)
    ensures Lists(a + b, id) <==> Lists(a, id) || Lists(b, id)
  {
    var ab := a + b;
    if Lists(a, id) { var i :| 0 <= i < |a| && a[i].id == id; assert ab[i].id == id; }
    if Lists(b, id) { var i :| 0 <= i < |b| && b[i].id == id; assert ab[|a| + i].id == id; }
  }

  lemma DefinedGrows<P>(k: nat, results: seq<Candidate<P>>, c: Candidate<P>)
    requires Defined(k, results)
    ensures Defined(k, results + [c])
            <==> Lists(results, c.id) || k + (if c.rank != 0 then c.rank else |results| + 1) != 0
  {
    var all := results + [c];
    forall id | Lists(all, id)
      ensures EffectiveRank(all, id) == if Lists(results, id) then EffectiveRank(results, id)
                                        else if c.rank != 0 then c.rank else |results| + 1
    {
      EffectiveGrows(results, c, id);
    }
    ListsGrow(results, c, c.id);
    forall id
      ensures Lists(all, id) <==> Lists(results, id) || c.id == id
    {
      ListsGrow(results, c, id);
    }
  }

  lemma EffectiveGrows<P>(results: seq<Candidate<P>>, c: Candidate<P>, id: string)
    requires Lists(results + [c], id)
    ensures EffectiveRank(results + [c], id)
            == if Lists(results, id) then EffectiveRank(results, id)
               else if c.rank != 0 then c.rank else |results| + 1
  {
    var all := results + [c];
    var i := First(all, id);
    assert i < |results| ==> results[i].id == id;
    if Lists(results, id) {
      var j := First(results, id);
      assert all[j].id == id;
    }
  }

  /** Position m goes before position n: a higher score, or an equal one and first seen. */
  predicate Above(scores: seq<real>, m: nat, n: nat) {
    m < |scores| && n < |scores| && (scores[m] > scores[n] || (scores[m] == scores[n] && m < n))
  }

  /** All positions below n, in that order. */
  ghost predicate Ordered(scores: seq<real>, n: nat, positions: seq<nat>) {
    && n <= |scores| && |positions| == n
    && (forall m: nat {:trigger m in positions} :: m in positions <==> m < n)
    && (forall i, j {:trigger positions[i], positions[j]} :: 0 <= i < j < |positions| ==>
          Above(scores, positions[i], positions[j]))
  }

  /** `sorted(..., key=score, reverse=True)` as positions. It keeps equal scores in their order: each
      position is put behind all that score at least as high. */
  method SortByScore(scores: seq<real>) returns (positions: seq<nat>)
    ensures Ordered(scores, |scores|, positions)
  {
    positions := [];
    for n := 0 to |scores|
      invariant Ordered(scores, n, positions)
    {
      var at := 0;
      assert forall i {:trigger positions[i]} :: 0 <= i < |positions| ==> positions[i] in positions;
      while at < |positions| && scores[positions[at]] >= scores[n]
        invariant 0 <= at <= |positions|
        invariant forall i {:trigger positions[i]} :: 0 <= i < at ==> Above(scores, positions[i], n)
      {
        at := at + 1;
      }
      Inserting(scores, n, positions, at);
      positions := positions[..at] + [n] + positions[at..];
    }
  }

  lemma Inserting(scores: seq<real>, n: nat, positions: seq<nat>, at: nat)
    requires Ordered(scores, n, positions) && n < |scores| && at <= |positions|
    requires forall i {:trigger positions[i]} :: 0 <= i < at ==> Above(scores, positions[i], n)
    requires at < |positions| ==> positions[at] < |scores| && scores[positions[at]] < scores[n]
    ensures Ordered(scores, n + 1, positions[..at] + [n] + positions[at..])
  {
    var next := positions[..at] + [n] + positions[at..];
    forall i | at <= i < |positions|
      ensures Above(scores, n, positions[i])
    {
      if i > at { assert Above(scores, positions[at], positions[i]); }
    }
    forall m: nat
      ensures m in next <==> m < n + 1
    {
      assert m in positions <==> m in positions[..at] || m in positions[at..] by {
        assert positions == positions[..at] + positions[at..];
      }
    }
    hide Above;
    forall i, j | 0 <= i < j < |next|
      ensures Above(scores, next[i], next[j])
    {
      assert next[i] == if i < at then positions[i] else if i == at then n else positions[i - 1];
      assert next[j] == if j < at then positions[j] else if j == at then n else positions[j - 1];
    }
  }

  /** What candidate `id` has scored in the full sets and in the part `cur` of the next one. */
  function SoFar<P>(k: nat, done: seq<seq<Candidate<P>>>, cur: seq<Candidate<P>>, id: string): real {
    Score(k, done, id) + Contribution(k, cur, id)
  }

  /** The keys of `scores` are the candidates met, and their values the totals. */
  ghost predicate Totals<P>(scores: map<string, real>, met: seq<Candidate<P>>, total: string -> real) {
    && (forall id {:trigger id in scores} :: id in scores <==> Lists(met, id))
    && (forall id {:trigger scores[id]} :: id in scores ==> scores[id] == total(id))
  }

  lemma TotalsStay<P>(scores: map<string, real>, met: seq<Candidate<P>>, more: seq<Candidate<P>>,
                      total: string -> real, next: string -> real)
    requires Totals(scores, met, total)
    requires forall id :: Lists(more, id) <==> Lists(met, id)
    requires forall id :: next(id) == total(id)
    ensures Totals(scores, more, next)
  {
  }

  lemma TotalsGrow<P>(scores: map<string, real>, met: seq<Candidate<P>>, more: seq<Candidate<P>>,
                      total: string -> real, next: string -> real, x: string, share: real)
    requires Totals(scores, met, total)
    requires forall id :: Lists(more, id) <==> Lists(met, id) || id == x
    requires forall id :: next(id) == total(id) + if id == x then share else 0.0
    requires !Lists(met, x) ==> total(x) == 0.0
    ensures Totals(scores[x := if x in scores then scores[x] + share else share], more, next)
  {
    hide Lists;
  }

  /** The candidates met so far, in the full sets and the part of the next one, and their scores. */
  ghost predicate Tallied<P>(k: nat, done: seq<seq<Candidate<P>>>, cur: seq<Candidate<P>>,
                             order: seq<Candidate<P>>, scores: map<string, real>) {
    && order == Firsts(Flatten(done) + cur)
    && Totals(scores, Flatten(done) + cur, id => SoFar(k, done, cur, id))
  }

  lemma NothingTallied<P>(k: nat)
    ensures Tallied<P>(k, [], [], [], map[])
  {
    assert Flatten<Candidate<P>>([]) + [] == [];
  }

  lemma SetTallied<P>(k: nat, done: seq<seq<Candidate<P>>>, results: seq<Candidate<P>>,
                      order: seq<Candidate<P>>, scores: map<string, real>)
    requires Tallied(k, done, results, order, scores)
    ensures Tallied(k, done + [results], [], order, scores)
  {
    FlattenGrows(done, results);
    var met := Flatten(done) + results;
    assert Flatten(done + [results]) + [] == met;
    hide Lists, Firsts, Flatten, Totals, SoFar;
    forall id
      ensures SoFar(k, done + [results], [], id) == SoFar(k, done, results, id)
    {
    }
    TotalsStay(scores, met, met, id => SoFar(k, done, results, id), id => SoFar(k, done + [results], [], id));
  }

  lemma CandidateSoFar<P>(k: nat, done: seq<seq<Candidate<P>>>, cur: seq<Candidate<P>>, c: Candidate<P>, id: string)
    ensures SoFar(k, done, cur + [c], id)
            == SoFar(k, done, cur, id)
               + if !Lists(cur, id) && c.id == id then Share(k, cur, c) else 0.0
    ensures !Lists(Flatten(done) + cur, id) ==> SoFar(k, done, cur, id) == 0.0
  {
    hide Lists, Reciprocal, Contribution, Score, Flatten;
    ContributionGrows(k, cur, c, id);
    if !Lists(cur, id) { Unlisted(k, cur, id); }
    if !Lists(Flatten(done) + cur, id) {
      ListsOfSum(Flatten(done), cur, id);
      UnlistedScoresNothing(k, done, id);
    }
  }

  function Share<P>(k: nat, cur: seq<Candidate<P>>, c: Candidate<P>): real {
    Reciprocal(k + if c.rank != 0 then c.rank else |cur| + 1)
  }

  lemma CandidateTallied<P>(k: nat, done: seq<seq<Candidate<P>>>, cur: seq<Candidate<P>>, c: Candidate<P>,
                            order: seq<Candidate<P>>, scores: map<string, real>)
    requires Tallied(k, done, cur, order, scores)
    ensures
      if Lists(cur, c.id) then Tallied(k, done, cur + [c], order, scores)
      else if c.id in scores then Tallied(k, done, cur + [c], order, scores[c.id := scores[c.id] + Share(k, cur, c)])
      else Tallied(k, done, cur + [c], order + [c], scores[c.id := Share(k, cur, c)])
  {
    var all := Flatten(done) + cur;
    assert Flatten(done) + (cur + [c]) == all + [c];
    ListsOfSum(Flatten(done), cur, c.id);
    ListedNext(all, c);
    FirstsGrow(all, c);
    TotalsInclude(k, done, cur, c, scores);
    assert c.id in scores <==> Lists(all, c.id);
    hide Lists, Share, SoFar, Firsts, Flatten, Totals;
  }

  lemma FirstsGrow<P>(all: seq<Candidate<P>>, c: Candidate<P>)
    ensures Firsts(all + [c]) == if Lists(all, c.id) then Firsts(all) else Firsts(all) + [c]
  {
    assert Init(all + [c]) == all && Last(all + [c]) == c;
    hide Lists;
  }

  lemma TotalsInclude<P>(k: nat, done: seq<seq<Candidate<P>>>, cur: seq<Candidate<P>>, c: Candidate<P>,
                         scores: map<string, real>)
    requires Totals(scores, Flatten(done) + cur, id => SoFar(k, done, cur, id))
    ensures
      var share := Share(k, cur, c);
      Totals(if Lists(cur, c.id) then scores
             else scores[c.id := if c.id in scores then scores[c.id] + share else share],
             Flatten(done) + cur + [c], id => SoFar(k, done, cur + [c], id))
  {
    var all := Flatten(done) + cur;
    ListsOfSum(Flatten(done), cur, c.id);
    ListedNext(all, c);
    hide Lists, Share, SoFar, Flatten, Totals;
    forall id
      ensures SoFar(k, done, cur + [c], id)
              == SoFar(k, done, cur, id) + if !Lists(cur, id) && c.id == id then Share(k, cur, c) else 0.0
      ensures !Lists(all, id) ==> SoFar(k, done, cur, id) == 0.0
    {
      CandidateSoFar(k, done, cur, c, id);
    }
    var total, next := id => SoFar(k, done, cur, id), id => SoFar(k, done, cur + [c], id);
    if Lists(cur, c.id) {
      TotalsStay(scores, all, all + [c], total, next);
    } else {
      TotalsGrow(scores, all, all + [c], total, next, c.id, Share(k, cur, c));
    }
  }

  lemma Unlisted<P>(k: nat, results: seq<Candidate<P>>, id: string)
    requires !Lists(results, id)
    ensures Contribution(k, results, id) == 0.0
  {
  }

  /** Writing ranks and scores into candidates put in score order gives the fusion. */
  lemma OrderedIsFused<P>(k: nat, sets: seq<seq<Candidate<P>>>, seen: seq<Candidate<P>>, scores: seq<real>,
                          positions: seq<nat>, r: seq<Candidate<P>>)
    requires seen == Firsts(Flatten(sets)) && |scores| == |seen| == |r|
    requires forall m {:trigger scores[m]} :: 0 <= m < |seen| ==> scores[m] == Score(k, sets, seen[m].id)
    requires Ordered(scores, |seen|, positions)
    requires forall i {:trigger r[i]} :: 0 <= i < |r| ==>
               positions[i] < |seen| && r[i] == seen[positions[i]].(rank := i + 1, score := scores[positions[i]])
    ensures Fused(k, sets, r)
  {
    FirstsListTheSame(Flatten(sets));
    hide Score, Flatten, Firsts;
    forall i | 0 <= i < |r|
      ensures Lists(seen, r[i].id) && First(seen, r[i].id) == positions[i]
    {
    }
    forall i, j | 0 <= i < j < |r|
      ensures r[i].id != r[j].id && Precedes(k, sets, seen, r[i].id, r[j].id)
    {
      assert Above(scores, positions[i], positions[j]);
    }
    forall id | Lists(seen, id)
      ensures Lists(r, id)
    {
      var m := First(seen, id);
      assert m in positions;
      var i :| 0 <= i < |positions| && positions[i] == m;
      assert r[i].id == id;
    }
  }

  lemma AllTallied<P>(k: nat, sets: seq<seq<Candidate<P>>>, order: seq<Candidate<P>>, scores: map<string, real>)
    requires Tallied(k, sets, [], order, scores)
    ensures order == Firsts(Flatten(sets))
    ensures forall c {:trigger c in order} :: c in order ==> c.id in scores && scores[c.id] == Score(k, sets, c.id)
  {
    assert Flatten(sets) + [] == Flatten(sets);
    FirstsListTheSame(Flatten(sets));
    forall c | c in order
      ensures c.id in scores && scores[c.id] == Score(k, sets, c.id)
    {
      var i :| 0 <= i < |order| && order[i] == c;
      assert Lists(order, c.id);
      assert !Lists<P>([], c.id);
    }
  }

  method Fuse<P>(k: nat, sets: seq<seq<Candidate<P>>>) returns (r: Result<seq<Candidate<P>>>)
    ensures r.Ok? <==> AllDefined(k, sets)
    ensures r.Ok? ==> Fused(k, sets, r.value)
  {
    hide Tallied, Fused, Score, Firsts, Defined, Lists, Flatten, Ordered;
    var order: seq<Candidate<P>> := [];
    var scores: map<string, real> := map[];
    NothingTallied<P>(k);
    for s := 0 to |sets|
      invariant Tallied(k, sets[..s], [], order, scores)
      invariant AllDefined(k, sets[..s])
    {
      var seen: set<string> := {};
      var results := sets[s];
      NothingListed<P>(k);
      for p := 0 to |results|
        invariant Tallied(k, sets[..s], results[..p], order, scores)
        invariant forall id :: id in seen <==> Lists(results[..p], id)
        invariant Defined(k, results[..p])
      {
        var c := results[p];
        CandidateTallied(k, sets[..s], results[..p], c, order, scores);
        DefinedGrows(k, results[..p], c);
        ListedNext(results[..p], c);
        assert results[..p + 1] == results[..p] + [c];
        if c.id !in seen {
          seen := seen + {c.id};
          var rank := if c.rank != 0 then c.rank else p + 1;
          if k + rank == 0 {
            UndefinedStays(k, results, p + 1);
            return Err("division by zero");
          }
          var share := 1.0 / ((k + rank) as real);
          if c.id !in scores {
            order := order + [c];
            scores := scores[c.id := share];
          } else {
            scores := scores[c.id := scores[c.id] + share];
          }
        }
      }
      assert results[..|results|] == results && sets[..s + 1] == sets[..s] + [results];
      SetTallied(k, sets[..s], results, order, scores);
    }
    assert sets[..|sets|] == sets;
    AllTallied(k, sets, order, scores);
    var keys := [];
    for m := 0 to |order|
      invariant |keys| == m
      invariant forall i {:trigger keys[i]} :: 0 <= i < m ==> keys[i] == Score(k, sets, order[i].id)
    {
      assert order[m] in order;
      keys := keys + [scores[order[m].id]];
    }
    var positions := SortByScore(keys);
    PositionsFit(keys, positions);
    var out := [];
    for i := 0 to |positions|
      invariant |out| == i
      invariant forall n {:trigger out[n]} :: 0 <= n < i ==>
        out[n] == order[positions[n]].(rank := n + 1, score := keys[positions[n]])
    {
      out := out + [order[positions[i]].(rank := i + 1, score := keys[positions[i]])];
    }
    OrderedIsFused(k, sets, order, keys, positions, out);
    r := Ok(out);
  }

  lemma PositionsFit(scores: seq<real>, positions: seq<nat>)
    requires Ordered(scores, |scores|, positions)
    ensures |positions| == |scores|
    ensures forall i {:trigger positions[i]} :: 0 <= i < |positions| ==> positions[i] < |scores|
  {
    assert forall i {:trigger positions[i]} :: 0 <= i < |positions| ==> positions[i] in positions;
  }

  lemma NothingListed<P>(k: nat)
    ensures forall id :: !Lists<P>([], id)
    ensures Defined<P>(k, [])
  {
  }

  lemma ListedNext<P>(cs: seq<Candidate<P>>, c: Candidate<P>)
    ensures forall id :: Lists(cs + [c], id) <==> Lists(cs, id) || c.id == id
  {
    forall id
      ensures Lists(cs + [c], id) <==> Lists(cs, id) || c.id == id
    {
      ListsGrow(cs, c, id);
    }
  }

  /** A zero denominator in part of a result set is one in the whole of it. */
  lemma {:induction false} UndefinedStays<P>(k: nat, results: seq<Candidate<P>>, p: nat)
    requires p <= |results| && !Defined(k, results[..p])
    ensures !Defined(k, results)
    decreases |results| - p
  {
    if p == |results| {
      assert results[..p] == results;
    } else {
      assert results[..p + 1] == results[..p] + [results[p]];
      UndefinedGrows(k, results[..p], results[p]);
      UndefinedStays(k, results, p + 1);
    }
  }

  lemma UndefinedGrows<P>(k: nat, results: seq<Candidate<P>>, c: Candidate<P>)
    requires !Defined(k, results)
    ensures !Defined(k, results + [c])
  {
    var id :| Lists(results, id) && k + EffectiveRank(results, id) == 0;
    ListsGrow(results, c, id);
    EffectiveGrows(results, c, id);
  }
}
