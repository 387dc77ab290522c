/** Greedy grouping under a token budget. The packer, the list splitter, the table splitter and the
    code splitter all group consecutive units this way; nothing is assumed about how the size of a
    group relates to the sizes of its members. */
module Grouping {
  import opened Sequences

  /** How big group number i is with given members, how big a unit is alone, and the two limits. */
  datatype Budget<!U> = Budget(size: (nat, seq<U>) -> nat, solo: U -> nat, target: nat, threshold: nat) {
    predicate Valid() { 0 < target <= threshold }
  }

  function Distance(a: nat, b: nat): nat { if a <= b then b - a else a - b }

  /** Below the soft target, append while the candidate stays within the hard threshold and is not
      further from the target. */
  predicate ShouldAppend(target: nat, threshold: nat, current: nat, candidate: nat) {
    && current < target
    && candidate <= threshold
    && Distance(candidate, target) <= Distance(current, target)
  }

  /** Unit u may be appended to group number i. */
  predicate Joins<U>(b: Budget<U>, i: nat, group: seq<U>, u: U) {
    && b.solo(u) <= b.threshold
    && ShouldAppend(b.target, b.threshold, b.size(i, group), b.size(i, group + [u]))
  }

  /** The greedy run: group number i is open with the given members, the units are still to come. */
  function GroupsFrom<U>(b: Budget<U>, i: nat, current: seq<U>, units: seq<U>): seq<seq<U>>
    decreases |units|
  {
    if units == [] then (if current == [] then [] else [current])
    else if current == [] || Joins(b, i, current, units[0]) then
      GroupsFrom(b, i, current + [units[0]], units[1..])
    else
      [current] + GroupsFrom(b, i + 1, [units[0]], units[1..])
  }

  function Groups<U>(b: Budget<U>, units: seq<U>): seq<seq<U>> {
    GroupsFrom(b, 0, [], units)
  }

  lemma {:induction false} FlattenMembers<U>(groups: seq<seq<U>>, i: nat)
    requires i < |groups|
    ensures forall u :: u in groups[i] ==> u in Flatten(groups)
    decreases i
  {
    if i > 0 { FlattenMembers(groups[1..], i - 1); }
  }

  // ---------------------------------------------------------------------------------------
  // An independent description of the result
  // ---------------------------------------------------------------------------------------

  /** Every member after the first was allowed to join those before it. */
  ghost predicate Grown<U>(b: Budget<U>, i: nat, group: seq<U>) {
    forall k {:trigger group[..k]} :: 1 <= k < |group| ==> Joins(b, i, group[..k], group[k])
  }

  /** Non-empty grown groups, each of which refuses the first member of the next one. */
  ghost predicate Greedy<U>(b: Budget<U>, i: nat, groups: seq<seq<U>>)
    decreases |groups|
  {
    groups == [] ||
    (&& groups[0] != []
     && Grown(b, i, groups[0])
     && (|groups| > 1 ==> groups[1] != [] && !Joins(b, i, groups[0], groups[1][0]))
     && Greedy(b, i + 1, groups[1..]))
  }

  lemma GrownExtends<U>(b: Budget<U>, i: nat, group: seq<U>, u: U)
    requires Grown(b, i, group) && (group == [] || Joins(b, i, group, u))
    ensures Grown(b, i, group + [u])
  {
    var longer := group + [u];
    forall k {:trigger longer[..k]} | 1 <= k < |longer| ensures Joins(b, i, longer[..k], longer[k]) {
      if k < |group| {
        assert longer[..k] == group[..k];
      } else {
        assert longer[..k] == group;
      }
    }
  }

  lemma {:induction false} RunIsGreedy<U>(b: Budget<U>, i: nat, current: seq<U>, units: seq<U>)
    requires Grown(b, i, current)
    ensures var groups := GroupsFrom(b, i, current, units);
      && Greedy(b, i, groups) && Flatten(groups) == current + units
      && (current + units != [] ==> groups != [] && current <= groups[0] && groups[0] != [])
      && (current == [] && units != [] ==> groups[0][0] == units[0])
    decreases |units|
  {
    if units == [] {
      assert current + units == current;
      assert Flatten([current]) == current + Flatten<U>([]);
    } else {
      var u, rest := units[0], units[1..];
      assert units == [u] + rest;
      if current == [] || Joins(b, i, current, u) {
        GrownExtends(b, i, current, u);
        RunIsGreedy(b, i, current + [u], rest);
        assert current + units == (current + [u]) + rest;
      } else {
        GrownExtends(b, i + 1, [], u);
        assert [] + [u] == [u];
        RunIsGreedy(b, i + 1, [u], rest);
        var tail := GroupsFrom(b, i + 1, [u], rest);
        assert ([current] + tail)[1..] == tail;
      }
    }
  }

  lemma {:induction false} GreedyIsTheRun<U>(b: Budget<U>, i: nat, groups: seq<seq<U>>, k: nat)
    requires groups != [] && Greedy(b, i, groups) && 1 <= k <= |groups[0]|
    ensures groups == GroupsFrom(b, i, groups[0][..k], groups[0][k..] + Flatten(groups[1..]))
    decreases |groups|, |groups[0]| - k
  {
    var g, rest := groups[0], groups[1..];
    var units := g[k..] + Flatten(rest);
    assert groups == [g] + rest;
    if k < |g| {
      assert units[0] == g[k] && units[1..] == g[k + 1..] + Flatten(rest);
      assert g[..k] + [g[k]] == g[..k + 1];
      GreedyIsTheRun(b, i, groups, k + 1);
    } else {
      assert g[..k] == g;
      if rest == [] {
        assert units == [];
      } else {
        assert Flatten(rest) == rest[0] + Flatten(rest[1..]);
        assert units[0] == rest[0][0] && [units[0]] == rest[0][..1];
        assert units[1..] == rest[0][1..] + Flatten(rest[1..]);
        GreedyIsTheRun(b, i + 1, rest, 1);
      }
    }
  }

  /** The greedy run is the only partition into non-empty grown groups that refuse their
      successors: the description above determines the result. */
  lemma GreedyCharacterisation<U>(b: Budget<U>, units: seq<U>, groups: seq<seq<U>>)
    ensures groups == Groups(b, units) <==> Greedy(b, 0, groups) && Flatten(groups) == units
  {
    RunIsGreedy(b, 0, [], units);
    RunBegins(b, units);
    assert [] + units == units;
    if groups == [] {
      assert Flatten(groups) == [];
    } else if Greedy(b, 0, groups) {
      GreedyIsGroups(b, groups);
    }
  }

  lemma GreedyIsGroups<U>(b: Budget<U>, groups: seq<seq<U>>)
    requires groups != [] && Greedy(b, 0, groups)
    ensures groups == Groups(b, Flatten(groups))
  {
    var units, g, later := Flatten(groups), groups[0], Flatten(groups[1..]);
    assert units == g + later && g != [];
    GreedyIsTheRun(b, 0, groups, 1);
    RunBegins(b, units);
    hide Flatten, Greedy, GroupsFrom, Groups;
    assert units[..1] == g[..1] && units[1..] == g[1..] + later;
  }

  lemma RunBegins<U>(b: Budget<U>, units: seq<U>)
    ensures Groups(b, units) == GroupsFrom(b, 0, [], units)
    ensures Groups(b, units) == if units == [] then [] else GroupsFrom(b, 0, units[..1], units[1..])
  {
    if units != [] { assert [] + [units[0]] == units[..1]; }
  }

  /** Reading the description at one group. */
  lemma {:induction false} GreedyAt<U>(b: Budget<U>, i: nat, groups: seq<seq<U>>, j: nat)
    requires Greedy(b, i, groups) && j < |groups|
    ensures groups[j] != [] && Grown(b, i + j, groups[j])
    ensures j + 1 < |groups| ==> groups[j + 1] != [] && !Joins(b, i + j, groups[j], groups[j + 1][0])
    decreases j
  {
    if j > 0 { GreedyAt(b, i + 1, groups[1..], j - 1); }
  }

  /** The packing law at group j, in sizes alone. Every proper prefix is below the soft target, and the
      next member took the group no further from the target - from s below it to a size between s and as
      far above it - and not over the hard threshold. The group is over the threshold only if it has a
      single member. And it had to end where it does: the next group's first member is over the threshold
      alone, or the group has reached the target, or taking that member in would have put it over the
      threshold or strictly further from the target. */
  lemma PackingLaw<U>(b: Budget<U>, units: seq<U>, j: nat)
    requires j < |Groups(b, units)|
    ensures var g := Groups(b, units)[j];
      && g != []
      && (forall k {:trigger g[..k]} :: 1 <= k < |g| ==>
            var s, c := b.size(j, g[..k]), b.size(j, g[..k] + [g[k]]);
            && s < b.target && s <= c <= 2 * b.target - s
            && c <= b.threshold && b.solo(g[k]) <= b.threshold)
      && (b.size(j, g) > b.threshold ==> |g| == 1)
      && (j + 1 < |Groups(b, units)| ==>
            var next := Groups(b, units)[j + 1];
            next != []
            && var s, c := b.size(j, g), b.size(j, g + [next[0]]);
               b.solo(next[0]) > b.threshold || s >= b.target || c > b.threshold || c < s || c > 2 * b.target - s)
  {
    RunIsGreedy(b, 0, [], units);
    GreedyAt(b, 0, Groups(b, units), j);
    hide Groups, Greedy;
    var g := Groups(b, units)[j];
    forall k {:trigger g[..k]} | 1 <= k < |g|
      ensures var s, c := b.size(j, g[..k]), b.size(j, g[..k] + [g[k]]);
        && s < b.target && s <= c <= 2 * b.target - s
        && c <= b.threshold && b.solo(g[k]) <= b.threshold
    {
      assert Joins(b, j, g[..k], g[k]);
    }
    if |g| > 1 {
      assert g[..|g| - 1] + [g[|g| - 1]] == g;
    }
  }

  /** A unit that is over the threshold alone, and also as a group of one, is never grouped. */
  lemma OversizedIsAlone<U>(b: Budget<U>, units: seq<U>, j: nat, m: nat)
    requires b.Valid() && j < |Groups(b, units)| && m < |Groups(b, units)[j]|
    requires var u := Groups(b, units)[j][m]; b.solo(u) > b.threshold && b.size(j, [u]) > b.threshold
    ensures |Groups(b, units)[j]| == 1
  {
    PackingLaw(b, units, j);
    var g := Groups(b, units)[j];
    assert g[..1] == [g[0]] && |g[..m]| == m;
  }

  /** A group already over the threshold takes nothing more, so it may be closed at once. */
  lemma FullGroupCloses<U>(b: Budget<U>, i: nat, current: seq<U>, units: seq<U>)
    requires b.Valid() && current != [] && b.size(i, current) > b.threshold
    ensures GroupsFrom(b, i, current, units) == [current] + GroupsFrom(b, i + 1, [], units)
  {
    if units != [] { assert [] + [units[0]] == [units[0]]; }
  }

  // ---------------------------------------------------------------------------------------
  // One step of a loop that groups: what the loops of the packer and the splitters keep
  // ---------------------------------------------------------------------------------------

  /** Units before i are done: some groups are closed, one is open. */
  ghost predicate Running<U>(b: Budget<U>, units: seq<U>, closed: seq<seq<U>>, current: seq<U>, i: nat) {
    i <= |units| && Groups(b, units) == closed + GroupsFrom(b, |closed|, current, units[i..])
  }

  lemma RunStarts<U>(b: Budget<U>, units: seq<U>)
    ensures Running(b, units, [], [], 0)
  {
    assert units[0..] == units;
  }

  lemma RunTakes<U>(b: Budget<U>, units: seq<U>, closed: seq<seq<U>>, current: seq<U>, i: nat)
    requires Running(b, units, closed, current, i) && i < |units|
    ensures current == [] ==> Running(b, units, closed, [units[i]], i + 1)
    ensures Joins(b, |closed|, current, units[i]) ==> Running(b, units, closed, current + [units[i]], i + 1)
    ensures current != [] && !Joins(b, |closed|, current, units[i]) ==>
              Running(b, units, closed + [current], [units[i]], i + 1)
  {
    var rest := units[i..];
    assert rest[0] == units[i] && rest[1..] == units[i + 1..];
    assert [] + [units[i]] == [units[i]];
  }

  lemma RunSeals<U>(b: Budget<U>, units: seq<U>, closed: seq<seq<U>>, current: seq<U>, i: nat)
    requires Running(b, units, closed, current, i)
    requires b.Valid() && current != [] && b.size(|closed|, current) > b.threshold
    ensures Running(b, units, closed + [current], [], i)
  {
    FullGroupCloses(b, |closed|, current, units[i..]);
  }

  lemma RunEnds<U>(b: Budget<U>, units: seq<U>, closed: seq<seq<U>>, current: seq<U>)
    requires Running(b, units, closed, current, |units|)
    ensures Groups(b, units) == if current == [] then closed else closed + [current]
  {
    assert units[|units|..] == [];
  }
}
