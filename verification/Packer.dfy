/** Packing the units of one section into chunks. */
module Packing {
  import opened Sequences
  import opened Markdown
  import opened SectionTree
  import opened Grouping

  /** The limits and the token counter; nothing is known about the counter. */
  datatype Policy = Policy(target: nat, threshold: nat, count: string -> nat) {
    predicate Valid() { 0 < target <= threshold }

    predicate Append(current: nat, candidate: nat) { ShouldAppend(target, threshold, current, candidate) }
  }

  datatype Chunk = Chunk(index: nat, text: string, section: Option<SectionId>, tokens: nat, overflow: bool)

  /** The texts of the nodes, one per line. */
  function JoinTexts(nodes: seq<Node>): string {
    if nodes == [] then ""
    else if |nodes| == 1 then nodes[0].text
    else JoinTexts(nodes[..|nodes| - 1]) + "\n" + nodes[|nodes| - 1].text
  }

  function PackBudget(p: Policy): Budget<Node> {
    Budget((i, group) => p.count(JoinTexts(group)), (n: Node) => p.count(n.text), p.target, p.threshold)
  }

  function BuildChunk(p: Policy, nodes: seq<Node>, section: Option<SectionId>, index: nat): Chunk {
    var text := JoinTexts(nodes);
    Chunk(index, text, section, p.count(text), p.count(text) > p.threshold)
  }

  /** The chunks of the given groups, numbered from start. */
  ghost predicate AreChunks(p: Policy, chunks: seq<Chunk>, groups: seq<seq<Node>>,
                            section: Option<SectionId>, start: nat)
  {
    && |chunks| == |groups|
    && forall i {:trigger chunks[i]} {:trigger groups[i]} :: 0 <= i < |chunks| ==>
         chunks[i] == BuildChunk(p, groups[i], section, start + i)
  }

  lemma ChunksExtend(p: Policy, chunks: seq<Chunk>, groups: seq<seq<Node>>, section: Option<SectionId>,
                     start: nat, g: seq<Node>)
    requires AreChunks(p, chunks, groups, section, start)
    ensures AreChunks(p, chunks + [BuildChunk(p, g, section, start + |chunks|)], groups + [g], section, start)
  {
  }

  method Pack(p: Policy, nodes: seq<Node>, section: Option<SectionId>, start: nat) returns (chunks: seq<Chunk>)
    requires p.Valid()
    ensures AreChunks(p, chunks, Groups(PackBudget(p), nodes), section, start)
  {
    hide AreChunks, BuildChunk, Joins, Groups, Running;
    ghost var b := PackBudget(p);
    RunStarts(b, nodes);
    NoChunks(p, section, start);
    chunks := [];
    var selected: seq<Node> := [];
    var currentText, currentTokens := "", 0;
    ghost var closed: seq<seq<Node>> := [];
    var i := 0;
    while i < |nodes|
      invariant i <= |nodes|
      invariant AreChunks(p, chunks, closed, section, start) && |chunks| == |closed|
      invariant Running(b, nodes, closed, selected, i)
      invariant selected != [] ==> currentText == JoinTexts(selected) && currentTokens == p.count(currentText)
    {
      var node := nodes[i];
      var nodeTokens := p.count(node.text);
      Decision(p, |closed|, selected, node);
      RunTakes(b, nodes, closed, selected, i);
      assert [] + [node] == [node];

      if nodeTokens > p.threshold {
        if selected != [] {
          ChunksExtend(p, chunks, closed, section, start, selected);
          chunks := chunks + [BuildChunk(p, selected, section, start + |chunks|)];
          closed := closed + [selected];
          selected := [];
        }
        RunSeals(b, nodes, closed, [node], i + 1);
        ChunksExtend(p, chunks, closed, section, start, [node]);
        chunks := chunks + [BuildChunk(p, [node], section, start + |chunks|)];
        closed := closed + [[node]];
        currentText, currentTokens := "", 0;
      } else {
        var candidate := if selected != [] then currentText + "\n" + node.text else node.text;
        var candidateTokens := p.count(candidate);
        if selected != [] && !p.Append(currentTokens, candidateTokens) {
          ChunksExtend(p, chunks, closed, section, start, selected);
          chunks := chunks + [BuildChunk(p, selected, section, start + |chunks|)];
          closed := closed + [selected];
          selected := [];
          candidate, candidateTokens := node.text, nodeTokens;
        }
        selected := selected + [node];
        currentText, currentTokens := candidate, candidateTokens;
      }
      i := i + 1;
    }
    RunEnds(b, nodes, closed, selected);
    if selected != [] {
      ChunksExtend(p, chunks, closed, section, start, selected);
      chunks := chunks + [BuildChunk(p, selected, section, start + |chunks|)];
    }
  }

  lemma NoChunks(p: Policy, section: Option<SectionId>, start: nat)
    ensures AreChunks(p, [], [], section, start)
  {
  }

  /** The packer's test for keeping the group open, in the budget's terms. */
  lemma Decision(p: Policy, i: nat, selected: seq<Node>, node: Node)
    requires p.Valid()
    ensures Joins(PackBudget(p), i, selected, node) <==>
      p.count(node.text) <= p.threshold
      && p.Append(p.count(JoinTexts(selected)), p.count(JoinTexts(selected + [node])))
    ensures JoinTexts([node]) == node.text
  {
  }

  ghost predicate HasOversized(p: Policy, nodes: seq<Node>) {
    exists m :: 0 <= m < |nodes| && p.count(nodes[m].text) > p.threshold
  }

  /** What packing promises of its input: the groups partition the units in order, none is empty,
      and a chunk overflows exactly when it is one unit that is too big by itself. */
  lemma PackingIsAPartition(p: Policy, nodes: seq<Node>)
    requires p.Valid()
    ensures var groups := Groups(PackBudget(p), nodes);
      && Flatten(groups) == nodes
      && forall j {:trigger groups[j]} :: 0 <= j < |groups| ==>
           && groups[j] != []
           && (p.count(JoinTexts(groups[j])) > p.threshold <==> HasOversized(p, groups[j]))
           && (HasOversized(p, groups[j]) ==> |groups[j]| == 1)
  {
    var b := PackBudget(p);
    var groups := Groups(b, nodes);
    GreedyCharacterisation(b, nodes, groups);
    forall j {:trigger groups[j]} | 0 <= j < |groups|
      ensures groups[j] != []
      ensures p.count(JoinTexts(groups[j])) > p.threshold <==> HasOversized(p, groups[j])
      ensures HasOversized(p, groups[j]) ==> |groups[j]| == 1
    {
      PackingLaw(b, nodes, j);
      var g := groups[j];
      assert b.size(j, g) == p.count(JoinTexts(g));
      assert JoinTexts([g[0]]) == g[0].text;
      if HasOversized(p, g) {
        var m: nat :| m < |g| && p.count(g[m].text) > p.threshold;
        assert JoinTexts([g[m]]) == g[m].text;
        OversizedIsAlone(b, nodes, j, m);
      }
    }
  }

  /** Member k took the text no further from the target: from s below the target to somewhere between s and
      as far above it, and not over the threshold. */
  ghost predicate GrowsAt(p: Policy, g: seq<Node>, k: nat)
    requires k < |g|
  {
    var s, c := p.count(JoinTexts(g[..k])), p.count(JoinTexts(g[..k] + [g[k]]));
    s < p.target && s <= c <= 2 * p.target - s && c <= p.threshold && p.count(g[k].text) <= p.threshold
  }

  /** The text could not have taken the next node: that is over the threshold alone, or the target is
      reached, or with it the text would be over the threshold or strictly further from the target. */
  ghost predicate MustEnd(p: Policy, g: seq<Node>, next: Node) {
    var s, c := p.count(JoinTexts(g)), p.count(JoinTexts(g + [next]));
    p.count(next.text) > p.threshold || s >= p.target || c > p.threshold || c < s || c > 2 * p.target - s
  }

  /** The greedy law in the packer's own terms, with the distances written out: every member after a chunk's
      first took it no further from the target, and a chunk ended only where it had to. */
  lemma ChunksAreGreedy(p: Policy, nodes: seq<Node>, j: nat)
    requires p.Valid() && j < |Groups(PackBudget(p), nodes)|
    ensures var groups := Groups(PackBudget(p), nodes);
      && (forall k: nat :: 1 <= k < |groups[j]| ==> GrowsAt(p, groups[j], k))
      && (j + 1 < |groups| ==> groups[j + 1] != [] && MustEnd(p, groups[j], groups[j + 1][0]))
  {
    hide GrowsAt, MustEnd;
    var groups := Groups(PackBudget(p), nodes);
    forall k: nat | 1 <= k < |groups[j]|
      ensures GrowsAt(p, groups[j], k)
    {
      MemberGrows(p, nodes, j, k);
    }
    if j + 1 < |groups| { ChunkMustEnd(p, nodes, j); }
  }

  lemma MemberGrows(p: Policy, nodes: seq<Node>, j: nat, k: nat)
    requires j < |Groups(PackBudget(p), nodes)| && 1 <= k < |Groups(PackBudget(p), nodes)[j]|
    ensures GrowsAt(p, Groups(PackBudget(p), nodes)[j], k)
  {
    var b := PackBudget(p);
    var g := Groups(b, nodes)[j];
    PackingLaw(b, nodes, j);
    hide Groups, JoinTexts;
    assert b.size(j, g[..k]) == p.count(JoinTexts(g[..k]));
    assert b.size(j, g[..k] + [g[k]]) == p.count(JoinTexts(g[..k] + [g[k]]));
  }

  lemma ChunkMustEnd(p: Policy, nodes: seq<Node>, j: nat)
    requires j + 1 < |Groups(PackBudget(p), nodes)|
    ensures var groups := Groups(PackBudget(p), nodes);
      groups[j + 1] != [] && MustEnd(p, groups[j], groups[j + 1][0])
  {
    var b := PackBudget(p);
    var g, next := Groups(b, nodes)[j], Groups(b, nodes)[j + 1];
    PackingLaw(b, nodes, j);
    hide Groups, JoinTexts;
    assert b.size(j, g) == p.count(JoinTexts(g));
    assert b.size(j, g + [next[0]]) == p.count(JoinTexts(g + [next[0]]));
  }

  /** The text of a chunk: its nodes' texts in order, a line break between two of them. */
  lemma JoinedByLines(g: seq<Node>, n: Node)
    ensures JoinTexts([]) == "" && JoinTexts([n]) == n.text
    ensures g != [] ==> JoinTexts(g + [n]) == JoinTexts(g) + "\n" + n.text
  {
    if g != [] { assert (g + [n])[..|g|] == g; }
  }
}
