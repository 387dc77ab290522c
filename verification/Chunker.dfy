/** Chunking a document: headings switch the section, content goes through splitter and packer. */
module Chunking {
  import opened Sequences
  import opened Markdown
  import opened SectionTree
  import opened Grouping
  import opened Packing
  import opened Splitting

  /** Units of consecutive content nodes; the first failing split is the outcome. */
  function SplitAll(p: Policy, chunkText: string -> seq<string>, nodes: seq<Node>): Result<seq<Node>> {
    if nodes == [] then Ok([])
    else
      var head := Split(p, chunkText, nodes[0]);
      var rest := SplitAll(p, chunkText, nodes[1..]);
      if head.Err? then head else if rest.Err? then rest else Ok(head.value + rest.value)
  }

  // ---------------------------------------------------------------------------------------
  // Which section a position belongs to, without following the loop
  // ---------------------------------------------------------------------------------------

  function HeadingsBefore(nodes: seq<Node>, j: nat): nat
    requires j <= |nodes|
  {
    if j == 0 then 0 else HeadingsBefore(nodes, j - 1) + if nodes[j - 1].kind == Heading then 1 else 0
  }

  function RootCount(sections: seq<Section>): nat {
    if sections != [] && sections[0].level == 0 then 1 else 0
  }

  /** There is one section per heading, after the root when there is one. */
  ghost predicate Fits(nodes: seq<Node>, sections: seq<Section>) {
    |sections| == RootCount(sections) + HeadingsBefore(nodes, |nodes|)
  }

  lemma {:induction false} HeadingsGrow(nodes: seq<Node>, i: nat, j: nat)
    requires i <= j <= |nodes|
    ensures HeadingsBefore(nodes, i) <= HeadingsBefore(nodes, j)
    decreases j
  {
    if i < j { HeadingsGrow(nodes, i, j - 1); }
  }

  /** The section of the last heading before position j; before the first heading the root, if any. */
  function SectionAt(nodes: seq<Node>, sections: seq<Section>, j: nat): Option<Section>
    requires Fits(nodes, sections) && j <= |nodes|
  {
    HeadingsGrow(nodes, j, |nodes|);
    var k := RootCount(sections) + HeadingsBefore(nodes, j);
    if k == 0 then None else Some(sections[k - 1])
  }

  function IdIn(section: Option<Section>): Option<SectionId> {
    if section.None? then None else Some(section.value.id)
  }

  // ---------------------------------------------------------------------------------------
  // The loop
  // ---------------------------------------------------------------------------------------

  /** A group of units and the section it was packed under. */
  datatype Packed = Packed(section: Option<Section>, units: seq<Node>)

  function Tag(section: Option<Section>, groups: seq<seq<Node>>): seq<Packed> {
    if groups == [] then [] else [Packed(section, groups[0])] + Tag(section, groups[1..])
  }

  function PackRun(p: Policy, chunkText: string -> seq<string>, run: seq<Node>, section: Option<Section>)
    : Result<seq<Packed>>
  {
    var units := SplitAll(p, chunkText, run);
    if units.Err? then Err(units.error) else Ok(Tag(section, Groups(PackBudget(p), units.value)))
  }

  function Then(a: Result<seq<Packed>>, b: Result<seq<Packed>>): Result<seq<Packed>> {
    if a.Err? then a else if b.Err? then b else Ok(a.value + b.value)
  }

  /** Positions run..i hold content not yet packed, all of the same section. */
  function PackFrom(p: Policy, chunkText: string -> seq<string>, nodes: seq<Node>, sections: seq<Section>,
                    run: nat, i: nat): Result<seq<Packed>>
    requires Fits(nodes, sections) && run <= i <= |nodes|
    decreases |nodes| - i
  {
    var here := PackRun(p, chunkText, nodes[run..i], SectionAt(nodes, sections, run));
    if i == |nodes| then here
    else if nodes[i].kind == Heading then Then(here, PackFrom(p, chunkText, nodes, sections, i + 1, i + 1))
    else PackFrom(p, chunkText, nodes, sections, run, i + 1)
  }

  ghost predicate AreChunksOf(p: Policy, chunks: seq<Chunk>, packed: seq<Packed>) {
    && |chunks| == |packed|
    && forall k {:trigger chunks[k]} :: 0 <= k < |chunks| ==>
         chunks[k] == BuildChunk(p, packed[k].units, IdIn(packed[k].section), k)
  }

  lemma {:induction false} TagSpec(section: Option<Section>, groups: seq<seq<Node>>)
    ensures |Tag(section, groups)| == |groups|
    ensures forall k {:trigger groups[k]} :: 0 <= k < |groups| ==> Tag(section, groups)[k] == Packed(section, groups[k])
  {
    if groups != [] { TagSpec(section, groups[1..]); }
  }

  lemma AppendChunks(p: Policy, chunks: seq<Chunk>, packed: seq<Packed>, more: seq<Chunk>,
                     groups: seq<seq<Node>>, section: Option<Section>)
    requires AreChunksOf(p, chunks, packed)
    requires AreChunks(p, more, groups, IdIn(section), |chunks|)
    ensures AreChunksOf(p, chunks + more, packed + Tag(section, groups))
  {
    TagSpec(section, groups);
    hide Tag, BuildChunk, IdIn;
    var all, tagged := chunks + more, Tag(section, groups);
    forall k {:trigger all[k]} | 0 <= k < |all|
      ensures all[k] == BuildChunk(p, (packed + tagged)[k].units, IdIn((packed + tagged)[k].section), k)
    {
      if k >= |chunks| {
        var m := k - |chunks|;
        assert all[k] == more[m] && (packed + tagged)[k] == tagged[m] && groups[m] == tagged[m].units;
      }
    }
  }

  /** What the caller gets for packed groups, or for the splitting error that ended the packing. */
  ghost predicate Delivers(p: Policy, r: Result<seq<Chunk>>, packed: Result<seq<Packed>>) {
    if packed.Err? then r == Err(packed.error) else r.Ok? && AreChunksOf(p, r.value, packed.value)
  }

  /** The nested flush. */
  method Flush(p: Policy, chunkText: string -> seq<string>, pending: seq<Node>, section: Option<Section>,
               chunks0: seq<Chunk>, ghost packed: seq<Packed>)
    returns (r: Result<seq<Chunk>>)
    requires p.Valid() && AreChunksOf(p, chunks0, packed)
    ensures Delivers(p, r, Then(Ok(packed), PackRun(p, chunkText, pending, section)))
  {
    if pending == [] {
      assert packed + [] == packed && Groups(PackBudget(p), []) == [];
      return Ok(chunks0);
    }
    var units := SplitAll(p, chunkText, pending);
    if units.Err? {
      return Err(units.error);
    }
    var more := Pack(p, units.value, IdIn(section), |chunks0|);
    AppendChunks(p, chunks0, packed, more, Groups(PackBudget(p), units.value), section);
    return Ok(chunks0 + more);
  }

  method ChunkBySections(p: Policy, chunkText: string -> seq<string>, nodes: seq<Node>, sections: seq<Section>)
    returns (r: Result<seq<Chunk>>)
    requires p.Valid() && Fits(nodes, sections)
    ensures Delivers(p, r, PackFrom(p, chunkText, nodes, sections, 0, 0))
  {
    hide PackRun, AreChunksOf, Then, PackFrom, Fits, SectionAt, HeadingsBefore, RootCount;
    FirstSection(nodes, sections);
    var chunks: seq<Chunk> := [];
    ghost var packed: seq<Packed> := [];
    ghost var whole := PackFrom(p, chunkText, nodes, sections, 0, 0);
    NothingPacked(p, whole);
    var pending: seq<Node> := [];
    var sectionIndex := 0;
    var current: Option<Section> := None;
    if sections != [] && sections[0].level == 0 {
      current := Some(sections[0]);
      sectionIndex := 1;
    }
    var i := 0;
    ghost var run := 0;
    while i < |nodes|
      invariant run <= i <= |nodes| && pending == nodes[run..i]
      invariant sectionIndex == RootCount(sections) + HeadingsBefore(nodes, i)
      invariant HeadingsBefore(nodes, run) == HeadingsBefore(nodes, i)
      invariant current == SectionAt(nodes, sections, run)
      invariant AreChunksOf(p, chunks, packed)
      invariant whole == Then(Ok(packed), PackFrom(p, chunkText, nodes, sections, run, i))
    {
      var node := nodes[i];
      if node.kind == Heading {
        NextSection(nodes, sections, i);
        var flushed := Flush(p, chunkText, pending, current, chunks, packed);
        ghost var here := PackRun(p, chunkText, nodes[run..i], SectionAt(nodes, sections, run));
        FlushedAtHeading(p, chunkText, nodes, sections, packed, run, i);
        if flushed.Err? {
          return flushed;
        }
        chunks, packed, pending := flushed.value, packed + here.value, [];
        current := Some(sections[sectionIndex]);
        sectionIndex := sectionIndex + 1;
        run := i + 1;
      } else {
        PackedAtContent(p, chunkText, nodes, sections, run, i);
        SliceExtends(nodes, run, i);
        pending := pending + [node];
      }
      i := i + 1;
    }
    AllPacked(p, chunkText, nodes, sections, run);
    r := Flush(p, chunkText, pending, current, chunks, packed);
    ThenLast(packed, PackRun(p, chunkText, pending, current));
  }

  /** Flushing at a heading takes what was pending out of what is still to be packed. */
  lemma FlushedAtHeading(p: Policy, chunkText: string -> seq<string>, nodes: seq<Node>, sections: seq<Section>,
                         packed: seq<Packed>, run: nat, i: nat)
    requires Fits(nodes, sections) && run <= i < |nodes| && nodes[i].kind == Heading
    ensures
      var here := PackRun(p, chunkText, nodes[run..i], SectionAt(nodes, sections, run));
      var before := Then(Ok(packed), PackFrom(p, chunkText, nodes, sections, run, i));
      if here.Err? then before == here && Then(Ok(packed), here) == here
      else
        && Then(Ok(packed), here) == Ok(packed + here.value)
        && before == Then(Ok(packed + here.value), PackFrom(p, chunkText, nodes, sections, i + 1, i + 1))
  {
    hide PackRun, Then, PackFrom, Fits, SectionAt;
    var here := PackRun(p, chunkText, nodes[run..i], SectionAt(nodes, sections, run));
    PackedAtHeading(p, chunkText, nodes, sections, run, i);
    ThenAssociates(packed, here, PackFrom(p, chunkText, nodes, sections, i + 1, i + 1));
    ThenLast(packed, here);
  }

  lemma FirstSection(nodes: seq<Node>, sections: seq<Section>)
    requires Fits(nodes, sections)
    ensures RootCount(sections) == (if sections != [] && sections[0].level == 0 then 1 else 0)
    ensures SectionAt(nodes, sections, 0) == if RootCount(sections) == 0 then None else Some(sections[0])
    ensures HeadingsBefore(nodes, 0) == 0
  {
  }

  lemma NextSection(nodes: seq<Node>, sections: seq<Section>, i: nat)
    requires Fits(nodes, sections) && i < |nodes| && nodes[i].kind == Heading
    ensures HeadingsBefore(nodes, i + 1) == HeadingsBefore(nodes, i) + 1
    ensures
      var k := RootCount(sections) + HeadingsBefore(nodes, i);
      k < |sections| && SectionAt(nodes, sections, i + 1) == Some(sections[k])
  {
    HeadingsGrow(nodes, i + 1, |nodes|);
  }

  lemma NothingPacked(p: Policy, r: Result<seq<Packed>>)
    ensures AreChunksOf(p, [], [])
    ensures Then(Ok([]), r) == r
  {
    if r.Ok? { assert [] + r.value == r.value; }
  }

  lemma ThenAssociates(a: seq<Packed>, b: Result<seq<Packed>>, c: Result<seq<Packed>>)
    ensures b.Ok? ==> Then(Ok(a), Then(b, c)) == Then(Ok(a + b.value), c)
    ensures b.Err? ==> Then(Ok(a), Then(b, c)) == b
  {
    if b.Ok? && c.Ok? { assert a + (b.value + c.value) == (a + b.value) + c.value; }
  }

  lemma ThenLast(a: seq<Packed>, b: Result<seq<Packed>>)
    ensures Then(Ok(a), b) == if b.Err? then b else Ok(a + b.value)
  {
  }

  // ---------------------------------------------------------------------------------------
  // Attribution
  // ---------------------------------------------------------------------------------------

  /** Every unit with the section it belongs to by position alone. */
  datatype Attributed = Attributed(section: Option<Section>, unit: Node)

  function Attribute(section: Option<Section>, units: seq<Node>): seq<Attributed> {
    if units == [] then [] else [Attributed(section, units[0])] + Attribute(section, units[1..])
  }

  /** The units of content nodes i, i + 1, ... under the section of their position. */
  function Expected(p: Policy, chunkText: string -> seq<string>, nodes: seq<Node>, sections: seq<Section>, i: nat)
    : seq<Attributed>
    requires Fits(nodes, sections) && i <= |nodes|
    decreases |nodes| - i
  {
    if i == |nodes| then []
    else
      var units := Split(p, chunkText, nodes[i]);
      (if nodes[i].kind == Heading || units.Err? then []
       else Attribute(SectionAt(nodes, sections, i), units.value))
      + Expected(p, chunkText, nodes, sections, i + 1)
  }

  function Attributions(packed: seq<Packed>): seq<Attributed> {
    if packed == [] then [] else Attribute(packed[0].section, packed[0].units) + Attributions(packed[1..])
  }

  lemma {:induction false} AttributeSplits(section: Option<Section>, a: seq<Node>, b: seq<Node>)
    ensures Attribute(section, a + b) == Attribute(section, a) + Attribute(section, b)
  {
    if a == [] {
      assert a + b == b;
    } else {
      assert (a + b)[1..] == a[1..] + b;
      AttributeSplits(section, a[1..], b);
    }
  }

  lemma {:induction false} AttributionsSplit(a: seq<Packed>, b: seq<Packed>)
    ensures Attributions(a + b) == Attributions(a) + Attributions(b)
  {
    if a == [] {
      assert a + b == b;
    } else {
      assert (a + b)[1..] == a[1..] + b;
      AttributionsSplit(a[1..], b);
    }
  }

  lemma {:induction false} TagAttributes(section: Option<Section>, groups: seq<seq<Node>>)
    ensures Attributions(Tag(section, groups)) == Attribute(section, Flatten(groups))
  {
    if groups != [] {
      TagAttributes(section, groups[1..]);
      AttributeSplits(section, groups[0], Flatten(groups[1..]));
      assert Tag(section, groups)[1..] == Tag(section, groups[1..]);
    }
  }

  lemma RunAttributes(p: Policy, chunkText: string -> seq<string>, run: seq<Node>, section: Option<Section>)
    ensures match PackRun(p, chunkText, run, section)
      case Err(_) => SplitAll(p, chunkText, run).Err?
      case Ok(packed) =>
        (&& SplitAll(p, chunkText, run).Ok?
         && Attributions(packed) == Attribute(section, SplitAll(p, chunkText, run).value))
  {
    var units := SplitAll(p, chunkText, run);
    if units.Ok? {
      TagAttributes(section, Groups(PackBudget(p), units.value));
      GreedyCharacterisation(PackBudget(p), units.value, Groups(PackBudget(p), units.value));
    }
  }

  lemma {:induction false} SplitAllExtends(p: Policy, chunkText: string -> seq<string>, nodes: seq<Node>, n: Node)
    ensures var before, one := SplitAll(p, chunkText, nodes), Split(p, chunkText, n);
      var after := SplitAll(p, chunkText, nodes + [n]);
      && (after.Ok? <==> before.Ok? && one.Ok?)
      && (after.Ok? ==> after.value == before.value + one.value)
  {
    hide Split;
    if nodes == [] {
      assert (nodes + [n])[1..] == [];
    } else {
      assert (nodes + [n])[1..] == nodes[1..] + [n];
      SplitAllExtends(p, chunkText, nodes[1..], n);
    }
  }

  /** Everything packed from here on is the pending run followed by the expected rest, in order. */
  lemma {:induction false} PackingAttributes(
    p: Policy, chunkText: string -> seq<string>, nodes: seq<Node>, sections: seq<Section>, run: nat, i: nat)
    requires Fits(nodes, sections) && run <= i <= |nodes|
    requires HeadingsBefore(nodes, run) == HeadingsBefore(nodes, i)
    requires PackFrom(p, chunkText, nodes, sections, run, i).Ok?
    ensures SplitAll(p, chunkText, nodes[run..i]).Ok?
    ensures Attributions(PackFrom(p, chunkText, nodes, sections, run, i).value)
         == Attribute(SectionAt(nodes, sections, run), SplitAll(p, chunkText, nodes[run..i]).value)
            + Expected(p, chunkText, nodes, sections, i)
    decreases |nodes| - i
  {
    hide Split, PackRun, Fits, SectionAt, SplitAll, Attribute, Attributions, PackFrom, Expected, HeadingsBefore;
    var section := SectionAt(nodes, sections, run);
    var here := PackRun(p, chunkText, nodes[run..i], section);
    RunAttributes(p, chunkText, nodes[run..i], section);
    if i == |nodes| {
      AllPacked(p, chunkText, nodes, sections, run);
    } else if nodes[i].kind == Heading {
      var rest := PackFrom(p, chunkText, nodes, sections, i + 1, i + 1);
      PackedAtHeading(p, chunkText, nodes, sections, run, i);
      PackingAttributes(p, chunkText, nodes, sections, i + 1, i + 1);
      NothingPending(p, chunkText, nodes, SectionAt(nodes, sections, i + 1), i + 1);
      AttributionsSplit(here.value, rest.value);
    } else {
      var before, one := SplitAll(p, chunkText, nodes[run..i]), Split(p, chunkText, nodes[i]);
      PackedAtContent(p, chunkText, nodes, sections, run, i);
      PackingAttributes(p, chunkText, nodes, sections, run, i + 1);
      SliceExtends(nodes, run, i);
      SplitAllExtends(p, chunkText, nodes[run..i], nodes[i]);
      AttributeSplits(section, before.value, one.value);
      Regrouped(Attribute(section, before.value), Attribute(section, one.value),
                Expected(p, chunkText, nodes, sections, i + 1));
    }
  }

  lemma Regrouped(a: seq<Attributed>, b: seq<Attributed>, c: seq<Attributed>)
    ensures (a + b) + c == a + (b + c)
  {
  }

  lemma AllPacked(p: Policy, chunkText: string -> seq<string>, nodes: seq<Node>, sections: seq<Section>, run: nat)
    requires Fits(nodes, sections) && run <= |nodes|
    ensures PackFrom(p, chunkText, nodes, sections, run, |nodes|)
            == PackRun(p, chunkText, nodes[run..|nodes|], SectionAt(nodes, sections, run))
    ensures Expected(p, chunkText, nodes, sections, |nodes|) == []
  {
  }

  lemma PackedAtHeading(
    p: Policy, chunkText: string -> seq<string>, nodes: seq<Node>, sections: seq<Section>, run: nat, i: nat)
    requires Fits(nodes, sections) && run <= i < |nodes| && nodes[i].kind == Heading
    ensures
      var here := PackRun(p, chunkText, nodes[run..i], SectionAt(nodes, sections, run));
      PackFrom(p, chunkText, nodes, sections, run, i)
      == Then(here, PackFrom(p, chunkText, nodes, sections, i + 1, i + 1))
    ensures Expected(p, chunkText, nodes, sections, i) == Expected(p, chunkText, nodes, sections, i + 1)
  {
    hide SectionAt, PackRun, Split, Fits;
  }

  lemma PackedAtContent(
    p: Policy, chunkText: string -> seq<string>, nodes: seq<Node>, sections: seq<Section>, run: nat, i: nat)
    requires Fits(nodes, sections) && run <= i < |nodes| && nodes[i].kind != Heading
    requires HeadingsBefore(nodes, run) == HeadingsBefore(nodes, i)
    ensures HeadingsBefore(nodes, run) == HeadingsBefore(nodes, i + 1)
    ensures PackFrom(p, chunkText, nodes, sections, run, i) == PackFrom(p, chunkText, nodes, sections, run, i + 1)
    ensures
      var one := Split(p, chunkText, nodes[i]);
      one.Ok? ==>
        Expected(p, chunkText, nodes, sections, i)
        == Attribute(SectionAt(nodes, sections, run), one.value) + Expected(p, chunkText, nodes, sections, i + 1)
  {
    SameSection(nodes, sections, run, i);
    hide SectionAt, PackRun, Split, Fits, Attribute;
  }

  lemma NothingPending(p: Policy, chunkText: string -> seq<string>, nodes: seq<Node>, section: Option<Section>, i: nat)
    requires i <= |nodes|
    ensures SplitAll(p, chunkText, nodes[i..i]) == Ok([])
    ensures Attribute(section, []) == []
  {
    assert nodes[i..i] == [];
  }

  lemma SameSection(nodes: seq<Node>, sections: seq<Section>, i: nat, j: nat)
    requires Fits(nodes, sections) && i <= |nodes| && j <= |nodes|
    requires HeadingsBefore(nodes, i) == HeadingsBefore(nodes, j)
    ensures SectionAt(nodes, sections, i) == SectionAt(nodes, sections, j)
  {
  }

  /** End to end: read in order, the chunks hold every unit of every content node exactly once, each
      under the section its node stands in; in particular no chunk crosses a heading. */
  lemma ChunksAttributeEveryUnit(p: Policy, chunkText: string -> seq<string>, nodes: seq<Node>, sections: seq<Section>)
    requires Fits(nodes, sections) && PackFrom(p, chunkText, nodes, sections, 0, 0).Ok?
    ensures Attributions(PackFrom(p, chunkText, nodes, sections, 0, 0).value)
         == Expected(p, chunkText, nodes, sections, 0)
  {
    PackingAttributes(p, chunkText, nodes, sections, 0, 0);
    NothingPending(p, chunkText, nodes, SectionAt(nodes, sections, 0), 0);
  }

  /** Everything that is packed, unit by unit, each under the section of its group. */
  function Placed(packed: seq<Packed>): seq<seq<Attributed>> {
    seq(|packed|, k requires 0 <= k < |packed| =>
      seq(|packed[k].units|, m requires 0 <= m < |packed[k].units| =>
        Attributed(packed[k].section, packed[k].units[m])))
  }

  /** No unit is lost, made up or moved: the groups hold, one after the other, the units of the content
      nodes in document order, under the section of the node's position. A node within the threshold is its
      own only unit, and what longer prose is cut into spells its semantic pieces, blank ones left out. */
  lemma {:induction false} EveryUnitArrives(
    p: Policy, chunkText: string -> seq<string>, nodes: seq<Node>, sections: seq<Section>)
    returns (runs: seq<seq<Node>>)
    requires p.Valid() && Fits(nodes, sections) && PackFrom(p, chunkText, nodes, sections, 0, 0).Ok?
    ensures |runs| == |nodes|
    ensures forall i {:trigger runs[i]} :: 0 <= i < |nodes| ==>
      var node := nodes[i];
      if node.kind == Heading then runs[i] == []
      else
        && Split(p, chunkText, node) == Ok(runs[i])
        && (p.count(node.text) <= p.threshold ==> runs[i] == [node])
        && (Prose(node) && p.count(node.text) > p.threshold ==>
              Concat(seq(|runs[i]|, m requires 0 <= m < |runs[i]| => runs[i][m].text))
              == Concat(Filter(chunkText(node.text), (s: string) => !Blank(s))))
    ensures Flatten(Placed(PackFrom(p, chunkText, nodes, sections, 0, 0).value))
         == Flatten(seq(|nodes|, i requires 0 <= i < |nodes| =>
              seq(|runs[i]|, m requires 0 <= m < |runs[i]| =>
                Attributed(SectionAt(nodes, sections, i), runs[i][m]))))
  {
    ChunksAttributeEveryUnit(p, chunkText, nodes, sections);
    PlacedAreAttributions(PackFrom(p, chunkText, nodes, sections, 0, 0).value);
    SplittingGoesWell(p, chunkText, nodes, sections, 0, 0);
    hide PackFrom, Split, Placed, Attributions, SectionAt, Expected, Fits;
    runs := seq(|nodes|, i requires 0 <= i < |nodes| =>
      if nodes[i].kind == Heading then [] else UnitsOf(Split(p, chunkText, nodes[i])));
    forall i {:trigger runs[i]} | 0 <= i < |nodes| && nodes[i].kind != Heading
      ensures Split(p, chunkText, nodes[i]) == Ok(runs[i])
      ensures p.count(nodes[i].text) <= p.threshold ==> runs[i] == [nodes[i]]
      ensures Prose(nodes[i]) && p.count(nodes[i].text) > p.threshold ==>
        Concat(seq(|runs[i]|, m requires 0 <= m < |runs[i]| => runs[i][m].text))
        == Concat(Filter(chunkText(nodes[i].text), (s: string) => !Blank(s)))
    {
      if p.count(nodes[i].text) <= p.threshold {
        SplitLeavesWhole(p, chunkText, nodes[i]);
      } else if Prose(nodes[i]) {
        var _ := ProseKeepsItsText(p, chunkText, nodes[i]);
      }
    }
    ExpectedIs(p, chunkText, nodes, sections, runs, 0);
  }

  function UnitsOf(r: Result<seq<Node>>): seq<Node> { if r.Ok? then r.value else [] }

  lemma {:induction false} AttributeIs(section: Option<Section>, units: seq<Node>)
    ensures Attribute(section, units) ==
      seq(|units|, m requires 0 <= m < |units| => Attributed(section, units[m]))
  {
    if units != [] { AttributeIs(section, units[1..]); }
  }

  lemma {:induction false} PlacedAreAttributions(packed: seq<Packed>)
    ensures Flatten(Placed(packed)) == Attributions(packed)
  {
    if packed != [] {
      PlacedFirst(packed);
      PlacedAreAttributions(packed[1..]);
      hide Placed, Attribute, Flatten;
    }
  }

  lemma PlacedFirst(packed: seq<Packed>)
    requires packed != []
    ensures Flatten(Placed(packed)) == Attribute(packed[0].section, packed[0].units) + Flatten(Placed(packed[1..]))
  {
    AttributeIs(packed[0].section, packed[0].units);
    hide Attribute, Flatten;
    var all, rest := Placed(packed), Placed(packed[1..]);
    assert all[0] == Attribute(packed[0].section, packed[0].units);
    assert all[1..] == rest;
    FlattenFirst(all);
  }

  lemma {:induction false} ExpectedIs(p: Policy, chunkText: string -> seq<string>, nodes: seq<Node>,
                                      sections: seq<Section>, runs: seq<seq<Node>>, i: nat)
    requires Fits(nodes, sections) && i <= |nodes| == |runs|
    requires forall j {:trigger runs[j]} :: 0 <= j < |nodes| ==>
      if nodes[j].kind == Heading then runs[j] == [] else Split(p, chunkText, nodes[j]) == Ok(runs[j])
    ensures Expected(p, chunkText, nodes, sections, i)
         == Flatten(seq(|nodes|, j requires 0 <= j < |nodes| =>
              seq(|runs[j]|, m requires 0 <= m < |runs[j]| =>
                Attributed(SectionAt(nodes, sections, j), runs[j][m])))[i..])
    decreases |nodes| - i
  {
    hide Split, SectionAt, Fits;
    var all := seq(|nodes|, j requires 0 <= j < |nodes| =>
      seq(|runs[j]|, m requires 0 <= m < |runs[j]| => Attributed(SectionAt(nodes, sections, j), runs[j][m])));
    if i < |nodes| {
      ExpectedIs(p, chunkText, nodes, sections, runs, i + 1);
      AttributeIs(SectionAt(nodes, sections, i), runs[i]);
      assert all[i..][0] == all[i] && all[i..][1..] == all[i + 1..];
      assert all[i] == Attribute(SectionAt(nodes, sections, i), runs[i]);
    }
  }

  ghost predicate CanSplit(p: Policy, chunkText: string -> seq<string>, nodes: seq<Node>, a: nat, b: nat)
    requires a <= b <= |nodes|
  {
    forall j :: a <= j < b && nodes[j].kind != Heading ==> Split(p, chunkText, nodes[j]).Ok?
  }

  /** Packing succeeds exactly when every content node can be split. */
  lemma {:induction false} SplittingGoesWell(
    p: Policy, chunkText: string -> seq<string>, nodes: seq<Node>, sections: seq<Section>, run: nat, i: nat)
    requires Fits(nodes, sections) && run <= i <= |nodes|
    requires forall j :: run <= j < i ==> nodes[j].kind != Heading
    ensures PackFrom(p, chunkText, nodes, sections, run, i).Ok? <==> CanSplit(p, chunkText, nodes, run, |nodes|)
    decreases |nodes| - i
  {
    hide CanSplit, Split, SectionAt, Fits, SplitAll;
    if i == |nodes| {
      AllOfThemSplit(p, chunkText, nodes, run, i);
    } else if nodes[i].kind == Heading {
      AllOfThemSplit(p, chunkText, nodes, run, i);
      SplittingGoesWell(p, chunkText, nodes, sections, i + 1, i + 1);
      CanSplitAcross(p, chunkText, nodes, run, i);
    } else {
      SplittingGoesWell(p, chunkText, nodes, sections, run, i + 1);
    }
  }

  lemma CanSplitAcross(p: Policy, chunkText: string -> seq<string>, nodes: seq<Node>, run: nat, i: nat)
    requires run <= i < |nodes| && nodes[i].kind == Heading
    ensures CanSplit(p, chunkText, nodes, run, |nodes|) <==>
      CanSplit(p, chunkText, nodes, run, i) && CanSplit(p, chunkText, nodes, i + 1, |nodes|)
  {
    hide Split;
  }

  lemma {:induction false} AllOfThemSplit(
    p: Policy, chunkText: string -> seq<string>, nodes: seq<Node>, a: nat, b: nat)
    requires a <= b <= |nodes| && forall j :: a <= j < b ==> nodes[j].kind != Heading
    ensures SplitAll(p, chunkText, nodes[a..b]).Ok? <==> CanSplit(p, chunkText, nodes, a, b)
    decreases b - a
  {
    hide Split;
    if a < b {
      AllOfThemSplit(p, chunkText, nodes, a + 1, b);
      assert nodes[a..b][1..] == nodes[a + 1..b];
    }
  }

  /** Positions a..b hold all the content between two headings, or before the first or after the last. */
  ghost predicate Stretch(nodes: seq<Node>, a: nat, b: nat) {
    && a <= b <= |nodes|
    && (forall j :: a <= j < b ==> nodes[j].kind != Heading)
    && (a > 0 ==> nodes[a - 1].kind == Heading)
    && (b < |nodes| ==> nodes[b].kind == Heading)
  }

  lemma {:induction false} StretchIsPacked(
    p: Policy, chunkText: string -> seq<string>, nodes: seq<Node>, sections: seq<Section>, run: nat, i: nat,
    a: nat, b: nat) returns (at: nat)
    requires Fits(nodes, sections) && run <= i <= |nodes| && Stretch(nodes, a, b)
    requires PackFrom(p, chunkText, nodes, sections, run, i).Ok?
    requires (a == run && i <= b) || a > i
    ensures SplitAll(p, chunkText, nodes[a..b]).Ok?
    ensures
      var packed := PackFrom(p, chunkText, nodes, sections, run, i).value;
      var units := SplitAll(p, chunkText, nodes[a..b]).value;
      var tagged := Tag(SectionAt(nodes, sections, a), Groups(PackBudget(p), units));
      at + |tagged| <= |packed| && packed[at..at + |tagged|] == tagged
    decreases |nodes| - i
  {
    hide Split, SectionAt, Fits, SplitAll, Groups, Tag;
    var here := PackRun(p, chunkText, nodes[run..i], SectionAt(nodes, sections, run));
    if i == |nodes| {
      at := 0;
    } else if nodes[i].kind == Heading {
      if a == run {
        at := 0;
        assert b == i;
      } else {
        var later := StretchIsPacked(p, chunkText, nodes, sections, i + 1, i + 1, a, b);
        at := |here.value| + later;
      }
    } else {
      at := StretchIsPacked(p, chunkText, nodes, sections, run, i + 1, a, b);
    }
  }

  /** The content between two headings is packed greedily and by itself: its groups stand together, under
      its section, hold its units in order, grow no further from the target, and end only where they have
      to - the first unit of the next group is over the threshold alone, or the group has reached the
      target, or that unit would take it over the threshold or strictly further from the target. */
  lemma StretchesArePackedGreedily(
    p: Policy, chunkText: string -> seq<string>, nodes: seq<Node>, sections: seq<Section>, a: nat, b: nat)
    returns (at: nat, groups: seq<seq<Node>>)
    requires p.Valid() && Fits(nodes, sections) && Stretch(nodes, a, b)
    requires PackFrom(p, chunkText, nodes, sections, 0, 0).Ok?
    ensures
      var packed := PackFrom(p, chunkText, nodes, sections, 0, 0).value;
      && at + |groups| <= |packed|
      && SplitAll(p, chunkText, nodes[a..b]) == Ok(Flatten(groups))
      && forall j {:trigger groups[j]} :: 0 <= j < |groups| ==>
           && packed[at + j] == Packed(SectionAt(nodes, sections, a), groups[j]) && groups[j] != []
           && (forall k: nat :: 1 <= k < |groups[j]| ==> GrowsAt(p, groups[j], k))
           && (j + 1 < |groups| ==> groups[j + 1] != [] && MustEnd(p, groups[j], groups[j + 1][0]))
  {
    at := StretchIsPacked(p, chunkText, nodes, sections, 0, 0, a, b);
    var units := SplitAll(p, chunkText, nodes[a..b]).value;
    var section := SectionAt(nodes, sections, a);
    groups := Groups(PackBudget(p), units);
    PackingIsAPartition(p, units);
    TagSpec(section, groups);
    hide PackFrom, Split, SectionAt, Fits, SplitAll, Groups, Tag, JoinTexts, GrowsAt, MustEnd;
    ghost var packed := PackFrom(p, chunkText, nodes, sections, 0, 0).value;
    ghost var tagged := Tag(section, groups);
    forall j {:trigger groups[j]} | 0 <= j < |groups|
      ensures packed[at + j] == Packed(section, groups[j])
      ensures forall k: nat :: 1 <= k < |groups[j]| ==> GrowsAt(p, groups[j], k)
      ensures j + 1 < |groups| ==> groups[j + 1] != [] && MustEnd(p, groups[j], groups[j + 1][0])
    {
      assert packed[at + j] == packed[at..at + |tagged|][j];
      ChunksAreGreedy(p, units, j);
    }
  }

  /** A delivered chunk: its place, the text of its units one below the other, its size, whether that is
      over the threshold, and the section it was packed under. */
  lemma DeliveredChunk(p: Policy, r: Result<seq<Chunk>>, packed: Result<seq<Packed>>, k: nat)
    requires Delivers(p, r, packed) && r.Ok? && k < |r.value|
    ensures packed.Ok? && |packed.value| == |r.value|
    ensures
      var c, g := r.value[k], packed.value[k];
      && c.index == k && c.text == JoinTexts(g.units)
      && c.tokens == p.count(c.text) && (c.overflow <==> c.tokens > p.threshold)
      && (c.section.None? <==> g.section.None?) && (g.section.Some? ==> c.section.value == g.section.value.id)
  {
    assert r.value[k] == BuildChunk(p, packed.value[k].units, IdIn(packed.value[k].section), k);
  }

  // ---------------------------------------------------------------------------------------
  // The section in force is the one whose own span holds the node
  // ---------------------------------------------------------------------------------------

  /** Located nodes are disjoint, in document order, and inside the text. */
  ghost predicate InOrder(nodes: seq<Node>, textLen: nat) {
    && (forall i :: 0 <= i < |nodes| && nodes[i].span.Some? ==>
          nodes[i].span.value.start <= nodes[i].span.value.end <= textLen)
    && (forall i, j :: 0 <= i < j < |nodes| && nodes[i].span.Some? && nodes[j].span.Some? ==>
          nodes[i].span.value.end <= nodes[j].span.value.start)
  }

  /** Heading number k is the first node with k headings before it that is a heading. */
  lemma {:induction false} HeadingPosition(nodes: seq<Node>, k: nat) returns (j: nat)
    requires k < |Headings(nodes)|
    ensures j < |nodes| && nodes[j].kind == Heading && nodes[j] == Headings(nodes)[k]
    ensures HeadingsBefore(nodes, j) == k
  {
    if nodes[0].kind == Heading && k == 0 {
      j := 0;
    } else {
      j := HeadingPosition(nodes[1..], if nodes[0].kind == Heading then k - 1 else k);
      HeadingsBeforeTail(nodes, j);
      j := j + 1;
    }
  }

  lemma {:induction false} HeadingsBeforeTail(nodes: seq<Node>, j: nat)
    requires j < |nodes|
    ensures HeadingsBefore(nodes, j + 1) == HeadingsBefore(nodes[1..], j) + if nodes[0].kind == Heading then 1 else 0
  {
    if j > 0 { HeadingsBeforeTail(nodes, j - 1); }
  }

  lemma {:induction false} HeadingTotal(nodes: seq<Node>)
    ensures |Headings(nodes)| == HeadingsBefore(nodes, |nodes|)
  {
    if nodes != [] {
      HeadingTotal(nodes[1..]);
      HeadingsBeforeTail(nodes, |nodes| - 1);
    }
  }

  /** How many sections precede those of the headings: the root or none. */
  function Base(nodes: seq<Node>, rootTitle: string): nat
    requires Headings(nodes) != [] && Headings(nodes)[0].span.Some?
  {
    |RootEntry(nodes, Headings(nodes)[0].span.value.start, rootTitle)|
  }

  /** The built sections: the root, if any, then one per heading. */
  lemma {:induction false} BuiltShape(nodes: seq<Node>, textLen: nat, rootTitle: string)
    requires Headings(nodes) != [] && ParsedHeadings(Headings(nodes), textLen)
    ensures var o := OutlineOf(nodes, textLen, rootTitle);
      var base := Base(nodes, rootTitle);
      && base <= 1 && |o.entries| == base + |Headings(nodes)|
      && (base == 0 ==> ContentSpans(nodes, 0, Headings(nodes)[0].span.value.start) == [])
      && o.entries[0].level == (if base == 1 then 0 else Headings(nodes)[0].level)
  {
    var hs := Headings(nodes);
    var o := OutlineOf(nodes, textLen, rootTitle);
    var root := RootEntry(nodes, hs[0].span.value.start, rootTitle);
    assert o.entries == root + HeadingEntries(hs);
    assert root == [] ==> o.entries[0] == EntryOf(hs[0]);
  }

  lemma {:induction false} BuiltSectionsFit(nodes: seq<Node>, textLen: nat, rootTitle: string)
    requires Headings(nodes) != [] && ParsedHeadings(Headings(nodes), textLen)
    ensures var sections := Sections(OutlineOf(nodes, textLen, rootTitle));
      RootCount(sections) == Base(nodes, rootTitle) && Fits(nodes, sections)
  {
    BuiltShape(nodes, textLen, rootTitle);
    HeadingTotal(nodes);
    var o := OutlineOf(nodes, textLen, rootTitle);
    assert Headings(nodes)[0].level >= 1;
    hide Base, OutlineOf, Headings, HeadingsBefore;
    assert Sections(o)[0] == SectionOf(o, 0);
  }

  /** After the root the boundaries are the starts of the headings, and the end of the text. */
  lemma HeadingBoundary(nodes: seq<Node>, textLen: nat, rootTitle: string, m: nat, i: nat)
    requires Headings(nodes) != [] && ParsedHeadings(Headings(nodes), textLen)
    requires m <= |Headings(nodes)| && i == Base(nodes, rootTitle) + m
    ensures var hs, o := Headings(nodes), OutlineOf(nodes, textLen, rootTitle);
      && i <= |o.entries|
      && Boundary(o, i) == if m < |hs| then hs[m].span.value.start else textLen
  {
    var hs, o := Headings(nodes), OutlineOf(nodes, textLen, rootTitle);
    var root := RootEntry(nodes, hs[0].span.value.start, rootTitle);
    assert o.entries == root + HeadingEntries(hs);
    hide OutlineOf, RootEntry, ParsedHeadings, Headings;
    if m < |hs| { assert o.entries[i] == HeadingEntries(hs)[m]; }
  }

  lemma RootBoundary(nodes: seq<Node>, textLen: nat, rootTitle: string)
    requires Headings(nodes) != [] && ParsedHeadings(Headings(nodes), textLen)
    requires Base(nodes, rootTitle) > 0
    ensures Boundary(OutlineOf(nodes, textLen, rootTitle), 0) == 0
  {
    hide ContentSpans, Headings;
  }

  /** A node after k headings begins at or after the start of the last of them and ends before the
      next one. */
  lemma BetweenHeadings(nodes: seq<Node>, textLen: nat, j: nat)
    requires ParsedHeadings(Headings(nodes), textLen) && InOrder(nodes, textLen)
    requires j < |nodes| && nodes[j].kind != Heading && nodes[j].span.Some?
    ensures var hs := Headings(nodes);
      var k := HeadingsBefore(nodes, j);
      && k <= |hs|
      && (k > 0 ==> hs[k - 1].span.value.start <= nodes[j].span.value.start)
      && nodes[j].span.value.end <= (if k < |hs| then hs[k].span.value.start else textLen)
  {
    var k := HeadingsBefore(nodes, j);
    HeadingTotal(nodes);
    HeadingsGrow(nodes, j, |nodes|);
    if k < |Headings(nodes)| {
      var next := HeadingPosition(nodes, k);
      if next < j { HeadingsGrow(nodes, next + 1, j); }
    }
    if k > 0 {
      var last := HeadingPosition(nodes, k - 1);
      if j <= last { HeadingsGrow(nodes, j, last); }
    }
  }

  lemma {:induction false} NodeHasSection(nodes: seq<Node>, textLen: nat, rootTitle: string, j: nat)
    requires Headings(nodes) != [] && ParsedHeadings(Headings(nodes), textLen) && InOrder(nodes, textLen)
    requires j < |nodes| && nodes[j].kind != Heading && !Blank(nodes[j].text) && nodes[j].span.Some?
    ensures Base(nodes, rootTitle) + HeadingsBefore(nodes, j) > 0
  {
    if Base(nodes, rootTitle) + HeadingsBefore(nodes, j) == 0 {
      BuiltShape(nodes, textLen, rootTitle);
      BetweenHeadings(nodes, textLen, j);
      PreambleHasContent(nodes, j, Headings(nodes)[0].span.value.start);
    }
  }

  lemma {:induction false} NodeWithinBoundaries(nodes: seq<Node>, textLen: nat, rootTitle: string, j: nat)
    requires Headings(nodes) != [] && ParsedHeadings(Headings(nodes), textLen) && InOrder(nodes, textLen)
    requires j < |nodes| && nodes[j].kind != Heading && !Blank(nodes[j].text) && nodes[j].span.Some?
    ensures var o := OutlineOf(nodes, textLen, rootTitle);
      var k := Base(nodes, rootTitle) + HeadingsBefore(nodes, j);
      && 0 < k <= |o.entries|
      && Boundary(o, k - 1) <= nodes[j].span.value.start && nodes[j].span.value.end <= Boundary(o, k)
  {
    var hs := Headings(nodes);
    var o := OutlineOf(nodes, textLen, rootTitle);
    BuiltShape(nodes, textLen, rootTitle);
    BetweenHeadings(nodes, textLen, j);
    NodeHasSection(nodes, textLen, rootTitle, j);
    var base, k := Base(nodes, rootTitle), HeadingsBefore(nodes, j);
    hide InOrder, ParsedHeadings, HeadingsBefore, Headings, Base, ContentSpans, Blank, OutlineOf, Boundary;
    var at := base + k;
    HeadingBoundary(nodes, textLen, rootTitle, k, at);
    if k > 0 {
      HeadingBoundary(nodes, textLen, rootTitle, k - 1, at - 1);
    } else {
      RootBoundary(nodes, textLen, rootTitle);
    }
  }

  /** A content node with text and a place in the source is packed under the built section whose own
      span contains it. */
  lemma {:induction false} SectionContainsNode(nodes: seq<Node>, textLen: nat, rootTitle: string, j: nat)
    requires Headings(nodes) != [] && ParsedHeadings(Headings(nodes), textLen) && InOrder(nodes, textLen)
    requires j < |nodes| && nodes[j].kind != Heading && !Blank(nodes[j].text) && nodes[j].span.Some?
    ensures var sections := Sections(OutlineOf(nodes, textLen, rootTitle));
      && Fits(nodes, sections)
      && SectionAt(nodes, sections, j).Some?
      && var own := SectionAt(nodes, sections, j).value.own;
         own.start <= nodes[j].span.value.start && nodes[j].span.value.end <= own.end
  {
    BuiltSectionsFit(nodes, textLen, rootTitle);
    NodeWithinBoundaries(nodes, textLen, rootTitle, j);
    var o := OutlineOf(nodes, textLen, rootTitle);
    hide InOrder, ParsedHeadings, HeadingsBefore, Headings, RootCount, Base, Blank, OutlineOf, SectionOf, Fits,
      SectionAt, Boundary;
    SectionAtIs(nodes, Sections(o), j);
    OwnSpanIs(o, RootCount(Sections(o)) + HeadingsBefore(nodes, j) - 1);
  }

  lemma OwnSpanIs(o: Outline, at: nat)
    requires at < |o.entries|
    ensures Sections(o)[at].own == Span(Boundary(o, at), Boundary(o, at + 1))
  {
    assert Sections(o)[at] == SectionOf(o, at);
  }

  lemma SectionAtIs(nodes: seq<Node>, sections: seq<Section>, j: nat)
    requires Fits(nodes, sections) && j <= |nodes| && RootCount(sections) + HeadingsBefore(nodes, j) > 0
    ensures RootCount(sections) + HeadingsBefore(nodes, j) <= |sections|
    ensures SectionAt(nodes, sections, j) == Some(sections[RootCount(sections) + HeadingsBefore(nodes, j) - 1])
  {
    HeadingsGrow(nodes, j, |nodes|);
  }

  /** Content before the first heading makes a root. */
  lemma {:induction false} PreambleHasContent(nodes: seq<Node>, j: nat, first: nat)
    requires j < |nodes| && nodes[j].kind != Heading && !Blank(nodes[j].text) && nodes[j].span.Some?
    requires nodes[j].span.value.end <= first
    ensures ContentSpans(nodes, 0, first) != []
  {
    if j > 0 { PreambleHasContent(nodes[1..], j - 1, first); }
  }

  // ---------------------------------------------------------------------------------------
  // Overflow
  // ---------------------------------------------------------------------------------------

  /** Packed units exceed the threshold only as a single unit that does so alone, and that is not prose. */
  ghost predicate OverflowsAlone(p: Policy, units: seq<Node>) {
    p.count(JoinTexts(units)) > p.threshold ==>
      |units| == 1 && p.count(units[0].text) > p.threshold && !Prose(units[0])
  }

  ghost predicate AllOverflowAlone(p: Policy, packed: seq<Packed>) {
    forall k {:trigger packed[k]} :: 0 <= k < |packed| ==> OverflowsAlone(p, packed[k].units)
  }

  lemma {:induction false} ProseFits(p: Policy, chunkText: string -> seq<string>, nodes: seq<Node>)
    requires p.Valid() && SplitAll(p, chunkText, nodes).Ok?
    ensures forall u :: u in SplitAll(p, chunkText, nodes).value && Prose(u) ==> p.count(u.text) <= p.threshold
  {
    if nodes != [] {
      SplitKeepsKind(p, chunkText, nodes[0]);
      ProseFits(p, chunkText, nodes[1..]);
    }
  }

  lemma GroupOverflowsAlone(p: Policy, units: seq<Node>, j: nat)
    requires p.Valid() && j < |Groups(PackBudget(p), units)|
    requires forall u :: u in units && Prose(u) ==> p.count(u.text) <= p.threshold
    ensures OverflowsAlone(p, Groups(PackBudget(p), units)[j])
  {
    var g := Groups(PackBudget(p), units)[j];
    PackingIsAPartition(p, units);
    FlattenMembers(Groups(PackBudget(p), units), j);
    hide Groups, PackBudget;
    assert g != [] && g[0] in units;
  }

  lemma RunOverflowsAlone(p: Policy, chunkText: string -> seq<string>, run: seq<Node>, section: Option<Section>)
    requires p.Valid() && PackRun(p, chunkText, run, section).Ok?
    ensures AllOverflowAlone(p, PackRun(p, chunkText, run, section).value)
  {
    var units := SplitAll(p, chunkText, run).value;
    ProseFits(p, chunkText, run);
    var groups := Groups(PackBudget(p), units);
    TagSpec(section, groups);
    hide OverflowsAlone, SplitAll, Groups;
    forall k | 0 <= k < |groups|
      ensures OverflowsAlone(p, Tag(section, groups)[k].units)
    {
      GroupOverflowsAlone(p, units, k);
      assert Tag(section, groups)[k] == Packed(section, groups[k]);
    }
  }

  /** Whatever else its section holds, prose never overflows: for every document, each packed group over
      the threshold is a single unit that is over it alone, and no paragraph or quote. */
  lemma {:induction false} PackedOverflowsAlone(
    p: Policy, chunkText: string -> seq<string>, nodes: seq<Node>, sections: seq<Section>, run: nat, i: nat)
    requires p.Valid() && Fits(nodes, sections) && run <= i <= |nodes|
    requires PackFrom(p, chunkText, nodes, sections, run, i).Ok?
    ensures AllOverflowAlone(p, PackFrom(p, chunkText, nodes, sections, run, i).value)
    decreases |nodes| - i
  {
    hide PackRun, OverflowsAlone;
    var section := SectionAt(nodes, sections, run);
    if i == |nodes| {
      RunOverflowsAlone(p, chunkText, nodes[run..i], section);
    } else if nodes[i].kind == Heading {
      RunOverflowsAlone(p, chunkText, nodes[run..i], section);
      PackedOverflowsAlone(p, chunkText, nodes, sections, i + 1, i + 1);
    } else {
      PackedOverflowsAlone(p, chunkText, nodes, sections, run, i + 1);
    }
  }

  /** The same of the chunks delivered: one overflows exactly when it was packed from a single unit that
      is over the threshold alone; its text is that unit's, and the unit is no paragraph or quote. */
  lemma {:induction false} OverflowIsNeverProse(
    p: Policy, chunkText: string -> seq<string>, nodes: seq<Node>, sections: seq<Section>,
    r: Result<seq<Chunk>>, k: nat)
    requires p.Valid() && Fits(nodes, sections)
    requires Delivers(p, r, PackFrom(p, chunkText, nodes, sections, 0, 0)) && r.Ok? && k < |r.value|
    ensures
      var packed := PackFrom(p, chunkText, nodes, sections, 0, 0).value;
      && |packed| == |r.value|
      && var units := packed[k].units;
         r.value[k].overflow <==>
           |units| == 1 && p.count(units[0].text) > p.threshold && !Prose(units[0]) && r.value[k].text == units[0].text
  {
    PackedOverflowsAlone(p, chunkText, nodes, sections, 0, 0);
    hide PackFrom, Fits;
    var packed := PackFrom(p, chunkText, nodes, sections, 0, 0).value;
    assert OverflowsAlone(p, packed[k].units);
    assert r.value[k] == BuildChunk(p, packed[k].units, IdIn(packed[k].section), k);
  }
}
