/** Building the section tree from a flat list of headings with a stack of open ancestors. */
module SectionTree {
  import opened Sequences
  import opened Markdown

  /** The digest of (kind, start, end), taken to be injective. */
  datatype SectionId = RootId(start: nat, end: nat) | HeadingId(start: nat, end: nat)

  datatype Section = Section(
    id: SectionId,
    title: string,
    level: int,
    parent: Option<SectionId>,
    ordinal: nat,
    own: Span,
    subtree: Span,
    content: seq<Span>
  )

  /** What the builder reads off a heading. The document root, when present, is entry 0 and has
      level 0. */
  datatype Entry = Entry(root: bool, start: nat, contentFrom: nat, level: int, title: string)

  datatype Outline = Outline(nodes: seq<Node>, textLen: nat, entries: seq<Entry>)

  // ---------------------------------------------------------------------------------------
  // The tree shape, defined on the levels alone
  // ---------------------------------------------------------------------------------------

  /** The last of the first n levels that is below the bound; -1 when there is none. */
  function LastBelow(es: seq<Entry>, bound: int, n: nat): (p: int)
    requires n <= |es|
    ensures -1 <= p < n
  {
    if n == 0 then -1
    else if es[n - 1].level < bound then n - 1
    else LastBelow(es, bound, n - 1)
  }

  /** The first position from n on whose level is at most the bound, or the end. */
  function FirstAtMost(es: seq<Entry>, bound: int, n: nat): (c: nat)
    requires n <= |es|
    ensures n <= c <= |es|
    decreases |es| - n
  {
    if n == |es| || es[n].level <= bound then n
    else FirstAtMost(es, bound, n + 1)
  }

  function Parent(es: seq<Entry>, i: nat): (p: int)
    requires i < |es|
    ensures -1 <= p < i
  {
    LastBelow(es, es[i].level, i)
  }

  /** Where the subtree of i ends; the virtual parent -1 of the top sections never closes. */
  function Close(es: seq<Entry>, i: int): (c: nat)
    requires -1 <= i < |es|
    ensures i < c <= |es|
  {
    if i < 0 then |es| else FirstAtMost(es, es[i].level, i + 1)
  }

  lemma {:induction false} LastBelowSpec(es: seq<Entry>, bound: int, n: nat)
    requires n <= |es|
    ensures var p := LastBelow(es, bound, n);
            && (p >= 0 ==> es[p].level < bound)
            && (forall k :: p < k < n ==> es[k].level >= bound)
  {
    if n > 0 && es[n - 1].level >= bound { LastBelowSpec(es, bound, n - 1); }
  }

  lemma {:induction false} FirstAtMostSpec(es: seq<Entry>, bound: int, n: nat)
    requires n <= |es|
    ensures var c := FirstAtMost(es, bound, n);
            && (c < |es| ==> es[c].level <= bound)
            && (forall k :: n <= k < c ==> es[k].level > bound)
    decreases |es| - n
  {
    if n < |es| && es[n].level > bound { FirstAtMostSpec(es, bound, n + 1); }
  }

  /** The parent is the nearest earlier heading of strictly smaller level. */
  lemma ParentSpec(es: seq<Entry>, i: nat)
    requires i < |es|
    ensures var p := Parent(es, i);
            && (p >= 0 ==> es[p].level < es[i].level)
            && (forall k :: p < k < i ==> es[k].level >= es[i].level)
  {
    LastBelowSpec(es, es[i].level, i);
  }

  /** The subtree ends at the next heading that is not deeper, else at the end. */
  lemma CloseSpec(es: seq<Entry>, i: nat)
    requires i < |es|
    ensures var c := Close(es, i);
            && (c < |es| ==> es[c].level <= es[i].level)
            && (forall k :: i < k < c ==> es[k].level > es[i].level)
  {
    FirstAtMostSpec(es, es[i].level, i + 1);
  }

  /** How many of the first n positions have parent p. */
  function ChildCount(es: seq<Entry>, p: int, n: nat): nat
    requires n <= |es|
  {
    if n == 0 then 0
    else ChildCount(es, p, n - 1) + if Parent(es, n - 1) == p then 1 else 0
  }

  function Depth(es: seq<Entry>, i: nat): (d: nat)
    requires i < |es|
    ensures d >= 1
  {
    if Parent(es, i) < 0 then 1 else 1 + Depth(es, Parent(es, i))
  }

  // ---------------------------------------------------------------------------------------
  // The section at each entry
  // ---------------------------------------------------------------------------------------

  /** Where entry i begins; past the last entry, the end of the text. */
  function Boundary(o: Outline, i: nat): nat
    requires i <= |o.entries|
  {
    if i < |o.entries| then o.entries[i].start else o.textLen
  }

  function IdOf(o: Outline, i: nat): SectionId
    requires i < |o.entries|
  {
    var e := o.entries[i];
    if e.root then RootId(e.start, Boundary(o, i + 1)) else HeadingId(e.start, Boundary(o, i + 1))
  }

  function ParentId(o: Outline, p: int): Option<SectionId>
    requires -1 <= p < |o.entries|
  {
    if p < 0 then None else Some(IdOf(o, p))
  }

  /** The spans of the content nodes lying inside [from, to]. */
  function ContentSpans(nodes: seq<Node>, from: nat, to: nat): (r: seq<Span>)
  {
    if nodes == [] then []
    else
      var n := nodes[0];
      (if n.kind != Heading && !Blank(n.text) && n.span.Some?
          && from <= n.span.value.start && n.span.value.end <= to
       then [n.span.value] else [])
      + ContentSpans(nodes[1..], from, to)
  }

  /** Where the subtree of i ends as far as the first n entries tell: at the first later entry
      among them that is not deeper. */
  function EndAt(o: Outline, i: nat, n: int): nat
    requires i < |o.entries|
  {
    if Close(o.entries, i) < n then Boundary(o, Close(o.entries, i)) else o.textLen
  }

  /** Section i once the first n entries have been seen. */
  function PartialSection(o: Outline, i: nat, closedBefore: int): Section
    requires i < |o.entries|
  {
    var e := o.entries[i];
    var p := Parent(o.entries, i);
    Section(
      IdOf(o, i), e.title, e.level, ParentId(o, p), ChildCount(o.entries, p, i),
      Span(e.start, Boundary(o, i + 1)),
      Span(e.start, EndAt(o, i, closedBefore)),
      ContentSpans(o.nodes, e.contentFrom, Boundary(o, i + 1)))
  }

  function SectionOf(o: Outline, i: nat): Section
    requires i < |o.entries|
  {
    PartialSection(o, i, |o.entries|)
  }

  function Sections(o: Outline): (r: seq<Section>)
    ensures |r| == |o.entries|
    ensures forall i :: 0 <= i < |r| ==> r[i] == SectionOf(o, i)
  {
    seq(|o.entries|, i requires 0 <= i < |o.entries| => SectionOf(o, i))
  }

  // ---------------------------------------------------------------------------------------
  // What the parser promises, and the entries it gives rise to
  // ---------------------------------------------------------------------------------------

  /** Headings are located, have a level of at least one, lie inside the text and begin in
      strictly increasing order. */
  ghost predicate ParsedHeadings(hs: seq<Node>, textLen: nat) {
    && (forall i :: 0 <= i < |hs| ==> hs[i].span.Some? && hs[i].level >= 1 && hs[i].span.value.start <= textLen)
    && (forall i, j :: 0 <= i < j < |hs| ==> hs[i].span.value.start < hs[j].span.value.start)
  }

  function HeadingEntries(hs: seq<Node>): (r: seq<Entry>)
    requires forall i :: 0 <= i < |hs| ==> hs[i].span.Some?
    ensures |r| == |hs|
  {
    seq(|hs|, i requires 0 <= i < |hs| => EntryOf(hs[i]))
  }

  function EntryOf(heading: Node): Entry
    requires heading.span.Some?
  {
    Entry(false, heading.span.value.start, heading.span.value.end, heading.level, heading.title)
  }

  const DOCUMENT_START := "文档开头"

  /** The root exists when something precedes the first heading or the document has a title. */
  function RootEntry(nodes: seq<Node>, first: nat, rootTitle: string): (r: seq<Entry>)
    ensures |r| <= 1
    ensures r != [] ==> r[0].root && r[0].start == 0 && r[0].contentFrom == 0 && r[0].level == 0
  {
    if ContentSpans(nodes, 0, first) != [] || rootTitle != "" then
      [Entry(true, 0, 0, 0, if rootTitle != "" then rootTitle + "<" + DOCUMENT_START + ">" else DOCUMENT_START)]
    else []
  }

  function OutlineOf(nodes: seq<Node>, textLen: nat, rootTitle: string): Outline
    requires Headings(nodes) != []
    requires forall h :: h in Headings(nodes) ==> h.span.Some?
  {
    var hs := Headings(nodes);
    Outline(nodes, textLen, RootEntry(nodes, hs[0].span.value.start, rootTitle) + HeadingEntries(hs))
  }

  /** A level-0 root can only be the first entry; the others have positive levels and begin in
      strictly increasing order. */
  ghost predicate WellFormed(o: Outline) {
    && (forall i :: 0 <= i < |o.entries| ==>
         if o.entries[i].root then o.entries[i].level == 0 else o.entries[i].level >= 1)
    && (forall i :: 1 <= i < |o.entries| ==> !o.entries[i].root)
    && (forall i, j :: 0 <= i < j < |o.entries| && !o.entries[i].root ==> o.entries[i].start < o.entries[j].start)
    && (forall i :: 0 <= i < |o.entries| ==> o.entries[i].start <= o.textLen)
    && (|o.entries| > 0 && o.entries[0].root ==> o.entries[0].start == 0)
  }

  lemma OutlineOfIsWellFormed(nodes: seq<Node>, textLen: nat, rootTitle: string)
    requires Headings(nodes) != [] && ParsedHeadings(Headings(nodes), textLen)
    ensures WellFormed(OutlineOf(nodes, textLen, rootTitle))
  {
    var hs := Headings(nodes);
    JoinedIsWellFormed(RootEntry(nodes, hs[0].span.value.start, rootTitle), hs, nodes, textLen);
  }

  lemma JoinedIsWellFormed(root: seq<Entry>, hs: seq<Node>, nodes: seq<Node>, textLen: nat)
    requires ParsedHeadings(hs, textLen) && |root| <= 1
    requires root != [] ==> root[0].root && root[0].start == 0 && root[0].level == 0
    ensures WellFormed(Outline(nodes, textLen, root + HeadingEntries(hs)))
  {
    var es := root + HeadingEntries(hs);
    assert forall i :: |root| <= i < |es| ==> es[i] == EntryOf(hs[i - |root|]);
  }

  /** Section identities are pairwise distinct. */
  lemma IdsAreDistinct(o: Outline, i: nat, j: nat)
    requires WellFormed(o) && i < |o.entries| && j < |o.entries|
    requires IdOf(o, i) == IdOf(o, j)
    ensures i == j
  {
  }

  // ---------------------------------------------------------------------------------------
  // The stack algorithm
  // ---------------------------------------------------------------------------------------

  /** The open ancestors when p is the innermost one: p, its parent, and so on, without the
      document root, outermost first. */
  function OpenChain(es: seq<Entry>, base: nat, p: int): (r: seq<nat>)
    requires -1 <= p < |es|
    ensures p >= base <==> r != []
    ensures r != [] ==> r[|r| - 1] == p
    decreases p + 1
  {
    if p < base then [] else OpenChain(es, base, Parent(es, p)) + [p]
  }

  /** Entry i is read: close every open section that is not shallower. */
  method CloseFinishedSections(ghost o: Outline, ghost base: nat, ghost i: nat,
                               sections0: seq<Section>, openIndexes0: seq<nat>, level: int, start: nat)
    returns (sections: seq<Section>, openIndexes: seq<nat>)
    requires base <= i < |o.entries| && |sections0| == i
    requires level == o.entries[i].level && start == o.entries[i].start
    requires forall k :: 0 <= k < base ==> o.entries[k].level < level
    requires forall k {:trigger sections0[k]} :: 0 <= k < i ==>
      sections0[k].level == o.entries[k].level && sections0[k].subtree.end == EndAt(o, k, i)
    requires openIndexes0 == OpenChain(o.entries, base, i - 1)
    ensures |sections| == i
    ensures forall k {:trigger sections[k]} :: 0 <= k < i ==> sections[k] == EndingAt(sections0[k], EndAt(o, k, i + 1))
    ensures openIndexes == OpenChain(o.entries, base, Parent(o.entries, i))
  {
    hide Closing, Parent, OpenChain, EndAt;
    sections, openIndexes := sections0, openIndexes0;
    ghost var p := i - 1;
    ClosingStarts(o, base, i, sections0);
    while openIndexes != [] && sections[openIndexes[|openIndexes| - 1]].level >= level
      invariant Closing(o, base, i, sections0, sections, p)
      invariant -1 <= p < i == |sections|
      invariant openIndexes == OpenChain(o.entries, base, p)
      decreases p
    {
      var closedIndex := openIndexes[|openIndexes| - 1];
      var closed := sections[closedIndex];
      openIndexes := openIndexes[..|openIndexes| - 1];
      OpenLevel(o, base, i, sections0, sections, p);
      ClosingGoesOn(o, base, i, sections0, sections, p);
      ChainGrows(o.entries, base, p);
      sections := sections[closedIndex := closed.(subtree := Span(closed.subtree.start, start))];
      p := Parent(o.entries, p);
    }
    if p >= base { OpenLevel(o, base, i, sections0, sections, p); }
    ClosingEnds(o, base, i, sections0, sections, p);
  }

  /** Of the sections before entry i those after p are closed, none of them shallower than entry i. */
  ghost predicate Closing(o: Outline, base: nat, i: nat, sections0: seq<Section>, sections: seq<Section>, p: int)
    requires base <= i < |o.entries|
  {
    && |sections| == |sections0| == i && base - 1 <= p < i
    && (forall k :: p < k < i ==> o.entries[k].level >= o.entries[i].level)
    && (p >= base ==> forall k :: p < k < i ==> o.entries[k].level > o.entries[p].level)
    && (forall k {:trigger sections[k]} :: 0 <= k <= p ==> sections[k] == sections0[k])
    && (forall k {:trigger sections[k]} :: p < k < i ==> sections[k] == EndingAt(sections0[k], EndAt(o, k, i + 1)))
  }

  lemma ClosingStarts(o: Outline, base: nat, i: nat, sections0: seq<Section>)
    requires base <= i < |o.entries| && |sections0| == i
    ensures Closing(o, base, i, sections0, sections0, i - 1)
  {
  }

  lemma OpenLevel(o: Outline, base: nat, i: nat, sections0: seq<Section>, sections: seq<Section>, p: int)
    requires base <= i < |o.entries| && Closing(o, base, i, sections0, sections, p) && p >= 0
    ensures sections[p] == sections0[p]
  {
  }

  lemma ClosingGoesOn(o: Outline, base: nat, i: nat, sections0: seq<Section>, sections: seq<Section>, p: int)
    requires base <= i < |o.entries| && Closing(o, base, i, sections0, sections, p)
    requires p >= base && o.entries[p].level >= o.entries[i].level
    requires forall k :: 0 <= k < base ==> o.entries[k].level < o.entries[i].level
    requires forall k {:trigger sections0[k]} :: 0 <= k < i ==> sections0[k].subtree.end == EndAt(o, k, i)
    ensures
      var closed := sections[p := EndingAt(sections[p], o.entries[i].start)];
      Closing(o, base, i, sections0, closed, Parent(o.entries, p))
  {
    var up := Parent(o.entries, p);
    CloseIs(o.entries, p, i);
    ParentSpec(o.entries, p);
    EarlierSiblingsAreClosed(o, p, i);
    assert base > 0 ==> o.entries[base - 1].level < o.entries[p].level;
    assert EndAt(o, p, i + 1) == o.entries[i].start;
    hide Parent, Close, EndAt;
    var closed := sections[p := EndingAt(sections[p], o.entries[i].start)];
    forall k {:trigger closed[k]} | up < k < i
      ensures closed[k] == EndingAt(sections0[k], EndAt(o, k, i + 1))
    {
      if k < p { assert sections[k] == sections0[k]; } else if k > p { assert sections[k] == closed[k]; }
    }
  }

  lemma ClosingEnds(o: Outline, base: nat, i: nat, sections0: seq<Section>, sections: seq<Section>, p: int)
    requires base <= i < |o.entries| && Closing(o, base, i, sections0, sections, p)
    requires p >= base ==> o.entries[p].level < o.entries[i].level
    requires forall k :: 0 <= k < base ==> o.entries[k].level < o.entries[i].level
    requires forall k {:trigger sections0[k]} :: 0 <= k < i ==> sections0[k].subtree.end == EndAt(o, k, i)
    ensures Parent(o.entries, i) == p
    ensures forall k {:trigger sections[k]} :: 0 <= k < i ==> sections[k] == EndingAt(sections0[k], EndAt(o, k, i + 1))
  {
    hide Parent, Close, EndAt;
    NoneClosesBelow(o, p, i);
    ParentIs(o.entries, i, p);
  }

  function EndingAt(s: Section, end: nat): Section {
    s.(subtree := Span(s.subtree.start, end))
  }

  lemma ParentIs(es: seq<Entry>, i: nat, p: int)
    requires -1 <= p < i < |es|
    requires p >= 0 ==> es[p].level < es[i].level
    requires forall k :: p < k < i ==> es[k].level >= es[i].level
    ensures Parent(es, i) == p
  {
    ParentSpec(es, i);
  }

  method BuildHeadingSections(nodes: seq<Node>, textLen: nat, rootTitle: string)
    returns (sections: seq<Section>)
    requires Headings(nodes) != [] && ParsedHeadings(Headings(nodes), textLen)
    ensures sections == Sections(OutlineOf(nodes, textLen, rootTitle))
  {
    var headings := Headings(nodes);
    var first := headings[0].span.value.start;
    ghost var o := OutlineOf(nodes, textLen, rootTitle);
    OutlineOfIsWellFormed(nodes, textLen, rootTitle);
    hide WellFormed;

    var rootContent := ContentSpans(nodes, 0, first);
    var root: Option<Section> := None;
    if rootContent != [] || rootTitle != "" {
      var name := if rootTitle != "" then rootTitle + "<" + DOCUMENT_START + ">" else DOCUMENT_START;
      root := Some(Section(RootId(0, first), name, 0, None, 0, Span(0, first), Span(0, textLen), rootContent));
    }
    sections := AppendHeadingSections(o, nodes, textLen, headings, root);
  }

  /** The loop over the headings, after the root. */
  method AppendHeadingSections(ghost o: Outline, nodes: seq<Node>, textLen: nat,
                               headings: seq<Node>, root: Option<Section>)
    returns (sections: seq<Section>)
    requires WellFormed(o) && o.nodes == nodes && o.textLen == textLen
    requires forall h :: h in headings ==> h.span.Some?
    requires RootAndHeadings(o, headings, root)
    ensures sections == Sections(o)
  {
    hide WellFormed, PartialSection, ChildCount, RootAndHeadings, Counted;
    RootAlone(o, headings, root);
    sections := if root.Some? then [root.value] else [];
    ghost var base := |sections|;
    var openIndexes: seq<nat> := [];
    var childCounts: map<Option<SectionId>, nat> := map[];
    var h := 0;
    while h < |headings|
      invariant h <= |headings| && |sections| == base + h
      invariant Partial(o, sections, base + h)
      invariant openIndexes == OpenChain(o.entries, base, base + h - 1)
      invariant Counted(o, base, childCounts, base + h)
    {
      HeadingEntry(o, headings, root, h);
      var ownEnd := if h + 1 < |headings| then headings[h + 1].span.value.start else textLen;
      sections, openIndexes, childCounts :=
        AppendHeading(o, base, nodes, textLen, headings[h], ownEnd, root, sections, openIndexes, childCounts);
      h := h + 1;
    }
    assert sections == Sections(o) by {
      forall k | 0 <= k < |sections| ensures sections[k] == SectionOf(o, k) {
        assert sections[k] == PartialSection(o, k, |o.entries|);
      }
    }
  }

  ghost predicate RootAndHeadings(o: Outline, headings: seq<Node>, root: Option<Section>)
    requires forall h :: h in headings ==> h.span.Some?
  {
    var base := if root.Some? then 1 else 0;
    && |o.entries| == base + |headings|
    && (forall i :: base <= i < |o.entries| ==> o.entries[i] == EntryOf(headings[i - base]))
    && (root.Some? ==> o.entries[0].root && root.value == PartialSection(o, 0, 1))
  }

  lemma HeadingEntry(o: Outline, headings: seq<Node>, root: Option<Section>, h: nat)
    requires forall n :: n in headings ==> n.span.Some?
    requires RootAndHeadings(o, headings, root) && h < |headings|
    ensures var i := (if root.Some? then 1 else 0) + h;
      && i < |o.entries| && o.entries[i] == EntryOf(headings[h])
      && Boundary(o, i + 1) == if h + 1 < |headings| then headings[h + 1].span.value.start else o.textLen
    ensures root.Some? ==> o.entries[0].root && root.value.id == IdOf(o, 0)
  {
    var i := (if root.Some? then 1 else 0) + h;
    assert h + 1 < |headings| ==> o.entries[i + 1] == EntryOf(headings[h + 1]);
  }

  lemma RootAlone(o: Outline, headings: seq<Node>, root: Option<Section>)
    requires forall n :: n in headings ==> n.span.Some?
    requires RootAndHeadings(o, headings, root)
    ensures var base := if root.Some? then 1 else 0;
      && |o.entries| == base + |headings|
      && Partial(o, if root.Some? then [root.value] else [], base)
      && Counted(o, base, map[], base)
  {
  }

  /** One round of the loop: close, find the parent, number the child, append. */
  method AppendHeading(ghost o: Outline, ghost base: nat, nodes: seq<Node>, textLen: nat,
                       heading: Node, ownEnd: nat, root: Option<Section>,
                       sections0: seq<Section>, openIndexes0: seq<nat>,
                       childCounts0: map<Option<SectionId>, nat>)
    returns (sections: seq<Section>, openIndexes: seq<nat>, childCounts: map<Option<SectionId>, nat>)
    requires WellFormed(o) && o.nodes == nodes && o.textLen == textLen
    requires base == (if root.Some? then 1 else 0) <= |sections0| < |o.entries|
    requires root.Some? ==> o.entries[0].root && root.value.id == IdOf(o, 0)
    requires heading.span.Some? && o.entries[|sections0|] == EntryOf(heading)
    requires ownEnd == Boundary(o, |sections0| + 1)
    requires Partial(o, sections0, |sections0|)
    requires openIndexes0 == OpenChain(o.entries, base, |sections0| - 1)
    requires Counted(o, base, childCounts0, |sections0|)
    ensures |sections| == |sections0| + 1 && Partial(o, sections, |sections|)
    ensures openIndexes == OpenChain(o.entries, base, |sections0|)
    ensures Counted(o, base, childCounts, |sections|)
  {
    hide WellFormed, Counted, Partial, ChildCount, ContentSpans, Parent, OpenChain, EndAt, EndingAt, ParentId, Boundary;
    var start := heading.span.value.start;
    ghost var i := |sections0|;
    ghost var p := Parent(o.entries, i);
    ParentIsOnTop(o, base, i);
    Agrees(o, sections0, i);
    sections, openIndexes := CloseFinishedSections(o, base, i, sections0, openIndexes0, heading.level, start);
    Advance(o, sections0, sections, i);

    var parent := if openIndexes != [] then Some(sections[openIndexes[|openIndexes| - 1]]) else root;
    var parentId := if parent.Some? then Some(parent.value.id) else None;
    if p >= base { KeepsId(o, sections, i + 1, p); }
    ParentIdIs(o, p);
    assert parentId == ParentId(o, p);
    ChainGrows(o.entries, base, i);
    CountOne(o, base, childCounts0, i);
    var ordinal := Get(childCounts0, parentId);
    childCounts := childCounts0[parentId := ordinal + 1];
    assert Counted(o, base, childCounts, i + 1);

    var section := Section(HeadingId(start, ownEnd), heading.title, heading.level, parentId, ordinal,
                           Span(start, ownEnd), Span(start, textLen),
                           ContentSpans(nodes, heading.span.value.end, ownEnd));
    IncludeLast(o, sections, section);
    sections := sections + [section];
    openIndexes := openIndexes + [|sections| - 1];
  }

  lemma ParentIdIs(o: Outline, p: int)
    requires -1 <= p < |o.entries|
    ensures ParentId(o, p) == if p < 0 then None else Some(IdOf(o, p))
  {
  }

  lemma ChainGrows(es: seq<Entry>, base: nat, i: nat)
    requires base <= i < |es|
    ensures OpenChain(es, base, i) == OpenChain(es, base, Parent(es, i)) + [i]
  {
  }

  /** The sections built from the first n entries. */
  ghost predicate Partial(o: Outline, sections: seq<Section>, n: nat)
    requires |sections| <= |o.entries|
  {
    forall k {:trigger sections[k]} :: 0 <= k < |sections| ==> sections[k] == PartialSection(o, k, n)
  }

  lemma Agrees(o: Outline, sections: seq<Section>, i: nat)
    requires |sections| <= |o.entries| && Partial(o, sections, i)
    ensures forall k {:trigger sections[k]} :: 0 <= k < |sections| ==>
      sections[k].level == o.entries[k].level && sections[k].subtree.end == EndAt(o, k, i)
  {
  }

  lemma Advance(o: Outline, before: seq<Section>, after: seq<Section>, i: nat)
    requires |before| == |after| <= |o.entries| && Partial(o, before, i)
    requires forall k {:trigger after[k]} :: 0 <= k < |after| ==> after[k] == EndingAt(before[k], EndAt(o, k, i + 1))
    ensures Partial(o, after, i + 1)
  {
  }

  lemma KeepsId(o: Outline, sections: seq<Section>, n: nat, k: nat)
    requires k < |sections| <= |o.entries| && Partial(o, sections, n)
    ensures sections[k].id == IdOf(o, k)
  {
  }

  /** A section just opened runs to the end of the text for now. */
  lemma IncludeLast(o: Outline, sections: seq<Section>, section: Section)
    requires |sections| < |o.entries| && Partial(o, sections, |sections| + 1)
    requires var i := |sections|;
      var p := Parent(o.entries, i);
      var e := o.entries[i];
      section == Section(IdOf(o, i), e.title, e.level, ParentId(o, p), ChildCount(o.entries, p, i),
                         Span(e.start, Boundary(o, i + 1)), Span(e.start, o.textLen),
                         ContentSpans(o.nodes, e.contentFrom, Boundary(o, i + 1)))
    ensures Partial(o, sections + [section], |sections| + 1)
  {
  }

  /** With a root present no heading is parentless. */
  lemma ParentIsOnTop(o: Outline, base: nat, i: nat)
    requires WellFormed(o) && base <= 1 && base <= i < |o.entries|
    requires base == 1 ==> o.entries[0].root
    ensures base - 1 <= Parent(o.entries, i)
    ensures base == 1 ==> o.entries[0].level < o.entries[i].level && !o.entries[i].root
  {
    ParentSpec(o.entries, i);
    assert base == 1 ==> o.entries[0].level < o.entries[i].level;
  }

  function Get(counts: map<Option<SectionId>, nat>, id: Option<SectionId>): nat {
    if id in counts then counts[id] else 0
  }

  /** The per-parent counters after the first n entries, of which the first base are the root. */
  ghost predicate Counted(o: Outline, base: nat, counts: map<Option<SectionId>, nat>, n: nat)
    requires base <= n <= |o.entries|
  {
    forall p {:trigger ParentId(o, p)} :: -1 <= p < |o.entries| ==>
      Get(counts, ParentId(o, p)) == ChildCount(o.entries, p, n) - ChildCount(o.entries, p, base)
  }

  lemma CountOne(o: Outline, base: nat, counts: map<Option<SectionId>, nat>, i: nat)
    requires WellFormed(o) && base <= i < |o.entries| && base <= 1
    requires base == 1 ==> o.entries[0].root
    requires Counted(o, base, counts, i)
    ensures var p := Parent(o.entries, i);
            && Get(counts, ParentId(o, p)) == ChildCount(o.entries, p, i)
            && Counted(o, base, counts[ParentId(o, p) := Get(counts, ParentId(o, p)) + 1], i + 1)
  {
    var p := Parent(o.entries, i);
    ParentSpec(o.entries, i);
    assert base == 1 ==> o.entries[0].level < o.entries[i].level;
    assert ChildCount(o.entries, p, base) == 0 by {
      if base == 1 { assert Parent(o.entries, 0) == -1; assert ChildCount(o.entries, p, 0) == 0; }
    }
    forall q | -1 <= q < |o.entries| && q != p ensures ParentId(o, q) != ParentId(o, p) {
      if q >= 0 && p >= 0 && ParentId(o, q) == ParentId(o, p) { IdsAreDistinct(o, q, p); }
    }
  }

  lemma CloseIs(es: seq<Entry>, p: nat, c: nat)
    requires p < c <= |es|
    requires c < |es| ==> es[c].level <= es[p].level
    requires forall k :: p < k < c ==> es[k].level > es[p].level
    ensures Close(es, p) == c
  {
    CloseSpec(es, p);
  }

  lemma EarlierSiblingsAreClosed(o: Outline, p: nat, i: nat)
    requires p < i < |o.entries|
    ensures forall k :: Parent(o.entries, p) < k < p ==> EndAt(o, k, i) == EndAt(o, k, i + 1)
  {
    forall k | Parent(o.entries, p) < k < p ensures Close(o.entries, k) <= p {
      ParentSpec(o.entries, p);
      CloseSpec(o.entries, k);
    }
  }

  lemma NoneClosesBelow(o: Outline, p: int, i: nat)
    requires -1 <= p < i < |o.entries|
    requires p >= 0 ==> o.entries[p].level < o.entries[i].level
    ensures forall k :: 0 <= k <= p ==> EndAt(o, k, i) == EndAt(o, k, i + 1)
  {
    forall k | 0 <= k <= p ensures Close(o.entries, k) != i {
      CloseSpec(o.entries, k);
    }
  }
}
