/** What the section tree promises: nearest smaller heading as parent, nested subtrees, tiling own
    spans, and sibling ordinals counted from zero. */
module SectionLaws {
  import opened Sequences
  import opened Markdown
  import opened SectionTree

  /** A subtree either ends before a later section begins or contains that section's subtree. */
  lemma SubtreesNest(es: seq<Entry>, i: nat, j: nat)
    requires i < j < |es|
    ensures j < Close(es, i) ==> Close(es, j) <= Close(es, i)
    ensures j < Close(es, i) <==> forall k :: i < k <= j ==> es[k].level > es[i].level
  {
    CloseSpec(es, i);
    CloseSpec(es, j);
  }

  /** Inside the subtree of c every other section has its parent in that subtree too. */
  lemma ParentStaysInside(es: seq<Entry>, c: int, m: nat)
    requires -1 <= c < |es| && c < m < Close(es, c)
    ensures c <= Parent(es, m)
  {
    ParentSpec(es, m);
    if c >= 0 { CloseSpec(es, c); }
  }

  lemma ChildLiesInParent(es: seq<Entry>, j: nat)
    requires j < |es| && Parent(es, j) >= 0
    ensures Parent(es, j) < j < Close(es, Parent(es, j))
    ensures Close(es, j) <= Close(es, Parent(es, j))
  {
    ParentSpec(es, j);
    CloseSpec(es, Parent(es, j));
    SubtreesNest(es, Parent(es, j), j);
  }

  /** The stack's answer in the builder's own terms: the parent is the nearest earlier section of
      strictly smaller level, and the subtree runs to the next section that is not deeper. */
  lemma StackCorrectness(o: Outline, i: nat) returns (p: int, c: nat)
    requires i < |o.entries|
    ensures var ss := Sections(o);
      && ss[i].own.start == o.entries[i].start == ss[i].subtree.start
      && -1 <= p < i < c <= |ss|
      && ss[i].parent == (if p < 0 then None else Some(ss[p].id))
      && (p >= 0 ==> ss[p].level < ss[i].level)
      && (forall k :: p < k < i ==> ss[k].level >= ss[i].level)
      && ss[i].subtree.end == (if c < |ss| then ss[c].own.start else o.textLen)
      && (c < |ss| ==> ss[c].level <= ss[i].level)
      && forall k :: i < k < c ==> ss[k].level > ss[i].level
  {
    p, c := Parent(o.entries, i), Close(o.entries, i);
    ParentSpec(o.entries, i);
    CloseSpec(o.entries, i);
  }

  lemma BoundariesGrow(o: Outline, i: nat, j: nat)
    requires WellFormed(o) && i <= j <= |o.entries|
    ensures Boundary(o, i) <= Boundary(o, j)
  {
  }

  /** Subtree spans of two sections are disjoint or nested; a child's lies in its parent's. */
  lemma SubtreeSpansNest(o: Outline, i: nat, j: nat)
    requires WellFormed(o) && i < j < |o.entries|
    ensures var a, b := Sections(o)[i].subtree, Sections(o)[j].subtree;
            a.end <= b.start || (a.start <= b.start && b.end <= a.end)
    ensures Sections(o)[j].parent == Some(Sections(o)[i].id) ==>
              Sections(o)[j].subtree.end <= Sections(o)[i].subtree.end
  {
    var ci, cj := Close(o.entries, i), Close(o.entries, j);
    SubtreesNest(o.entries, i, j);
    BoundariesGrow(o, i, j);
    if ci <= j { BoundariesGrow(o, ci, j); } else { BoundariesGrow(o, cj, ci); }
    var p := Parent(o.entries, j);
    if Sections(o)[j].parent == Some(Sections(o)[i].id) {
      assert IdOf(o, p) == IdOf(o, i);
      IdsAreDistinct(o, p, i);
      ChildLiesInParent(o.entries, j);
    }
  }

  /** Own spans tile the text from the first section on. */
  lemma OwnSpansTile(o: Outline, i: nat)
    requires WellFormed(o) && i < |o.entries|
    ensures var ss := Sections(o);
      && ss[i].own.start <= ss[i].own.end <= o.textLen
      && ss[i].own.end == (if i + 1 < |ss| then ss[i + 1].own.start else o.textLen)
  {
    BoundariesGrow(o, i, i + 1);
    BoundariesGrow(o, i + 1, |o.entries|);
  }

  lemma {:induction false} ChildCountGrows(es: seq<Entry>, p: int, i: nat, j: nat)
    requires i <= j <= |es|
    ensures ChildCount(es, p, i) <= ChildCount(es, p, j)
    ensures i < j && Parent(es, i) == p ==> ChildCount(es, p, i) < ChildCount(es, p, j)
    decreases j
  {
    if i < j { ChildCountGrows(es, p, i, j - 1); }
  }

  /** Siblings are numbered in document order... */
  lemma OrdinalsIncrease(o: Outline, i: nat, j: nat)
    requires WellFormed(o) && i < j < |o.entries|
    requires Sections(o)[i].parent == Sections(o)[j].parent
    ensures Sections(o)[i].ordinal < Sections(o)[j].ordinal
  {
    var p, q := Parent(o.entries, i), Parent(o.entries, j);
    assert ParentId(o, p) == ParentId(o, q);
    if p >= 0 && q >= 0 { IdsAreDistinct(o, p, q); }
    ChildCountGrows(o.entries, p, i, j);
  }

  /** ...and without gaps: every number below the count of children is some child's ordinal. */
  lemma {:induction false} OrdinalsAreDense(o: Outline, p: int, n: nat, m: nat) returns (i: nat)
    requires -1 <= p < |o.entries| && n <= |o.entries| && m < ChildCount(o.entries, p, n)
    ensures i < n && Sections(o)[i].parent == ParentId(o, p) && Sections(o)[i].ordinal == m
  {
    if Parent(o.entries, n - 1) == p && ChildCount(o.entries, p, n - 1) == m {
      i := n - 1;
    } else {
      i := OrdinalsAreDense(o, p, n - 1, m);
    }
  }

  /** Counted from zero: below a section's ordinal every number is that of an earlier sibling. */
  lemma OrdinalsStartAtZero(o: Outline, i: nat, m: nat) returns (j: nat)
    requires i < |o.entries| && m < Sections(o)[i].ordinal
    ensures j < i && Sections(o)[j].parent == Sections(o)[i].parent && Sections(o)[j].ordinal == m
  {
    j := OrdinalsAreDense(o, Parent(o.entries, i), i, m);
  }

  // ---------------------------------------------------------------------------------------
  // The fields of a built section, read off the document
  // ---------------------------------------------------------------------------------------

  /** A node with text and a place in the source, inside the given range. */
  predicate Within(n: Node, from: nat, to: nat) {
    n.kind != Heading && !Blank(n.text) && n.span.Some? && from <= n.span.value.start && n.span.value.end <= to
  }

  /** The spans are those of the nodes within the range, in document order. */
  ghost predicate AreSpansWithin(spans: seq<Span>, nodes: seq<Node>, from: nat, to: nat) {
    var inside := Filter(nodes, (n: Node) => Within(n, from, to));
    && |spans| == |inside|
    && forall i {:trigger spans[i]} :: 0 <= i < |spans| ==> inside[i].span == Some(spans[i])
  }

  lemma {:induction false} ContentIs(nodes: seq<Node>, from: nat, to: nat)
    ensures AreSpansWithin(ContentSpans(nodes, from, to), nodes, from, to)
  {
    if nodes != [] {
      ContentIs(nodes[1..], from, to);
      FilterFirst(nodes, (n: Node) => Within(n, from, to));
      hide Blank, Filter;
    }
  }

  /** The section of heading number k: identified by and reaching from its start to the next heading or the
      end of the text, with the heading's title and level, and as content what stands behind the heading. */
  lemma HeadingSection(nodes: seq<Node>, textLen: nat, rootTitle: string, k: nat)
    requires Headings(nodes) != [] && ParsedHeadings(Headings(nodes), textLen) && k < |Headings(nodes)|
    ensures
      var hs, ss := Headings(nodes), Sections(OutlineOf(nodes, textLen, rootTitle));
      |hs| <= |ss| <= |hs| + 1
      && var s, place := ss[|ss| - |hs| + k], hs[k].span.value;
         var end := if k + 1 < |hs| then hs[k + 1].span.value.start else textLen;
         && s.id == HeadingId(place.start, end) && s.title == hs[k].title && s.level == hs[k].level
         && s.own == Span(place.start, end) && s.subtree.start == place.start
         && AreSpansWithin(s.content, nodes, place.end, end)
  {
    var hs, o := Headings(nodes), OutlineOf(nodes, textLen, rootTitle);
    var root := RootEntry(nodes, hs[0].span.value.start, rootTitle);
    assert o.entries == root + HeadingEntries(hs);
    ContentIs(nodes, hs[k].span.value.end, if k + 1 < |hs| then hs[k + 1].span.value.start else textLen);
    hide ContentSpans, Headings, RootEntry, AreSpansWithin, OutlineOf, SectionOf, HeadingEntries;
    HeadingFields(o, root, hs, k, |root| + k);
  }

  lemma HeadingFields(o: Outline, root: seq<Entry>, hs: seq<Node>, k: nat, i: nat)
    requires ParsedHeadings(hs, o.textLen) && k < |hs| && i == |root| + k
    requires o.entries == root + HeadingEntries(hs)
    ensures
      var s, place := Sections(o)[i], hs[k].span.value;
      var end := if k + 1 < |hs| then hs[k + 1].span.value.start else o.textLen;
      && s.id == HeadingId(place.start, end) && s.title == hs[k].title && s.level == hs[k].level
      && s.own == Span(place.start, end) && s.subtree.start == place.start
      && s.content == ContentSpans(o.nodes, place.end, end)
  {
    hide ContentSpans;
    assert o.entries[i] == EntryOf(hs[k]);
    assert k + 1 < |hs| ==> o.entries[i + 1] == EntryOf(hs[k + 1]);
    assert Sections(o)[i] == SectionOf(o, i);
  }

  /** A root stands first exactly when the document has a title or something before its first heading; it
      reaches up to that heading, and its subtree over the whole text. */
  lemma RootSection(nodes: seq<Node>, textLen: nat, rootTitle: string)
    requires Headings(nodes) != [] && ParsedHeadings(Headings(nodes), textLen)
    ensures
      var hs, ss := Headings(nodes), Sections(OutlineOf(nodes, textLen, rootTitle));
      var first := hs[0].span.value.start;
      && (|ss| > |hs| <==> rootTitle != "" || exists n :: n in nodes && Within(n, 0, first))
      && (|ss| > |hs| ==>
            && ss[0].id == RootId(0, first) && ss[0].level == 0 && ss[0].parent == None && ss[0].ordinal == 0
            && ss[0].title == (if rootTitle == "" then "文档开头" else rootTitle + "<文档开头>")
            && ss[0].own == Span(0, first) && ss[0].subtree == Span(0, textLen)
            && AreSpansWithin(ss[0].content, nodes, 0, first))
  {
    var hs, o := Headings(nodes), OutlineOf(nodes, textLen, rootTitle);
    var first := hs[0].span.value.start;
    var root := RootEntry(nodes, first, rootTitle);
    assert o.entries == root + HeadingEntries(hs);
    ContentIs(nodes, 0, first);
    SomeWithin(nodes, 0, first);
    hide ContentSpans, Headings, AreSpansWithin, Within, OutlineOf, SectionOf, HeadingEntries, ParsedHeadings;
    if root != [] { RootFields(o, root[0], hs); }
  }

  lemma RootFields(o: Outline, root: Entry, hs: seq<Node>)
    requires hs != [] && ParsedHeadings(hs, o.textLen)
    requires root.root && root.start == 0 && root.contentFrom == 0 && root.level == 0
    requires o.entries == [root] + HeadingEntries(hs)
    ensures
      var first := hs[0].span.value.start;
      Sections(o)[0] == Section(RootId(0, first), root.title, 0, None, 0, Span(0, first), Span(0, o.textLen),
                                ContentSpans(o.nodes, 0, first))
  {
    hide ContentSpans;
    assert forall i :: 1 <= i < |o.entries| ==> o.entries[i] == EntryOf(hs[i - 1]);
    CloseSpec(o.entries, 0);
    assert Sections(o)[0] == SectionOf(o, 0);
  }

  lemma SomeWithin(nodes: seq<Node>, from: nat, to: nat)
    ensures ContentSpans(nodes, from, to) != [] <==> exists n :: n in nodes && Within(n, from, to)
  {
    ContentIs(nodes, from, to);
    FilterMembers(nodes, (n: Node) => Within(n, from, to));
    hide ContentSpans, Within;
    var inside := Filter(nodes, (n: Node) => Within(n, from, to));
    if inside != [] { assert inside[0] in inside; }
  }
}
