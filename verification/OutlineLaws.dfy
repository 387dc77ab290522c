/** The rebuild round trip: whatever order the sections are stored in, walking the index rebuilt
    from parent ids and ordinals visits the built sections in document order. */
module OutlineLaws {
  import opened Sequences
  import opened SectionTree
  import opened SectionLaws
  import opened Outlines

  // ---------------------------------------------------------------------------------------
  // Document order, cut at a depth: what the walk is compared with
  // ---------------------------------------------------------------------------------------

  function LineOf(o: Outline, c: nat): Line
    requires c < |o.entries|
  {
    LineFor(SectionOf(o, c), Depth(o.entries, c) - 1, HasRoot(Sections(o)))
  }

  /** Sections lo, lo + 1, ... hi - 1, without those deeper than the limit. */
  function InDocumentOrder(o: Outline, lo: nat, hi: nat, maxLevel: int): seq<Line>
    requires lo <= hi <= |o.entries|
    decreases hi - lo
  {
    if lo == hi then []
    else (if Pruned(maxLevel, Depth(o.entries, lo)) then [] else [LineOf(o, lo)])
         + InDocumentOrder(o, lo + 1, hi, maxLevel)
  }

  lemma {:induction false} OrderSplits(o: Outline, a: nat, b: nat, c: nat, maxLevel: int)
    requires a <= b <= c <= |o.entries|
    ensures InDocumentOrder(o, a, c, maxLevel)
         == InDocumentOrder(o, a, b, maxLevel) + InDocumentOrder(o, b, c, maxLevel)
    decreases b - a
  {
    hide LineOf, Pruned, Depth;
    if a < b { OrderSplits(o, a + 1, b, c, maxLevel); }
  }

  lemma {:induction false} DeeperInside(es: seq<Entry>, c: nat, m: nat)
    requires c < |es| && c <= m < Close(es, c)
    ensures Depth(es, m) >= Depth(es, c)
    decreases m
  {
    if c < m {
      ParentStaysInside(es, c, m);
      DeeperInside(es, c, Parent(es, m));
    }
  }

  lemma {:induction false} PrunedSubtree(o: Outline, c: nat, m: nat, maxLevel: int)
    requires c < |o.entries| && c <= m <= Close(o.entries, c) && Pruned(maxLevel, Depth(o.entries, c))
    ensures InDocumentOrder(o, m, Close(o.entries, c), maxLevel) == []
    decreases Close(o.entries, c) - m
  {
    if m < Close(o.entries, c) {
      DeeperInside(o.entries, c, m);
      PrunedSubtree(o, c, m + 1, maxLevel);
    }
  }

  // ---------------------------------------------------------------------------------------
  // Children of p in document order, hopping from subtree to subtree
  // ---------------------------------------------------------------------------------------

  lemma ClosesWithin(es: seq<Entry>, p: int, c: nat)
    requires -1 <= p < |es| && p < c < Close(es, p)
    ensures Close(es, c) <= Close(es, p)
  {
    if p >= 0 { SubtreesNest(es, p, c); }
  }

  ghost predicate IsChildOrEnd(es: seq<Entry>, p: int, c: nat)
    requires -1 <= p < |es|
  {
    p < c <= Close(es, p) && (c < Close(es, p) ==> Parent(es, c) == p)
  }

  lemma FirstChild(es: seq<Entry>, p: int)
    requires -1 <= p < |es|
    ensures IsChildOrEnd(es, p, p + 1)
  {
    if p + 1 < Close(es, p) { ParentStaysInside(es, p, p + 1); }
  }

  lemma NextSibling(es: seq<Entry>, p: int, c: nat)
    requires -1 <= p < |es| && IsChildOrEnd(es, p, c) && c < Close(es, p)
    ensures IsChildOrEnd(es, p, Close(es, c))
    ensures forall m :: c < m < Close(es, c) ==> Parent(es, m) >= c
  {
    var d := Close(es, c);
    ClosesWithin(es, p, c);
    forall m | c < m < d ensures Parent(es, m) >= c { ParentStaysInside(es, c, m); }
    if d < Close(es, p) {
      ParentStaysInside(es, p, d);
      ParentSpec(es, c);
      ParentSpec(es, d);
      CloseSpec(es, c);
      if p >= 0 { CloseSpec(es, p); }
    }
  }

  function ChildrenFrom(o: Outline, p: int, c: nat): seq<Section>
    requires -1 <= p < |o.entries| && p < c <= Close(o.entries, p)
    decreases Close(o.entries, p) - c
  {
    if c == Close(o.entries, p) then []
    else ClosesWithin(o.entries, p, c); [SectionOf(o, c)] + ChildrenFrom(o, p, Close(o.entries, c))
  }

  lemma {:induction false} ChildrenFromMembers(o: Outline, p: int, c: nat, x: Section)
    requires -1 <= p < |o.entries| && IsChildOrEnd(o.entries, p, c)
    ensures x in ChildrenFrom(o, p, c) <==>
      exists m :: c <= m < Close(o.entries, p) && Parent(o.entries, m) == p && x == SectionOf(o, m)
    decreases Close(o.entries, p) - c
  {
    if c < Close(o.entries, p) {
      NextSibling(o.entries, p, c);
      ChildrenFromMembers(o, p, Close(o.entries, c), x);
      var rest := ChildrenFrom(o, p, Close(o.entries, c));
      assert x in ChildrenFrom(o, p, c) <==> x == SectionOf(o, c) || x in rest;
    }
  }

  ghost predicate StrictlyOrdered(s: seq<Section>) {
    forall i, j :: 0 <= i < j < |s| ==> s[i].ordinal < s[j].ordinal
  }

  lemma {:induction false} ChildrenFromOrdered(o: Outline, p: int, c: nat)
    requires -1 <= p < |o.entries| && IsChildOrEnd(o.entries, p, c)
    ensures StrictlyOrdered(ChildrenFrom(o, p, c))
    ensures forall x :: x in ChildrenFrom(o, p, c) ==> x.ordinal >= ChildCount(o.entries, p, c)
    decreases Close(o.entries, p) - c
  {
    if c < Close(o.entries, p) {
      hide Parent, Close;
      var d := Close(o.entries, c);
      NextSibling(o.entries, p, c);
      ChildrenFromOrdered(o, p, d);
      ChildCountGrows(o.entries, p, c, d);
      assert SectionOf(o, c).ordinal == ChildCount(o.entries, p, c);
      hide SectionOf, ChildCount, StrictlyOrdered;
      FirstIsLeast(SectionOf(o, c), ChildrenFrom(o, p, d));
    }
  }

  lemma FirstIsLeast(first: Section, rest: seq<Section>)
    requires StrictlyOrdered(rest) && forall x :: x in rest ==> x.ordinal > first.ordinal
    ensures StrictlyOrdered([first] + rest)
  {
    var all := [first] + rest;
    assert forall k :: 0 < k < |all| ==> all[k] == rest[k - 1] && rest[k - 1] in rest;
  }

  // ---------------------------------------------------------------------------------------
  // The rebuilt index has exactly those children, however the sections were stored
  // ---------------------------------------------------------------------------------------

  lemma {:induction false} StrictOrderIsUnique(a: seq<Section>, b: seq<Section>)
    requires StrictlyOrdered(a) && StrictlyOrdered(b)
    requires forall x :: x in a <==> x in b
    ensures a == b
  {
    assert |a| > 0 ==> a[0] in a;
    assert |b| > 0 ==> b[0] in b;
    if a != [] {
      assert a[0] == b[0];
      assert a == [a[0]] + a[1..] && b == [b[0]] + b[1..];
      forall x ensures x in a[1..] <==> x in b[1..] {
        assert x in a[1..] ==> x in a && x.ordinal > a[0].ordinal;
        assert x in b[1..] ==> x in b && x.ordinal > b[0].ordinal;
      }
      StrictOrderIsUnique(a[1..], b[1..]);
    }
  }

  lemma TwiceCounts(s: seq<Section>, i: nat, j: nat)
    requires i < j < |s| && s[i] == s[j]
    ensures multiset(s)[s[i]] >= 2
  {
    assert s == s[..j] + s[j..];
    assert s[..j][i] == s[i] && s[j..][0] == s[i];
    assert s[i] in multiset(s[..j]) && s[i] in multiset(s[j..]);
  }

  lemma {:induction false} OnceCounts(s: seq<Section>, x: Section)
    requires forall i, j :: 0 <= i < j < |s| ==> s[i] != s[j]
    ensures multiset(s)[x] <= 1
  {
    if s != [] {
      var front, last := s[..|s| - 1], s[|s| - 1];
      assert s == front + [last];
      OnceCounts(front, x);
      assert last in multiset(front) ==> last in front;
    }
  }

  lemma {:induction false} ChildrenOfIsPart(s: seq<Section>, parent: Option<SectionId>)
    ensures multiset(ChildrenOf(s, parent)) <= multiset(s)
  {
    if s != [] {
      ChildrenOfIsPart(s[..|s| - 1], parent);
      assert s == s[..|s| - 1] + [s[|s| - 1]];
    }
  }

  /** The stored sections are the built ones, in any order. */
  ghost predicate Stores(o: Outline, stored: seq<Section>) {
    multiset(stored) == multiset(Sections(o))
  }

  lemma StoredMembers(o: Outline, stored: seq<Section>, x: Section)
    requires Stores(o, stored)
    ensures x in stored <==> x in Sections(o)
  {
    assert x in stored <==> x in multiset(stored);
    assert x in Sections(o) <==> x in multiset(Sections(o));
  }

  lemma StoredIdsAreDistinct(o: Outline, stored: seq<Section>)
    requires WellFormed(o) && Stores(o, stored)
    ensures DistinctIds(stored)
  {
    forall s, t | s in stored && t in stored && s.id == t.id ensures s == t {
      StoredMembers(o, stored, s);
      StoredMembers(o, stored, t);
      var i :| 0 <= i < |o.entries| && s == SectionOf(o, i);
      var j :| 0 <= j < |o.entries| && t == SectionOf(o, j);
      IdsAreDistinct(o, i, j);
    }
  }

  lemma SiblingsDiffer(o: Outline, s: Section, t: Section)
    requires WellFormed(o) && s in Sections(o) && t in Sections(o)
    requires s.parent == t.parent && s.ordinal == t.ordinal
    ensures s == t
  {
    hide WellFormed, SectionOf;
    var i :| 0 <= i < |o.entries| && s == SectionOf(o, i);
    var j :| 0 <= j < |o.entries| && t == SectionOf(o, j);
    if i < j { OrdinalsIncrease(o, i, j); } else if j < i { OrdinalsIncrease(o, j, i); }
  }

  lemma KidsAreStrict(o: Outline, stored: seq<Section>, parent: Option<SectionId>)
    requires WellFormed(o) && Stores(o, stored)
    ensures StrictlyOrdered(Kids(stored, parent))
  {
    var kids := Kids(stored, parent);
    SortSpec(ChildrenOf(stored, parent));
    hide WellFormed, SortByOrdinal, ChildrenOf, SectionOf, Stores;
    forall i, j | 0 <= i < j < |kids| ensures kids[i].ordinal < kids[j].ordinal {
      if kids[i].ordinal == kids[j].ordinal { SameKidTwice(o, stored, parent, i, j); }
    }
  }

  lemma SameKidTwice(o: Outline, stored: seq<Section>, parent: Option<SectionId>, i: nat, j: nat)
    requires WellFormed(o) && Stores(o, stored) && i < j < |Kids(stored, parent)|
    ensures Kids(stored, parent)[i].ordinal != Kids(stored, parent)[j].ordinal
  {
    var kids := Kids(stored, parent);
    SortSpec(ChildrenOf(stored, parent));
    ChildrenOfIsPart(stored, parent);
    assert multiset(kids) <= multiset(Sections(o));
    hide SectionOf, Sections, Kids;
    KidsSpec(stored, parent, kids[i]);
    KidsSpec(stored, parent, kids[j]);
    StoredMembers(o, stored, kids[i]);
    StoredMembers(o, stored, kids[j]);
    hide WellFormed, Stores, ChildrenOf;
    if kids[i].ordinal == kids[j].ordinal {
      SiblingsDiffer(o, kids[i], kids[j]);
      TwiceCounts(kids, i, j);
      OnceCounts(Sections(o), kids[i]);
      assert false;
    }
  }

  lemma ParentIdIsInjective(o: Outline, p: int, q: int)
    requires WellFormed(o) && -1 <= p < |o.entries| && -1 <= q < |o.entries|
    requires ParentId(o, p) == ParentId(o, q)
    ensures p == q
  {
    if p >= 0 && q >= 0 { IdsAreDistinct(o, p, q); }
  }

  lemma ChildrenLieInside(es: seq<Entry>, p: int, m: nat)
    requires -1 <= p < |es| && m < |es| && Parent(es, m) == p
    ensures p < m < Close(es, p)
  {
    if p >= 0 { ChildLiesInParent(es, m); }
  }

  lemma KidsAre(o: Outline, stored: seq<Section>, p: int)
    requires WellFormed(o) && Stores(o, stored) && -1 <= p < |o.entries|
    ensures Kids(stored, ParentId(o, p)) == ChildrenFrom(o, p, p + 1)
  {
    hide WellFormed, Stores, Kids, ChildrenFrom, Parent, Close, SectionOf, IsChildOrEnd, StrictlyOrdered;
    FirstChild(o.entries, p);
    KidsAreStrict(o, stored, ParentId(o, p));
    ChildrenFromOrdered(o, p, p + 1);
    forall x ensures x in Kids(stored, ParentId(o, p)) <==> x in ChildrenFrom(o, p, p + 1) {
      SameKids(o, stored, p, x);
    }
    StrictOrderIsUnique(Kids(stored, ParentId(o, p)), ChildrenFrom(o, p, p + 1));
  }

  lemma SameKids(o: Outline, stored: seq<Section>, p: int, x: Section)
    requires WellFormed(o) && Stores(o, stored) && -1 <= p < |o.entries| && p + 1 <= Close(o.entries, p)
    ensures x in Kids(stored, ParentId(o, p)) <==> x in ChildrenFrom(o, p, p + 1)
  {
    FirstChild(o.entries, p);
    KidsSpec(stored, ParentId(o, p), x);
    StoredMembers(o, stored, x);
    ChildrenFromMembers(o, p, p + 1, x);
    hide WellFormed, Stores, Kids, ChildrenFrom, Parent, Close, IsChildOrEnd, SectionOf, ParentId;
    if x in Kids(stored, ParentId(o, p)) {
      var m :| 0 <= m < |o.entries| && x == SectionOf(o, m);
      ParentOfSection(o, m);
      ParentIdIsInjective(o, Parent(o.entries, m), p);
      ChildrenLieInside(o.entries, p, m);
    }
    if x in ChildrenFrom(o, p, p + 1) {
      var m :| p + 1 <= m < Close(o.entries, p) && Parent(o.entries, m) == p && x == SectionOf(o, m);
      ParentOfSection(o, m);
    }
  }

  lemma ParentOfSection(o: Outline, m: nat)
    requires m < |o.entries|
    ensures SectionOf(o, m) in Sections(o)
    ensures -1 <= Parent(o.entries, m) < |o.entries| && SectionOf(o, m).parent == ParentId(o, Parent(o.entries, m))
  {
    assert SectionOf(o, m) == Sections(o)[m];
  }

  // ---------------------------------------------------------------------------------------
  // The walk
  // ---------------------------------------------------------------------------------------

  function PathTo(o: Outline, c: int): (r: seq<Section>)
    requires -1 <= c < |o.entries|
    ensures |r| == if c < 0 then 0 else Depth(o.entries, c)
    decreases c + 1
  {
    if c < 0 then [] else PathTo(o, Parent(o.entries, c)) + [SectionOf(o, c)]
  }

  lemma {:induction false} PathIsChain(o: Outline, stored: seq<Section>, c: int)
    requires Stores(o, stored) && -1 <= c < |o.entries|
    ensures Chain(stored, PathTo(o, c)) && LinkAt(PathTo(o, c), |PathTo(o, c)|) == ParentId(o, c)
    decreases c + 1
  {
    if c >= 0 {
      PathIsChain(o, stored, Parent(o.entries, c));
      StoredMembers(o, stored, SectionOf(o, c));
      assert SectionOf(o, c) == Sections(o)[c];
      ChainExtends(stored, PathTo(o, Parent(o.entries, c)), SectionOf(o, c));
    }
  }

  lemma SameRoot(o: Outline, stored: seq<Section>)
    requires Stores(o, stored)
    ensures HasRoot(stored) == HasRoot(Sections(o))
  {
    forall s ensures s in stored <==> s in Sections(o) { StoredMembers(o, stored, s); }
  }

  lemma {:induction false} VisitIsSubtree(o: Outline, stored: seq<Section>, c: nat, maxLevel: int)
    requires WellFormed(o) && Stores(o, stored) && c < |o.entries|
    requires WalkEnds(stored, maxLevel) && Chain(stored, PathTo(o, c))
    ensures Visit(stored, PathTo(o, c), maxLevel)
         == InDocumentOrder(o, c, Close(o.entries, c), maxLevel)
    decreases Close(o.entries, c) - c, 0
  {
    hide WellFormed, Stores, WalkEnds, Chain, Depth, Parent, Close, Kids, SectionOf, PathTo, ChildrenFrom,
         IsChildOrEnd, InDocumentOrder, HasRoot, Pruned;
    if Pruned(maxLevel, Depth(o.entries, c)) {
      PrunedSubtree(o, c, c, maxLevel);
    } else {
      PathIsChain(o, stored, c);
      KidsAre(o, stored, c);
      KidsExtend(stored, PathTo(o, c));
      FirstChild(o.entries, c);
      PathEnds(o, c);
      SameRoot(o, stored);
      LineFirst(o, c, Close(o.entries, c), maxLevel);
      VisitAllIsRest(o, stored, c, c + 1, maxLevel);
    }
  }

  lemma PathEnds(o: Outline, c: nat)
    requires c < |o.entries|
    ensures PathTo(o, c) != [] && Last(PathTo(o, c)) == SectionOf(o, c)
  {
  }

  lemma LineFirst(o: Outline, c: nat, end: nat, maxLevel: int)
    requires c < end <= |o.entries| && !Pruned(maxLevel, Depth(o.entries, c))
    ensures InDocumentOrder(o, c, end, maxLevel) == [LineOf(o, c)] + InDocumentOrder(o, c + 1, end, maxLevel)
  {
  }

  lemma {:induction false} VisitAllIsRest(o: Outline, stored: seq<Section>, p: int, c: nat, maxLevel: int)
    requires WellFormed(o) && Stores(o, stored) && -1 <= p < |o.entries| && IsChildOrEnd(o.entries, p, c)
    requires WalkEnds(stored, maxLevel) && Chain(stored, PathTo(o, p)) && !Pruned(maxLevel, |PathTo(o, p)|)
    requires forall s :: s in ChildrenFrom(o, p, c) ==>
      s in stored && s.parent == LinkAt(PathTo(o, p), |PathTo(o, p)|)
    ensures VisitAll(stored, PathTo(o, p), ChildrenFrom(o, p, c), maxLevel)
         == InDocumentOrder(o, c, Close(o.entries, p), maxLevel)
    decreases Close(o.entries, p) - c, 1
  {
    if c < Close(o.entries, p) {
      var d := Close(o.entries, c);
      NextSibling(o.entries, p, c);
      var rest := ChildrenFrom(o, p, d);
      assert ChildrenFrom(o, p, c) == [SectionOf(o, c)] + rest;
      assert PathTo(o, c) == PathTo(o, p) + [SectionOf(o, c)];
      PathIsChain(o, stored, c);
      VisitIsSubtree(o, stored, c, maxLevel);
      VisitAllIsRest(o, stored, p, d, maxLevel);
      OrderSplits(o, c, d, Close(o.entries, p), maxLevel);
    }
  }

  /** The round trip. For every document and every order the built sections are stored in, the
      outline lists exactly the sections of tree depth within the limit, each once, in document
      order, indented by tree depth. */
  lemma RebuildRoundTrip(o: Outline, stored: seq<Section>, maxLevel: int)
    requires WellFormed(o) && Stores(o, stored) && o.entries != []
    ensures DistinctIds(stored) && WalkEnds(stored, maxLevel)
    ensures GlobalLines(stored, maxLevel) == InDocumentOrder(o, 0, |o.entries|, maxLevel)
  {
    StoredIdsAreDistinct(o, stored);
    DistinctPathsEnd(stored);
    PathIsChain(o, stored, -1);
    KidsAre(o, stored, -1);
    KidsExtend(stored, []);
    FirstChild(o.entries, -1);
    VisitAllIsRest(o, stored, -1, 0, maxLevel);
  }

  /** Without a limit the lines are the sections themselves, one for one. */
  lemma {:induction false} UnlimitedIsEverything(o: Outline, from: nat, maxLevel: int)
    requires from <= |o.entries| && maxLevel <= 0
    ensures var lines := InDocumentOrder(o, from, |o.entries|, maxLevel);
      && |lines| == |o.entries| - from
      && forall k :: 0 <= k < |lines| ==> lines[k] == LineOf(o, from + k)
    decreases |o.entries| - from
  {
    hide LineOf, Depth;
    if from < |o.entries| { UnlimitedIsEverything(o, from + 1, maxLevel); }
  }

  /** The line of section number c: indented by its depth; as many hashes as the depth, one fewer when the
      document has a root, and none for the root itself. */
  ghost predicate Shows(o: Outline, line: Line, c: nat)
    requires c < |o.entries|
  {
    && line.section == SectionOf(o, c)
    && line.indent == Depth(o.entries, c) - 1
    && (o.entries[c].level == 0 ==> line.hashes == 0)
    && (o.entries[c].level != 0 && o.entries[0].level == 0 ==> line.hashes == Depth(o.entries, c) - 1)
    && (o.entries[c].level != 0 && o.entries[0].level != 0 ==> line.hashes == Depth(o.entries, c))
  }

  ghost predicate Increasing(ps: seq<nat>) {
    forall i, j {:trigger ps[i], ps[j]} :: 0 <= i < j < |ps| ==> ps[i] < ps[j]
  }

  /** Positions at of sections from, from + 1, ... within the limit, all of them, and their lines. */
  ghost predicate Listing(o: Outline, lines: seq<Line>, at: seq<nat>, from: nat, maxLevel: int) {
    && |lines| == |at| && Increasing(at)
    && (forall c: nat :: c in at <==> from <= c < |o.entries| && (maxLevel <= 0 || Depth(o.entries, c) <= maxLevel))
    && forall i {:trigger at[i]} :: 0 <= i < |at| ==> at[i] < |o.entries| && Shows(o, lines[i], at[i])
  }

  /** What the outline shows, for any limit and any order the sections are stored in: those of tree depth
      within the limit, in document order, each on a line of its own. */
  lemma LinesShowTheSections(o: Outline, stored: seq<Section>, maxLevel: int) returns (at: seq<nat>)
    requires WellFormed(o) && Stores(o, stored) && o.entries != []
    ensures WalkEnds(stored, maxLevel) && Listing(o, GlobalLines(stored, maxLevel), at, 0, maxLevel)
  {
    RebuildRoundTrip(o, stored, maxLevel);
    RootIsFirst(o);
    at := ListedFrom(o, 0, maxLevel);
  }

  lemma RootIsFirst(o: Outline)
    requires WellFormed(o) && o.entries != []
    ensures HasRoot(Sections(o)) <==> o.entries[0].level == 0
  {
    hide PartialSection;
    assert Sections(o)[0] == SectionOf(o, 0);
    LevelsAre(o);
    if HasRoot(Sections(o)) {
      var s :| s in Sections(o) && s.level == 0;
      var i :| 0 <= i < |o.entries| && s == Sections(o)[i];
      assert s == SectionOf(o, i);
    }
  }

  lemma LevelsAre(o: Outline)
    ensures forall i :: 0 <= i < |o.entries| ==> SectionOf(o, i).level == o.entries[i].level
  {
  }

  lemma {:induction false} ListedFrom(o: Outline, from: nat, maxLevel: int) returns (at: seq<nat>)
    requires from <= |o.entries| && o.entries != []
    requires HasRoot(Sections(o)) <==> o.entries[0].level == 0
    ensures Listing(o, InDocumentOrder(o, from, |o.entries|, maxLevel), at, from, maxLevel)
    decreases |o.entries| - from
  {
    hide Depth, PartialSection, HasRoot, Sections, LineOf, Listing;
    if from == |o.entries| {
      at := [];
      NothingListed(o, maxLevel);
    } else {
      var later := ListedFrom(o, from + 1, maxLevel);
      at := if Pruned(maxLevel, Depth(o.entries, from)) then later else [from] + later;
      LineShows(o, from);
      var rest := InDocumentOrder(o, from + 1, |o.entries|, maxLevel);
      OneMoreListed(o, rest, later, LineOf(o, from), from, maxLevel);
      assert [] + rest == rest;
    }
  }

  lemma NothingListed(o: Outline, maxLevel: int)
    ensures Listing(o, [], [], |o.entries|, maxLevel)
  {
  }

  lemma LineShows(o: Outline, c: nat)
    requires c < |o.entries|
    requires HasRoot(Sections(o)) <==> o.entries[0].level == 0
    ensures Shows(o, LineOf(o, c), c)
  {
    hide Parent, HasRoot, Sections;
    assert LineOf(o, c).section.level == o.entries[c].level;
  }

  lemma OneMoreListed(o: Outline, lines: seq<Line>, at: seq<nat>, line: Line, from: nat, maxLevel: int)
    requires from < |o.entries| && Listing(o, lines, at, from + 1, maxLevel) && Shows(o, line, from)
    ensures
      if 0 < maxLevel < Depth(o.entries, from) then Listing(o, lines, at, from, maxLevel)
      else Listing(o, [line] + lines, [from] + at, from, maxLevel)
  {
    hide Shows, Depth;
    var longer := [from] + at;
    assert forall c: nat :: c in longer <==> c == from || c in at;
    assert forall i :: 1 <= i < |longer| ==> longer[i] == at[i - 1] && at[i - 1] in at;
  }
}
