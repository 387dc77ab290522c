/** The outline formatter: it rebuilds the tree from parent ids and ordinals and walks it. */
module Outlines {
  import opened Sequences
  import opened SectionTree

  /** One rendered line: the section, its indentation, and the number of leading '#'. */
  datatype Line = Line(section: Section, indent: nat, hashes: nat)

  // ---------------------------------------------------------------------------------------
  // The index: children of each parent, in ordinal order
  // ---------------------------------------------------------------------------------------

  function ChildrenOf(sections: seq<Section>, parent: Option<SectionId>): seq<Section> {
    if sections == [] then []
    else
      var n := |sections| - 1;
      ChildrenOf(sections[..n], parent) + if sections[n].parent == parent then [sections[n]] else []
  }

  lemma ChildrenOfStep(sections: seq<Section>, i: nat, p: Option<SectionId>)
    requires i < |sections|
    ensures ChildrenOf(sections[..i + 1], p)
              == ChildrenOf(sections[..i], p) + if sections[i].parent == p then [sections[i]] else []
  {
    assert sections[..i + 1][..i] == sections[..i];
  }

  /** Stable insertion: x goes behind everything of equal or smaller ordinal. */
  function InsertByOrdinal(x: Section, s: seq<Section>): seq<Section> {
    if s == [] || s[|s| - 1].ordinal <= x.ordinal then s + [x]
    else InsertByOrdinal(x, s[..|s| - 1]) + [s[|s| - 1]]
  }

  /** Stable sort by ordinal. */
  function SortByOrdinal(s: seq<Section>): seq<Section> {
    if s == [] then [] else InsertByOrdinal(s[|s| - 1], SortByOrdinal(s[..|s| - 1]))
  }

  function Kids(sections: seq<Section>, parent: Option<SectionId>): seq<Section> {
    SortByOrdinal(ChildrenOf(sections, parent))
  }

  lemma {:induction false} ChildrenOfSpec(sections: seq<Section>, parent: Option<SectionId>, x: Section)
    ensures x in ChildrenOf(sections, parent) <==> x in sections && x.parent == parent
  {
    if sections != [] {
      ChildrenOfSpec(sections[..|sections| - 1], parent, x);
      assert sections == sections[..|sections| - 1] + [sections[|sections| - 1]];
    }
  }

  ghost predicate Ordered(s: seq<Section>) {
    forall i, j {:trigger s[i], s[j]} :: 0 <= i < j < |s| ==> s[i].ordinal <= s[j].ordinal
  }

  lemma {:induction false} InsertSpec(x: Section, s: seq<Section>)
    requires Ordered(s)
    ensures Ordered(InsertByOrdinal(x, s))
    ensures multiset(InsertByOrdinal(x, s)) == multiset(s) + multiset{x}
  {
    if s != [] && s[|s| - 1].ordinal > x.ordinal {
      var front, last := s[..|s| - 1], s[|s| - 1];
      assert s == front + [last];
      InsertSpec(x, front);
      var inserted := InsertByOrdinal(x, front);
      assert InsertByOrdinal(x, s) == inserted + [last];
      hide InsertByOrdinal;
      forall k | 0 <= k < |inserted| ensures inserted[k].ordinal <= last.ordinal {
        assert inserted[k] in multiset(front) + multiset{x};
        assert inserted[k] in front || inserted[k] == x;
      }
      assert multiset(inserted + [last]) == multiset(inserted) + multiset{last};
    }
  }

  lemma {:induction false} SortSpec(s: seq<Section>)
    ensures Ordered(SortByOrdinal(s)) && multiset(SortByOrdinal(s)) == multiset(s)
  {
    if s != [] {
      assert s == s[..|s| - 1] + [s[|s| - 1]];
      SortSpec(s[..|s| - 1]);
      InsertSpec(s[|s| - 1], SortByOrdinal(s[..|s| - 1]));
    }
  }

  lemma KidsSpec(sections: seq<Section>, parent: Option<SectionId>, x: Section)
    ensures x in Kids(sections, parent) <==> x in sections && x.parent == parent
  {
    SortSpec(ChildrenOf(sections, parent));
    ChildrenOfSpec(sections, parent, x);
    assert x in Kids(sections, parent) <==> x in multiset(Kids(sections, parent));
  }

  // ---------------------------------------------------------------------------------------
  // The walk
  // ---------------------------------------------------------------------------------------

  /** An id names one section. */
  ghost predicate DistinctIds(sections: seq<Section>) {
    forall s, t :: s in sections && t in sections && s.id == t.id ==> s == t
  }

  /** A path of stored sections, each the parent of the next, from a parentless one down. */
  ghost predicate Chain(sections: seq<Section>, path: seq<Section>) {
    && (forall s :: s in path ==> s in sections)
    && (forall k {:trigger LinkAt(path, k)} :: 0 <= k < |path| ==> path[k].parent == LinkAt(path, k))
  }

  function LinkAt(path: seq<Section>, k: nat): Option<SectionId>
    requires k <= |path|
  {
    if k == 0 then None else Some(path[k - 1].id)
  }

  /** With distinct ids a chain never meets itself, however the stored parents are linked. */
  lemma {:induction false} ChainIsDistinct(sections: seq<Section>, path: seq<Section>, i: nat, j: nat)
    requires DistinctIds(sections) && Chain(sections, path) && i < j < |path|
    ensures path[i] != path[j]
  {
    assert path[0].parent == LinkAt(path, 0) && path[j].parent == LinkAt(path, j);
    if i > 0 && path[i] == path[j] {
      assert LinkAt(path, i) == LinkAt(path, j);
      assert path[i - 1] in sections && path[j - 1] in sections;
      ChainIsDistinct(sections, path, i - 1, j - 1);
    }
  }

  lemma ChainExtends(sections: seq<Section>, path: seq<Section>, s: Section)
    requires Chain(sections, path) && s in sections && s.parent == LinkAt(path, |path|)
    ensures Chain(sections, path + [s])
  {
    var longer := path + [s];
    forall k {:trigger LinkAt(longer, k)} | 0 <= k < |longer| ensures longer[k].parent == LinkAt(longer, k) {
      assert LinkAt(longer, k) == LinkAt(path, k);
    }
  }

  lemma ChainIsShort(sections: seq<Section>, path: seq<Section>)
    requires DistinctIds(sections) && Chain(sections, path)
    ensures |path| <= |sections|
  {
    forall i, j | 0 <= i < j < |path| ensures path[i] != path[j] {
      ChainIsDistinct(sections, path, i, j);
    }
    DistinctCard(path);
    SeqCard(sections);
    CardLe(set s | s in path, set s | s in sections);
  }

  lemma {:induction false} DistinctCard(s: seq<Section>)
    requires forall i, j :: 0 <= i < j < |s| ==> s[i] != s[j]
    ensures |set x | x in s| == |s|
  {
    if s != [] {
      var front := s[..|s| - 1];
      DistinctCard(front);
      assert (set x | x in s) == (set x | x in front) + {s[|s| - 1]};
    }
  }

  lemma {:induction false} SeqCard(s: seq<Section>)
    ensures |set x | x in s| <= |s|
  {
    if s != [] {
      var front := s[..|s| - 1];
      SeqCard(front);
      assert (set x | x in s) == (set x | x in front) + {s[|s| - 1]};
    }
  }

  lemma {:induction false} CardLe(a: set<Section>, b: set<Section>)
    requires a <= b
    ensures |a| <= |b|
  {
    if a != {} {
      var x :| x in a;
      CardLe(a - {x}, b - {x});
    }
  }

  predicate Pruned(maxLevel: int, depth: nat) { 0 < maxLevel < depth }

  /** No path down the stored sections is longer than their number. */
  ghost predicate PathsEnd(sections: seq<Section>) {
    forall path {:trigger Chain(sections, path)} :: Chain(sections, path) ==> |path| <= |sections|
  }

  /** Distinct ids are enough for that. */
  lemma DistinctPathsEnd(sections: seq<Section>)
    requires DistinctIds(sections)
    ensures PathsEnd(sections)
  {
    forall path {:trigger Chain(sections, path)} | Chain(sections, path)
      ensures |path| <= |sections|
    {
      ChainIsShort(sections, path);
    }
  }

  /** No id stands twice on the path. */
  ghost predicate NoIdTwice(path: seq<Section>) {
    forall i, j {:trigger path[i], path[j]} :: 0 <= i < j < |path| ==> path[i].id != path[j].id
  }

  /** Paths end if and only if none of them meets an id twice. It is enough to look at paths of one
      section more than there are. */
  lemma PathsEndByIds(sections: seq<Section>)
    ensures PathsEnd(sections) <==>
      forall path {:trigger Chain(sections, path)} :: Chain(sections, path) ==> NoIdTwice(path)
    ensures PathsEnd(sections) <==>
      forall path {:trigger Chain(sections, path)} ::
        Chain(sections, path) && |path| <= |sections| + 1 ==> NoIdTwice(path)
  {
    hide Chain, NoIdTwice;
    if PathsEnd(sections) {
      forall path {:trigger Chain(sections, path)} | Chain(sections, path)
        ensures NoIdTwice(path)
      {
        if !NoIdTwice(path) {
          var i, j := Twice(path);
          var long := GoRound(sections, path, i, j, |sections| + 1);
          assert false;
        }
      }
    } else {
      var path :| Chain(sections, path) && |path| > |sections|;
      ChainPrefix(sections, path, |sections| + 1);
      LongRepeats(sections, path[..|sections| + 1]);
    }
  }

  lemma Twice(path: seq<Section>) returns (i: nat, j: nat)
    requires !NoIdTwice(path)
    ensures i < j < |path| && path[i].id == path[j].id
  {
    i, j :| 0 <= i < j < |path| && path[i].id == path[j].id;
  }

  lemma LongRepeats(sections: seq<Section>, path: seq<Section>)
    requires |path| > |sections| && Chain(sections, path)
    ensures !NoIdTwice(path)
  {
    var i, j := Repetition(sections, path);
  }

  /** Otherwise there are paths of any length, so an unlimited walk has no end. */
  lemma OrGoOnForever(sections: seq<Section>, n: nat) returns (long: seq<Section>)
    requires !PathsEnd(sections)
    ensures Chain(sections, long) && |long| == n
  {
    var path :| Chain(sections, path) && |path| > |sections|;
    var i, j := Repetition(sections, path);
    hide Chain;
    long := GoRound(sections, path, i, j, n);
    ChainPrefix(sections, long, n);
    long := long[..n];
  }

  /** There are such sections: C repeats the id of A and hangs below B, so that A, B, C, B is a path of
      three sections, and it goes on. */
  lemma EndlessOutline(a: Section, b: Section, c: Section)
    requires a.parent == None && b.parent == Some(a.id) && c.id == a.id && c.parent == Some(b.id)
    ensures !PathsEnd([a, b, c])
  {
    var path := [a, b, c, b];
    assert LinkAt(path, 0) == None && LinkAt(path, 1) == Some(a.id);
    assert LinkAt(path, 2) == Some(b.id) && LinkAt(path, 3) == Some(c.id);
    assert Chain([a, b, c], path);
  }

  /** A path that meets an id twice can go round from there to any length. */
  lemma {:induction false} GoRound(sections: seq<Section>, path: seq<Section>, i: nat, j: nat, n: nat)
    returns (long: seq<Section>)
    requires Chain(sections, path) && i < j < |path| && path[i].id == path[j].id
    ensures Chain(sections, long) && |long| >= n
    decreases n - |path|
  {
    if |path| >= n {
      long := path;
    } else {
      ChainDetour(sections, path, i, j);
      long := GoRound(sections, path[..j + 1] + path[i + 1..], i, j, n);
    }
  }

  lemma ChainPrefix(sections: seq<Section>, path: seq<Section>, n: nat)
    requires Chain(sections, path) && n <= |path|
    ensures Chain(sections, path[..n])
  {
    var part := path[..n];
    assert forall k {:trigger part[k]} :: 0 <= k < n ==> part[k] == path[k];
    assert forall k {:trigger LinkAt(part, k)} :: 0 <= k < n ==> LinkAt(part, k) == LinkAt(path, k);
  }

  /** A path that meets an id twice can go round once more. */
  lemma ChainDetour(sections: seq<Section>, path: seq<Section>, i: nat, j: nat)
    requires Chain(sections, path) && i < j < |path| && path[i].id == path[j].id
    ensures Chain(sections, path[..j + 1] + path[i + 1..])
  {
    var longer := path[..j + 1] + path[i + 1..];
    forall k {:trigger LinkAt(longer, k)} | 0 <= k < |longer|
      ensures longer[k].parent == LinkAt(longer, k)
    {
      if k <= j {
        assert LinkAt(longer, k) == LinkAt(path, k);
      } else {
        var m := k - (j - i);
        assert longer[k] == path[m] && LinkAt(longer, k) == LinkAt(path, m);
      }
    }
  }

  lemma Repetition(sections: seq<Section>, path: seq<Section>) returns (i: nat, j: nat)
    requires |path| > |sections| && forall s :: s in path ==> s in sections
    ensures i < j < |path| && path[i] == path[j]
  {
    if i', j' :| 0 <= i' < j' < |path| && path[i'] == path[j'] {
      i, j := i', j';
    } else {
      DistinctCard(path);
      SeqCard(sections);
      CardLe(set s | s in path, set s | s in sections);
      assert false;
    }
  }

  /** The walk is cut off at a depth, or the paths end. */
  ghost predicate WalkEnds(sections: seq<Section>, maxLevel: int) {
    maxLevel > 0 || PathsEnd(sections)
  }

  /** How much further down the walk can go. */
  function Room(sections: seq<Section>, path: seq<Section>, maxLevel: int): int {
    (if maxLevel > 0 then maxLevel + 1 else |sections|) - |path|
  }

  lemma RoomShrinks(sections: seq<Section>, path: seq<Section>, s: Section, maxLevel: int)
    requires WalkEnds(sections, maxLevel) && Chain(sections, path + [s]) && !Pruned(maxLevel, |path|)
    ensures 0 <= Room(sections, path + [s], maxLevel) < Room(sections, path, maxLevel)
  {
  }

  function LineFor(section: Section, indent: nat, hasRoot: bool): Line {
    var hashes := if section.level == 0 then 0 else indent + 1 - if hasRoot then 1 else 0;
    Line(section, indent, hashes)
  }

  predicate HasRoot(sections: seq<Section>) { exists s :: s in sections && s.level == 0 }

  /** The lines of the subtree at the end of the path; the depth is the length of the path. */
  ghost function Visit(sections: seq<Section>, path: seq<Section>, maxLevel: int): seq<Line>
    requires WalkEnds(sections, maxLevel) && path != [] && Chain(sections, path)
    decreases Room(sections, path, maxLevel), 1, 0
  {
    if Pruned(maxLevel, |path|) then []
    else
      var section := path[|path| - 1];
      KidsExtend(sections, path);
      [LineFor(section, |path| - 1, HasRoot(sections))]
      + VisitAll(sections, path, Kids(sections, LinkAt(path, |path|)), maxLevel)
  }

  ghost function VisitAll(sections: seq<Section>, path: seq<Section>, kids: seq<Section>, maxLevel: int): seq<Line>
    requires WalkEnds(sections, maxLevel) && Chain(sections, path) && !Pruned(maxLevel, |path|)
    requires forall s :: s in kids ==> s in sections && s.parent == LinkAt(path, |path|)
    decreases Room(sections, path, maxLevel), 0, |kids|
  {
    if kids == [] then []
    else
      ChainExtends(sections, path, kids[0]);
      RoomShrinks(sections, path, kids[0], maxLevel);
      Visit(sections, path + [kids[0]], maxLevel) + VisitAll(sections, path, kids[1..], maxLevel)
  }

  lemma VisitStep(sections: seq<Section>, path: seq<Section>, maxLevel: int)
    requires WalkEnds(sections, maxLevel) && path != [] && Chain(sections, path)
    ensures
      var section := path[|path| - 1];
      var kids := Kids(sections, Some(section.id));
      && LinkAt(path, |path|) == Some(section.id)
      && (forall s :: s in kids ==> s in sections && s.parent == LinkAt(path, |path|))
      && Visit(sections, path, maxLevel) ==
         if Pruned(maxLevel, |path|) then []
         else [LineFor(section, |path| - 1, HasRoot(sections))] + VisitAll(sections, path, kids, maxLevel)
  {
    KidsExtend(sections, path);
    hide WalkEnds, Chain, HasRoot, Kids, LineFor, VisitAll;
  }

  lemma VisitAllStep(sections: seq<Section>, path: seq<Section>, kids: seq<Section>, maxLevel: int)
    requires WalkEnds(sections, maxLevel) && Chain(sections, path) && !Pruned(maxLevel, |path|)
    requires forall s :: s in kids ==> s in sections && s.parent == LinkAt(path, |path|)
    ensures kids == [] ==> VisitAll(sections, path, kids, maxLevel) == []
    ensures kids != [] ==>
      && Chain(sections, path + [kids[0]])
      && VisitAll(sections, path, kids, maxLevel)
         == Visit(sections, path + [kids[0]], maxLevel) + VisitAll(sections, path, kids[1..], maxLevel)
  {
    if kids != [] { ChainExtends(sections, path, kids[0]); }
    hide WalkEnds, Chain, Visit, LinkAt;
  }

  lemma KidsExtend(sections: seq<Section>, path: seq<Section>)
    ensures forall s :: s in Kids(sections, LinkAt(path, |path|)) ==>
      s in sections && s.parent == LinkAt(path, |path|)
  {
    forall s | s in Kids(sections, LinkAt(path, |path|))
      ensures s in sections && s.parent == LinkAt(path, |path|)
    {
      KidsSpec(sections, LinkAt(path, |path|), s);
    }
  }

  ghost function GlobalLines(sections: seq<Section>, maxLevel: int): seq<Line>
    requires WalkEnds(sections, maxLevel)
  {
    KidsExtend(sections, []);
    VisitAll(sections, [], Kids(sections, None), maxLevel)
  }

  // ---------------------------------------------------------------------------------------
  // The neighborhood of a section
  // ---------------------------------------------------------------------------------------

  /** The stored section of this id; of several the last, as a dictionary keeps it. */
  function ById(sections: seq<Section>, id: SectionId): (r: Option<Section>)
    ensures r.Some? ==> r.value in sections && r.value.id == id
  {
    if sections == [] then None
    else if Last(sections).id == id then Some(Last(sections))
    else ById(Init(sections), id)
  }

  function IdSet(sections: seq<Section>): set<SectionId> {
    set s | s in sections :: s.id
  }

  /** The parents met when climbing from a parent id, innermost first, up to a missing one or one already
      visited. */
  function Climb(sections: seq<Section>, visited: set<SectionId>, parent: Option<SectionId>): seq<Section>
    decreases IdSet(sections) - visited
  {
    if parent.None? || parent.value in visited then []
    else match ById(sections, parent.value)
      case None => []
      case Some(s) =>
        assert s.id in IdSet(sections) - visited && s.id !in IdSet(sections) - (visited + {s.id});
        [s] + Climb(sections, visited + {s.id}, s.parent)
  }

  lemma ClimbStep(sections: seq<Section>, visited: set<SectionId>, id: SectionId)
    requires id !in visited
    ensures
      match ById(sections, id)
      case None => Climb(sections, visited, Some(id)) == []
      case Some(s) =>
        && Climb(sections, visited, Some(id)) == [s] + Climb(sections, visited + {s.id}, s.parent)
        && IdSet(sections) - (visited + {s.id}) < IdSet(sections) - visited
  {
    var found := ById(sections, id);
    if found.Some? {
      assert id in IdSet(sections) - visited && id !in IdSet(sections) - (visited + {id});
    }
  }

  lemma ClimbStops(sections: seq<Section>, visited: set<SectionId>, parent: Option<SectionId>)
    requires parent.None? || parent.value in visited
    ensures Climb(sections, visited, parent) == []
  {
  }

  /** A section to be listed, how far indented, and whether it is the one asked about. */
  datatype Item = Item(section: Section, indent: nat, current: bool)

  function Flat(sections: seq<Section>, indent: nat): (r: seq<Item>)
    ensures |r| == |sections|
  {
    seq(|sections|, i requires 0 <= i < |sections| => Item(sections[i], indent, false))
  }

  function Stairs(sections: seq<Section>): (r: seq<Item>)
    ensures |r| == |sections|
  {
    seq(|sections|, i requires 0 <= i < |sections| => Item(sections[i], i, false))
  }

  /** The siblings in the window; below the one asked about, its children. */
  function Level(siblings: seq<Section>, id: SectionId, indent: nat, kids: seq<Section>): seq<Item> {
    if siblings == [] then []
    else
      var s := Last(siblings);
      Level(Init(siblings), id, indent, kids) + [Item(s, indent, s.id == id)]
      + if s.id == id then Flat(kids, indent + 1) else []
  }

  /** Where an id first stands among siblings; their number when it does not. */
  function IndexOf(siblings: seq<Section>, id: SectionId): (i: nat)
    ensures i <= |siblings|
    ensures i < |siblings| ==> siblings[i].id == id
    ensures forall k :: 0 <= k < i ==> siblings[k].id != id
  {
    if siblings == [] || siblings[0].id == id then 0 else 1 + IndexOf(siblings[1..], id)
  }

  /** Python's `s[start:stop]`; a negative stop counts from the end. */
  function Slice<T>(s: seq<T>, start: nat, stop: int): seq<T> {
    var end := if stop < 0 then Max(0, |s| + stop) else Min(stop, |s|);
    if start >= end then [] else s[start..end]
  }

  function Around(siblings: seq<Section>, index: nat, steps: int): seq<Section> {
    Slice(siblings, Max(0, index - steps), index + steps + 1)
  }

  /** Everything to be listed around a section, in order. */
  function Items(sections: seq<Section>, section: Section, steps: int): seq<Item> {
    var ancestors := Reversed(Climb(sections, {section.id}, section.parent));
    var siblings := Kids(sections, section.parent);
    Stairs(ancestors)
    + Level(Around(siblings, IndexOf(siblings, section.id), steps), section.id, |ancestors|,
            Kids(sections, Some(section.id)))
  }

  /** A line of the neighborhood, with its mark when it is the section asked about. */
  datatype NearLine = NearLine(line: Line, current: bool)

  predicate Listed(items: seq<Item>, id: SectionId) { exists i :: 0 <= i < |items| && items[i].section.id == id }

  /** Each section is listed the first time only. */
  function Rendered(items: seq<Item>, hasRoot: bool): seq<NearLine> {
    if items == [] then []
    else
      var i := Last(items);
      Rendered(Init(items), hasRoot)
      + if Listed(Init(items), i.section.id) then []
        else [NearLine(LineFor(i.section, i.indent, hasRoot), i.current)]
  }

  function NeighborLines(sections: seq<Section>, section: Section, steps: int): seq<NearLine> {
    Rendered(Items(sections, section, steps), HasRoot(sections))
  }

  // ---------------------------------------------------------------------------------------
  // The formatter object
  // ---------------------------------------------------------------------------------------

  function Lookup(m: map<Option<SectionId>, seq<Section>>, parent: Option<SectionId>): seq<Section> {
    if parent in m then m[parent] else []
  }

  method GroupByParent(sections: seq<Section>) returns (m: map<Option<SectionId>, seq<Section>>)
    ensures forall p {:trigger Lookup(m, p)} :: Lookup(m, p) == ChildrenOf(sections, p)
  {
    m := map[];
    var i := 0;
    while i < |sections|
      invariant i <= |sections|
      invariant forall p {:trigger Lookup(m, p)} :: Lookup(m, p) == ChildrenOf(sections[..i], p)
    {
      ghost var before := m;
      m := m[sections[i].parent := Lookup(m, sections[i].parent) + [sections[i]]];
      forall p {:trigger Lookup(m, p)} ensures Lookup(m, p) == ChildrenOf(sections[..i + 1], p) {
        ChildrenOfStep(sections, i, p);
        assert Lookup(before, p) == ChildrenOf(sections[..i], p);
      }
      i := i + 1;
    }
    assert sections[..i] == sections;
  }

  method SortEach(m0: map<Option<SectionId>, seq<Section>>) returns (m: map<Option<SectionId>, seq<Section>>)
    ensures forall p {:trigger Lookup(m, p)} :: Lookup(m, p) == SortByOrdinal(Lookup(m0, p))
  {
    m := m0;
    var todo := m.Keys;
    while todo != {}
      invariant todo <= m.Keys == m0.Keys
      invariant forall p :: p in m0 ==> m[p] == if p in todo then m0[p] else SortByOrdinal(m0[p])
      decreases |todo|
    {
      var p :| p in todo;
      m := m[p := SortByOrdinal(m[p])];
      todo := todo - {p};
    }
  }

  function Find(m: map<SectionId, Section>, id: SectionId): Option<Section> {
    if id in m then Some(m[id]) else None
  }

  method IndexById(sections: seq<Section>) returns (m: map<SectionId, Section>)
    ensures forall id {:trigger Find(m, id)} :: Find(m, id) == ById(sections, id)
  {
    m := map[];
    for k := 0 to |sections|
      invariant forall id {:trigger Find(m, id)} :: Find(m, id) == ById(sections[..k], id)
    {
      ghost var before := m;
      m := m[sections[k].id := sections[k]];
      assert Init(sections[..k + 1]) == sections[..k];
      forall id
        ensures Find(m, id) == ById(sections[..k + 1], id)
      {
        assert Find(before, id) == ById(sections[..k], id);
      }
    }
    assert sections[..|sections|] == sections;
  }

  class OutlineFormatter {
    var hasRoot: bool
    var childrenByParent: map<Option<SectionId>, seq<Section>>
    var sectionsById: map<SectionId, Section>

    ghost predicate Indexes(sections: seq<Section>)
      reads this
    {
      && hasRoot == HasRoot(sections)
      && (forall p {:trigger Lookup(childrenByParent, p)} :: Lookup(childrenByParent, p) == Kids(sections, p))
      && (forall id {:trigger Find(sectionsById, id)} :: Find(sectionsById, id) == ById(sections, id))
    }

    constructor (sections: seq<Section>)
      ensures Indexes(sections)
    {
      hasRoot := HasRoot(sections);
      var grouped := GroupByParent(sections);
      var sorted := SortEach(grouped);
      childrenByParent := sorted;
      var byId := IndexById(sections);
      sectionsById := byId;
    }

    method GlobalOutline(maxLevel: int, ghost sections: seq<Section>) returns (lines: seq<Line>)
      requires WalkEnds(sections, maxLevel) && Indexes(sections)
      ensures lines == GlobalLines(sections, maxLevel)
    {
      lines := [];
      var roots := Lookup(childrenByParent, None);
      KidsExtend(sections, []);
      lines := VisitChildren(roots, 0, 1, maxLevel, lines, sections, []);
    }

    method VisitSection(section: Section, indent: nat, depth: nat, maxLevel: int, lines0: seq<Line>,
                        ghost sections: seq<Section>, ghost path: seq<Section>)
      returns (lines: seq<Line>)
      requires WalkEnds(sections, maxLevel) && Indexes(sections) && Chain(sections, path)
      requires path != [] && path[|path| - 1] == section && depth == |path| == indent + 1
      ensures lines == lines0 + Visit(sections, path, maxLevel)
      decreases Room(sections, path, maxLevel), 1, 0
    {
      hide WalkEnds, Chain, HasRoot, Kids, Visit, VisitAll, LineFor, LinkAt, Room;
      VisitStep(sections, path, maxLevel);
      if 0 < maxLevel < depth {
        return lines0;
      }
      lines := lines0 + [LineFor(section, indent, hasRoot)];
      var children := Lookup(childrenByParent, Some(section.id));
      lines := VisitChildren(children, indent + 1, depth + 1, maxLevel, lines, sections, path);
    }

    method VisitChildren(children: seq<Section>, indent: nat, depth: nat, maxLevel: int, lines0: seq<Line>,
                         ghost sections: seq<Section>, ghost path: seq<Section>)
      returns (lines: seq<Line>)
      requires WalkEnds(sections, maxLevel) && Indexes(sections) && Chain(sections, path)
      requires depth == |path| + 1 == indent + 1 && !Pruned(maxLevel, |path|)
      requires forall s :: s in children ==> s in sections && s.parent == LinkAt(path, |path|)
      ensures lines == lines0 + VisitAll(sections, path, children, maxLevel)
      decreases Room(sections, path, maxLevel), 0, |children|
    {
      hide WalkEnds, Chain, Visit, VisitAll, LinkAt, Indexes;
      lines := lines0;
      var k := 0;
      VisitAllStep(sections, path, children, maxLevel);
      while k < |children|
        invariant k <= |children|
        invariant lines + VisitAll(sections, path, children[k..], maxLevel)
               == lines0 + VisitAll(sections, path, children, maxLevel)
      {
        ghost var below := path + [children[k]];
        ChainExtends(sections, path, children[k]);
        RoomShrinks(sections, path, children[k], maxLevel);
        assert children[k..][1..] == children[k + 1..];
        VisitAllStep(sections, path, children[k..], maxLevel);
        lines := VisitSection(children[k], indent, depth, maxLevel, lines, sections, below);
        k := k + 1;
      }
      VisitAllStep(sections, path, children[k..], maxLevel);
    }

    /** The lines around a section: its ancestors, the siblings within `steps` of it, and its children;
        an unknown id is refused. */
    method Neighborhood(sectionId: SectionId, steps: int, ghost sections: seq<Section>)
      returns (r: Result<seq<NearLine>>)
      requires Indexes(sections)
      ensures r.Err? <==> ById(sections, sectionId).None?
      ensures r.Ok? ==> r.value == NeighborLines(sections, ById(sections, sectionId).value, steps)
    {
      hide Level, Rendered, Listed, Climb, Around, HasRoot, Kids, ById, Stairs, Reversed;
      assert Find(sectionsById, sectionId) == ById(sections, sectionId);
      if sectionId !in sectionsById { return Err("unknown section"); }
      var section := sectionsById[sectionId];
      var siblings := Lookup(childrenByParent, section.parent);
      var children := Lookup(childrenByParent, Some(sectionId));
      var index := FindIndex(siblings, sectionId);
      var visible := Around(siblings, index, steps);
      var ancestors := CollectAncestors(section, sections);
      var lines, rendered := ListAncestors(ancestors);
      lines := ListLevel(visible, sectionId, |ancestors|, children, lines, rendered, Stairs(ancestors));
      r := Ok(lines);
    }

    method FindIndex(siblings: seq<Section>, id: SectionId) returns (index: nat)
      ensures index == IndexOf(siblings, id)
    {
      index := 0;
      while index < |siblings| && siblings[index].id != id
        invariant index <= |siblings| && forall k :: 0 <= k < index ==> siblings[k].id != id
      {
        index := index + 1;
      }
    }

    /** What has been listed so far, as lines and as ids. */
    ghost predicate Shows(lines: seq<NearLine>, rendered: set<SectionId>, items: seq<Item>)
      reads this
    {
      lines == Rendered(items, hasRoot) && forall id :: id in rendered <==> Listed(items, id)
    }

    method ListAncestors(ancestors: seq<Section>) returns (lines: seq<NearLine>, rendered: set<SectionId>)
      ensures Shows(lines, rendered, Stairs(ancestors))
    {
      lines, rendered := [], {};
      for k := 0 to |ancestors|
        invariant Shows(lines, rendered, Stairs(ancestors[..k]))
      {
        assert Stairs(ancestors[..k + 1]) == Stairs(ancestors[..k]) + [Item(ancestors[k], k, false)];
        lines, rendered := AppendNode(ancestors[k], k, false, lines, rendered, Stairs(ancestors[..k]));
      }
      assert ancestors[..|ancestors|] == ancestors;
    }

    method ListLevel(visible: seq<Section>, sectionId: SectionId, indent: nat, children: seq<Section>,
                     lines0: seq<NearLine>, rendered0: set<SectionId>, ghost items0: seq<Item>)
      returns (lines: seq<NearLine>)
      requires Shows(lines0, rendered0, items0)
      ensures lines == Rendered(items0 + Level(visible, sectionId, indent, children), hasRoot)
    {
      hide Rendered, Listed;
      var rendered := rendered0;
      lines := lines0;
      ghost var items := items0;
      assert items0 + [] == items0;
      for k := 0 to |visible|
        invariant items == items0 + Level(visible[..k], sectionId, indent, children)
        invariant Shows(lines, rendered, items)
      {
        LevelGrows(visible, k, sectionId, indent, children, items0);
        var current := visible[k].id == sectionId;
        lines, rendered := AppendNode(visible[k], indent, current, lines, rendered, items);
        items := items + [Item(visible[k], indent, current)];
        if current {
          lines, rendered := ListChildren(children, indent + 1, lines, rendered, items);
          items := items + Flat(children, indent + 1);
        }
      }
      assert visible[..|visible|] == visible;
    }

    method ListChildren(children: seq<Section>, indent: nat, lines0: seq<NearLine>, rendered0: set<SectionId>,
                        ghost items: seq<Item>)
      returns (lines: seq<NearLine>, rendered: set<SectionId>)
      requires Shows(lines0, rendered0, items)
      ensures Shows(lines, rendered, items + Flat(children, indent))
    {
      lines, rendered := lines0, rendered0;
      assert items + Flat(children[..0], indent) == items;
      for k := 0 to |children|
        invariant Shows(lines, rendered, items + Flat(children[..k], indent))
      {
        assert items + Flat(children[..k + 1], indent)
               == items + Flat(children[..k], indent) + [Item(children[k], indent, false)];
        lines, rendered := AppendNode(children[k], indent, false, lines, rendered, items + Flat(children[..k], indent));
      }
      assert children[..|children|] == children;
    }

    /** Climbs to the root, or to where the parents break off or run in a circle. */
    method CollectAncestors(section: Section, ghost sections: seq<Section>) returns (ancestors: seq<Section>)
      requires Indexes(sections)
      ensures ancestors == Reversed(Climb(sections, {section.id}, section.parent))
    {
      hide Reversed, ById, Climb;
      NothingReversed();
      ancestors := [];
      var parentId := section.parent;
      var visited := {section.id};
      var broken := false;
      while parentId.Some? && parentId.value !in visited && !broken
        invariant Reversed(Climb(sections, {section.id}, section.parent))
                  == (if broken then [] else Reversed(Climb(sections, visited, parentId))) + Reversed(ancestors)
        decreases !broken, IdSet(sections) - visited
      {
        assert Find(sectionsById, parentId.value) == ById(sections, parentId.value);
        ClimbStep(sections, visited, parentId.value);
        if parentId.value !in sectionsById {
          broken := true;
        } else {
          var parent := sectionsById[parentId.value];
          ReversedGrows(ancestors, parent);
          ReversedGrows(Climb(sections, visited + {parent.id}, parent.parent), parent);
          ancestors := ancestors + [parent];
          visited := visited + {parent.id};
          parentId := parent.parent;
        }
      }
      if !broken { ClimbStops(sections, visited, parentId); }
      ancestors := Reversed(ancestors);
    }

    method AppendNode(section: Section, indent: nat, current: bool, lines0: seq<NearLine>, rendered0: set<SectionId>,
                      ghost items: seq<Item>)
      returns (lines: seq<NearLine>, rendered: set<SectionId>)
      requires Shows(lines0, rendered0, items)
      ensures Shows(lines, rendered, items + [Item(section, indent, current)])
    {
      assert Init(items + [Item(section, indent, current)]) == items;
      ListedNext(items, Item(section, indent, current));
      lines, rendered := lines0, rendered0;
      if section.id in rendered { return; }
      rendered := rendered + {section.id};
      lines := lines + [NearLine(LineFor(section, indent, hasRoot), current)];
    }
  }

  lemma LevelGrows(visible: seq<Section>, k: nat, id: SectionId, indent: nat, kids: seq<Section>, items: seq<Item>)
    requires k < |visible|
    ensures
      var s := visible[k];
      var before := items + Level(visible[..k], id, indent, kids);
      items + Level(visible[..k + 1], id, indent, kids)
      == if s.id == id then before + [Item(s, indent, true)] + Flat(kids, indent + 1)
         else before + [Item(s, indent, false)]
  {
    assert Init(visible[..k + 1]) == visible[..k];
  }

  lemma NothingReversed()
    ensures Reversed<Section>([]) == []
  {
  }

  lemma ListedNext(items: seq<Item>, item: Item)
    ensures forall id :: Listed(items + [item], id) <==> Listed(items, id) || item.section.id == id
  {
    var all := items + [item];
    forall id
      ensures Listed(all, id) <==> Listed(items, id) || item.section.id == id
    {
      if Listed(items, id) {
        var i :| 0 <= i < |items| && items[i].section.id == id;
        assert all[i].section.id == id;
      }
      if item.section.id == id { assert all[|items|].section.id == id; }
    }
  }
}
