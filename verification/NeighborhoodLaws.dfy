/** The neighborhood of a section, seen in document order: it is a selection of the global outline. */
module NeighborhoodLaws {
  import opened Sequences
  import opened SectionTree
  import opened SectionLaws
  import opened Outlines
  import opened OutlineLaws

  // ---------------------------------------------------------------------------------------
  // Which sections are near
  // ---------------------------------------------------------------------------------------

  predicate IsAncestor(es: seq<Entry>, a: nat, c: nat)
    requires c < |es|
  {
    a < c && c < Close(es, a)
  }

  predicate IsNearSibling(es: seq<Entry>, m: nat, c: nat, steps: nat)
    requires m < |es| && c < |es|
  {
    var p := Parent(es, c);
    && Parent(es, m) == p
    && ChildCount(es, p, m) <= ChildCount(es, p, c) + steps
    && ChildCount(es, p, c) <= ChildCount(es, p, m) + steps
  }

  /** An ancestor, a sibling at most so many places away (the section itself among them), or a child. */
  predicate IsNear(es: seq<Entry>, m: nat, c: nat, steps: nat)
    requires m < |es| && c < |es|
  {
    IsAncestor(es, m, c) || IsNearSibling(es, m, c, steps) || Parent(es, m) == c
  }

  /** The near sections in document order, each on its line of the global outline. */
  function NearInOrder(o: Outline, c: nat, steps: nat, lo: nat): seq<NearLine>
    requires lo <= |o.entries| && c < |o.entries|
    decreases |o.entries| - lo
  {
    if lo == |o.entries| then []
    else (if IsNear(o.entries, lo, c, steps) then [NearLine(LineOf(o, lo), lo == c)] else [])
         + NearInOrder(o, c, steps, lo + 1)
  }

  // ---------------------------------------------------------------------------------------
  // The positions listed
  // ---------------------------------------------------------------------------------------

  function Ancestors(es: seq<Entry>, c: int): seq<nat>
    requires -1 <= c < |es|
    decreases c + 1
  {
    if c < 0 || Parent(es, c) < 0 then [] else Ancestors(es, Parent(es, c)) + [Parent(es, c)]
  }

  /** Positions of the children of p from c on. */
  function ChildrenAt(es: seq<Entry>, p: int, c: nat): seq<nat>
    requires -1 <= p < |es| && p < c <= Close(es, p)
    decreases Close(es, p) - c
  {
    if c == Close(es, p) then []
    else ClosesWithin(es, p, c); [c] + ChildrenAt(es, p, Close(es, c))
  }

  function SectionsAt(o: Outline, ps: seq<nat>): (r: seq<Section>)
    requires forall k {:trigger ps[k]} :: 0 <= k < |ps| ==> ps[k] < |o.entries|
    ensures |r| == |ps|
    ensures forall k {:trigger r[k]} :: 0 <= k < |ps| ==> r[k] == SectionOf(o, ps[k])
  {
    seq(|ps|, k requires 0 <= k < |ps| => SectionOf(o, ps[k]))
  }

  lemma {:induction false} AncestorsAre(es: seq<Entry>, c: nat)
    requires c < |es|
    ensures Increasing(Ancestors(es, c))
    ensures forall k {:trigger Ancestors(es, c)[k]} :: 0 <= k < |Ancestors(es, c)| ==>
              IsAncestor(es, Ancestors(es, c)[k], c)
    ensures forall a: nat :: IsAncestor(es, a, c) ==> a in Ancestors(es, c)
    decreases c
  {
    var p := Parent(es, c);
    if p < 0 {
      forall a: nat | a < c
        ensures c >= Close(es, a)
      {
        if c < Close(es, a) { ParentStaysInside(es, a, c); }
      }
    } else {
      AncestorsAre(es, p);
      ChildLiesInParent(es, c);
      var above := Ancestors(es, p);
      forall k | 0 <= k < |above|
        ensures IsAncestor(es, above[k], c) && above[k] < p
      {
        assert IsAncestor(es, above[k], p);
        SubtreesNest(es, above[k], p);
      }
      forall a: nat | IsAncestor(es, a, c)
        ensures a in Ancestors(es, c)
      {
        ParentStaysInside(es, a, c);
        if a < p {
          assert IsAncestor(es, a, p);
          assert a in above;
        } else {
          assert (above + [p])[|above|] == p;
        }
      }
    }
  }

  lemma {:induction false} NoChildrenYet(es: seq<Entry>, p: int, n: nat)
    requires n <= |es| && n <= p + 1
    ensures ChildCount(es, p, n) == 0
    decreases n
  {
    if n > 0 { NoChildrenYet(es, p, n - 1); }
  }

  lemma {:induction false} CountStays(es: seq<Entry>, p: int, a: nat, b: nat)
    requires a <= b <= |es| && forall m {:trigger Parent(es, m)} :: a <= m < b ==> Parent(es, m) != p
    ensures ChildCount(es, p, b) == ChildCount(es, p, a)
    decreases b
  {
    if a < b { CountStays(es, p, a, b - 1); }
  }

  /** The children of p from c on, in document order and numbered in that order. */
  lemma {:induction false} ChildrenAtAre(es: seq<Entry>, p: int, c: nat)
    requires -1 <= p < |es| && IsChildOrEnd(es, p, c)
    ensures Increasing(ChildrenAt(es, p, c))
    ensures forall m: nat :: m in ChildrenAt(es, p, c) <==> c <= m < Close(es, p) && Parent(es, m) == p
    ensures forall k {:trigger ChildrenAt(es, p, c)[k]} :: 0 <= k < |ChildrenAt(es, p, c)| ==>
              ChildrenAt(es, p, c)[k] < |es|
              && ChildCount(es, p, ChildrenAt(es, p, c)[k]) == ChildCount(es, p, c) + k
    decreases Close(es, p) - c
  {
    if c < Close(es, p) {
      var d := Close(es, c);
      NextSibling(es, p, c);
      ClosesWithin(es, p, c);
      var rest := ChildrenAt(es, p, d);
      assert ChildrenAt(es, p, c) == [c] + rest;
      CountsOneMore(es, p, c, d);
      hide Parent, Close, ChildCount, ChildrenAt, Increasing;
      ChildrenAtAre(es, p, d);
      PutFirst(c, rest);
      NumberFirst(es, p, c, d, rest);
      forall m: nat
        ensures m in [c] + rest <==> c <= m < Close(es, p) && Parent(es, m) == p
      {
        if c < m < d { assert Parent(es, m) >= c; }
      }
    }
  }

  /** Nothing between a child and the end of its subtree is another child of the same parent. */
  lemma CountsOneMore(es: seq<Entry>, p: int, c: nat, d: nat)
    requires c < d <= |es| && p < c && Parent(es, c) == p
    requires forall m: nat :: c < m < d ==> Parent(es, m) >= c
    ensures ChildCount(es, p, d) == ChildCount(es, p, c) + 1
  {
    hide Parent;
    CountStays(es, p, c + 1, d);
  }

  lemma NumberFirst(es: seq<Entry>, p: int, c: nat, d: nat, rest: seq<nat>)
    requires c < |es| && d <= |es| && ChildCount(es, p, d) == ChildCount(es, p, c) + 1
    requires forall k {:trigger rest[k]} :: 0 <= k < |rest| ==>
               rest[k] < |es| && ChildCount(es, p, rest[k]) == ChildCount(es, p, d) + k
    ensures
      var all := [c] + rest;
      forall k {:trigger all[k]} :: 0 <= k < |all| ==>
        all[k] < |es| && ChildCount(es, p, all[k]) == ChildCount(es, p, c) + k
  {
    hide ChildCount;
    var all := [c] + rest;
    assert forall k {:trigger all[k]} :: 0 < k < |all| ==> all[k] == rest[k - 1];
  }

  lemma PutFirst(c: nat, rest: seq<nat>)
    requires Increasing(rest) && forall m: nat :: m in rest ==> c < m
    ensures Increasing([c] + rest)
    ensures forall m: nat :: m in [c] + rest <==> m == c || m in rest
  {
    var all := [c] + rest;
    forall i, j | 0 <= i < j < |all|
      ensures all[i] < all[j]
    {
      assert all[j] == rest[j - 1] && rest[j - 1] in rest;
    }
  }

  /** Children of p: numbered from zero, in document order. */
  lemma AllChildren(es: seq<Entry>, p: int)
    requires -1 <= p < |es|
    ensures Increasing(ChildrenAt(es, p, p + 1))
    ensures forall m: nat :: m in ChildrenAt(es, p, p + 1) <==> m < |es| && Parent(es, m) == p
    ensures forall k {:trigger ChildrenAt(es, p, p + 1)[k]} :: 0 <= k < |ChildrenAt(es, p, p + 1)| ==>
              ChildrenAt(es, p, p + 1)[k] < |es| && ChildCount(es, p, ChildrenAt(es, p, p + 1)[k]) == k
  {
    FirstChild(es, p);
    ChildrenAtAre(es, p, p + 1);
    NoChildrenYet(es, p, p + 1);
    forall m: nat | m < |es| && Parent(es, m) == p
      ensures p < m < Close(es, p)
    {
      ChildrenLieInside(es, p, m);
    }
  }

  lemma {:induction false} ChildrenFromAre(o: Outline, p: int, c: nat)
    requires -1 <= p < |o.entries| && IsChildOrEnd(o.entries, p, c)
    ensures forall k {:trigger ChildrenAt(o.entries, p, c)[k]} :: 0 <= k < |ChildrenAt(o.entries, p, c)| ==>
              ChildrenAt(o.entries, p, c)[k] < |o.entries|
    ensures ChildrenFrom(o, p, c) == SectionsAt(o, ChildrenAt(o.entries, p, c))
    decreases Close(o.entries, p) - c
  {
    hide Parent, Close, SectionOf;
    if c < Close(o.entries, p) {
      var d := Close(o.entries, c);
      NextSibling(o.entries, p, c);
      ClosesWithin(o.entries, p, c);
      ChildrenFromAre(o, p, d);
      assert ChildrenAt(o.entries, p, c) == [c] + ChildrenAt(o.entries, p, d);
      assert ChildrenFrom(o, p, c) == [SectionOf(o, c)] + ChildrenFrom(o, p, d);
    }
  }

  // ---------------------------------------------------------------------------------------
  // Climbing finds the ancestors
  // ---------------------------------------------------------------------------------------

  lemma {:induction false} ByIdFinds(sections: seq<Section>, s: Section)
    requires DistinctIds(sections) && s in sections
    ensures ById(sections, s.id) == Some(s)
  {
    ByIdIsSome(sections, s);
  }

  lemma {:induction false} ByIdIsSome(sections: seq<Section>, s: Section)
    requires s in sections
    ensures ById(sections, s.id).Some?
  {
    if Last(sections).id != s.id {
      assert sections == Init(sections) + [Last(sections)];
      ByIdIsSome(Init(sections), s);
    }
  }

  lemma {:induction false} ClimbIsPath(o: Outline, stored: seq<Section>, visited: set<SectionId>, p: int)
    requires WellFormed(o) && Stores(o, stored) && -1 <= p < |o.entries|
    requires forall id :: id in visited ==>
      exists q: nat {:trigger IdOf(o, q)} :: p < q < |o.entries| && id == IdOf(o, q)
    ensures Reversed(Climb(stored, visited, ParentId(o, p))) == PathTo(o, p)
    decreases p + 1
  {
    if p < 0 {
      NothingReversed();
    } else {
      hide Reversed;
      var s := SectionOf(o, p);
      if s.id in visited {
        var q: nat :| p < q < |o.entries| && s.id == IdOf(o, q);
        IdsAreDistinct(o, p, q);
      }
      assert s == Sections(o)[p];
      StoredMembers(o, stored, s);
      StoredIdsAreDistinct(o, stored);
      ByIdFinds(stored, s);
      forall id | id in visited + {s.id}
        ensures exists q: nat {:trigger IdOf(o, q)} :: Parent(o.entries, p) < q < |o.entries| && id == IdOf(o, q)
      {
        if id in visited {
          var q: nat :| p < q < |o.entries| && id == IdOf(o, q);
        } else {
          assert id == IdOf(o, p);
        }
      }
      ClimbIsPath(o, stored, visited + {s.id}, Parent(o.entries, p));
      ReversedGrows(Climb(stored, visited + {s.id}, s.parent), s);
    }
  }

  lemma {:induction false} PathIsAncestors(o: Outline, c: nat)
    requires c < |o.entries|
    ensures forall k {:trigger Ancestors(o.entries, c)[k]} :: 0 <= k < |Ancestors(o.entries, c)| ==>
              Ancestors(o.entries, c)[k] < |o.entries| && Depth(o.entries, Ancestors(o.entries, c)[k]) == k + 1
    ensures |Ancestors(o.entries, c)| == Depth(o.entries, c) - 1
    ensures PathTo(o, Parent(o.entries, c)) == SectionsAt(o, Ancestors(o.entries, c))
    decreases c
  {
    var p := Parent(o.entries, c);
    if p >= 0 { PathIsAncestors(o, p); }
  }

  // ---------------------------------------------------------------------------------------
  // The items are the near sections
  // ---------------------------------------------------------------------------------------

  ghost predicate Inside(o: Outline, ps: seq<nat>) {
    forall k {:trigger ps[k]} :: 0 <= k < |ps| ==> ps[k] < |o.entries|
  }

  /** Sections at these positions, each indented by its depth. */
  function ItemsAt(o: Outline, c: nat, ps: seq<nat>): (r: seq<Item>)
    requires Inside(o, ps)
    ensures |r| == |ps|
    ensures forall k {:trigger r[k]} :: 0 <= k < |ps| ==>
              r[k] == Item(SectionOf(o, ps[k]), Depth(o.entries, ps[k]) - 1, ps[k] == c)
  {
    seq(|ps|, k requires 0 <= k < |ps| => Item(SectionOf(o, ps[k]), Depth(o.entries, ps[k]) - 1, ps[k] == c))
  }

  lemma ItemsAtSplit(o: Outline, c: nat, a: seq<nat>, b: seq<nat>)
    requires Inside(o, a) && Inside(o, b)
    ensures Inside(o, a + b) && ItemsAt(o, c, a + b) == ItemsAt(o, c, a) + ItemsAt(o, c, b)
  {
  }

  /** The window of siblings with the children put behind the section itself. */
  function WithKids(window: seq<nat>, c: nat, kids: seq<nat>): seq<nat> {
    if window == [] then []
    else WithKids(Init(window), c, kids) + [Last(window)] + if Last(window) == c then kids else []
  }

  lemma {:induction false} LevelIs(o: Outline, c: nat, window: seq<nat>, kids: seq<nat>)
    requires WellFormed(o) && c < |o.entries| && Inside(o, window) && Inside(o, kids) && c !in kids
    requires forall k {:trigger window[k]} :: 0 <= k < |window| ==> Depth(o.entries, window[k]) == Depth(o.entries, c)
    requires forall k {:trigger kids[k]} :: 0 <= k < |kids| ==> Depth(o.entries, kids[k]) == Depth(o.entries, c) + 1
    ensures Inside(o, WithKids(window, c, kids))
    ensures Level(SectionsAt(o, window), IdOf(o, c), Depth(o.entries, c) - 1, SectionsAt(o, kids))
            == ItemsAt(o, c, WithKids(window, c, kids))
    decreases |window|
  {
    hide Depth, Parent, WellFormed, PartialSection, ItemsAt, Level, WithKids, SectionsAt, IdOf, Flat;
    if window == [] {
      NoLevel(o, c, kids);
    } else {
      var last := Last(window);
      var early := WithKids(Init(window), c, kids);
      LevelIs(o, c, Init(window), kids);
      SectionsAtInit(o, window);
      SectionId(o, last);
      LevelStep(SectionsAt(o, window), IdOf(o, c), Depth(o.entries, c) - 1, SectionsAt(o, kids));
      WithKidsStep(window, c, kids);
      ItemsAtSplit(o, c, early, [last]);
      if last == c {
        FlatIs(o, c, kids);
        ItemsAtSplit(o, c, early + [last], kids);
      } else {
        OtherId(o, last, c);
      }
    }
  }

  lemma OtherId(o: Outline, m: nat, c: nat)
    requires WellFormed(o) && m < |o.entries| && c < |o.entries| && m != c
    ensures IdOf(o, m) != IdOf(o, c)
  {
    if IdOf(o, m) == IdOf(o, c) { IdsAreDistinct(o, m, c); }
  }

  lemma NoLevel(o: Outline, c: nat, kids: seq<nat>)
    requires c < |o.entries| && Inside(o, kids)
    ensures Inside(o, []) && WithKids([], c, kids) == [] && ItemsAt(o, c, []) == []
    ensures Level(SectionsAt(o, []), IdOf(o, c), Depth(o.entries, c) - 1, SectionsAt(o, kids)) == []
  {
  }

  lemma SectionId(o: Outline, c: nat)
    requires c < |o.entries|
    ensures SectionOf(o, c).id == IdOf(o, c)
  {
  }

  lemma SectionsAtInit(o: Outline, ps: seq<nat>)
    requires Inside(o, ps) && ps != []
    ensures Inside(o, Init(ps)) && SectionsAt(o, ps) != []
    ensures Init(SectionsAt(o, ps)) == SectionsAt(o, Init(ps)) && Last(SectionsAt(o, ps)) == SectionOf(o, Last(ps))
  {
  }

  lemma LevelStep(siblings: seq<Section>, id: SectionId, indent: nat, kids: seq<Section>)
    requires siblings != []
    ensures
      var s := Last(siblings);
      Level(siblings, id, indent, kids)
      == if s.id == id then Level(Init(siblings), id, indent, kids) + [Item(s, indent, true)] + Flat(kids, indent + 1)
         else Level(Init(siblings), id, indent, kids) + [Item(s, indent, false)]
  {
  }

  lemma WithKidsStep(window: seq<nat>, c: nat, kids: seq<nat>)
    requires window != []
    ensures
      var early := WithKids(Init(window), c, kids);
      WithKids(window, c, kids)
      == if Last(window) == c then early + [Last(window)] + kids else early + [Last(window)]
  {
  }

  lemma FlatIs(o: Outline, c: nat, kids: seq<nat>)
    requires c < |o.entries| && Inside(o, kids) && c !in kids
    requires forall k {:trigger kids[k]} :: 0 <= k < |kids| ==> Depth(o.entries, kids[k]) == Depth(o.entries, c) + 1
    ensures Flat(SectionsAt(o, kids), Depth(o.entries, c)) == ItemsAt(o, c, kids)
  {
    hide Depth, PartialSection;
    forall k | 0 <= k < |kids|
      ensures kids[k] != c
    {
      assert kids[k] in kids;
    }
  }

  function Siblings(es: seq<Entry>, c: nat): seq<nat>
    requires c < |es|
  {
    ChildrenAt(es, Parent(es, c), Parent(es, c) + 1)
  }

  function Low(i: nat, steps: nat): nat { if i < steps then 0 else i - steps }

  function High(i: nat, steps: nat, n: nat): nat { if i + steps + 1 > n then n else i + steps + 1 }

  /** Positions of everything listed around c. */
  function Nearby(es: seq<Entry>, c: nat, steps: nat): seq<nat>
    requires c < |es| && ChildCount(es, Parent(es, c), c) < |Siblings(es, c)|
  {
    var i := ChildCount(es, Parent(es, c), c);
    var siblings := Siblings(es, c);
    Ancestors(es, c) + WithKids(siblings[Low(i, steps)..High(i, steps, |siblings|)], c, ChildrenAt(es, c, c + 1))
  }

  /** Where c stands among its siblings is its ordinal. */
  lemma OwnPlace(es: seq<Entry>, c: nat)
    requires c < |es|
    ensures var i := ChildCount(es, Parent(es, c), c); i < |Siblings(es, c)| && Siblings(es, c)[i] == c
  {
    AllChildren(es, Parent(es, c));
    var siblings := Siblings(es, c);
    assert c in siblings;
    var k :| 0 <= k < |siblings| && siblings[k] == c;
  }

  /** A window of consecutively numbered positions holds those whose numbers lie in it. */
  lemma WindowHolds(numbers: nat -> int, places: seq<nat>, lo: nat, hi: nat)
    requires lo <= hi <= |places| && Increasing(places)
    requires forall k {:trigger places[k]} :: 0 <= k < |places| ==> numbers(places[k]) == k
    ensures Increasing(places[lo..hi])
    ensures forall m: nat :: m in places[lo..hi] <==> m in places && lo <= numbers(m) < hi
  {
    var window := places[lo..hi];
    forall m: nat
      ensures m in window <==> m in places && lo <= numbers(m) < hi
    {
      if m in window {
        var k :| 0 <= k < |window| && window[k] == m;
        assert places[lo + k] == m;
      }
      if m in places && lo <= numbers(m) < hi {
        var k :| 0 <= k < |places| && places[k] == m;
        assert window[k - lo] == m;
      }
    }
  }

  /** The window of siblings holds exactly the near ones, in order. */
  lemma WindowIsNear(es: seq<Entry>, c: nat, steps: nat)
    requires c < |es|
    ensures
      var i := ChildCount(es, Parent(es, c), c);
      var siblings := Siblings(es, c);
      && i < |siblings|
      && var window := siblings[Low(i, steps)..High(i, steps, |siblings|)];
         Increasing(window) && forall m: nat :: m in window <==> m < |es| && IsNearSibling(es, m, c, steps)
  {
    var p := Parent(es, c);
    var i := ChildCount(es, p, c);
    AllChildren(es, p);
    OwnPlace(es, c);
    var siblings := Siblings(es, c);
    var lo, hi := Low(i, steps), High(i, steps, |siblings|);
    hide Parent, ChildCount, ChildrenAt, Siblings, Increasing;
    var numbers := (m: nat) => if m < |es| then ChildCount(es, p, m) as int else -1;
    WindowHolds(numbers, siblings, lo, hi);
    forall m: nat
      ensures m in siblings[lo..hi] <==> m < |es| && IsNearSibling(es, m, c, steps)
    {
      if m < |es| && Parent(es, m) == p {
        assert m in siblings;
        var k :| 0 <= k < |siblings| && siblings[k] == m;
      }
    }
  }

  lemma {:induction false} WithKidsAre(window: seq<nat>, c: nat, kids: seq<nat>, bound: nat)
    requires Increasing(window) && Increasing(kids)
    requires forall k: nat :: k in kids ==> c < k < bound
    requires forall w: nat :: w in window && w > c ==> w >= bound
    ensures Increasing(WithKids(window, c, kids))
    ensures forall m: nat :: m in WithKids(window, c, kids) <==> m in window || (c in window && m in kids)
    decreases |window|
  {
    hide Increasing;
    if window == [] {
      Nothing(c, kids);
    } else {
      var early, last := Init(window), Last(window);
      IncreasingInit(window);
      WithKidsAre(early, c, kids, bound);
      WithKidsStep(window, c, kids);
      hide WithKids;
      var before := WithKids(early, c, kids);
      assert last in window;
      forall x: nat | x in before
        ensures x < last
      {
        assert x in early || (c in early && x in kids);
      }
      PutLast(before, last);
      if last == c { Joined(before + [last], kids); }
    }
  }

  lemma PutLast(a: seq<nat>, last: nat)
    requires Increasing(a) && forall x: nat :: x in a ==> x < last
    ensures Increasing(a + [last])
    ensures forall m: nat :: m in a + [last] <==> m in a || m == last
  {
    Joined(a, [last]);
  }

  lemma Nothing(c: nat, kids: seq<nat>)
    ensures Increasing([]) && WithKids([], c, kids) == []
  {
  }

  lemma IncreasingInit(window: seq<nat>)
    requires Increasing(window) && window != []
    ensures Increasing(Init(window)) && Increasing([Last(window)])
    ensures forall m: nat :: m in window <==> m in Init(window) || m == Last(window)
    ensures forall m: nat :: m in Init(window) ==> m < Last(window)
  {
    var early, last := Init(window), Last(window);
    assert window == early + [last];
    forall i | 0 <= i < |early|
      ensures early[i] == window[i] && early[i] < last
    {
      assert window[i] < window[|window| - 1];
    }
  }

  lemma Joined(a: seq<nat>, b: seq<nat>)
    requires Increasing(a) && Increasing(b)
    requires forall x: nat, y: nat :: x in a && y in b ==> x < y
    ensures Increasing(a + b)
    ensures forall m: nat :: m in a + b <==> m in a || m in b
  {
    var ab := a + b;
    forall i, j | 0 <= i < j < |ab|
      ensures ab[i] < ab[j]
    {
      if i < |a| <= j { assert a[i] in a && b[j - |a|] in b; }
    }
  }

  /** The positions listed are increasing, and exactly the near ones. */
  lemma NearbyIsNear(es: seq<Entry>, c: nat, steps: nat)
    requires c < |es|
    ensures ChildCount(es, Parent(es, c), c) < |Siblings(es, c)|
    ensures Increasing(Nearby(es, c, steps))
    ensures forall m: nat :: m in Nearby(es, c, steps) <==> m < |es| && IsNear(es, m, c, steps)
  {
    var p := Parent(es, c);
    var i := ChildCount(es, p, c);
    OwnPlace(es, c);
    var siblings := Siblings(es, c);
    var window := siblings[Low(i, steps)..High(i, steps, |siblings|)];
    var kids := ChildrenAt(es, c, c + 1);
    WindowIsNear(es, c, steps);
    AllChildren(es, c);
    forall k: nat | k in kids
      ensures c < k < Close(es, c)
    {
      ChildrenLieInside(es, c, k);
    }
    forall w: nat | w in window
      ensures p < w && (w > c ==> w >= Close(es, c))
    {
      if c < w < Close(es, c) { ParentStaysInside(es, c, w); }
    }
    WithKidsAre(window, c, kids, Close(es, c));
    AncestorsAre(es, c);
    var above := Ancestors(es, c);
    forall a: nat | a in above
      ensures a <= p && IsAncestor(es, a, c)
    {
      var k :| 0 <= k < |above| && above[k] == a;
      ParentStaysInside(es, a, c);
    }
    forall m: nat | m in WithKids(window, c, kids)
      ensures p < m
    {
    }
    assert c in window;
    hide Parent, Close, ChildCount, Ancestors, ChildrenAt, WithKids;
    Joined(above, WithKids(window, c, kids));
  }

  lemma IndexIs(o: Outline, places: seq<nat>, i: nat)
    requires WellFormed(o) && Inside(o, places) && Increasing(places) && i < |places|
    ensures IndexOf(SectionsAt(o, places), IdOf(o, places[i])) == i
  {
    var at := IndexOf(SectionsAt(o, places), IdOf(o, places[i]));
    SectionId(o, places[i]);
    assert SectionsAt(o, places)[i].id == IdOf(o, places[i]);
    SectionId(o, places[at]);
    IdsAreDistinct(o, places[at], places[i]);
  }

  lemma SliceOfSections(o: Outline, places: seq<nat>, lo: nat, hi: nat)
    requires Inside(o, places) && lo <= hi <= |places|
    ensures Inside(o, places[lo..hi]) && SectionsAt(o, places)[lo..hi] == SectionsAt(o, places[lo..hi])
  {
  }

  lemma AroundIs(o: Outline, c: nat, steps: nat)
    requires WellFormed(o) && c < |o.entries|
    ensures
      var es := o.entries;
      var i := ChildCount(es, Parent(es, c), c);
      var siblings := Siblings(es, c);
      && i < |siblings| && Inside(o, siblings)
      && IndexOf(SectionsAt(o, siblings), IdOf(o, c)) == i
      && Inside(o, siblings[Low(i, steps)..High(i, steps, |siblings|)])
      && Outlines.Around(SectionsAt(o, siblings), i, steps)
         == SectionsAt(o, siblings[Low(i, steps)..High(i, steps, |siblings|)])
  {
    var es := o.entries;
    var i := ChildCount(es, Parent(es, c), c);
    var siblings := Siblings(es, c);
    OwnPlace(es, c);
    AllChildren(es, Parent(es, c));
    hide Siblings, ChildCount, Parent, IdOf, WellFormed, Increasing, SectionOf, SectionsAt, Outlines.Around, Low, High;
    IndexIs(o, siblings, i);
    AroundIsSlice(SectionsAt(o, siblings), i, steps);
    SliceOfSections(o, siblings, Low(i, steps), High(i, steps, |siblings|));
  }

  lemma AroundIsSlice(s: seq<Section>, i: nat, steps: nat)
    requires i < |s|
    ensures Low(i, steps) <= High(i, steps, |s|) <= |s|
    ensures Outlines.Around(s, i, steps) == s[Low(i, steps)..High(i, steps, |s|)]
  {
  }

  lemma AncestorsLookedUp(o: Outline, stored: seq<Section>, c: nat)
    requires WellFormed(o) && Stores(o, stored) && c < |o.entries|
    ensures Inside(o, Ancestors(o.entries, c))
    ensures Reversed(Climb(stored, {IdOf(o, c)}, ParentId(o, Parent(o.entries, c))))
         == SectionsAt(o, Ancestors(o.entries, c))
  {
    hide Ancestors, WellFormed, Depth, PartialSection, Climb, PathTo, Reversed, IdOf, ParentId, Stores;
    ClimbIsPath(o, stored, {IdOf(o, c)}, Parent(o.entries, c));
    PathIsAncestors(o, c);
  }

  lemma ChildrenLookedUp(o: Outline, stored: seq<Section>, p: int)
    requires WellFormed(o) && Stores(o, stored) && -1 <= p < |o.entries|
    ensures Inside(o, ChildrenAt(o.entries, p, p + 1))
    ensures Kids(stored, ParentId(o, p)) == SectionsAt(o, ChildrenAt(o.entries, p, p + 1))
  {
    hide WellFormed, Kids, ChildrenFrom, ParentId, Stores, ChildrenAt, PartialSection, Close, Parent;
    KidsAre(o, stored, p);
    FirstChild(o.entries, p);
    ChildrenFromAre(o, p, p + 1);
  }

  lemma DepthsAround(es: seq<Entry>, c: nat)
    requires c < |es|
    ensures forall k {:trigger Siblings(es, c)[k]} :: 0 <= k < |Siblings(es, c)| ==>
              Siblings(es, c)[k] < |es| && Depth(es, Siblings(es, c)[k]) == Depth(es, c)
    ensures forall k {:trigger ChildrenAt(es, c, c + 1)[k]} :: 0 <= k < |ChildrenAt(es, c, c + 1)| ==>
              ChildrenAt(es, c, c + 1)[k] < |es| && Depth(es, ChildrenAt(es, c, c + 1)[k]) == Depth(es, c) + 1
    ensures c !in ChildrenAt(es, c, c + 1)
  {
    var siblings, kids := Siblings(es, c), ChildrenAt(es, c, c + 1);
    AllChildren(es, Parent(es, c));
    AllChildren(es, c);
    forall k | 0 <= k < |siblings|
      ensures siblings[k] < |es| && Parent(es, siblings[k]) == Parent(es, c)
    {
      assert siblings[k] in siblings;
    }
    forall k | 0 <= k < |kids|
      ensures kids[k] < |es| && Parent(es, kids[k]) == c
    {
      assert kids[k] in kids;
    }
  }

  /** Ancestors come down step by step. */
  lemma StairsAre(o: Outline, c: nat)
    requires c < |o.entries|
    ensures Inside(o, Ancestors(o.entries, c))
    ensures Stairs(SectionsAt(o, Ancestors(o.entries, c))) == ItemsAt(o, c, Ancestors(o.entries, c))
  {
    PathIsAncestors(o, c);
    AncestorsAre(o.entries, c);
    var above := Ancestors(o.entries, c);
    hide Depth, PartialSection;
    forall k | 0 <= k < |above|
      ensures above[k] < |o.entries| && Depth(o.entries, above[k]) == k + 1 && above[k] != c
    {
      assert IsAncestor(o.entries, above[k], c);
    }
  }

  lemma ItemsAre(o: Outline, stored: seq<Section>, c: nat, steps: nat)
    requires WellFormed(o) && Stores(o, stored) && c < |o.entries|
    requires ChildCount(o.entries, Parent(o.entries, c), c) < |Siblings(o.entries, c)|
    ensures Inside(o, Nearby(o.entries, c, steps))
    ensures Items(stored, SectionOf(o, c), steps) == ItemsAt(o, c, Nearby(o.entries, c, steps))
  {
    var es := o.entries;
    var p := Parent(es, c);
    var i := ChildCount(es, p, c);
    var siblings := Siblings(es, c);
    var window := siblings[Low(i, steps)..High(i, steps, |siblings|)];
    var kids := ChildrenAt(es, c, c + 1);
    var section := SectionOf(o, c);
    assert section.id == IdOf(o, c) && section.parent == ParentId(o, p);
    AncestorsLookedUp(o, stored, c);
    ChildrenLookedUp(o, stored, p);
    ChildrenLookedUp(o, stored, c);
    assert ParentId(o, c) == Some(IdOf(o, c));
    AroundIs(o, c, steps);
    DepthsAround(es, c);
    AncestorCount(o, c);
    LevelAround(o, c, window, kids);
    StairsAre(o, c);
    hide Parent, ChildCount, ChildrenAt, Siblings, Ancestors, WellFormed, Depth, SectionOf, PartialSection, Climb, Kids,
         Level, WithKids, IdOf, ParentId, SectionsAt, ItemsAt, Stairs, Low, High, Inside, Reversed, Stores,
         Outlines.Around;
    ItemsAtSplit(o, c, Ancestors(es, c), WithKids(window, c, kids));
  }

  lemma AncestorCount(o: Outline, c: nat)
    requires c < |o.entries|
    ensures |Ancestors(o.entries, c)| == Depth(o.entries, c) - 1
  {
    PathIsAncestors(o, c);
  }

  lemma LevelAround(o: Outline, c: nat, window: seq<nat>, kids: seq<nat>)
    requires WellFormed(o) && c < |o.entries| && kids == ChildrenAt(o.entries, c, c + 1)
    requires exists lo, hi :: 0 <= lo <= hi <= |Siblings(o.entries, c)| && window == Siblings(o.entries, c)[lo..hi]
    ensures Inside(o, window) && Inside(o, kids) && Inside(o, WithKids(window, c, kids))
    ensures Level(SectionsAt(o, window), IdOf(o, c), Depth(o.entries, c) - 1, SectionsAt(o, kids))
            == ItemsAt(o, c, WithKids(window, c, kids))
  {
    DepthsAround(o.entries, c);
    hide Siblings, ChildrenAt, Depth, Level, WithKids, WellFormed;
    LevelIs(o, c, window, kids);
  }

  // ---------------------------------------------------------------------------------------
  // Nothing is listed twice
  // ---------------------------------------------------------------------------------------

  function LinesAt(o: Outline, c: nat, ps: seq<nat>): (r: seq<NearLine>)
    requires Inside(o, ps)
    ensures |r| == |ps|
    ensures forall k {:trigger r[k]} :: 0 <= k < |ps| ==> r[k] == NearLine(LineOf(o, ps[k]), ps[k] == c)
  {
    seq(|ps|, k requires 0 <= k < |ps| => NearLine(LineOf(o, ps[k]), ps[k] == c))
  }

  lemma {:induction false} RenderedAre(o: Outline, c: nat, ps: seq<nat>)
    requires WellFormed(o) && Inside(o, ps) && Increasing(ps)
    ensures Rendered(ItemsAt(o, c, ps), HasRoot(Sections(o))) == LinesAt(o, c, ps)
    decreases |ps|
  {
    hide ItemsAt, PartialSection, IdOf, WellFormed, Depth, HasRoot, Listed, Rendered;
    if ps == [] {
      NothingRendered(o, c);
    } else {
      var early, last := Init(ps), Last(ps);
      RenderedAre(o, c, early);
      ItemsAtInit(o, c, ps);
      NotListedYet(o, c, ps);
      RenderedStep(ItemsAt(o, c, ps), HasRoot(Sections(o)));
      assert NearLine(LineOf(o, last), last == c)
             == NearLine(LineFor(SectionOf(o, last), Depth(o.entries, last) - 1, HasRoot(Sections(o))), last == c);
      assert LinesAt(o, c, ps) == LinesAt(o, c, early) + [NearLine(LineOf(o, last), last == c)];
    }
  }

  lemma NothingRendered(o: Outline, c: nat)
    ensures Rendered(ItemsAt(o, c, []), HasRoot(Sections(o))) == LinesAt(o, c, [])
  {
  }

  lemma RenderedStep(items: seq<Item>, hasRoot: bool)
    requires items != [] && !Listed(Init(items), Last(items).section.id)
    ensures
      var i := Last(items);
      Rendered(items, hasRoot)
      == Rendered(Init(items), hasRoot) + [NearLine(LineFor(i.section, i.indent, hasRoot), i.current)]
  {
  }

  lemma ItemsAtInit(o: Outline, c: nat, ps: seq<nat>)
    requires Inside(o, ps) && ps != []
    ensures Inside(o, Init(ps)) && ItemsAt(o, c, ps) != []
    ensures Init(ItemsAt(o, c, ps)) == ItemsAt(o, c, Init(ps))
    ensures Last(ItemsAt(o, c, ps)) == Item(SectionOf(o, Last(ps)), Depth(o.entries, Last(ps)) - 1, Last(ps) == c)
  {
    hide Depth, PartialSection;
  }

  lemma NotListedYet(o: Outline, c: nat, ps: seq<nat>)
    requires WellFormed(o) && Inside(o, ps) && Increasing(ps) && ps != []
    ensures Inside(o, Init(ps)) && !Listed(ItemsAt(o, c, Init(ps)), SectionOf(o, Last(ps)).id)
  {
    var early, last := Init(ps), Last(ps);
    hide Depth;
    forall k | 0 <= k < |early|
      ensures ItemsAt(o, c, early)[k].section.id != SectionOf(o, last).id
    {
      assert ps[k] < ps[|ps| - 1];
      if IdOf(o, ps[k]) == IdOf(o, last) { IdsAreDistinct(o, ps[k], last); }
    }
  }

  // ---------------------------------------------------------------------------------------
  // Main result
  // ---------------------------------------------------------------------------------------

  lemma Leading(ps: seq<nat>, lo: nat)
    requires Increasing(ps) && lo in ps && forall m: nat :: m in ps ==> lo <= m
    ensures ps[0] == lo && Increasing(ps[1..])
    ensures forall m: nat :: m in ps[1..] <==> m in ps && m != lo
  {
    var rest := ps[1..];
    var k :| 0 <= k < |ps| && ps[k] == lo;
    assert ps[0] in ps && ps[k] == lo;
    forall i | 0 <= i < |rest|
      ensures rest[i] == ps[i + 1] && ps[0] < rest[i]
    {
    }
  }

  lemma NoMembers(ps: seq<nat>)
    requires forall m: nat :: m !in ps
    ensures ps == []
  {
    var m := if ps == [] then 0 else ps[0];
    assert ps != [] ==> m in ps;
  }

  /** Increasing positions that are exactly the near ones from lo on give the near lines from lo on. */
  lemma {:induction false} SelectionIs(o: Outline, c: nat, steps: nat, lo: nat, ps: seq<nat>)
    requires c < |o.entries| && lo <= |o.entries| && Inside(o, ps) && Increasing(ps)
    requires forall m: nat :: m in ps <==> lo <= m < |o.entries| && IsNear(o.entries, m, c, steps)
    ensures LinesAt(o, c, ps) == NearInOrder(o, c, steps, lo)
    decreases |o.entries| - lo
  {
    hide LineOf, IsNear, LinesAt, Increasing;
    if lo == |o.entries| {
      NoMembers(ps);
    } else if IsNear(o.entries, lo, c, steps) {
      assert lo in ps;
      Leading(ps, lo);
      var rest := ps[1..];
      assert ps == [lo] + rest;
      SelectionIs(o, c, steps, lo + 1, rest);
    } else {
      SelectionIs(o, c, steps, lo + 1, ps);
    }
  }

  /** For every document, section and number of steps, and every order the sections are stored in, the
      neighborhood is a selection of the global outline: in document order and each once, the lines of
      the section's ancestors, of its siblings within the steps, itself marked among them, and of its
      children. */
  lemma NeighborhoodIsASelection(o: Outline, stored: seq<Section>, c: nat, steps: nat)
    requires WellFormed(o) && Stores(o, stored) && c < |o.entries|
    ensures ById(stored, IdOf(o, c)) == Some(SectionOf(o, c))
    ensures NeighborLines(stored, SectionOf(o, c), steps) == NearInOrder(o, c, steps, 0)
  {
    StoredIdsAreDistinct(o, stored);
    assert SectionOf(o, c) == Sections(o)[c];
    StoredMembers(o, stored, SectionOf(o, c));
    ByIdFinds(stored, SectionOf(o, c));
    SectionId(o, c);
    hide WellFormed, Stores, PartialSection, Nearby, IsNear, ById, Items, Rendered, HasRoot, ChildCount;
    NearbyIsNear(o.entries, c, steps);
    ItemsAre(o, stored, c, steps);
    SameRoot(o, stored);
    RenderedAre(o, c, Nearby(o.entries, c, steps));
    SelectionIs(o, c, steps, 0, Nearby(o.entries, c, steps));
  }
}
