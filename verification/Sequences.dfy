/** Small generic helpers shared by the models. */
module Sequences {

  datatype Option<+T> = None | Some(value: T)

  datatype Result<+T> = Ok(value: T) | Err(error: string)

  function Last<T>(s: seq<T>): T
    requires s != []
  {
    s[|s| - 1]
  }

  function Init<T>(s: seq<T>): seq<T>
    requires s != []
  {
    s[..|s| - 1]
  }

  function Min(a: int, b: int): int { if a < b then a else b }

  function Max(a: int, b: int): int { if a > b then a else b }

  function Reversed<T>(s: seq<T>): (r: seq<T>)
    ensures |r| == |s|
    ensures forall i {:trigger r[i]} :: 0 <= i < |s| ==> r[i] == s[|s| - 1 - i]
  {
    if s == [] then [] else [Last(s)] + Reversed(Init(s))
  }

  lemma ReversedGrows<T>(s: seq<T>, x: T)
    ensures Reversed(s + [x]) == [x] + Reversed(s)
    ensures Reversed([x] + s) == Reversed(s) + [x]
  {
    assert Init(s + [x]) == s;
  }

  /** A slice of what is left after dropping e elements. */
  lemma SliceOfTail<T>(s: seq<T>, e: nat, a: nat, b: nat)
    requires a <= b && e + b <= |s|
    ensures s[e..][a..b] == s[e + a..e + b]
  {
  }

  function Concat(parts: seq<string>): string {
    if parts == [] then "" else parts[0] + Concat(parts[1..])
  }

  lemma ConcatOne(part: string)
    ensures Concat([part]) == part
  {
    assert Concat([part]) == part + Concat([]);
  }

  lemma {:induction false} ConcatSplits(a: seq<string>, b: seq<string>)
    ensures Concat(a + b) == Concat(a) + Concat(b)
  {
    if a == [] {
      assert a + b == b;
    } else {
      assert (a + b)[1..] == a[1..] + b;
      ConcatSplits(a[1..], b);
    }
  }

  lemma SliceExtends<T>(s: seq<T>, a: nat, b: nat)
    requires a <= b < |s|
    ensures s[a..b + 1] == s[a..b] + [s[b]]
  {
  }

  function Flatten<U>(groups: seq<seq<U>>): seq<U> {
    if groups == [] then [] else groups[0] + Flatten(groups[1..])
  }

  lemma FlattenFirst<U>(groups: seq<seq<U>>)
    requires groups != []
    ensures Flatten(groups) == groups[0] + Flatten(groups[1..])
  {
  }

  lemma {:induction false} FlattenGrows<U>(groups: seq<seq<U>>, group: seq<U>)
    ensures Flatten(groups + [group]) == Flatten(groups) + group
  {
    if groups == [] {
      assert groups + [group] == [group];
      assert Flatten([group]) == group + Flatten([]);
    } else {
      assert (groups + [group])[0] == groups[0] && (groups + [group])[1..] == groups[1..] + [group];
      FlattenGrows(groups[1..], group);
    }
  }

  function Filter<T>(s: seq<T>, f: T -> bool): seq<T> {
    if s == [] then [] else (if f(s[0]) then [s[0]] else []) + Filter(s[1..], f)
  }

  lemma {:induction false} FilterSplits<T>(a: seq<T>, b: seq<T>, f: T -> bool)
    ensures Filter(a + b, f) == Filter(a, f) + Filter(b, f)
  {
    hide Filter;
    var ab := a + b;
    if a == [] {
      FilterNone(a, f);
      assert ab == b;
    } else {
      assert ab[0] == a[0] && ab[1..] == a[1..] + b;
      FilterFirst(a, f);
      FilterFirst(ab, f);
      FilterSplits(a[1..], b, f);
    }
  }

  lemma FilterFirst<T>(s: seq<T>, f: T -> bool)
    requires s != []
    ensures Filter(s, f) == if f(s[0]) then [s[0]] + Filter(s[1..], f) else Filter(s[1..], f)
  {
  }

  lemma FilterOne<T>(x: T, f: T -> bool)
    ensures Filter([x], f) == if f(x) then [x] else []
  {
    assert Filter([x], f) == (if f(x) then [x] else []) + Filter([], f);
  }

  lemma {:induction false} FilterAll<T>(s: seq<T>, f: T -> bool)
    requires forall x :: x in s ==> f(x)
    ensures Filter(s, f) == s
  {
    if s != [] {
      assert forall x :: x in s[1..] ==> x in s;
      FilterAll(s[1..], f);
    }
  }

  lemma {:induction false} FilterNone<T>(s: seq<T>, f: T -> bool)
    requires forall x :: x in s ==> !f(x)
    ensures Filter(s, f) == []
  {
    if s != [] {
      assert forall x :: x in s[1..] ==> x in s;
      FilterNone(s[1..], f);
    }
  }

  lemma {:induction false} FilterSame<T>(s: seq<T>, f: T -> bool, g: T -> bool)
    requires forall x :: x in s ==> f(x) == g(x)
    ensures Filter(s, f) == Filter(s, g)
  {
    if s != [] {
      assert forall x :: x in s[1..] ==> x in s;
      FilterSame(s[1..], f, g);
    }
  }

  lemma {:induction false} FilterMembers<T>(s: seq<T>, f: T -> bool)
    ensures forall x :: x in Filter(s, f) <==> x in s && f(x)
  {
    if s != [] { FilterMembers(s[1..], f); }
  }
}
