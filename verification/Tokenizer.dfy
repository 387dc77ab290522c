/** The offline token counter: a first-in-first-out cache in front of the encoder, and cutting a text
    into pieces that fit a token limit. */
module Tokenizing {
  import opened Sequences

  const CACHE_SIZE := 4096
  const CHARACTERS_PER_TOKEN := 4

  // ---------------------------------------------------------------------------------------
  // Cutting, for an arbitrary counter
  // ---------------------------------------------------------------------------------------

  /** The end of the first half of a piece, one character at least. */
  function Halved(start: nat, end: nat): (half: nat)
    requires start + 1 < end
    ensures start < half < end
  {
    start + Max(1, (end - start) / 2)
  }

  /** Halve the length until the piece fits; no piece when a single character does not. */
  function FittingEnd(count: string -> nat, text: string, limit: nat, start: nat, end: nat): (r: Option<nat>)
    requires start < end <= |text|
    ensures r.Some? ==> start < r.value <= end
    decreases end - start
  {
    if count(text[start..end]) <= limit then Some(end)
    else if end == start + 1 then None
    else FittingEnd(count, text, limit, start, Halved(start, end))
  }

  lemma {:induction false} FittingEndFits(count: string -> nat, text: string, limit: nat, start: nat, end: nat)
    requires start < end <= |text|
    ensures match FittingEnd(count, text, limit, start, end)
      case Some(e) => count(text[start..e]) <= limit
      case None => count([text[start]]) > limit
    decreases end - start
  {
    if count(text[start..end]) > limit {
      if end == start + 1 {
        assert text[start..end] == [text[start]];
      } else {
        FittingEndFits(count, text, limit, start, Halved(start, end));
      }
    }
  }

  lemma FittingEndStep(count: string -> nat, text: string, limit: nat, start: nat, end: nat)
    requires start < end <= |text|
    ensures FittingEnd(count, text, limit, start, end) ==
      if count(text[start..end]) <= limit then Some(end)
      else if end == start + 1 then None
      else FittingEnd(count, text, limit, start, Halved(start, end))
  {
  }

  /** Where the first try for a piece from start ends. */
  function FirstEnd(text: string, limit: nat, start: nat): (end: nat)
    requires limit > 0 && start < |text|
    ensures start < end <= |text|
  {
    Min(|text|, start + limit * CHARACTERS_PER_TOKEN)
  }

  /** The pieces of the text from start on. */
  function PiecesFrom(count: string -> nat, text: string, limit: nat, start: nat): Result<seq<string>>
    requires limit > 0 && start <= |text|
    decreases |text| - start
  {
    if start == |text| then Ok([])
    else
      var end := FittingEnd(count, text, limit, start, FirstEnd(text, limit, start));
      if end.None? then Err("a Unicode character exceeds max_tokens")
      else Prepend([text[start..end.value]], PiecesFrom(count, text, limit, end.value))
  }

  function SplitText(count: string -> nat, text: string, limit: int): Result<seq<string>> {
    if limit <= 0 then Err("max_tokens must be positive") else PiecesFrom(count, text, limit, 0)
  }

  /** Either some single character is too big, or the pieces are non-empty, fit the limit and spell
      the text. */
  lemma {:induction false} PiecesSpellTheText(count: string -> nat, text: string, limit: nat, start: nat)
    requires limit > 0 && start <= |text|
    ensures match PiecesFrom(count, text, limit, start)
      case Ok(parts) =>
        && Concat(parts) == text[start..]
        && forall k :: 0 <= k < |parts| ==> parts[k] != "" && count(parts[k]) <= limit
      case Err(_) => exists i :: start <= i < |text| && count([text[i]]) > limit
    decreases |text| - start
  {
    if start < |text| {
      var first := FirstEnd(text, limit, start);
      var end := FittingEnd(count, text, limit, start, first);
      FittingEndFits(count, text, limit, start, first);
      if end.Some? {
        PiecesSpellTheText(count, text, limit, end.value);
        hide FittingEnd;
        assert text[start..] == text[start..end.value] + text[end.value..];
      }
    }
  }

  /** n halved the given number of times, never below one. */
  function HalvedTimes(n: nat, times: nat): (r: nat)
    requires n > 0
    ensures 0 < r <= n
    decreases times
  {
    if times == 0 then n else HalvedTimes(if n == 1 then 1 else n / 2, times - 1)
  }

  /** From start on, the first so many halvings of a length are all over the limit. */
  ghost predicate TriedInVain(count: string -> nat, text: string, limit: nat, start: nat, most: nat, times: nat)
    requires 0 < most && start + most <= |text|
  {
    forall j: nat {:trigger HalvedTimes(most, j)} :: j < times ==>
      count(text[start..start + HalvedTimes(most, j)]) > limit
  }

  /** How the next piece is chosen: the first try has four characters per token, or what is left; a try
      over the limit is halved, so the piece is the first of the halvings that fits, and the rest is cut in
      the same way from where it ends. It fails where a single character is over the limit. */
  lemma PieceByHalving(count: string -> nat, text: string, limit: nat, start: nat) returns (times: nat, end: nat)
    requires limit > 0 && start < |text|
    ensures
      var most := if |text| - start < 4 * limit then |text| - start else 4 * limit;
      && end == start + HalvedTimes(most, times) && end <= |text|
      && TriedInVain(count, text, limit, start, most, times)
    ensures match PiecesFrom(count, text, limit, start)
      case Ok(parts) =>
        && parts != [] && parts[0] == text[start..end] && count(parts[0]) <= limit
        && PiecesFrom(count, text, limit, end) == Ok(parts[1..])
      case Err(_) =>
        (end == start + 1 && count([text[start]]) > limit) || PiecesFrom(count, text, limit, end).Err?
  {
    var most := if |text| - start < 4 * limit then |text| - start else 4 * limit;
    var first := FirstEnd(text, limit, start);
    assert first == start + most;
    times, end := EndByHalving(count, text, limit, start, first, most);
    PiecesStep(count, text, limit, start);
    hide FittingEnd, FirstEnd, HalvedTimes, PiecesFrom, TriedInVain;
    OneCharacter(text, start);
    var rest := PiecesFrom(count, text, limit, end);
    if rest.Ok? { assert ([text[start..end]] + rest.value)[1..] == rest.value; }
  }

  lemma OneCharacter(text: string, start: nat)
    requires start < |text|
    ensures text[start..start + 1] == [text[start]]
  {
  }

  lemma {:induction false} EndByHalving(
    count: string -> nat, text: string, limit: nat, start: nat, first: nat, most: nat)
    returns (times: nat, end: nat)
    requires 0 < most && first == start + most <= |text|
    ensures end == start + HalvedTimes(most, times) && end <= |text|
    ensures TriedInVain(count, text, limit, start, most, times)
    ensures match FittingEnd(count, text, limit, start, first)
      case Some(e) => e == end && count(text[start..end]) <= limit
      case None => end == start + 1 && count(text[start..end]) > limit
    decreases most
  {
    if count(text[start..first]) <= limit || most == 1 {
      times, end := 0, first;
    } else {
      var half, later := most / 2, 0;
      later, end := EndByHalving(count, text, limit, start, start + half, half);
      times := later + 1;
      OneMoreInVain(count, text, limit, start, first, most, later);
      hide TriedInVain;
    }
  }

  lemma OneMoreInVain(
    count: string -> nat, text: string, limit: nat, start: nat, first: nat, most: nat, later: nat)
    requires 1 < most && first == start + most <= |text| && count(text[start..first]) > limit
    requires TriedInVain(count, text, limit, start, most / 2, later)
    ensures TriedInVain(count, text, limit, start, most, later + 1)
  {
    forall j: nat {:trigger HalvedTimes(most, j)} | j < later + 1
      ensures count(text[start..start + HalvedTimes(most, j)]) > limit
    {
      if j > 0 { assert HalvedTimes(most, j) == HalvedTimes(most / 2, j - 1); }
    }
  }

  // ---------------------------------------------------------------------------------------
  // The counter object
  // ---------------------------------------------------------------------------------------

  class TokenCounter {
    const encodedLength: string -> nat   // length of the BPE encoding
    var counts: map<string, nat>
    var order: seq<string>               // insertion order of the dict, oldest first

    ghost predicate Valid()
      reads this
    {
      && |order| <= CACHE_SIZE
      && (forall i, j :: 0 <= i < j < |order| ==> order[i] != order[j])
      && (forall t :: t in counts <==> t in order)
      && (forall t :: t in counts ==> counts[t] == encodedLength(t))
    }

    constructor (encodedLength: string -> nat)
      ensures Valid() && this.encodedLength == encodedLength && order == []
    {
      this.encodedLength := encodedLength;
      counts, order := map[], [];
    }

    /** Counting agrees with encoding; a miss evicts the oldest entry when the cache is full. */
    method Count(text: string) returns (value: nat)
      requires Valid()
      modifies this
      ensures Valid() && value == encodedLength(text) && text in counts
      ensures order == if text in old(order) then old(order)
                       else old(order)[if |old(order)| >= 4096 then 1 else 0..] + [text]
    {
      if text in counts {
        return counts[text];
      }
      value := encodedLength(text);
      if |order| >= CACHE_SIZE {
        assert forall t :: t in order <==> t == order[0] || t in order[1..];
        counts := counts - {order[0]};
        order := order[1..];
      }
      counts := counts[text := value];
      order := order + [text];
    }

    /** The inner loop: shrink the end until the piece fits. */
    method Shrink(text: string, limit: nat, start: nat, first: nat) returns (r: Option<nat>)
      requires Valid() && start < first <= |text|
      modifies this
      ensures Valid() && r == FittingEnd(encodedLength, text, limit, start, first)
    {
      hide FittingEnd, Halved, Valid;
      var end := first;
      var n := Count(text[start..end]);
      while n > limit
        invariant Valid() && start < end <= |text| && n == encodedLength(text[start..end])
        invariant FittingEnd(encodedLength, text, limit, start, first)
               == FittingEnd(encodedLength, text, limit, start, end)
        decreases end - start
      {
        FittingEndStep(encodedLength, text, limit, start, end);
        if end == start + 1 {
          return None;
        }
        end := Halved(start, end);
        n := Count(text[start..end]);
      }
      FittingEndStep(encodedLength, text, limit, start, end);
      return Some(end);
    }

    method Split(text: string, limit: int) returns (r: Result<seq<string>>)
      requires Valid()
      modifies this
      ensures Valid() && r == SplitText(encodedLength, text, limit)
    {
      if limit <= 0 {
        return Err("max_tokens must be positive");
      }
      hide FittingEnd, FirstEnd, Prepend, PiecesFrom;
      var parts: seq<string> := [];
      PrependNothing(parts, PiecesFrom(encodedLength, text, limit, 0));
      var start := 0;
      while start < |text|
        invariant Valid() && start <= |text|
        invariant SplitText(encodedLength, text, limit)
               == Prepend(parts, PiecesFrom(encodedLength, text, limit, start))
      {
        var end := Shrink(text, limit, start, FirstEnd(text, limit, start));
        PiecesStep(encodedLength, text, limit, start);
        if end.None? {
          StaysFailed(parts, "a Unicode character exceeds max_tokens");
          return Err("a Unicode character exceeds max_tokens");
        }
        PrependOne(parts, text[start..end.value], PiecesFrom(encodedLength, text, limit, end.value));
        parts := parts + [text[start..end.value]];
        start := end.value;
      }
      NoPieces(encodedLength, text, limit);
      PrependNothing(parts, Ok([]));
      return Ok(parts);
    }
  }

  function Prepend(parts: seq<string>, r: Result<seq<string>>): Result<seq<string>> {
    if r.Err? then r else Ok(parts + r.value)
  }

  lemma PrependNothing(parts: seq<string>, r: Result<seq<string>>)
    ensures Prepend([], r) == r && Prepend(parts, Ok([])) == Ok(parts)
  {
    if r.Ok? { assert [] + r.value == r.value; }
    assert parts + [] == parts;
  }

  lemma PiecesStep(count: string -> nat, text: string, limit: nat, start: nat)
    requires limit > 0 && start < |text|
    ensures PiecesFrom(count, text, limit, start) ==
      match FittingEnd(count, text, limit, start, FirstEnd(text, limit, start))
      case None => Err("a Unicode character exceeds max_tokens")
      case Some(end) => Prepend([text[start..end]], PiecesFrom(count, text, limit, end))
  {
  }

  lemma NoPieces(count: string -> nat, text: string, limit: nat)
    requires limit > 0
    ensures PiecesFrom(count, text, limit, |text|) == Ok([])
  {
  }

  lemma StaysFailed(parts: seq<string>, e: string)
    ensures Prepend(parts, Err(e)) == Err(e)
  {
  }

  lemma PrependOne(parts: seq<string>, piece: string, r: Result<seq<string>>)
    ensures Prepend(parts, Prepend([piece], r)) == Prepend(parts + [piece], r)
  {
    if r.Ok? { assert parts + ([piece] + r.value) == (parts + [piece]) + r.value; }
  }
}
