/** Chat transcripts and what it means for tool calls to be answered. */
module Transcript {
  import opened Sequences
  import opened StepEvents

  datatype Message =
    | System(text: string)
    | User(text: string)
    | Assistant(text: string, reasoning: string, calls: seq<Call>)
    | ToolResult(id: string, name: string, interrupted: bool)

  function Ids(calls: seq<Call>): multiset<string> {
    if calls == [] then multiset{} else multiset{calls[0].id} + Ids(calls[1..])
  }

  function ResultIds(results: seq<Message>): multiset<string> {
    if results == [] then multiset{}
    else (if results[0].ToolResult? then multiset{results[0].id} else multiset{}) + ResultIds(results[1..])
  }

  /** Reads one message given the call ids still open; None when the message may not come now:
      a tool message must answer an open call, any other message needs all calls answered. */
  function Read(open_: multiset<string>, m: Message): Option<multiset<string>> {
    if m.ToolResult? then
      if m.id in open_ then Some(open_ - multiset{m.id}) else None
    else if open_ != multiset{} then None
    else if m.Assistant? then Some(Ids(m.calls))
    else Some(multiset{})
  }

  function Scan(open_: multiset<string>, ms: seq<Message>): Option<multiset<string>>
    decreases |ms|
  {
    if ms == [] then Some(open_)
    else match Read(open_, ms[0])
      case None => None
      case Some(after) => Scan(after, ms[1..])
  }

  /** Every tool call has been answered exactly once before the next other message. */
  predicate Paired(ms: seq<Message>) {
    Scan(multiset{}, ms) == Some(multiset{})
  }

  lemma {:induction false} ScanSplits(open_: multiset<string>, a: seq<Message>, b: seq<Message>)
    ensures Scan(open_, a + b) == match Scan(open_, a) case None => None case Some(after) => Scan(after, b)
    decreases |a|
  {
    if a == [] {
      assert a + b == b;
    } else {
      assert (a + b)[0] == a[0] && (a + b)[1..] == a[1..] + b;
      match Read(open_, a[0]) {
        case None =>
        case Some(after) => ScanSplits(after, a[1..], b);
      }
    }
  }

  // ---------------------------------------------------------------------------------------------
  // The same thing said by positions

  /** Where the run of tool messages starting at i ends. */
  function RunEnd(ms: seq<Message>, i: nat): (end: nat)
    requires i <= |ms|
    ensures i <= end <= |ms|
    ensures forall k :: i <= k < end ==> ms[k].ToolResult?
    ensures end < |ms| ==> !ms[end].ToolResult?
    decreases |ms| - i
  {
    if i < |ms| && ms[i].ToolResult? then RunEnd(ms, i + 1) else i
  }

  /** The tool messages right after message i answer its calls, each exactly once. */
  predicate AnsweredAt(ms: seq<Message>, i: nat)
    requires i < |ms|
  {
    ms[i].Assistant? ==> ResultIds(ms[i + 1..RunEnd(ms, i + 1)]) == Ids(ms[i].calls)
  }

  /** No tool message appears except in the run after an assistant message. */
  predicate Anchored(ms: seq<Message>, i: nat)
    requires i < |ms|
  {
    ms[i].ToolResult? ==> i > 0 && (ms[i - 1].Assistant? || ms[i - 1].ToolResult?)
  }

  ghost predicate Answered(ms: seq<Message>) {
    forall i {:trigger ms[i]} :: 0 <= i < |ms| ==> AnsweredAt(ms, i) && Anchored(ms, i)
  }

  lemma FirstResult(ms: seq<Message>, e: nat)
    requires 1 <= e <= |ms| && ms[0].ToolResult?
    ensures ResultIds(ms[..e]) == multiset{ms[0].id} + ResultIds(ms[1..][..e - 1])
    ensures ms[1..][e - 1..] == ms[e..]
  {
    assert ms[..e][1..] == ms[1..][..e - 1];
  }

  lemma FirstScanned(open_: multiset<string>, ms: seq<Message>)
    requires ms != [] && ms[0].ToolResult?
    ensures Scan(open_, ms) == if ms[0].id in open_ then Scan(open_ - multiset{ms[0].id}, ms[1..]) else None
    ensures RunEnd(ms, 0) == RunEnd(ms, 1)
  {
  }

  lemma NoRun(open_: multiset<string>, ms: seq<Message>)
    requires RunEnd(ms, 0) == 0
    ensures Scan(open_, ms) == Some(multiset{}) <==> ResultIds(ms[..0]) == open_ && Paired(ms[0..])
  {
    assert ms[..0] == [] && ms[0..] == ms;
  }

  lemma {:induction false} ScanRun(open_: multiset<string>, ms: seq<Message>)
    ensures
      var e := RunEnd(ms, 0);
      Scan(open_, ms) == Some(multiset{}) <==> ResultIds(ms[..e]) == open_ && Paired(ms[e..])
    decreases |ms|
  {
    hide Scan, Paired, RunEnd, ResultIds;
    var e := RunEnd(ms, 0);
    if e == 0 {
      NoRun(open_, ms);
    } else {
      var rest := ms[1..];
      FirstScanned(open_, ms);
      RunEndSuffix(ms, 1, 1);
      FirstResult(ms, e);
      if ms[0].id in open_ {
        ScanRun(open_ - multiset{ms[0].id}, rest);
      }
    }
  }

  lemma {:induction false} RunEndSuffix(ms: seq<Message>, from_: nat, i: nat)
    requires from_ <= i <= |ms|
    ensures RunEnd(ms[from_..], i - from_) == RunEnd(ms, i) - from_
    decreases |ms| - i
  {
    if i < |ms| && ms[i].ToolResult? { RunEndSuffix(ms, from_, i + 1); }
  }

  lemma AnsweredInTail(ms: seq<Message>, e: nat, i: nat)
    requires e + i < |ms|
    ensures AnsweredAt(ms[e..], i) == AnsweredAt(ms, e + i)
  {
    RunEndSuffix(ms, e, e + i + 1);
    SliceOfTail(ms, e, i + 1, RunEnd(ms[e..], i + 1));
  }

  lemma OnlyAssistantsAsk(ms: seq<Message>, i: nat)
    requires i < |ms| && !ms[i].Assistant?
    ensures AnsweredAt(ms, i)
  {
  }

  /** The tail of a transcript after its first message and the tool messages that follow it. */
  lemma AnsweredSplits(ms: seq<Message>)
    requires ms != [] && !ms[0].ToolResult?
    ensures
      var e := RunEnd(ms, 1);
      Answered(ms) <==> AnsweredAt(ms, 0) && (ms[0].Assistant? || e == 1) && Answered(ms[e..])
  {
    hide AnsweredAt, RunEnd;
    var e := RunEnd(ms, 1);
    if Answered(ms) {
      assert AnsweredAt(ms, 0);
      assert e > 1 ==> ms[1].ToolResult? && Anchored(ms, 1);
      TailAnswered(ms, e);
    }
    if AnsweredAt(ms, 0) && (ms[0].Assistant? || e == 1) && Answered(ms[e..]) {
      WholeAnswered(ms, e);
    }
  }

  lemma TailAnswered(ms: seq<Message>, e: nat)
    requires e <= |ms| && Answered(ms) && (e < |ms| ==> !ms[e].ToolResult?)
    ensures Answered(ms[e..])
  {
    hide AnsweredAt;
    forall i | 0 <= i < |ms| - e
      ensures AnsweredAt(ms[e..], i) && Anchored(ms[e..], i)
    {
      AnsweredInTail(ms, e, i);
      assert ms[e..][i] == ms[e + i] && AnsweredAt(ms, e + i) && Anchored(ms, e + i);
    }
  }

  lemma WholeAnswered(ms: seq<Message>, e: nat)
    requires 1 <= e <= |ms| && !ms[0].ToolResult? && AnsweredAt(ms, 0) && (ms[0].Assistant? || e == 1)
    requires forall k :: 1 <= k < e ==> ms[k].ToolResult?
    requires e < |ms| ==> !ms[e].ToolResult?
    requires Answered(ms[e..])
    ensures Answered(ms)
  {
    hide AnsweredAt;
    forall i | 0 <= i < |ms|
      ensures AnsweredAt(ms, i) && Anchored(ms, i)
    {
      if i >= e {
        AnsweredInTail(ms, e, i - e);
        assert ms[e..][i - e] == ms[i] && AnsweredAt(ms[e..], i - e) && Anchored(ms[e..], i - e);
      } else if i > 0 {
        OnlyAssistantsAsk(ms, i);
      }
    }
  }

  lemma TailOfTail<T>(s: seq<T>, e: nat)
    requires 1 <= e <= |s|
    ensures s[1..][..e - 1] == s[1..e] && s[1..][e - 1..] == s[e..]
  {
  }

  lemma PairedSplits(ms: seq<Message>)
    requires ms != [] && !ms[0].ToolResult?
    ensures
      var e := RunEnd(ms, 1);
      Paired(ms) <==> AnsweredAt(ms, 0) && (ms[0].Assistant? || e == 1) && Paired(ms[e..])
  {
    var open_ := if ms[0].Assistant? then Ids(ms[0].calls) else multiset{};
    var e := RunEnd(ms, 1);
    assert Paired(ms) <==> Scan(open_, ms[1..]) == Some(multiset{});
    hide Scan, Paired, RunEnd, ResultIds;
    RunEndSuffix(ms, 1, 1);
    ScanRun(open_, ms[1..]);
    TailOfTail(ms, e);
    if e > 1 { SomeResults(ms[1..e]); }
  }

  lemma SomeResults(results: seq<Message>)
    requires results != [] && results[0].ToolResult?
    ensures ResultIds(results) != multiset{}
  {
    assert results[0].id in ResultIds(results);
  }

  /** Scanning accepts exactly the transcripts in which the tool messages right after each assistant
      message answer its calls one for one, and tool messages stand nowhere else. */
  lemma {:induction false} PairedMeansAnswered(ms: seq<Message>)
    ensures Paired(ms) <==> Answered(ms)
    decreases |ms|
  {
    if ms == [] {
    } else if ms[0].ToolResult? {
      assert !Anchored(ms, 0);
    } else {
      PairedSplits(ms);
      AnsweredSplits(ms);
      PairedMeansAnswered(ms[RunEnd(ms, 1)..]);
    }
  }
}
