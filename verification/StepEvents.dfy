/** The interpreter that turns one model stream into client events (`_StepEventInterpreter`). */
module StepEvents {
  import opened Sequences

  /** One tool call requested by the model. */
  datatype Call = Call(id: string, name: string, arguments: string)

  datatype ProviderEvent =
    | State(payload: Option<string>)
    | ToolCalls(calls: seq<Call>)
    | ReasoningDelta(delta: string)
    | TextDelta(delta: string)
    | Usage

  datatype StreamEvent =
    | ReasoningStart | ReasoningPart(delta: string) | ReasoningEnd
    | TextStart | TextPart(delta: string) | TextEnd

  predicate IsText(e: StreamEvent) { e.TextStart? || e.TextPart? || e.TextEnd? }

  predicate IsReasoning(e: StreamEvent) { !IsText(e) }

  // ---------------------------------------------------------------------------------------------
  // What a stream says, independently of how it is interpreted

  predicate SaysText(e: ProviderEvent) { e.TextDelta? && e.delta != "" }

  predicate SaysReasoning(e: ProviderEvent) { e.ReasoningDelta? && e.delta != "" }

  /** The non-empty text deltas, in order. */
  function Texts(events: seq<ProviderEvent>): seq<string> {
    if events == [] then []
    else Texts(Init(events)) + if SaysText(Last(events)) then [Last(events).delta] else []
  }

  /** The non-empty reasoning deltas that arrive before the first text. */
  function EarlyThoughts(events: seq<ProviderEvent>): seq<string> {
    if events == [] then []
    else EarlyThoughts(Init(events))
         + if SaysReasoning(Last(events)) && Texts(Init(events)) == [] then [Last(events).delta] else []
  }

  /** The non-empty reasoning deltas that arrive after the first text. */
  function LateThoughts(events: seq<ProviderEvent>): seq<string> {
    if events == [] then []
    else LateThoughts(Init(events))
         + if SaysReasoning(Last(events)) && Texts(Init(events)) != [] then [Last(events).delta] else []
  }

  /** Every non-empty reasoning delta, in order. */
  function Thoughts(events: seq<ProviderEvent>): seq<string> {
    if events == [] then []
    else Thoughts(Init(events)) + if SaysReasoning(Last(events)) then [Last(events).delta] else []
  }

  lemma {:induction false} EarlyThenLate(events: seq<ProviderEvent>)
    ensures EarlyThoughts(events) + LateThoughts(events) == Thoughts(events)
    ensures Texts(events) == [] ==> LateThoughts(events) == []
  {
    if events != [] { EarlyThenLate(Init(events)); }
  }

  /** The deltas of the text events as they came, empty ones included. */
  function TextDeltas(events: seq<ProviderEvent>): seq<string> {
    seq(|events|, i requires 0 <= i < |events| => if events[i].TextDelta? then events[i].delta else "")
  }

  function ReasoningDeltas(events: seq<ProviderEvent>): seq<string> {
    seq(|events|, i requires 0 <= i < |events| => if events[i].ReasoningDelta? then events[i].delta else "")
  }

  function CallLists(events: seq<ProviderEvent>): seq<seq<Call>> {
    seq(|events|, i requires 0 <= i < |events| => if events[i].ToolCalls? then events[i].calls else [])
  }

  /** What the stream says is all that its events carry, in order: nothing is dropped, doubled or moved. */
  lemma {:induction false} NothingIsLost(events: seq<ProviderEvent>)
    ensures Concat(Texts(events)) == Concat(TextDeltas(events))
    ensures Concat(Thoughts(events)) == Concat(ReasoningDeltas(events))
    ensures CallsOf(events) == Flatten(CallLists(events))
  {
    if events != [] {
      var early, last := Init(events), Last(events);
      assert events == early + [last];
      hide Texts, Thoughts, CallsOf, TextDeltas, ReasoningDeltas, CallLists, Concat, Flatten, Init, Last;
      NothingIsLost(early);
      OneMoreSaid(early, last);
      OneMoreCarried(early, last);
    }
  }

  lemma OneMoreCarried(early: seq<ProviderEvent>, e: ProviderEvent)
    ensures Concat(TextDeltas(early + [e])) == Concat(TextDeltas(early)) + if e.TextDelta? then e.delta else ""
    ensures Concat(ReasoningDeltas(early + [e]))
         == Concat(ReasoningDeltas(early)) + if e.ReasoningDelta? then e.delta else ""
    ensures Flatten(CallLists(early + [e])) == Flatten(CallLists(early)) + if e.ToolCalls? then e.calls else []
  {
    hide Concat, Flatten;
    assert TextDeltas(early + [e]) == TextDeltas(early) + [if e.TextDelta? then e.delta else ""];
    assert ReasoningDeltas(early + [e]) == ReasoningDeltas(early) + [if e.ReasoningDelta? then e.delta else ""];
    assert CallLists(early + [e]) == CallLists(early) + [if e.ToolCalls? then e.calls else []];
    hide TextDeltas, ReasoningDeltas, CallLists;
    ConcatGrows(TextDeltas(early), if e.TextDelta? then e.delta else "");
    ConcatGrows(ReasoningDeltas(early), if e.ReasoningDelta? then e.delta else "");
    FlattenGrows(CallLists(early), if e.ToolCalls? then e.calls else []);
  }

  lemma OneMoreSaid(early: seq<ProviderEvent>, e: ProviderEvent)
    ensures Concat(Texts(early + [e])) == Concat(Texts(early)) + if e.TextDelta? then e.delta else ""
    ensures Concat(Thoughts(early + [e])) == Concat(Thoughts(early)) + if e.ReasoningDelta? then e.delta else ""
    ensures CallsOf(early + [e]) == CallsOf(early) + if e.ToolCalls? then e.calls else []
  {
    assert Init(early + [e]) == early && Last(early + [e]) == e;
    hide Concat;
    if SaysText(e) { ConcatGrows(Texts(early), e.delta); } else { assert Texts(early) + [] == Texts(early); }
    if SaysReasoning(e) {
      ConcatGrows(Thoughts(early), e.delta);
    } else {
      assert Thoughts(early) + [] == Thoughts(early);
    }
    assert Concat(Texts(early)) + "" == Concat(Texts(early)) && Concat(Thoughts(early)) + "" == Concat(Thoughts(early));
  }

  /** Reasoning is early up to the first text event and late from there on. */
  lemma {:induction false} EarlyIsBeforeText(events: seq<ProviderEvent>, k: nat)
    requires k < |events| && SaysText(events[k]) && forall i :: 0 <= i < k ==> !SaysText(events[i])
    ensures EarlyThoughts(events) == Thoughts(events[..k])
    decreases |events|
  {
    var early, last := Init(events), Last(events);
    if k < |early| {
      EarlyIsBeforeText(early, k);
      assert early[..k] == events[..k];
      TextsSome(early, k);
    } else {
      assert events[..k] == early;
      TextsNone(early);
      EarlyThenLate(early);
    }
  }

  lemma {:induction false} TextsSome(events: seq<ProviderEvent>, k: nat)
    requires k < |events| && SaysText(events[k])
    ensures Texts(events) != []
    decreases |events|
  {
    if k < |events| - 1 { TextsSome(Init(events), k); }
  }

  lemma {:induction false} TextsNone(events: seq<ProviderEvent>)
    requires forall i :: 0 <= i < |events| ==> !SaysText(events[i])
    ensures Texts(events) == []
  {
    if events != [] { TextsNone(Init(events)); }
  }

  function CallsOf(events: seq<ProviderEvent>): seq<Call> {
    if events == [] then []
    else CallsOf(Init(events)) + if Last(events).ToolCalls? then Last(events).calls else []
  }

  /** The provider's own payload: that of the last state event. */
  function PayloadOf(events: seq<ProviderEvent>): Option<string> {
    if events == [] then None
    else if Last(events).State? then Last(events).payload
    else PayloadOf(Init(events))
  }

  /** A later state event replaces the payload of an earlier one. */
  lemma {:induction false} LastPayloadCounts(events: seq<ProviderEvent>, k: nat)
    requires k < |events| && events[k].State? && forall i :: k < i < |events| ==> !events[i].State?
    ensures PayloadOf(events) == events[k].payload
    decreases |events|
  {
    if k < |events| - 1 { LastPayloadCounts(Init(events), k); }
  }

  // ---------------------------------------------------------------------------------------------
  // Blocks

  function Parts(make: string -> StreamEvent, deltas: seq<string>): (r: seq<StreamEvent>)
    ensures |r| == |deltas|
    ensures forall i {:trigger r[i]} :: 0 <= i < |deltas| ==> r[i] == make(deltas[i])
  {
    seq(|deltas|, i requires 0 <= i < |deltas| => make(deltas[i]))
  }

  /** A block still open: its start and its deltas; nothing when nothing was said. */
  function OpenText(deltas: seq<string>): seq<StreamEvent> {
    if deltas == [] then [] else [TextStart] + Parts(d => TextPart(d), deltas)
  }

  function TextBlock(deltas: seq<string>): seq<StreamEvent> {
    if deltas == [] then [] else OpenText(deltas) + [TextEnd]
  }

  function OpenReasoning(deltas: seq<string>): seq<StreamEvent> {
    if deltas == [] then [] else [ReasoningStart] + Parts(d => ReasoningPart(d), deltas)
  }

  function ReasoningBlock(deltas: seq<string>): seq<StreamEvent> {
    if deltas == [] then [] else OpenReasoning(deltas) + [ReasoningEnd]
  }

  /** A block is its start, one part per delta in order, and its end; nothing said makes no block. */
  lemma BlockShapes(deltas: seq<string>)
    ensures var t, r := TextBlock(deltas), ReasoningBlock(deltas);
      if deltas == [] then t == [] && r == []
      else
        var n := |deltas|;
        && |t| == |r| == n + 2
        && t[0] == TextStart && t[n + 1] == TextEnd && r[0] == ReasoningStart && r[n + 1] == ReasoningEnd
        && forall i {:trigger deltas[i]} :: 0 <= i < n ==>
             t[i + 1] == TextPart(deltas[i]) && r[i + 1] == ReasoningPart(deltas[i])
  {
  }

  lemma OpenTextGrows(deltas: seq<string>, d: string)
    ensures OpenText(deltas + [d]) == (if deltas == [] then [TextStart] else OpenText(deltas)) + [TextPart(d)]
  {
  }

  lemma OpenReasoningGrows(deltas: seq<string>, d: string)
    ensures OpenReasoning(deltas + [d])
            == (if deltas == [] then [ReasoningStart] else OpenReasoning(deltas)) + [ReasoningPart(d)]
  {
  }

  lemma ConcatGrows(parts: seq<string>, part: string)
    ensures Concat(parts + [part]) == Concat(parts) + part
  {
    ConcatSplits(parts, [part]);
    ConcatOne(part);
  }

  /** What has been sent to the client while the stream is still open. */
  ghost predicate OpenLifecycle(texts: seq<string>, early: seq<string>, late: seq<string>, sent: seq<StreamEvent>) {
    && Filter(sent, IsText) == OpenText(texts)
    && Filter(sent, IsReasoning)
       == (if texts == [] then OpenReasoning(early) else ReasoningBlock(early) + OpenReasoning(late))
    && (texts == [] ==> late == [])
    && (texts != [] ==> ReasoningBlock(early) + [TextStart] <= sent)
  }

  /** What has been sent once the stream is closed: at most one text block holding every text delta,
      and at most two reasoning blocks, the first of them finished before the text begins. */
  ghost predicate ClosedLifecycle(texts: seq<string>, early: seq<string>, late: seq<string>, sent: seq<StreamEvent>) {
    && Filter(sent, IsText) == TextBlock(texts)
    && Filter(sent, IsReasoning) == ReasoningBlock(early) + ReasoningBlock(late)
    && (texts != [] ==> ReasoningBlock(early) + [TextStart] <= sent && Last(sent) == TextEnd)
  }

  /** How one more event changes what the stream says. */
  lemma Says(seen: seq<ProviderEvent>, e: ProviderEvent)
    ensures Texts(seen + [e]) == if SaysText(e) then Texts(seen) + [e.delta] else Texts(seen)
    ensures EarlyThoughts(seen + [e])
            == if SaysReasoning(e) && Texts(seen) == [] then EarlyThoughts(seen) + [e.delta] else EarlyThoughts(seen)
    ensures LateThoughts(seen + [e])
            == if SaysReasoning(e) && Texts(seen) != [] then LateThoughts(seen) + [e.delta] else LateThoughts(seen)
    ensures CallsOf(seen + [e]) == if e.ToolCalls? then CallsOf(seen) + e.calls else CallsOf(seen)
    ensures PayloadOf(seen + [e]) == if e.State? then e.payload else PayloadOf(seen)
  {
    assert Init(seen + [e]) == seen && Last(seen + [e]) == e;
  }

  lemma Sending(sent: seq<StreamEvent>, x: StreamEvent)
    ensures Filter(sent + [x], IsText) == Filter(sent, IsText) + if IsText(x) then [x] else []
    ensures Filter(sent + [x], IsReasoning) == Filter(sent, IsReasoning) + if IsText(x) then [] else [x]
  {
    FilterSplits(sent, [x], IsText);
    FilterOne(x, IsText);
    FilterSplits(sent, [x], IsReasoning);
    FilterOne(x, IsReasoning);
  }

  /** Appending to a sequence keeps its prefixes. */
  lemma PrefixGrows<T>(head: seq<T>, s: seq<T>, x: T)
    requires head <= s
    ensures head <= s + [x]
  {
  }

  lemma ThinkingKeepsOpen(
    texts: seq<string>, early: seq<string>, late: seq<string>, sent: seq<StreamEvent>, delta: string)
    requires OpenLifecycle(texts, early, late, sent)
    ensures
      var thoughts := if texts == [] then early else late;
      OpenLifecycle(texts,
                    if texts == [] then early + [delta] else early,
                    if texts == [] then late else late + [delta],
                    (if thoughts == [] then sent + [ReasoningStart] else sent) + [ReasoningPart(delta)])
  {
    hide Filter, Parts, OpenText, OpenReasoning;
    var thoughts := if texts == [] then early else late;
    var begun := if thoughts == [] then sent + [ReasoningStart] else sent;
    NothingOpen();
    OpenReasoningGrows(thoughts, delta);
    Sending(sent, ReasoningStart);
    Sending(begun, ReasoningPart(delta));
    if texts != [] {
      var head := ReasoningBlock(early) + [TextStart];
      PrefixGrows(head, sent, ReasoningStart);
      PrefixGrows(head, begun, ReasoningPart(delta));
      hide ReasoningBlock;
      assert Filter(begun + [ReasoningPart(delta)], IsReasoning)
          == ReasoningBlock(early) + OpenReasoning(late + [delta]);
    }
  }

  lemma SpeakingKeepsOpen(
    texts: seq<string>, early: seq<string>, late: seq<string>, sent: seq<StreamEvent>, delta: string)
    requires OpenLifecycle(texts, early, late, sent)
    ensures
      var closed := if early == [] then sent else sent + [ReasoningEnd];
      OpenLifecycle(texts + [delta], early, late,
                    (if texts == [] then closed + [TextStart] else sent) + [TextPart(delta)])
  {
    hide Filter, Parts, OpenText, OpenReasoning;
    var closed := if early == [] then sent else sent + [ReasoningEnd];
    var begun := if texts == [] then closed + [TextStart] else sent;
    NothingOpen();
    OpenTextGrows(texts, delta);
    Sending(sent, ReasoningEnd);
    Sending(closed, TextStart);
    Sending(begun, TextPart(delta));
    if texts == [] {
      OnlyReasoning(sent);
      assert closed == ReasoningBlock(early);
      hide ReasoningBlock;
      PrefixGrows(begun, begun, TextPart(delta));
    } else {
      hide ReasoningBlock;
      PrefixGrows(ReasoningBlock(early) + [TextStart], sent, TextPart(delta));
    }
  }

  lemma NothingOpen()
    ensures OpenText([]) == [] && OpenReasoning([]) == []
  {
  }

  /** While no text was said the client has been sent reasoning events only. */
  lemma {:induction false} OnlyReasoning(sent: seq<StreamEvent>)
    requires Filter(sent, IsText) == []
    ensures Filter(sent, IsReasoning) == sent
  {
    if sent != [] { OnlyReasoning(sent[1..]); }
  }

  lemma ClosingCloses(texts: seq<string>, early: seq<string>, late: seq<string>, sent: seq<StreamEvent>)
    requires OpenLifecycle(texts, early, late, sent)
    ensures
      var thoughts := if texts == [] then early else late;
      var settled := if thoughts == [] then sent else sent + [ReasoningEnd];
      ClosedLifecycle(texts, early, late, if texts == [] then settled else settled + [TextEnd])
  {
    hide Filter, Parts, OpenText, OpenReasoning;
    var thoughts := if texts == [] then early else late;
    var settled := if thoughts == [] then sent else sent + [ReasoningEnd];
    NothingOpen();
    Sending(sent, ReasoningEnd);
    Sending(settled, TextEnd);
    if texts != [] {
      var head := ReasoningBlock(early) + [TextStart];
      PrefixGrows(head, sent, ReasoningEnd);
      PrefixGrows(head, settled, TextEnd);
    }
  }

  class StepEventInterpreter {
    var content: string
    var reasoning: string
    var toolCalls: seq<Call>
    var payload: Option<string>
    var textStarted: bool
    var reasoningStarted: bool
    ghost var seen: seq<ProviderEvent>
    ghost var sent: seq<StreamEvent>

    /** The fields are what the stream seen so far says, and the client has been sent its blocks. */
    ghost predicate Open()
      reads this
    {
      && content == Concat(Texts(seen))
      && reasoning == Concat(EarlyThoughts(seen) + LateThoughts(seen))
      && toolCalls == CallsOf(seen)
      && payload == PayloadOf(seen)
      && textStarted == (Texts(seen) != [])
      && reasoningStarted == (if textStarted then LateThoughts(seen) != [] else EarlyThoughts(seen) != [])
      && (Texts(seen) == [] ==> LateThoughts(seen) == [])
      && OpenLifecycle(Texts(seen), EarlyThoughts(seen), LateThoughts(seen), sent)
    }

    constructor ()
      ensures Open() && seen == [] && sent == []
    {
      content, reasoning, toolCalls, payload := "", "", [], None;
      textStarted, reasoningStarted := false, false;
      seen, sent := [], [];
    }

    method Consume(item: ProviderEvent) returns (out: seq<StreamEvent>)
      requires Open()
      modifies this
      ensures Open()
      ensures seen == old(seen) + [item]
      ensures sent == old(sent) + out
    {
      out := [];
      Says(seen, item);
      hide Texts, EarlyThoughts, LateThoughts, CallsOf, PayloadOf, OpenLifecycle, Concat;
      match item {
        case State(p) => payload := p;
        case ToolCalls(calls) => toolCalls := toolCalls + calls;
        case ReasoningDelta(delta) =>
          if delta != "" {
            ThinkingKeepsOpen(Texts(seen), EarlyThoughts(seen), LateThoughts(seen), sent, delta);
            if !reasoningStarted {
              out, sent := out + [ReasoningStart], sent + [ReasoningStart];
              reasoningStarted := true;
            }
            reasoning := reasoning + delta;
            out, sent := out + [ReasoningPart(delta)], sent + [ReasoningPart(delta)];
            Reasoned(EarlyThoughts(seen), LateThoughts(seen), delta);
          }
        case TextDelta(delta) =>
          if delta != "" {
            SpeakingKeepsOpen(Texts(seen), EarlyThoughts(seen), LateThoughts(seen), sent, delta);
            if !textStarted {
              if reasoningStarted {
                out, sent := out + [ReasoningEnd], sent + [ReasoningEnd];
                reasoningStarted := false;
              }
              out, sent := out + [TextStart], sent + [TextStart];
              textStarted := true;
            }
            content := content + delta;
            out, sent := out + [TextPart(delta)], sent + [TextPart(delta)];
            ConcatGrows(Texts(seen), delta);
          }
        case Usage =>
      }
      seen := seen + [item];
    }

    method Close() returns (out: seq<StreamEvent>)
      requires Open()
      modifies this
      ensures seen == old(seen) && sent == old(sent) + out
      ensures ClosedLifecycle(Texts(seen), EarlyThoughts(seen), LateThoughts(seen), sent)
      ensures !textStarted && !reasoningStarted
      ensures unchanged(`content) && unchanged(`reasoning) && unchanged(`toolCalls) && unchanged(`payload)
    {
      hide Texts, EarlyThoughts, LateThoughts, CallsOf, PayloadOf, OpenLifecycle, ClosedLifecycle, Concat;
      ClosingCloses(Texts(seen), EarlyThoughts(seen), LateThoughts(seen), sent);
      out := [];
      if reasoningStarted {
        out, sent := out + [ReasoningEnd], sent + [ReasoningEnd];
        reasoningStarted := false;
      }
      if textStarted {
        out, sent := out + [TextEnd], sent + [TextEnd];
        textStarted := false;
      }
    }
  }

  lemma Reasoned(early: seq<string>, late: seq<string>, delta: string)
    ensures late == [] ==> Concat(early + [delta] + late) == Concat(early + late) + delta
    ensures Concat(early + (late + [delta])) == Concat(early + late) + delta
  {
    ConcatGrows(early + late, delta);
    assert early + (late + [delta]) == early + late + [delta];
    assert late == [] ==> early + [delta] + late == early + late + [delta];
  }

  /** A whole model stream: every event consumed in order, then the blocks closed. */
  method Interpret(events: seq<ProviderEvent>)
    returns (sent: seq<StreamEvent>, content: string, reasoning: string, toolCalls: seq<Call>)
    ensures ClosedLifecycle(Texts(events), EarlyThoughts(events), LateThoughts(events), sent)
    ensures content == Concat(Texts(events))
    ensures reasoning == Concat(Thoughts(events))
    ensures toolCalls == CallsOf(events)
    ensures content == Concat(TextDeltas(events)) && reasoning == Concat(ReasoningDeltas(events))
    ensures toolCalls == Flatten(CallLists(events))
  {
    NothingIsLost(events);
    var interpreter := new StepEventInterpreter();
    sent := [];
    hide Texts, EarlyThoughts, LateThoughts, CallsOf, PayloadOf, OpenLifecycle, ClosedLifecycle, Concat;
    for k := 0 to |events|
      invariant interpreter.Open() && fresh(interpreter)
      invariant interpreter.seen == events[..k] && interpreter.sent == sent
    {
      var out := interpreter.Consume(events[k]);
      sent := sent + out;
      assert events[..k + 1] == events[..k] + [events[k]];
    }
    assert events[..|events|] == events;
    EarlyThenLate(events);
    var out := interpreter.Close();
    sent := sent + out;
    content, reasoning, toolCalls := interpreter.content, interpreter.reasoning, interpreter.toolCalls;
  }
}
