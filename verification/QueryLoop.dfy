/** One step of the reasoning loop and the loop itself (`QueryLoopRuntime`), together with the record
    and the suspension the coordinator keeps around it (`query_llm`). */
module QueryLoop {
  import opened Sequences
  import opened StepEvents
  import opened Transcript

  // ---------------------------------------------------------------------------------------------
  // Tools

  datatype Tool = Tool(onClient: bool, highRisk: bool)

  datatype Kind = Server | Approval | Client

  /** An unknown tool is left to the server, whose executor reports it. */
  function KindOf(call: Call, scope: map<string, Tool>): Kind {
    if call.name !in scope then Server
    else if scope[call.name].onClient then Client
    else if scope[call.name].highRisk then Approval
    else Server
  }

  function OfKind(calls: seq<Call>, scope: map<string, Tool>, kind: Kind): seq<Call> {
    if calls == [] then []
    else OfKind(Init(calls), scope, kind) + if KindOf(Last(calls), scope) == kind then [Last(calls)] else []
  }

  /** The calls to tools that run on the client. */
  function ClientCalls(calls: seq<Call>, scope: map<string, Tool>): seq<Call> {
    Filter(calls, (c: Call) => c.name in scope && scope[c.name].onClient)
  }

  /** The calls to other tools of high risk. */
  function ApprovalCalls(calls: seq<Call>, scope: map<string, Tool>): seq<Call> {
    Filter(calls, (c: Call) => c.name in scope && !scope[c.name].onClient && scope[c.name].highRisk)
  }

  /** The calls to tools of the server without high risk, and to unknown ones. */
  function ServerCalls(calls: seq<Call>, scope: map<string, Tool>): seq<Call> {
    Filter(calls, (c: Call) => c.name !in scope || (!scope[c.name].onClient && !scope[c.name].highRisk))
  }

  /** The classes in terms of the tools: the client's calls are those to tools that run on the client,
      approval is asked for the other high-risk ones, and the rest is the server's, unknown tools included. */
  lemma {:induction false} ClassesAre(calls: seq<Call>, scope: map<string, Tool>)
    ensures OfKind(calls, scope, Client) == ClientCalls(calls, scope)
    ensures OfKind(calls, scope, Approval) == ApprovalCalls(calls, scope)
    ensures OfKind(calls, scope, Server) == ServerCalls(calls, scope)
  {
    if calls != [] {
      var early, last := Init(calls), Last(calls);
      ClassesAre(early, scope);
      assert calls == early + [last];
      FilterLast(early, last, (c: Call) => c.name in scope && scope[c.name].onClient);
      FilterLast(early, last, (c: Call) => c.name in scope && !scope[c.name].onClient && scope[c.name].highRisk);
      FilterLast(early, last, (c: Call) => c.name !in scope || (!scope[c.name].onClient && !scope[c.name].highRisk));
      hide Filter;
    }
  }

  lemma FilterLast(early: seq<Call>, last: Call, f: Call -> bool)
    ensures Filter(early + [last], f) == if f(last) then Filter(early, f) + [last] else Filter(early, f)
  {
    FilterSplits(early, [last], f);
    FilterOne(last, f);
  }

  method ClassifyTools(calls: seq<Call>, scope: map<string, Tool>)
    returns (approval: seq<Call>, server: seq<Call>, client: seq<Call>)
    ensures server == OfKind(calls, scope, Server)
    ensures approval == OfKind(calls, scope, Approval)
    ensures client == OfKind(calls, scope, Client)
    ensures client == ClientCalls(calls, scope)
    ensures approval == ApprovalCalls(calls, scope)
    ensures server == ServerCalls(calls, scope)
  {
    ClassesAre(calls, scope);
    approval, server, client := [], [], [];
    for k := 0 to |calls|
      invariant server == OfKind(calls[..k], scope, Server)
      invariant approval == OfKind(calls[..k], scope, Approval)
      invariant client == OfKind(calls[..k], scope, Client)
    {
      var call := calls[k];
      assert Init(calls[..k + 1]) == calls[..k];
      if call.name in scope && scope[call.name].onClient {
        client := client + [call];
      } else if call.name in scope && scope[call.name].highRisk {
        approval := approval + [call];
      } else {
        server := server + [call];
      }
    }
    assert calls[..|calls|] == calls;
  }

  lemma {:induction false} IdsSplit(a: seq<Call>, b: seq<Call>)
    ensures Ids(a + b) == Ids(a) + Ids(b)
  {
    if a == [] {
      assert a + b == b;
    } else {
      assert (a + b)[0] == a[0] && (a + b)[1..] == a[1..] + b;
      IdsSplit(a[1..], b);
    }
  }

  /** Every call is in exactly one of the three classes. */
  lemma {:induction false} ClassesPartition(calls: seq<Call>, scope: map<string, Tool>)
    ensures Ids(OfKind(calls, scope, Server)) + Ids(OfKind(calls, scope, Approval)) + Ids(OfKind(calls, scope, Client))
            == Ids(calls)
  {
    if calls != [] {
      var last := Last(calls);
      assert calls == Init(calls) + [last];
      ClassesPartition(Init(calls), scope);
      hide OfKind, Ids;
      IdsOfLast(Init(calls), last);
      KindOfLast(calls, scope, Server);
      KindOfLast(calls, scope, Approval);
      KindOfLast(calls, scope, Client);
      AddedToOne(Ids(OfKind(Init(calls), scope, Server)), Ids(OfKind(Init(calls), scope, Approval)),
                 Ids(OfKind(Init(calls), scope, Client)), multiset{last.id});
    }
  }

  lemma AddedToOne(a: multiset<string>, b: multiset<string>, c: multiset<string>, one: multiset<string>)
    ensures a + one + (b + multiset{}) + (c + multiset{}) == a + b + c + one
    ensures a + multiset{} + (b + one) + (c + multiset{}) == a + b + c + one
    ensures a + multiset{} + (b + multiset{}) + (c + one) == a + b + c + one
  {
  }

  lemma IdsOfLast(calls: seq<Call>, last: Call)
    ensures Ids(calls + [last]) == Ids(calls) + multiset{last.id}
  {
    IdsSplit(calls, [last]);
    assert Ids([last]) == multiset{last.id} + Ids([]);
  }

  lemma KindOfLast(calls: seq<Call>, scope: map<string, Tool>, kind: Kind)
    requires calls != []
    ensures Ids(OfKind(calls, scope, kind))
            == Ids(OfKind(Init(calls), scope, kind))
               + if KindOf(Last(calls), scope) == kind then multiset{Last(calls).id} else multiset{}
  {
    IdsOfLast(OfKind(Init(calls), scope, kind), Last(calls));
    assert OfKind(Init(calls), scope, kind) + [] == OfKind(Init(calls), scope, kind);
  }

  /** One tool message per call, in order. */
  function Answers(calls: seq<Call>, interrupted: bool): seq<Message> {
    if calls == [] then []
    else Answers(Init(calls), interrupted) + [ToolResult(Last(calls).id, Last(calls).name, interrupted)]
  }

  lemma {:induction false} AnswersClose(calls: seq<Call>, interrupted: bool, rest: multiset<string>)
    ensures Scan(Ids(calls) + rest, Answers(calls, interrupted)) == Some(rest)
  {
    if calls == [] {
      assert Ids(calls) + rest == rest;
    } else {
      var last := Last(calls);
      assert calls == Init(calls) + [last];
      IdsOfLast(Init(calls), last);
      var later := multiset{last.id} + rest;
      AnswersClose(Init(calls), interrupted, later);
      assert Ids(calls) + rest == Ids(Init(calls)) + later;
      var answer := ToolResult(last.id, last.name, interrupted);
      ScanSplits(Ids(calls) + rest, Answers(Init(calls), interrupted), [answer]);
      assert later - multiset{last.id} == rest;
      assert Read(later, answer) == Some(rest) && Scan(rest, []) == Some(rest);
      assert [answer][1..] == [] && Scan(later, [answer]) == Scan(rest, []);
    }
  }

  /** Tool messages for `calls`, appended one at a time. */
  method AppendAnswers(messages: seq<Message>, calls: seq<Call>, interrupted: bool) returns (all: seq<Message>)
    ensures all == messages + Answers(calls, interrupted)
  {
    all := messages;
    for k := 0 to |calls|
      invariant all == messages + Answers(calls[..k], interrupted)
    {
      assert Init(calls[..k + 1]) == calls[..k];
      all := all + [ToolResult(calls[k].id, calls[k].name, interrupted)];
    }
    assert calls[..|calls|] == calls;
  }

  // ---------------------------------------------------------------------------------------------
  // One step

  datatype Ending = Completed | Cancelled | Failed

  /** What happens around one step: the events the model delivered and how the stream ended, the tools
      in scope, and what each cancellation check found. */
  datatype StepEnv = StepEnv(
    cancelledAtTop: bool,
    events: seq<ProviderEvent>,
    ending: Ending,
    scope: map<string, Tool>,
    cancelledBeforeTools: bool,
    cancelledBeforeDispatch: bool,
    cancelledBeforeServer: bool,
    cancelledBeforeApproval: bool,
    cancelledBeforeClient: bool)

  datatype StepResult =
    | Finished(answer: Message)
    | Continued(added: seq<Message>)
    | Suspended(added: seq<Message>)
    | Aborted(added: seq<Message>)
    | Raised

  function Reply(events: seq<ProviderEvent>): Message {
    Assistant(Concat(Texts(events)), Concat(Thoughts(events)), CallsOf(events))
  }

  /** A step that asks the model. */
  function FreshStep(env: StepEnv): StepResult {
    var reply := Reply(env.events);
    match env.ending
    case Failed => Raised
    case Cancelled => Aborted([reply] + Answers(reply.calls, true))
    case Completed =>
      if reply.calls == [] then Finished(reply)
      else if env.cancelledBeforeTools then Aborted([reply] + Answers(reply.calls, true))
      else if OfKind(reply.calls, env.scope, Approval) != [] || OfKind(reply.calls, env.scope, Client) != [] then
        Suspended([reply])
      else if env.cancelledBeforeDispatch then Aborted([reply] + Answers(reply.calls, true))
      else Continued([reply] + Answers(reply.calls, false))
  }

  /** Whether a resumed step for these calls is cancelled: each class is checked before it is run. */
  predicate ResumeCancelled(calls: seq<Call>, env: StepEnv) {
    || (env.cancelledBeforeServer && OfKind(calls, env.scope, Server) != [])
    || (env.cancelledBeforeApproval && OfKind(calls, env.scope, Approval) != [])
    || (env.cancelledBeforeClient && OfKind(calls, env.scope, Client) != [])
  }

  /** A step that resumes the tool phase of a suspended reply. */
  function ResumedStep(calls: seq<Call>, env: StepEnv): StepResult {
    if ResumeCancelled(calls, env) then Aborted(Answers(calls, true))
    else Continued(Answers(OfKind(calls, env.scope, Server), false)
                   + Answers(OfKind(calls, env.scope, Approval), false)
                   + Answers(OfKind(calls, env.scope, Client), false))
  }

  function LastCalls(prompt: seq<Message>): seq<Call> {
    if prompt != [] && Last(prompt).Assistant? then Last(prompt).calls else []
  }

  lemma {:induction false} OnlyServer(calls: seq<Call>, scope: map<string, Tool>)
    requires OfKind(calls, scope, Approval) == [] && OfKind(calls, scope, Client) == []
    ensures OfKind(calls, scope, Server) == calls
  {
    if calls != [] {
      OnlyServer(Init(calls), scope);
      assert calls == Init(calls) + [Last(calls)];
    }
  }

  // ---------------------------------------------------------------------------------------------
  // What a step comes to, in terms of tools, events and checks alone

  /** One tool message per call, in the order of the calls. */
  ghost predicate AreAnswers(messages: seq<Message>, calls: seq<Call>, interrupted: bool) {
    && |messages| == |calls|
    && forall k {:trigger messages[k]} :: 0 <= k < |calls| ==>
         messages[k] == ToolResult(calls[k].id, calls[k].name, interrupted)
  }

  lemma {:induction false} AnswersAre(calls: seq<Call>, interrupted: bool)
    ensures AreAnswers(Answers(calls, interrupted), calls, interrupted)
  {
    if calls != [] { AnswersAre(Init(calls), interrupted); }
  }

  /** When a fresh step fails, finishes, suspends, continues or aborts. It suspends exactly when the stream
      completed with some call to a tool that runs on the client or is of high risk, and was not cancelled
      before; it runs tools exactly when it made calls, none of that kind, and no check cancelled it. */
  lemma FreshOutcome(env: StepEnv)
    ensures
      var calls, r := Flatten(CallLists(env.events)), FreshStep(env);
      var asksUser :=
        exists c :: c in calls && c.name in env.scope && (env.scope[c.name].onClient || env.scope[c.name].highRisk);
      && (r.Raised? <==> env.ending == Failed)
      && (r.Finished? <==> env.ending == Completed && calls == [])
      && (r.Suspended? <==> env.ending == Completed && !env.cancelledBeforeTools && asksUser)
      && (r.Continued? <==> env.ending == Completed && calls != [] && !asksUser
                            && !env.cancelledBeforeTools && !env.cancelledBeforeDispatch)
      && (r.Aborted? <==> env.ending == Cancelled
                          || (env.ending == Completed && calls != []
                              && (env.cancelledBeforeTools || (!asksUser && env.cancelledBeforeDispatch))))
  {
    NothingIsLost(env.events);
    SomeNeedUser(CallsOf(env.events), env.scope);
    hide OfKind, Answers, Texts, Thoughts, CallsOf, Flatten, CallLists;
  }

  /** What a fresh step hands over: the reply with everything the stream carried, and for each call, in
      order, one tool message - interrupted exactly when the step was aborted. */
  lemma FreshMessages(env: StepEnv)
    ensures
      var calls := Flatten(CallLists(env.events));
      var reply := Assistant(Concat(TextDeltas(env.events)), Concat(ReasoningDeltas(env.events)), calls);
      match FreshStep(env)
      case Raised => true
      case Finished(answer) => answer == reply
      case Suspended(added) => added == [reply]
      case Continued(added) => added != [] && added[0] == reply && AreAnswers(added[1..], calls, false)
      case Aborted(added) => added != [] && added[0] == reply && AreAnswers(added[1..], calls, true)
  {
    hide OfKind, Answers, AreAnswers, Texts, Thoughts, CallsOf, Flatten, CallLists, Concat, TextDeltas, ReasoningDeltas;
    NothingIsLost(env.events);
    var reply := Reply(env.events);
    ReplyThenAnswers(reply, reply.calls, false);
    ReplyThenAnswers(reply, reply.calls, true);
  }

  lemma ReplyThenAnswers(reply: Message, calls: seq<Call>, interrupted: bool)
    ensures
      var all := [reply] + Answers(calls, interrupted);
      all[0] == reply && AreAnswers(all[1..], calls, interrupted)
  {
    AnswersAre(calls, interrupted);
    assert ([reply] + Answers(calls, interrupted))[1..] == Answers(calls, interrupted);
  }

  lemma SomeNeedUser(calls: seq<Call>, scope: map<string, Tool>)
    ensures (OfKind(calls, scope, Approval) != [] || OfKind(calls, scope, Client) != [])
            <==> exists c :: c in calls && c.name in scope && (scope[c.name].onClient || scope[c.name].highRisk)
  {
    ClassesAre(calls, scope);
    FilterMembers(calls, (c: Call) => c.name in scope && scope[c.name].onClient);
    FilterMembers(calls, (c: Call) => c.name in scope && !scope[c.name].onClient && scope[c.name].highRisk);
    var approval, client := OfKind(calls, scope, Approval), OfKind(calls, scope, Client);
    hide Filter, OfKind;
    if approval != [] { assert approval[0] in calls; }
    if client != [] { assert client[0] in calls; }
    forall c | c in calls && c.name in scope && (scope[c.name].onClient || scope[c.name].highRisk)
      ensures c in approval || c in client
    {
    }
  }

  /** A resumed step answers the server's calls, then the approved ones, then the client's, each group in
      call order - unless a check before one of the groups that has calls finds it cancelled. */
  lemma ResumedOutcome(calls: seq<Call>, env: StepEnv)
    ensures
      var scope := env.scope;
      var server, approval, client :=
        ServerCalls(calls, scope), ApprovalCalls(calls, scope), ClientCalls(calls, scope);
      if (env.cancelledBeforeServer && server != []) || (env.cancelledBeforeApproval && approval != [])
         || (env.cancelledBeforeClient && client != [])
      then ResumedStep(calls, env).Aborted? && AreAnswers(ResumedStep(calls, env).added, calls, true)
      else ResumedStep(calls, env).Continued?
           && AreAnswers(ResumedStep(calls, env).added, server + approval + client, false)
  {
    ClassesAre(calls, env.scope);
    AnswersAre(calls, true);
    AnswersAre(OfKind(calls, env.scope, Server), false);
    AnswersAre(OfKind(calls, env.scope, Approval), false);
    AnswersAre(OfKind(calls, env.scope, Client), false);
    hide Filter, OfKind, Answers;
  }

  /** The tool phase of a fresh reply. */
  method RunTools(reply: Message, env: StepEnv) returns (r: StepResult)
    requires reply == Reply(env.events) && reply.calls != [] && env.ending == Completed
    ensures r == FreshStep(env)
  {
    hide OfKind, Answers, Texts, Thoughts, CallsOf;
    var aborted := AppendAnswers([reply], reply.calls, true);
    if env.cancelledBeforeTools { return Aborted(aborted); }
    var approval, server, client := ClassifyTools(reply.calls, env.scope);
    if approval != [] || client != [] { return Suspended([reply]); }
    if env.cancelledBeforeDispatch { return Aborted(aborted); }
    OnlyServer(reply.calls, env.scope);
    var added := AppendAnswers([reply], server, false);
    r := Continued(added);
  }

  /** The tool phase of a reply that was suspended: the server's tools were put off and run now, then the
      ones the user was asked about, then the ones the client ran. */
  method ResumeTools(calls: seq<Call>, env: StepEnv) returns (r: StepResult)
    ensures r == ResumedStep(calls, env)
  {
    hide OfKind;
    var aborted := AppendAnswers([], calls, true);
    assert aborted == Answers(calls, true);
    var approval, server, client := ClassifyTools(calls, env.scope);
    var added := [];
    if server != [] {
      if env.cancelledBeforeServer { return Aborted(aborted); }
      added := AppendAnswers(added, server, false);
    }
    assert added == Answers(server, false);
    if approval != [] {
      if env.cancelledBeforeApproval { return Aborted(aborted); }
      added := AppendAnswers(added, approval, false);
    }
    assert added == Answers(server, false) + Answers(approval, false);
    if client != [] {
      if env.cancelledBeforeClient { return Aborted(aborted); }
      added := AppendAnswers(added, client, false);
    }
    r := Continued(added);
  }

  method RunStep(prompt: seq<Message>, resumed: bool, env: StepEnv) returns (r: StepResult)
    ensures r == if resumed then ResumedStep(LastCalls(prompt), env) else FreshStep(env)
  {
    hide OfKind, Answers, Texts, Thoughts, CallsOf, ResumedStep, LastCalls;
    if resumed {
      r := ResumeTools(LastCalls(prompt), env);
      return;
    }
    var sent, content, reasoning, requested := Interpret(env.events);
    var reply := Assistant(content, reasoning, requested);
    match env.ending {
      case Failed => return Raised;
      case Cancelled =>
        var aborted := AppendAnswers([reply], requested, true);
        return Aborted(aborted);
      case Completed =>
    }
    if requested == [] { return Finished(reply); }
    r := RunTools(reply, env);
  }
}
