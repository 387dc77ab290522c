/** A chat turn over any number of batches: the loop of `stream_chat_with_tool_calling`, the record and
    suspension kept by `query_llm`, and the resuming of a suspended turn. */
module ChatTurns {
  import opened Sequences
  import opened StepEvents
  import opened Transcript
  import opened QueryLoop

  /** The prompt one model call was given. */
  datatype ModelCall = ModelCall(iteration: nat, prompt: seq<Message>)

  /** What one batch works on: the prompt, the messages recorded by this batch, and the model calls
      made so far in the turn. */
  datatype Batch = Batch(prompt: seq<Message>, record: seq<Message>, asked: seq<ModelCall>)

  datatype End = Replied | Exhausted | AbortedByUser | AwaitingClient(iteration: nat) | Failure

  /** The surroundings of a batch: whether its runtime options are rejected, and every step's. */
  datatype BatchEnv = BatchEnv(rejected: bool, step: nat -> StepEnv)

  const EXHAUSTED_WARNING: Message := Assistant("iterations exhausted", "", [])

  function Ask(b: Batch, i: nat, resumed: bool): Batch {
    if resumed then b else b.(asked := b.asked + [ModelCall(i, b.prompt)])
  }

  function StepOf(prompt: seq<Message>, resumed: bool, env: StepEnv): StepResult {
    if resumed then ResumedStep(LastCalls(prompt), env) else FreshStep(env)
  }

  /** The loop from iteration i on; only its first step can be a resumed one. */
  function Loop(b: Batch, i: nat, max: nat, resumed: bool, env: nat -> StepEnv): (r: (Batch, End))
    decreases max - i
  {
    if i >= max then (b.(record := b.record + [EXHAUSTED_WARNING]), Exhausted)
    else if env(i).cancelledAtTop then (b, AbortedByUser)
    else
      var asked := Ask(b, i, resumed);
      match StepOf(b.prompt, resumed, env(i))
      case Raised => (asked, Failure)
      case Finished(answer) => (asked.(record := b.record + [answer]), Replied)
      case Aborted(added) => (asked.(record := b.record + added), AbortedByUser)
      case Suspended(added) => (asked.(record := b.record + added, prompt := b.prompt + added), AwaitingClient(i))
      case Continued(added) =>
        Loop(asked.(record := b.record + added, prompt := b.prompt + added), i + 1, max, false, env)
  }

  function RunBatch(b: Batch, start: nat, max: nat, resumed: bool, env: BatchEnv): (Batch, End) {
    if env.rejected then (b, Failure) else Loop(b, start, max, resumed, env.step)
  }

  datatype Suspension = Suspension(prompt: seq<Message>, iteration: nat)

  /** A turn between batches: the messages stored for the session, the saved suspension if there is one,
      and the model calls made. */
  datatype Turn = Turn(stored: seq<Message>, suspension: Option<Suspension>, asked: seq<ModelCall>)

  function Settle(stored: seq<Message>, r: (Batch, End)): Turn {
    Turn(stored + r.0.record,
         if r.1.AwaitingClient? then Some(Suspension(r.0.prompt, r.1.iteration)) else None,
         r.0.asked)
  }

  function Start(prompt: seq<Message>, question: string, max: nat, env: BatchEnv): Turn {
    Settle([], RunBatch(Batch(prompt, [User(question)], []), 0, max, false, env))
  }

  /** Without a saved suspension resuming is refused and nothing changes. */
  function Resume(t: Turn, max: nat, env: BatchEnv): Turn {
    if t.suspension.None? then t
    else
      var saved := t.suspension.value;
      Settle(t.stored, RunBatch(Batch(saved.prompt, [], t.asked), saved.iteration, max, true, env))
  }

  /** A first batch and then any number of resuming ones. */
  function Run(prompt: seq<Message>, question: string, max: nat, first: BatchEnv, rest: seq<BatchEnv>): Turn {
    if rest == [] then Start(prompt, question, max, first)
    else Resume(Run(prompt, question, max, first, Init(rest)), max, Last(rest))
  }

  // ---------------------------------------------------------------------------------------------
  // What a batch does, step by step

  /** The steps of a batch that went on: prompts[k] is the prompt of iteration i + k, and each continued
      step appended what it handed over. */
  ghost predicate StepsGoOn(prompts: seq<seq<Message>>, i: nat, max: nat, resumed: bool, env: nat -> StepEnv) {
    && prompts != []
    && forall k {:trigger prompts[k]} :: 0 <= k < |prompts| - 1 ==>
         GoesOn(prompts[k], prompts[k + 1], i + k, max, resumed && k == 0, env)
  }

  ghost predicate GoesOn(before: seq<Message>, after: seq<Message>, at: nat, max: nat, resumed: bool,
                         env: nat -> StepEnv)
  {
    && at < max && !env(at).cancelledAtTop
    && match if resumed then ResumedStep(LastCalls(before), env(at)) else FreshStep(env(at))
       case Continued(added) => after == before + added
       case _ => false
  }

  /** The model calls of those steps and of the last one, if it asked. */
  ghost predicate Asks(asked: seq<ModelCall>, prompts: seq<seq<Message>>, i: nat, resumed: bool, lastAsks: bool) {
    var skipped := if resumed then 1 else 0;
    && |asked| == Max(0, |prompts| - (if lastAsks then 0 else 1) - skipped)
    && forall k {:trigger asked[k]} :: 0 <= k < |asked| ==>
         asked[k] == ModelCall(i + k + skipped, prompts[k + skipped])
  }

  /** How a batch ends, given its last prompt and iteration: what it records last and how it ends. */
  ghost predicate EndsWith(prompt: seq<Message>, at: nat, max: nat, resumed: bool, env: StepEnv,
                           tail: seq<Message>, end: End)
  {
    if at >= max then tail == [Assistant("iterations exhausted", "", [])] && end == Exhausted
    else if env.cancelledAtTop then tail == [] && end == AbortedByUser
    else
      match if resumed then ResumedStep(LastCalls(prompt), env) else FreshStep(env)
      case Raised => tail == [] && end == Failure
      case Finished(answer) => tail == [answer] && end == Replied
      case Aborted(added) => tail == added && end == AbortedByUser
      case Suspended(added) => tail == added && end == AwaitingClient(at)
      case Continued(_) => false
  }

  /** The loop read off as a run of steps: some steps went on, each appending to prompt and record what it
      handed over, and a last one - or the limit, or a cancellation - ended it. The record is what went
      before, all that was handed over in order, and what the end adds; a batch that awaits the client
      leaves the prompt with its reply appended; every step but a resumed one asked the model once, with
      the prompt of that moment. */
  lemma {:induction false} LoopIsARun(b: Batch, i: nat, max: nat, resumed: bool, env: nat -> StepEnv)
    returns (prompts: seq<seq<Message>>, tail: seq<Message>, asked: seq<ModelCall>)
    ensures prompts != [] && StepsGoOn(prompts, i, max, resumed, env) && prompts[0] == b.prompt <= Last(prompts)
    ensures
      var (after, end) := Loop(b, i, max, resumed, env);
      var n := |prompts| - 1;
      && EndsWith(prompts[n], i + n, max, resumed && n == 0, env(i + n), tail, end)
      && after.record == b.record + prompts[n][|b.prompt|..] + tail
      && after.prompt == prompts[n] + (if end.AwaitingClient? then tail else [])
      && after.asked == b.asked + asked
      && Asks(asked, prompts, i, resumed, i + n < max && !env(i + n).cancelledAtTop)
    decreases max - i
  {
    hide Loop, StepOf, EndsWith, StepsGoOn, Asks;
    if i < max && !env(i).cancelledAtTop && StepOf(b.prompt, resumed, env(i)).Continued? {
      var next := NextBatch(b, i, resumed, env(i));
      var first := if resumed then [] else [ModelCall(i, b.prompt)];
      LoopGoesOn(b, i, max, resumed, env);
      var later, last, more := LoopIsARun(next, i + 1, max, false, env);
      prompts, tail, asked := [b.prompt] + later, last, first + more;
      assert prompts[|prompts| - 1] == later[|later| - 1];
      StepsPrepended(b, i, max, resumed, env, later);
      AsksPrepended(b.prompt, i, resumed, later, more,
                    i + |later| < max && !env(i + |later|).cancelledAtTop);
      AskedFirst(b, i, resumed);
      assert b.asked + (first + more) == b.asked + first + more;
      RecordPrepended(b.prompt, b.record, StepOf(b.prompt, resumed, env(i)).added, Last(later), tail);
    } else {
      var asksNow := i < max && !env(i).cancelledAtTop;
      prompts, asked := [b.prompt], if asksNow && !resumed then [ModelCall(i, b.prompt)] else [];
      tail := EndOfLoop(b, i, max, resumed, env);
      NoStepGoesOn(b.prompt, i, max, resumed, env);
      AskedFirst(b, i, resumed);
      assert b.asked + [] == b.asked;
      assert b.prompt[|b.prompt|..] == [] && b.record + [] + tail == b.record + tail;
    }
  }

  lemma AskedFirst(b: Batch, i: nat, resumed: bool)
    ensures Ask(b, i, resumed).asked == b.asked + if resumed then [] else [ModelCall(i, b.prompt)]
  {
    assert b.asked + [] == b.asked;
  }

  lemma RecordPrepended(prompt: seq<Message>, record: seq<Message>, added: seq<Message>, last: seq<Message>,
                        tail: seq<Message>)
    requires prompt + added <= last
    ensures prompt <= last
    ensures record + added + last[|prompt + added|..] + tail == record + last[|prompt|..] + tail
  {
    assert last[|prompt|..] == added + last[|prompt + added|..];
  }

  lemma StepsPrepended(b: Batch, i: nat, max: nat, resumed: bool, env: nat -> StepEnv, later: seq<seq<Message>>)
    requires i < max && !env(i).cancelledAtTop && StepOf(b.prompt, resumed, env(i)).Continued?
    requires StepsGoOn(later, i + 1, max, false, env) && later[0] == NextBatch(b, i, resumed, env(i)).prompt
    ensures StepsGoOn([b.prompt] + later, i, max, resumed, env)
  {
    hide GoesOn, StepOf;
    var all := [b.prompt] + later;
    forall k {:trigger all[k]} | 0 <= k < |all| - 1
      ensures GoesOn(all[k], all[k + 1], i + k, max, resumed && k == 0, env)
    {
      if k == 0 { FirstGoesOn(b, i, max, resumed, env); } else { StepAt(later, i + 1, max, env, k - 1, i + k); }
    }
  }

  lemma FirstGoesOn(b: Batch, i: nat, max: nat, resumed: bool, env: nat -> StepEnv)
    requires i < max && !env(i).cancelledAtTop && StepOf(b.prompt, resumed, env(i)).Continued?
    ensures GoesOn(b.prompt, NextBatch(b, i, resumed, env(i)).prompt, i, max, resumed, env)
  {
    hide FreshStep, ResumedStep;
  }

  lemma StepAt(prompts: seq<seq<Message>>, i: nat, max: nat, env: nat -> StepEnv, k: nat, at: nat)
    requires StepsGoOn(prompts, i, max, false, env) && k < |prompts| - 1 && at == i + k
    ensures GoesOn(prompts[k], prompts[k + 1], at, max, false, env)
  {
    hide GoesOn;
    assert GoesOn(prompts[k], prompts[k + 1], i + k, max, false, env);
  }

  lemma AsksPrepended(prompt: seq<Message>, i: nat, resumed: bool, later: seq<seq<Message>>, more: seq<ModelCall>,
                      lastAsks: bool)
    requires later != [] && Asks(more, later, i + 1, false, lastAsks)
    ensures Asks((if resumed then [] else [ModelCall(i, prompt)]) + more, [prompt] + later, i, resumed, lastAsks)
  {
    var all := [prompt] + later;
    assert forall k {:trigger later[k]} :: 0 <= k < |later| ==> later[k] == all[k + 1];
    if resumed { assert [] + more == more; }
  }

  lemma NoStepGoesOn(prompt: seq<Message>, i: nat, max: nat, resumed: bool, env: nat -> StepEnv)
    ensures StepsGoOn([prompt], i, max, resumed, env)
    ensures Asks(if resumed then [] else [ModelCall(i, prompt)], [prompt], i, resumed, true)
    ensures Asks([], [prompt], i, resumed, false)
  {
  }

  lemma EndOfLoop(b: Batch, i: nat, max: nat, resumed: bool, env: nat -> StepEnv) returns (tail: seq<Message>)
    requires i >= max || env(i).cancelledAtTop || !StepOf(b.prompt, resumed, env(i)).Continued?
    ensures
      var (after, end) := Loop(b, i, max, resumed, env);
      && EndsWith(b.prompt, i, max, resumed, env(i), tail, end)
      && after.record == b.record + tail
      && after.prompt == b.prompt + (if end.AwaitingClient? then tail else [])
      && after.asked == (if i < max && !env(i).cancelledAtTop then Ask(b, i, resumed) else b).asked
  {
    hide FreshStep, ResumedStep;
    assert b.prompt + [] == b.prompt && b.record + [] == b.record;
    if i >= max {
      tail := [EXHAUSTED_WARNING];
    } else if env(i).cancelledAtTop {
      tail := [];
    } else {
      match StepOf(b.prompt, resumed, env(i)) {
        case Raised => tail := [];
        case Finished(answer) => tail := [answer];
        case Aborted(added) => tail := added;
        case Suspended(added) => tail := added;
        case Continued(_) => assert false;
      }
    }
  }

  /** A new turn, read off the same way: it stores the question, what its steps handed over, and what the
      end adds; it suspends with the prompt so far and the iteration it stands at, exactly when it awaits
      the client. */
  lemma StartedTurn(prompt: seq<Message>, question: string, max: nat, first: BatchEnv)
    returns (prompts: seq<seq<Message>>, tail: seq<Message>, asked: seq<ModelCall>, end: End)
    requires !first.rejected
    ensures prompts != [] && StepsGoOn(prompts, 0, max, false, first.step) && prompts[0] == prompt <= Last(prompts)
    ensures
      var n := |prompts| - 1;
      && EndsWith(prompts[n], n, max, false, first.step(n), tail, end)
      && Asks(asked, prompts, 0, false, n < max && !first.step(n).cancelledAtTop)
      && Start(prompt, question, max, first)
         == Turn([User(question)] + prompts[n][|prompt|..] + tail,
                 if end.AwaitingClient? then Some(Suspension(prompts[n] + tail, n)) else None, asked)
  {
    hide Loop, StepsGoOn, Asks, FreshStep, ResumedStep;
    var b := Batch(prompt, [User(question)], []);
    prompts, tail, asked := LoopIsARun(b, 0, max, false, first.step);
    end := Loop(b, 0, max, false, first.step).1;
    assert [] + asked == asked;
  }

  /** A resumed turn: it goes on from the saved prompt and iteration with the tool phase it was suspended
      in, adds to what is stored, and has no suspension but one of its own. */
  lemma ResumedTurn(t: Turn, max: nat, env: BatchEnv)
    returns (prompts: seq<seq<Message>>, tail: seq<Message>, asked: seq<ModelCall>, end: End)
    requires t.suspension.Some? && !env.rejected
    ensures
      var saved := t.suspension.value;
      && prompts != [] && StepsGoOn(prompts, saved.iteration, max, true, env.step)
      && prompts[0] == saved.prompt <= Last(prompts)
    ensures
      var saved := t.suspension.value;
      var n := |prompts| - 1;
      var at := saved.iteration + n;
      && EndsWith(prompts[n], at, max, n == 0, env.step(at), tail, end)
      && Asks(asked, prompts, saved.iteration, true, at < max && !env.step(at).cancelledAtTop)
      && Resume(t, max, env)
         == Turn(t.stored + (prompts[n][|saved.prompt|..] + tail),
                 if end.AwaitingClient? then Some(Suspension(prompts[n] + tail, at)) else None, t.asked + asked)
  {
    hide Loop, StepsGoOn, Asks, FreshStep, ResumedStep;
    var saved := t.suspension.value;
    var b := Batch(saved.prompt, [], t.asked);
    prompts, tail, asked := LoopIsARun(b, saved.iteration, max, true, env.step);
    end := Loop(b, saved.iteration, max, true, env.step).1;
    assert [] + prompts[|prompts| - 1][|saved.prompt|..] == prompts[|prompts| - 1][|saved.prompt|..];
  }

  /** A batch whose options are rejected records nothing; a suspension it was to resume is consumed. */
  lemma RejectedTurn(prompt: seq<Message>, question: string, t: Turn, max: nat, env: BatchEnv)
    requires env.rejected
    ensures Start(prompt, question, max, env) == Turn([User(question)], None, [])
    ensures t.suspension.Some? ==> Resume(t, max, env) == Turn(t.stored, None, t.asked)
  {
    assert [] + [User(question)] == [User(question)] && t.stored + [] == t.stored;
  }

  // ---------------------------------------------------------------------------------------------
  // Budget

  /** The model calls of a turn: one per iteration, in increasing order, all below the limit. */
  ghost predicate Budgeted(asked: seq<ModelCall>, bound: nat) {
    && (forall k {:trigger asked[k]} :: 0 <= k < |asked| ==> asked[k].iteration < bound)
    && (forall j, k {:trigger asked[j], asked[k]} :: 0 <= j < k < |asked| ==> asked[j].iteration < asked[k].iteration)
  }

  /** The same, with `last` the greatest iteration there may be. */
  ghost predicate Reached(asked: seq<ModelCall>, last: nat) { Budgeted(asked, last + 1) }

  lemma {:induction false} BudgetCounts(asked: seq<ModelCall>, bound: nat)
    requires Budgeted(asked, bound)
    ensures |asked| <= bound
  {
    if asked != [] {
      assert asked[|asked| - 1].iteration < bound;
      BudgetCounts(Init(asked), Last(asked).iteration);
    }
  }

  /** A batch asks the model only at iterations from its start on - after it, when it resumes. */
  lemma {:induction false} LoopKeepsBudget(b: Batch, i: nat, max: nat, resumed: bool, env: nat -> StepEnv)
    requires i <= max && if resumed then Reached(b.asked, i) else Budgeted(b.asked, i)
    ensures
      var (after, end) := Loop(b, i, max, resumed, env);
      && (end.AwaitingClient? ==>
            i <= end.iteration < max && (resumed ==> i < end.iteration) && Reached(after.asked, end.iteration))
      && (!end.AwaitingClient? ==>
            if resumed && i == max then Reached(after.asked, max) else Budgeted(after.asked, max))
    decreases max - i
  {
    hide Loop, Budgeted, Reached, StepOf, Ask;
    BudgetRises(b.asked, i, max);
    if i < max && !env(i).cancelledAtTop {
      AskKeepsBudget(b, i, resumed);
      BudgetRises(Ask(b, i, resumed).asked, i, max);
      if StepOf(b.prompt, resumed, env(i)).Continued? {
        var next := NextBatch(b, i, resumed, env(i));
        LoopGoesOn(b, i, max, resumed, env);
        LoopKeepsBudget(next, i + 1, max, false, env);
      } else {
        LoopStops(b, i, max, resumed, env);
      }
    } else {
      LoopStops(b, i, max, resumed, env);
    }
  }

  lemma BudgetRises(asked: seq<ModelCall>, i: nat, max: nat)
    ensures Budgeted(asked, i) && i <= max ==> Budgeted(asked, max)
    ensures Reached(asked, i) && i < max ==> Budgeted(asked, max) && Budgeted(asked, i + 1)
  {
  }

  lemma AskKeepsBudget(b: Batch, i: nat, resumed: bool)
    requires if resumed then Reached(b.asked, i) else Budgeted(b.asked, i)
    ensures Reached(Ask(b, i, resumed).asked, i)
  {
  }

  /** The batch after a step that goes on. */
  function NextBatch(b: Batch, i: nat, resumed: bool, env: StepEnv): (r: Batch)
    requires StepOf(b.prompt, resumed, env).Continued?
    ensures r.asked == Ask(b, i, resumed).asked
    ensures
      var added := StepOf(b.prompt, resumed, env).added;
      r.record == b.record + added && r.prompt == b.prompt + added
  {
    var added := StepOf(b.prompt, resumed, env).added;
    Ask(b, i, resumed).(record := b.record + added, prompt := b.prompt + added)
  }

  lemma LoopGoesOn(b: Batch, i: nat, max: nat, resumed: bool, env: nat -> StepEnv)
    requires i < max && !env(i).cancelledAtTop && StepOf(b.prompt, resumed, env(i)).Continued?
    ensures Loop(b, i, max, resumed, env) == Loop(NextBatch(b, i, resumed, env(i)), i + 1, max, false, env)
  {
  }

  lemma LoopStops(b: Batch, i: nat, max: nat, resumed: bool, env: nat -> StepEnv)
    requires i >= max || env(i).cancelledAtTop || !StepOf(b.prompt, resumed, env(i)).Continued?
    ensures
      var (after, end) := Loop(b, i, max, resumed, env);
      && after.asked == (if i < max && !env(i).cancelledAtTop then Ask(b, i, resumed) else b).asked
      && (end.AwaitingClient? ==> i < max && !env(i).cancelledAtTop && !resumed && end.iteration == i)
  {
  }

  // ---------------------------------------------------------------------------------------------
  // Pairing

  /** The call ids open where a step begins: those of the suspended reply when it resumes one. */
  function OpenAt(prompt: seq<Message>, resumed: bool): multiset<string> {
    if resumed then Ids(LastCalls(prompt)) else multiset{}
  }

  lemma OneReply(reply: Message, after: seq<Message>)
    requires reply.Assistant?
    ensures Scan(multiset{}, [reply] + after) == Scan(Ids(reply.calls), after)
    ensures Scan(multiset{}, [reply]) == Some(Ids(reply.calls))
  {
    assert ([reply] + after)[1..] == after;
    assert Scan(Ids(reply.calls), [reply][1..]) == Some(Ids(reply.calls));
  }

  lemma AllAnswered(calls: seq<Call>, interrupted: bool)
    ensures Scan(Ids(calls), Answers(calls, interrupted)) == Some(multiset{})
  {
    AnswersClose(calls, interrupted, multiset{});
    assert Ids(calls) + multiset{} == Ids(calls);
  }

  lemma ClassesAnswered(calls: seq<Call>, scope: map<string, Tool>)
    ensures Scan(Ids(calls), Answers(OfKind(calls, scope, Server), false)
                             + Answers(OfKind(calls, scope, Approval), false)
                             + Answers(OfKind(calls, scope, Client), false)) == Some(multiset{})
  {
    var s, a, c := OfKind(calls, scope, Server), OfKind(calls, scope, Approval), OfKind(calls, scope, Client);
    ClassesPartition(calls, scope);
    hide Scan, Answers, Ids;
    assert Ids(calls) == Ids(s) + (Ids(a) + Ids(c));
    AnswersClose(s, false, Ids(a) + Ids(c));
    AnswersClose(a, false, Ids(c));
    AllAnswered(c, false);
    ScanSplits(Ids(calls), Answers(s, false) + Answers(a, false), Answers(c, false));
    ScanSplits(Ids(calls), Answers(s, false), Answers(a, false));
  }

  lemma NoIds()
    ensures Ids([]) == multiset{}
  {
  }

  lemma FreshAnswersItsCalls(env: StepEnv)
    ensures
      match FreshStep(env)
      case Raised => true
      case Finished(answer) => Scan(multiset{}, [answer]) == Some(multiset{})
      case Suspended(added) =>
        |added| == 1 && added[0].Assistant? && added[0].calls != []
        && Scan(multiset{}, added) == Some(Ids(added[0].calls))
      case Aborted(added) => Scan(multiset{}, added) == Some(multiset{})
      case Continued(added) => Scan(multiset{}, added) == Some(multiset{})
  {
    hide Scan, Answers, OfKind, Ids, Texts, Thoughts, CallsOf;
    var reply := Reply(env.events);
    AllAnswered(reply.calls, true);
    AllAnswered(reply.calls, false);
    OneReply(reply, Answers(reply.calls, true));
    OneReply(reply, Answers(reply.calls, false));
    NoIds();
  }

  lemma ResumedAnswersItsCalls(calls: seq<Call>, env: StepEnv)
    ensures
      match ResumedStep(calls, env)
      case Aborted(added) => Scan(Ids(calls), added) == Some(multiset{})
      case Continued(added) => Scan(Ids(calls), added) == Some(multiset{})
      case _ => false
  {
    hide Scan, Answers, OfKind, Ids;
    AllAnswered(calls, true);
    ClassesAnswered(calls, env.scope);
  }

  /** Whatever a step adds answers every call that was open or that it opened, unless it suspends: then
      exactly the calls of its own reply are open. */
  lemma StepAnswersItsCalls(prompt: seq<Message>, resumed: bool, env: StepEnv)
    ensures
      match StepOf(prompt, resumed, env)
      case Raised => !resumed
      case Finished(answer) => !resumed && Scan(multiset{}, [answer]) == Some(multiset{})
      case Suspended(added) =>
        !resumed && |added| == 1 && added[0].Assistant? && added[0].calls != []
        && Scan(multiset{}, added) == Some(Ids(added[0].calls))
      case Aborted(added) => Scan(OpenAt(prompt, resumed), added) == Some(multiset{})
      case Continued(added) => Scan(OpenAt(prompt, resumed), added) == Some(multiset{})
  {
    hide Scan, FreshStep, ResumedStep, Ids;
    if resumed { ResumedAnswersItsCalls(LastCalls(prompt), env); } else { FreshAnswersItsCalls(env); }
  }

  ghost predicate PromptsPaired(asked: seq<ModelCall>) {
    forall k {:trigger asked[k]} :: 0 <= k < |asked| ==> Paired(asked[k].prompt)
  }

  /** The step a batch starts with is really run: not cut off by rejected options, by the limit or by
      a cancellation seen at the top of the loop. */
  predicate FirstStepRuns(start: nat, max: nat, env: BatchEnv) {
    !env.rejected && start < max && !env.step(start).cancelledAtTop
  }

  /** `before` is what earlier batches stored. Every model call sees a paired prompt; a suspension leaves
      its reply's calls open both in the prompt and in the record; any other end leaves the record
      paired - except a resumed batch that ends before its first step. */
  lemma {:induction false} LoopKeepsPairing(
    before: seq<Message>, b: Batch, i: nat, max: nat, resumed: bool, env: nat -> StepEnv)
    requires Scan(multiset{}, b.prompt) == Some(OpenAt(b.prompt, resumed))
    requires Scan(multiset{}, before + b.record) == Some(OpenAt(b.prompt, resumed))
    requires resumed ==> LastCalls(b.prompt) != []
    requires PromptsPaired(b.asked)
    ensures
      var (after, end) := Loop(b, i, max, resumed, env);
      && PromptsPaired(after.asked)
      && (if end.AwaitingClient?
          then
            && LastCalls(after.prompt) != []
            && Scan(multiset{}, after.prompt) == Some(OpenAt(after.prompt, true))
            && Scan(multiset{}, before + after.record) == Some(OpenAt(after.prompt, true))
          else
            Paired(before + after.record) <==> (!resumed || FirstStepRuns(i, max, BatchEnv(false, env))))
    decreases max - i
  {
    var story := before + b.record;
    if resumed { SomeIds(LastCalls(b.prompt)); }
    if i >= max {
      Extend(before, b.record, [EXHAUSTED_WARNING]);
    } else if !env(i).cancelledAtTop {
      var asked := Ask(b, i, resumed);
      StepAnswersItsCalls(b.prompt, resumed, env(i));
      hide Scan, StepOf, OfKind, Answers;
      match StepOf(b.prompt, resumed, env(i)) {
        case Raised =>
        case Finished(answer) => Extend(before, b.record, [answer]);
        case Aborted(added) => Extend(before, b.record, added);
        case Suspended(added) =>
          Extend(before, b.record, added);
          ScanSplits(multiset{}, b.prompt, added);
          assert Last(b.prompt + added) == added[0];
        case Continued(added) =>
          Extend(before, b.record, added);
          ScanSplits(multiset{}, b.prompt, added);
          LoopKeepsPairing(
            before, asked.(record := b.record + added, prompt := b.prompt + added), i + 1, max, false, env);
      }
    }
  }

  lemma Extend(before: seq<Message>, record: seq<Message>, added: seq<Message>)
    ensures Scan(multiset{}, before + (record + added))
            == match Scan(multiset{}, before + record) case None => None case Some(after) => Scan(after, added)
  {
    assert before + (record + added) == before + record + added;
    ScanSplits(multiset{}, before + record, added);
  }

  lemma SomeIds(calls: seq<Call>)
    requires calls != []
    ensures Ids(calls) != multiset{}
  {
    assert calls[0].id in Ids(calls);
  }

  // ---------------------------------------------------------------------------------------------
  // The prompt is the transcript

  /** The prompt carries the opening prompt and then all that was recorded after the question. */
  ghost predicate Carries(opening: seq<Message>, prompt: seq<Message>, story: seq<Message>) {
    story != [] && prompt == opening + story[1..]
  }

  /** Every model call saw the opening prompt and a prefix of what was recorded. */
  ghost predicate SawPrefixes(opening: seq<Message>, asked: seq<ModelCall>, story: seq<Message>) {
    story != [] && forall k {:trigger asked[k]} :: 0 <= k < |asked| ==>
      opening <= asked[k].prompt <= opening + story[1..]
  }

  lemma StoryGrows(opening: seq<Message>, prompt: seq<Message>, asked: seq<ModelCall>,
                   before: seq<Message>, record: seq<Message>, added: seq<Message>)
    requires SawPrefixes(opening, asked, before + record)
    ensures SawPrefixes(opening, asked, before + (record + added))
    ensures Carries(opening, prompt, before + record)
            ==> Carries(opening, prompt + added, before + (record + added))
  {
    var story := before + record;
    assert before + (record + added) == story + added;
    assert (story + added)[1..] == story[1..] + added;
    assert opening + (story[1..] + added) == opening + story[1..] + added;
  }

  lemma {:induction false} LoopCarriesTranscript(
    opening: seq<Message>, before: seq<Message>, b: Batch, i: nat, max: nat, resumed: bool, env: nat -> StepEnv)
    requires Carries(opening, b.prompt, before + b.record)
    requires SawPrefixes(opening, b.asked, before + b.record)
    ensures
      var (after, end) := Loop(b, i, max, resumed, env);
      && SawPrefixes(opening, after.asked, before + after.record)
      && (end.AwaitingClient? ==> Carries(opening, after.prompt, before + after.record))
    decreases max - i
  {
    if i >= max {
      StoryGrows(opening, b.prompt, b.asked, before, b.record, [EXHAUSTED_WARNING]);
    } else if !env(i).cancelledAtTop {
      var asked := Ask(b, i, resumed);
      assert SawPrefixes(opening, asked.asked, before + b.record);
      hide Carries, SawPrefixes, StepOf, Ask;
      match StepOf(b.prompt, resumed, env(i)) {
        case Raised =>
        case Finished(answer) => StoryGrows(opening, b.prompt, asked.asked, before, b.record, [answer]);
        case Aborted(added) => StoryGrows(opening, b.prompt, asked.asked, before, b.record, added);
        case Suspended(added) => StoryGrows(opening, b.prompt, asked.asked, before, b.record, added);
        case Continued(added) =>
          LoopGoesOn(b, i, max, resumed, env);
          StoryGrows(opening, b.prompt, asked.asked, before, b.record, added);
          hide Loop;
          LoopCarriesTranscript(opening, before, NextBatch(b, i, resumed, env(i)), i + 1, max, false, env);
      }
    }
  }

  // ---------------------------------------------------------------------------------------------
  // Whole turns

  /** Some resumed batch ended before its first step: its options were rejected, or the user's
      cancellation was seen at the top of the loop. */
  predicate Abandoned(prompt: seq<Message>, question: string, max: nat, first: BatchEnv, rest: seq<BatchEnv>) {
    rest != []
    && (Abandoned(prompt, question, max, first, Init(rest))
        || var t := Run(prompt, question, max, first, Init(rest));
           t.suspension.Some? && !FirstStepRuns(t.suspension.value.iteration, max, Last(rest)))
  }

  /** What holds of a turn between batches. */
  ghost predicate Sound(opening: seq<Message>, max: nat, t: Turn) {
    WithinBudget(max, t) && PairedSoFar(t) && ToldSoFar(opening, t)
  }

  ghost predicate WithinBudget(max: nat, t: Turn) {
    && (t.suspension.None? ==> Budgeted(t.asked, max))
    && (t.suspension.Some? ==>
          t.suspension.value.iteration < max && Reached(t.asked, t.suspension.value.iteration))
  }

  ghost predicate PairedSoFar(t: Turn) {
    && PromptsPaired(t.asked)
    && (t.suspension.Some? ==>
          var saved := t.suspension.value;
          && LastCalls(saved.prompt) != []
          && Scan(multiset{}, saved.prompt) == Some(Ids(LastCalls(saved.prompt)))
          && Scan(multiset{}, t.stored) == Some(Ids(LastCalls(saved.prompt))))
  }

  ghost predicate ToldSoFar(opening: seq<Message>, t: Turn) {
    && SawPrefixes(opening, t.asked, t.stored)
    && (t.suspension.Some? ==> Carries(opening, t.suspension.value.prompt, t.stored))
  }

  lemma Opening(prompt: seq<Message>, question: string)
    ensures Carries(prompt, prompt, [] + [User(question)])
    ensures SawPrefixes(prompt, [], [] + [User(question)])
    ensures Scan(multiset{}, [] + [User(question)]) == Some(multiset{})
    ensures PromptsPaired([]) && forall n: nat :: Budgeted([], n)
  {
    assert [] + [User(question)] == [User(question)];
    assert [User(question)][1..] == [] && prompt + [] == prompt;
  }

  lemma StartIsSound(prompt: seq<Message>, question: string, max: nat, first: BatchEnv)
    requires Paired(prompt)
    ensures
      var t := Start(prompt, question, max, first);
      Sound(prompt, max, t) && (Paired(t.stored) <==> t.suspension.None?)
  {
    var b := Batch(prompt, [User(question)], []);
    Opening(prompt, question);
    hide Loop, Scan, Budgeted, Reached, Carries, SawPrefixes, PromptsPaired;
    if !first.rejected {
      LoopKeepsBudget(b, 0, max, false, first.step);
      LoopKeepsPairing([], b, 0, max, false, first.step);
      LoopCarriesTranscript(prompt, [], b, 0, max, false, first.step);
    }
    WaitingIsNotPaired(Start(prompt, question, max, first));
  }

  lemma WaitingIsNotPaired(t: Turn)
    ensures PairedSoFar(t) && t.suspension.Some? ==> !Paired(t.stored)
  {
    if t.suspension.Some? && LastCalls(t.suspension.value.prompt) != [] {
      SomeIds(LastCalls(t.suspension.value.prompt));
    }
  }

  /** One resumed batch. A new suspension comes strictly later than the one consumed, and the record
      ends paired exactly when the batch did not suspend and ran its first step. */
  lemma ResumeIsSound(opening: seq<Message>, t: Turn, max: nat, env: BatchEnv)
    requires Sound(opening, max, t) && t.suspension.Some?
    ensures
      var next := Resume(t, max, env);
      && Sound(opening, max, next)
      && (next.suspension.Some? ==> t.suspension.value.iteration < next.suspension.value.iteration)
      && (Paired(next.stored)
          <==> next.suspension.None? && FirstStepRuns(t.suspension.value.iteration, max, env))
      && (next.suspension.Some? ==> FirstStepRuns(t.suspension.value.iteration, max, env))
  {
    ResumeKeepsBudget(t, max, env);
    ResumeKeepsPairing(t, max, env);
    hide WithinBudget, PairedSoFar, Resume, FirstStepRuns, Paired;
    if env.rejected {
      RejectedResume(t, max, env);
    } else {
      var saved := t.suspension.value;
      assert t.stored + [] == t.stored;
      ResumedLoop(t, max, env);
      hide Loop, Carries, SawPrefixes;
      LoopCarriesTranscript(
        opening, t.stored, Batch(saved.prompt, [], t.asked), saved.iteration, max, true, env.step);
    }
  }

  lemma RejectedResume(t: Turn, max: nat, env: BatchEnv)
    requires t.suspension.Some? && env.rejected
    ensures Resume(t, max, env) == Turn(t.stored, None, t.asked)
    ensures !FirstStepRuns(t.suspension.value.iteration, max, env)
  {
    assert t.stored + [] == t.stored;
  }

  lemma ResumedLoop(t: Turn, max: nat, env: BatchEnv)
    requires t.suspension.Some? && !env.rejected
    ensures
      var saved := t.suspension.value;
      Resume(t, max, env)
      == Settle(t.stored, Loop(Batch(saved.prompt, [], t.asked), saved.iteration, max, true, env.step))
    ensures env == BatchEnv(false, env.step)
  {
  }

  lemma ResumeKeepsBudget(t: Turn, max: nat, env: BatchEnv)
    requires WithinBudget(max, t) && t.suspension.Some?
    ensures
      var next := Resume(t, max, env);
      && WithinBudget(max, next)
      && (next.suspension.Some? ==> t.suspension.value.iteration < next.suspension.value.iteration)
  {
    var saved := t.suspension.value;
    BudgetRises(t.asked, saved.iteration, max);
    hide Loop, Budgeted, Reached, Resume;
    if env.rejected {
      RejectedResume(t, max, env);
    } else {
      ResumedLoop(t, max, env);
      LoopKeepsBudget(Batch(saved.prompt, [], t.asked), saved.iteration, max, true, env.step);
    }
  }

  lemma ResumeKeepsPairing(t: Turn, max: nat, env: BatchEnv)
    requires PairedSoFar(t) && t.suspension.Some?
    ensures
      var next := Resume(t, max, env);
      && PairedSoFar(next)
      && (Paired(next.stored)
          <==> next.suspension.None? && FirstStepRuns(t.suspension.value.iteration, max, env))
      && (next.suspension.Some? ==> FirstStepRuns(t.suspension.value.iteration, max, env))
  {
    var saved := t.suspension.value;
    WaitingIsNotPaired(t);
    WaitingIsNotPaired(Resume(t, max, env));
    hide Loop, Scan, LastCalls, Ids, PromptsPaired, Paired, Resume, FirstStepRuns;
    if env.rejected {
      RejectedResume(t, max, env);
    } else {
      assert t.stored + [] == t.stored;
      ResumedLoop(t, max, env);
      LoopKeepsPairing(t.stored, Batch(saved.prompt, [], t.asked), saved.iteration, max, true, env.step);
    }
  }

  /** For every run of a turn started on a paired prompt, over any chain of suspensions and resumes:
      each model call saw a paired prompt; the model was called at most `max` times, at strictly
      increasing iterations; and what is stored is paired exactly when nothing is suspended and no
      resumed batch was abandoned. */
  lemma {:induction false} EveryTurnIsSound(
    prompt: seq<Message>, question: string, max: nat, first: BatchEnv, rest: seq<BatchEnv>)
    requires Paired(prompt)
    ensures
      var t := Run(prompt, question, max, first, rest);
      && Sound(prompt, max, t)
      && |t.asked| <= max
      && (Paired(t.stored) <==> t.suspension.None? && !Abandoned(prompt, question, max, first, rest))
      && (t.suspension.Some? ==> !Abandoned(prompt, question, max, first, rest))
    decreases |rest|
  {
    var t := Run(prompt, question, max, first, rest);
    hide Start, Resume, Sound, FirstStepRuns;
    if rest == [] {
      StartIsSound(prompt, question, max, first);
    } else {
      var earlier := Run(prompt, question, max, first, Init(rest));
      EveryTurnIsSound(prompt, question, max, first, Init(rest));
      if earlier.suspension.Some? {
        ResumeIsSound(prompt, earlier, max, Last(rest));
      } else {
        NothingToResume(earlier, max, Last(rest));
      }
    }
    SoundIsBudgeted(prompt, max, t);
  }

  lemma NothingToResume(t: Turn, max: nat, env: BatchEnv)
    requires t.suspension.None?
    ensures Resume(t, max, env) == t
  {
  }

  lemma SoundIsBudgeted(opening: seq<Message>, max: nat, t: Turn)
    requires Sound(opening, max, t)
    ensures |t.asked| <= max
  {
    BudgetCounts(t.asked, if t.suspension.Some? then t.suspension.value.iteration + 1 else max);
  }

  /** Suspensions of a turn come at strictly increasing iterations. */
  lemma SuspensionsAdvance(
    prompt: seq<Message>, question: string, max: nat, first: BatchEnv, rest: seq<BatchEnv>)
    requires Paired(prompt) && rest != []
    ensures
      var before := Run(prompt, question, max, first, Init(rest));
      var after := Run(prompt, question, max, first, rest);
      before.suspension.Some? && after.suspension.Some?
      ==> before.suspension.value.iteration < after.suspension.value.iteration < max
  {
    var before := Run(prompt, question, max, first, Init(rest));
    EveryTurnIsSound(prompt, question, max, first, Init(rest));
    if before.suspension.Some? { ResumeIsSound(prompt, before, max, Last(rest)); }
  }

  /** The exception is real: the user cancels a turn that waits for a client tool, and its call stays
      unanswered in what is stored although nothing is suspended any more. */
  lemma CancelledResumeLeavesCallOpen(env: StepEnv)
    ensures
      var call := Call("c", "browser", "{}");
      var scope := map["browser" := Tool(true, false)];
      var asks := StepEnv(false, [ToolCalls([call])], Completed, scope, false, false, false, false, false);
      var resumed := BatchEnv(false, _ => env.(cancelledAtTop := true));
      var t := Run([User("q")], "q", 1, BatchEnv(false, _ => asks), [resumed]);
      && t.suspension.None?
      && t.stored == [User("q"), Assistant("", "", [call])]
      && !Paired(t.stored)
  {
    var call := Call("c", "browser", "{}");
    var scope := map["browser" := Tool(true, false)];
    var asks := StepEnv(false, [ToolCalls([call])], Completed, scope, false, false, false, false, false);
    var first := BatchEnv(false, _ => asks);
    var second := BatchEnv(false, _ => env.(cancelledAtTop := true));
    var reply := Assistant("", "", [call]);
    assert Init([second]) == [] && Last([second]) == second;
    assert Run([User("q")], "q", 1, first, [second]) == Resume(Run([User("q")], "q", 1, first, []), 1, second);
    AskingForClient(asks, call);
    hide Run, Resume, FreshStep, Scan;
    AskingSuspends([User("q")], "q", first, reply);
    CancelledAtOnce(Start([User("q")], "q", 1, first), 1, second);
    assert [User("q")] + [reply] == [User("q"), reply];
    UnansweredCall("q", call);
  }

  lemma AskingSuspends(prompt: seq<Message>, question: string, first: BatchEnv, reply: Message)
    requires !first.rejected && !first.step(0).cancelledAtTop && FreshStep(first.step(0)) == Suspended([reply])
    ensures
      var t := Start(prompt, question, 1, first);
      && t.stored == [User(question)] + [reply]
      && t.suspension == Some(Suspension(prompt + [reply], 0))
      && Run(prompt, question, 1, first, []) == t
  {
    hide FreshStep;
    assert [] + ([User(question)] + [reply]) == [User(question)] + [reply];
  }

  lemma CancelledAtOnce(t: Turn, max: nat, env: BatchEnv)
    requires t.suspension.Some? && t.suspension.value.iteration < max
    requires !env.rejected && env.step(t.suspension.value.iteration).cancelledAtTop
    ensures Resume(t, max, env).stored == t.stored && Resume(t, max, env).suspension.None?
  {
    assert t.stored + [] == t.stored;
  }

  lemma UnansweredCall(question: string, call: Call)
    ensures !Paired([User(question), Assistant("", "", [call])])
  {
    var reply := Assistant("", "", [call]);
    SomeIds([call]);
    OneReply(reply, []);
    ScanSplits(multiset{}, [User(question)], [reply]);
    assert Scan(multiset{}, [User(question)]) == Some(multiset{});
    hide Scan, Ids;
    assert [User(question)] + [reply] == [User(question), reply];
  }

  lemma AskingForClient(env: StepEnv, call: Call)
    requires env.events == [ToolCalls([call])] && env.ending == Completed && !env.cancelledBeforeTools
    requires KindOf(call, env.scope) == Client
    ensures FreshStep(env) == Suspended([Assistant("", "", [call])])
  {
    Says([], ToolCalls([call]));
    assert [] + env.events == env.events;
    EarlyThenLate(env.events);
    assert Init([call]) == [] && Last([call]) == call;
    assert OfKind([call], env.scope, Client) == [call];
  }
}
