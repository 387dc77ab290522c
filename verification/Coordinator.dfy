/** The coordinator's working context for a turn, changed in place batch by batch. */
module Coordinator {
  import opened Sequences
  import opened Transcript
  import opened QueryLoop
  import opened ChatTurns

  class ChatTurnContext {
    const maxIterations: nat
    var prompt: seq<Message>                 // messages_for_llm, shared with the loop
    var record: seq<Message>                 // chat_record_messages of the current batch
    var stored: seq<Message>                 // what earlier batches persisted
    var suspension: Option<Suspension>       // the saved suspended chat of this session
    ghost var asked: seq<ModelCall>

    ghost function State(): Turn
      reads this
    {
      Turn(stored, suspension, asked)
    }

    ghost function Working(): Batch
      reads this
    {
      Batch(prompt, record, asked)
    }

    constructor (maxIterations: nat)
      ensures State() == Turn([], None, []) && this.maxIterations == maxIterations
    {
      this.maxIterations := maxIterations;
      prompt, record, stored, suspension := [], [], [], None;
      asked := [];
    }

    /** One batch: the loop over iterations, recording what each step hands over. */
    method QueryLlm(start: nat, resumed: bool, env: BatchEnv) returns (end: End)
      modifies `prompt, `record, `suspension, `asked
      ensures (Working(), end) == RunBatch(old(Working()), start, maxIterations, resumed, env)
      ensures suspension
              == if end.AwaitingClient? then Some(Suspension(prompt, end.iteration)) else old(suspension)
    {
      if env.rejected { return Failure; }
      var i, resuming := start, resumed;
      while i < maxIterations
        invariant RunBatch(old(Working()), start, maxIterations, resumed, env)
                  == Loop(Working(), i, maxIterations, resuming, env.step)
        invariant suspension == old(suspension)
      {
        var step := env.step(i);
        if step.cancelledAtTop { return AbortedByUser; }
        if !resuming { asked := asked + [ModelCall(i, prompt)]; }
        var r := RunStep(prompt, resuming, step);
        resuming := false;
        match r {
          case Raised =>
            return Failure;
          case Finished(answer) =>
            record := record + [answer];
            return Replied;
          case Aborted(added) =>
            record := record + added;
            return AbortedByUser;
          case Suspended(added) =>
            record := record + added;
            prompt := prompt + added;
            suspension := Some(Suspension(prompt, i));
            return AwaitingClient(i);
          case Continued(added) =>
            record := record + added;
            prompt := prompt + added;
        }
        i := i + 1;
      }
      record := record + [EXHAUSTED_WARNING];
      end := Exhausted;
    }

    method HandleNewChatStart(context: seq<Message>, question: string, env: BatchEnv) returns (end: End)
      requires State() == Turn([], None, [])
      modifies this
      ensures State() == Start(context, question, maxIterations, env)
    {
      prompt, record := context, [User(question)];
      end := QueryLlm(0, false, env);
      stored := stored + record;
    }

    method HandleSuspendedChatRecover(env: BatchEnv) returns (r: Result<End>)
      modifies this
      ensures r.Err? <==> old(suspension).None?
      ensures State() == Resume(old(State()), maxIterations, env)
    {
      if suspension.None? { return Err("SUSPENDED_CHAT_NOT_FOUND"); }
      var saved := suspension.value;
      prompt, record := saved.prompt, [];
      var end := QueryLlm(saved.iteration, true, env);
      stored := stored + record;
      if !end.AwaitingClient? { suspension := None; }
      r := Ok(end);
    }
  }
}
