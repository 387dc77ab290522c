/** Turn runners (`ChatTurnStreamManager`) sharing sessions' leases: every interleaving of starts, runner
    steps and lease expiries, one step per awaited store operation. */
module TurnRunner {
  import opened Sequences
  import opened TurnStream

  const START_FRAME := "message_start"
  const DONE_FRAME := "done"

  /** How a turn ends: its generator ended, it raised, or a renewal found the lease lost. */
  datatype Ending = Finish | Failure | Lost

  function ClosingFrame(e: Ending): string {
    match e
    case Finish => "message_finish"
    case Failure => "error: runner failed"
    case Lost => "error: lease lost"
  }

  /** What the chat generator of a turn does: it yields frames and then ends or raises. */
  datatype Script = Script(frames: seq<string>, raises: bool)

  datatype Phase =
    | Beginning                // about to append the start frame
    | Pulling                  // about to ask the generator for its next frame
    | Renewing                 // about to renew the lease before writing that frame
    | Writing                  // about to append it
    | Releasing                // generator ended: about to give up the lease
    | Concluding(end: Ending)  // about to append the last frame before the terminal one
    | Closing(end: Ending)     // about to append the terminal frame
    | Stopped(end: Ending)

  /** `renewedAt` is history: when the turn acquired its lease or last renewed it. */
  datatype Runner = Runner(session: string, script: Script, written: nat, phase: Phase, renewedAt: nat)

  datatype World = World(ttl: nat, now: nat, leases: Leases, streams: Streams, runners: map<string, Runner>)

  datatype Action =
    | StartTurn(session: string, turn: string, script: Script)
    | StepRunner(turn: string)
    | PassTime(seconds: nat)

  /** Nothing started yet; leases live for `ttl` seconds. */
  function Empty(ttl: nat): World { World(ttl, 0, map[], map[], map[]) }

  /** What a runner becomes with its step. */
  function RunnerAfter(w: World, turn: string): Runner
    requires turn in w.runners
  {
    var r := w.runners[turn];
    match r.phase
    case Beginning => r.(phase := Pulling)
    case Pulling =>
      r.(phase := if r.written < |r.script.frames| then Renewing
                  else if r.script.raises then Concluding(Failure)
                  else Releasing)
    case Renewing =>
      if Holds(w.leases, r.session, turn) then r.(phase := Writing, renewedAt := w.now)
      else r.(phase := Concluding(Lost))
    case Writing => if r.written < |r.script.frames| then r.(written := r.written + 1, phase := Pulling) else r
    case Releasing => r.(phase := Concluding(Finish))
    case Concluding(end) => r.(phase := Closing(end))
    case Closing(end) => r.(phase := Stopped(end))
    case Stopped(_) => r
  }

  /** What the step does to the stored leases. */
  function LeasesAfter(w: World, turn: string): Leases
    requires turn in w.runners
  {
    var r := w.runners[turn];
    if r.phase.Renewing? then Renew(w.leases, r.session, turn, w.now + w.ttl)
    else if r.phase.Releasing? then Release(w.leases, r.session, turn)
    else w.leases
  }

  /** The frame the step appends, and whether it is the terminal one. */
  function Appends(r: Runner): Option<(string, bool)> {
    match r.phase
    case Beginning => Some((START_FRAME, false))
    case Writing => if r.written < |r.script.frames| then Some((r.script.frames[r.written], false)) else None
    case Concluding(end) => Some((ClosingFrame(end), false))
    case Closing(_) => Some((DONE_FRAME, true))
    case _ => None
  }

  function StreamsAfter(w: World, turn: string): Streams
    requires turn in w.runners
  {
    match Appends(w.runners[turn])
    case None => w.streams
    case Some((frame, terminal)) => Append(w.streams, turn, frame, terminal)
  }

  function StepOf(w: World, turn: string): World
    requires turn in w.runners
  {
    World(w.ttl, w.now, LeasesAfter(w, turn), StreamsAfter(w, turn), w.runners[turn := RunnerAfter(w, turn)])
  }

  /** Turn ids are fresh; a start that finds the session's lease taken is refused. */
  function Apply(w: World, a: Action): World {
    match a
    case StartTurn(session, turn, script) =>
      if turn in w.runners || session in w.leases then w
      else w.(leases := Acquire(w.leases, session, turn, w.now + w.ttl),
              runners := w.runners[turn := Runner(session, script, 0, Beginning, w.now)])
    case StepRunner(turn) => if turn in w.runners then StepOf(w, turn) else w
    case PassTime(seconds) => w.(now := w.now + seconds, leases := Unexpired(w.leases, w.now + seconds))
  }

  function Run(w: World, actions: seq<Action>): World {
    if actions == [] then w else Apply(Run(w, Init(actions)), Last(actions))
  }

  // ---------------------------------------------------------------------------------------------
  // What a runner's log holds

  function Numbering(frames: seq<string>, terminal: bool): seq<Entry> {
    seq(|frames|, k requires 0 <= k < |frames| => Entry(k + 1, frames[k], terminal && k == |frames| - 1))
  }

  function Body(r: Runner): seq<string>
    requires r.written <= |r.script.frames|
  {
    [START_FRAME] + r.script.frames[..r.written]
  }

  function ExpectedLog(r: Runner): seq<Entry>
    requires r.written <= |r.script.frames|
  {
    match r.phase
    case Beginning => []
    case Closing(end) => Numbering(Body(r) + [ClosingFrame(end)], false)
    case Stopped(end) => Numbering(Body(r) + [ClosingFrame(end), DONE_FRAME], true)
    case _ => Numbering(Body(r), false)
  }

  predicate Ended(r: Runner) { r.phase.Concluding? || r.phase.Closing? || r.phase.Stopped? }

  /** Why the runner ends as it does: it finishes only after every generated frame, fails only after the
      generator raised, and is lost only with a frame still to be written. */
  predicate Justified(r: Runner) {
    && r.written <= |r.script.frames|
    && (r.phase.Beginning? ==> r.written == 0)
    && (r.phase.Renewing? || r.phase.Writing? ==> r.written < |r.script.frames|)
    && (r.phase.Releasing? ==> r.written == |r.script.frames| && !r.script.raises)
    && (Ended(r) ==>
          match r.phase.end
          case Finish => r.written == |r.script.frames| && !r.script.raises
          case Failure => r.written == |r.script.frames| && r.script.raises
          case Lost => r.written < |r.script.frames|)
  }

  ghost predicate Consistent(w: World) {
    && (forall t {:trigger w.runners[t]} :: t in w.runners ==>
          Justified(w.runners[t]) && Log(w.streams, t) == ExpectedLog(w.runners[t]))
    && (forall t {:trigger t in w.streams} :: t in w.streams ==> t in w.runners)
  }

  lemma AppendNumbered(frames: seq<string>, frame: string, terminal: bool)
    ensures Appended(Numbering(frames, false), frame, terminal) == Numbering(frames + [frame], terminal)
  {
  }

  lemma StepExtendsLog(w: World, turn: string)
    requires turn in w.runners && Justified(w.runners[turn])
    requires Log(w.streams, turn) == ExpectedLog(w.runners[turn])
    ensures Justified(RunnerAfter(w, turn))
    ensures Log(StreamsAfter(w, turn), turn) == ExpectedLog(RunnerAfter(w, turn))
    ensures Log(w.streams, turn) <= Log(StreamsAfter(w, turn), turn)
  {
    var r := w.runners[turn];
    var next := RunnerAfter(w, turn);
    hide Holds, Numbering;
    match r.phase {
      case Beginning =>
        assert Body(next) == [START_FRAME] == [] + [START_FRAME];
        NothingNumbered();
        AppendNumbered([], START_FRAME, false);
      case Writing =>
        assert Body(next) == Body(r) + [r.script.frames[r.written]];
        AppendNumbered(Body(r), r.script.frames[r.written], false);
      case Concluding(end) =>
        AppendNumbered(Body(r), ClosingFrame(end), false);
      case Closing(end) =>
        AppendNumbered(Body(r) + [ClosingFrame(end)], DONE_FRAME, true);
        assert Body(r) + [ClosingFrame(end)] + [DONE_FRAME] == Body(r) + [ClosingFrame(end), DONE_FRAME];
      case _ =>
    }
  }

  lemma NothingNumbered()
    ensures Numbering([], false) == []
  {
  }

  /** A step touches no log but its runner's. */
  lemma StepTouchesOneLog(w: World, turn: string, t: string)
    requires turn in w.runners && t != turn
    ensures Log(StreamsAfter(w, turn), t) == Log(w.streams, t)
  {
    hide Appended;
  }

  lemma StepKeepsConsistent(w: World, turn: string)
    requires Consistent(w) && turn in w.runners
    ensures Consistent(StepOf(w, turn))
  {
    StepExtendsLog(w, turn);
    assert forall t {:trigger t in StreamsAfter(w, turn)} :: t in StreamsAfter(w, turn) ==> t in w.streams || t == turn;
    hide RunnerAfter, StreamsAfter, LeasesAfter, ExpectedLog, Log, Justified;
    var next := StepOf(w, turn);
    forall t | t in next.runners
      ensures Justified(next.runners[t]) && Log(next.streams, t) == ExpectedLog(next.runners[t])
    {
      if t != turn {
        assert next.runners[t] == w.runners[t];
        StepTouchesOneLog(w, turn, t);
      }
    }
  }

  lemma ApplyKeepsConsistent(w: World, a: Action)
    requires Consistent(w)
    ensures Consistent(Apply(w, a))
  {
    match a {
      case StepRunner(turn) =>
        if turn in w.runners { StepKeepsConsistent(w, turn); }
      case StartTurn(session, turn, script) =>
        assert Log(w.streams, turn) == [] || turn in w.runners;
      case PassTime(seconds) =>
    }
  }

  lemma {:induction false} EveryRunIsConsistent(ttl: nat, actions: seq<Action>)
    ensures Consistent(Run(Empty(ttl), actions))
  {
    if actions != [] {
      EveryRunIsConsistent(ttl, Init(actions));
      ApplyKeepsConsistent(Run(Empty(ttl), Init(actions)), Last(actions));
    }
  }

  /** In every run, a stopped turn's log is its start frame, the frames it wrote, one closing frame and
      the terminal frame: exactly one terminal frame, and it is the last. The closing frame says how
      the turn ended. */
  lemma {:induction false} StoppedLogs(ttl: nat, actions: seq<Action>, turn: string)
    ensures
      var w := Run(Empty(ttl), actions);
      turn in w.runners ==>
        var r := w.runners[turn];
        var log := Log(w.streams, turn);
        && r.written <= |r.script.frames|
        && (HasTerminal(log) <==> r.phase.Stopped?)
        && (r.phase.Stopped? ==>
              && |log| == r.written + 3
              && (forall k {:trigger log[k]} :: 0 <= k < |log| ==> (log[k].terminal <==> k == |log| - 1))
              && log[0].frame == "message_start"
              && (forall k {:trigger r.script.frames[k]} :: 0 <= k < r.written ==>
                    log[k + 1].frame == r.script.frames[k])
              && (r.phase.end.Finish? ==> log[r.written + 1].frame == "message_finish")
              && (r.phase.end.Failure? ==> log[r.written + 1].frame == "error: runner failed")
              && (r.phase.end.Lost? ==> log[r.written + 1].frame == "error: lease lost")
              && log[r.written + 2].frame == "done"
              && (r.phase.end == Finish <==> r.written == |r.script.frames| && !r.script.raises)
              && (r.phase.end == Failure <==> r.written == |r.script.frames| && r.script.raises))
  {
    EveryRunIsConsistent(ttl, actions);
    var w := Run(Empty(ttl), actions);
    if turn in w.runners {
      var r := w.runners[turn];
      assert Justified(r) && Log(w.streams, turn) == ExpectedLog(r);
      hide Run, Consistent, Justified, ExpectedLog, Log;
      ExpectedShape(r);
    }
  }

  lemma ExpectedShape(r: Runner)
    requires Justified(r)
    ensures
      var log := ExpectedLog(r);
      && r.written <= |r.script.frames|
      && (HasTerminal(log) <==> r.phase.Stopped?)
      && (r.phase.Stopped? ==>
            && |log| == r.written + 3
            && (forall k {:trigger log[k]} :: 0 <= k < |log| ==> (log[k].terminal <==> k == |log| - 1))
            && log[0].frame == "message_start"
            && (forall k {:trigger r.script.frames[k]} :: 0 <= k < r.written ==>
                  log[k + 1].frame == r.script.frames[k])
            && (r.phase.end.Finish? ==> log[r.written + 1].frame == "message_finish")
            && (r.phase.end.Failure? ==> log[r.written + 1].frame == "error: runner failed")
            && (r.phase.end.Lost? ==> log[r.written + 1].frame == "error: lease lost")
            && log[r.written + 2].frame == "done"
            && (r.phase.end == Finish <==> r.written == |r.script.frames| && !r.script.raises)
            && (r.phase.end == Failure <==> r.written == |r.script.frames| && r.script.raises))
  {
    var log := ExpectedLog(r);
    if r.phase.Stopped? { assert log[|log| - 1].terminal; }
  }

  // ---------------------------------------------------------------------------------------------
  // Leases and time

  /** A lease is taken only by a start that finds the session free; it is moved only by a renewing step of
      the turn that holds it, to a full life from now; and it is lost only when its time has come or by
      the releasing step of the turn that holds it. A step of any other turn leaves every lease alone. */
  lemma LeaseChanges(w: World, a: Action, session: string)
    ensures
      var next := Apply(w, a);
      && (session !in w.leases && session in next.leases ==>
            && a.StartTurn? && a.session == session && a.turn !in w.runners
            && next.leases[session] == Lease(a.turn, w.now + w.ttl))
      && (session in w.leases && session in next.leases && next.leases[session] != w.leases[session] ==>
            var holder := w.leases[session].turn;
            && a == StepRunner(holder) && holder in w.runners && w.runners[holder].phase.Renewing?
            && next.leases[session] == Lease(holder, w.now + w.ttl))
      && (session in w.leases && session !in next.leases ==>
            var holder := w.leases[session].turn;
            || (a.PassTime? && w.leases[session].until <= next.now)
            || (a == StepRunner(holder) && holder in w.runners && w.runners[holder].phase.Releasing?))
      && (a.StepRunner? && a.turn in w.runners && !Holds(w.leases, w.runners[a.turn].session, a.turn) ==>
            next.leases == w.leases)
      && (a.StartTurn? && a.session in w.leases ==> next == w)
  {
  }

  /** A runner moves by its own steps alone, and by these: it gets to write a frame only by a renewal that
      finds the lease its own, and is lost only by one that does not; it gives the lease up only after the
      last frame of a generator that ended, and fails only after that of one that raised; and a frame
      counts as written by the step that writes it. */
  lemma RunnerMoves(w: World, a: Action, turn: string)
    requires turn in w.runners && Justified(w.runners[turn])
    ensures turn in Apply(w, a).runners
    ensures
      var r, next := w.runners[turn], Apply(w, a).runners[turn];
      var held := r.session in w.leases && w.leases[r.session].turn == turn;
      && next.session == r.session && next.script == r.script
      && (a != StepRunner(turn) ==> next == r)
      && (a == StepRunner(turn) ==>
            && (next.phase.Writing? <==> r.phase.Renewing? && held)
            && (next.phase == Concluding(Lost) <==> r.phase.Renewing? && !held)
            && (next.phase.Renewing? <==> r.phase.Pulling? && r.written < |r.script.frames|)
            && (next.phase.Releasing? <==> r.phase.Pulling? && r.written == |r.script.frames| && !r.script.raises)
            && (next.phase == Concluding(Failure) <==>
                  r.phase.Pulling? && r.written == |r.script.frames| && r.script.raises)
            && (next.phase == Concluding(Finish) <==> r.phase.Releasing?)
            && (next.phase.Pulling? <==> r.phase.Beginning? || r.phase.Writing?)
            && next.written == (if r.phase.Writing? then r.written + 1 else r.written)
            && next.renewedAt == (if r.phase.Renewing? && held then w.now else r.renewedAt))
  {
  }

  predicate GaveUp(r: Runner) { Ended(r) && r.phase.end == Finish }

  /** A whole life of a lease has passed since the turn acquired or last renewed its own. */
  predicate Lapsed(w: World, r: Runner) { r.renewedAt + w.ttl <= w.now }

  /** One turn's lease at one moment: it is held until a life has passed since its last renewal, unless
      given up by finishing; and a turn that found its lease lost had outlived it. */
  ghost predicate LeaseOk(w: World, turn: string)
    requires turn in w.runners
  {
    var r := w.runners[turn];
    && r.renewedAt <= w.now
    && (Holds(w.leases, r.session, turn) <==> !GaveUp(r) && !Lapsed(w, r))
    && (Holds(w.leases, r.session, turn) ==> w.leases[r.session].until == r.renewedAt + w.ttl)
    && (Ended(r) && r.phase.end == Lost ==> Lapsed(w, r))
  }

  ghost predicate LeasesOk(w: World) {
    && w.ttl >= 1
    && (forall t {:trigger w.runners[t]} :: t in w.runners ==> LeaseOk(w, t))
    && (forall s {:trigger w.leases[s]} :: s in w.leases ==>
          w.leases[s].turn in w.runners && w.runners[w.leases[s].turn].session == s)
  }

  lemma StepKeepsOwnLease(w: World, turn: string)
    requires turn in w.runners && LeaseOk(w, turn) && w.ttl >= 1
    ensures LeaseOk(StepOf(w, turn), turn)
  {
    hide StreamsAfter;
  }

  lemma StepKeepsOtherLease(w: World, turn: string, t: string)
    requires turn in w.runners && t in w.runners && t != turn && LeaseOk(w, t)
    ensures LeaseOk(StepOf(w, turn), t)
  {
    hide StreamsAfter, RunnerAfter;
  }

  lemma StepKeepsLeases(w: World, turn: string)
    requires LeasesOk(w) && turn in w.runners
    ensures LeasesOk(StepOf(w, turn))
  {
    var next := StepOf(w, turn);
    assert next.runners[turn].session == w.runners[turn].session;
    forall t | t in next.runners
      ensures LeaseOk(next, t)
    {
      if t == turn { StepKeepsOwnLease(w, turn); } else { StepKeepsOtherLease(w, turn, t); }
    }
    hide RunnerAfter, StreamsAfter, LeaseOk;
    forall s | s in next.leases
      ensures next.leases[s].turn in next.runners && next.runners[next.leases[s].turn].session == s
    {
      assert s in w.leases && next.leases[s].turn == w.leases[s].turn;
    }
  }

  lemma ApplyKeepsLeases(w: World, a: Action)
    requires LeasesOk(w)
    ensures LeasesOk(Apply(w, a))
  {
    match a {
      case StepRunner(turn) =>
        if turn in w.runners { StepKeepsLeases(w, turn); }
      case StartTurn(session, turn, script) => StartKeepsLeases(w, session, turn, script);
      case PassTime(seconds) => TimeKeepsLeases(w, seconds);
    }
  }

  lemma StartKeepsLeases(w: World, session: string, turn: string, script: Script)
    requires LeasesOk(w)
    ensures LeasesOk(Apply(w, StartTurn(session, turn, script)))
  {
    hide StepOf;
    var next := Apply(w, StartTurn(session, turn, script));
    forall t | t in next.runners
      ensures LeaseOk(next, t)
    {
      if t in w.runners { assert LeaseOk(w, t) && next.runners[t] == w.runners[t]; }
    }
  }

  lemma TimeKeepsLeases(w: World, seconds: nat)
    requires LeasesOk(w)
    ensures LeasesOk(Apply(w, PassTime(seconds)))
  {
    hide StepOf;
    var next := Apply(w, PassTime(seconds));
    forall t | t in next.runners
      ensures LeaseOk(next, t)
    {
      assert LeaseOk(w, t);
    }
  }

  lemma {:induction false} EveryRunKeepsLeases(ttl: nat, actions: seq<Action>)
    requires ttl >= 1
    ensures LeasesOk(Run(Empty(ttl), actions))
  {
    if actions != [] {
      EveryRunKeepsLeases(ttl, Init(actions));
      ApplyKeepsLeases(Run(Empty(ttl), Init(actions)), Last(actions));
    }
  }

  /** `renewedAt` is what it says: it moves only with a renewing step that finds the lease held. */
  lemma RenewalMoves(w: World, a: Action, turn: string)
    requires turn in w.runners
    ensures turn in Apply(w, a).runners
    ensures Apply(w, a).runners[turn].renewedAt
            == if a == StepRunner(turn) && w.runners[turn].phase.Renewing?
                  && Holds(w.leases, w.runners[turn].session, turn) then w.now
               else w.runners[turn].renewedAt
  {
  }

  /** Over every run, exactly when a turn holds its session's lease: while it has not finished and less
      than a life has passed since it acquired or last renewed it. So no lease is lost early or kept
      late, and nobody else moves its deadline. */
  lemma {:induction false} HeldExactly(ttl: nat, actions: seq<Action>, turn: string)
    requires ttl >= 1
    ensures
      var w := Run(Empty(ttl), actions);
      turn in w.runners ==>
        var r := w.runners[turn];
        && (Holds(w.leases, r.session, turn) <==> !GaveUp(r) && !Lapsed(w, r))
        && (Holds(w.leases, r.session, turn) ==> w.leases[r.session].until == r.renewedAt + w.ttl)
        && (forall s :: Holds(w.leases, s, turn) ==> s == r.session)
  {
    EveryRunKeepsLeases(ttl, actions);
    var w := Run(Empty(ttl), actions);
    assert turn in w.runners ==> LeaseOk(w, turn);
  }

  /** Over every run, a stopped turn still holds its session's lease if and only if it failed and the life
      of its last renewal has not passed: finishing gives the lease up, and a lost one was gone before. */
  lemma {:induction false} StoppedLeases(ttl: nat, actions: seq<Action>, turn: string)
    requires ttl >= 1
    ensures
      var w := Run(Empty(ttl), actions);
      turn in w.runners && w.runners[turn].phase.Stopped? ==>
        var r := w.runners[turn];
        Holds(w.leases, r.session, turn) <==> r.phase.end == Failure && !Lapsed(w, r)
  {
    EveryRunKeepsLeases(ttl, actions);
    var w := Run(Empty(ttl), actions);
    assert turn in w.runners ==> LeaseOk(w, turn);
  }

  /** Such a run: the generator raises at once, and the stopped turn goes on taking up its session. */
  lemma FailedTurnKeepsLease(ttl: nat, session: string, turn: string)
    requires ttl >= 1
    ensures
      var start := StartTurn(session, turn, Script([], true));
      var step := StepRunner(turn);
      var w := Run(Empty(ttl), [start, step, step, step, step]);
      && turn in w.runners && w.runners[turn].phase == Stopped(Failure)
      && Holds(w.leases, session, turn)
  {
    var start, step := StartTurn(session, turn, Script([], true)), StepRunner(turn);
    RunOn(ttl, [], start);
    RunOn(ttl, [start], step);
    RunOn(ttl, [start, step], step);
    RunOn(ttl, [start, step, step], step);
    RunOn(ttl, [start, step, step, step], step);
    hide Run, StreamsAfter;
    assert [] + [start] == [start] && [start] + [step] == [start, step];
    assert [start, step] + [step] == [start, step, step];
    assert [start, step, step] + [step] == [start, step, step, step];
    assert [start, step, step, step] + [step] == [start, step, step, step, step];
  }

  lemma RunOn(ttl: nat, actions: seq<Action>, a: Action)
    ensures Run(Empty(ttl), []) == Empty(ttl)
    ensures Run(Empty(ttl), actions + [a]) == Apply(Run(Empty(ttl), actions), a)
  {
    assert Init(actions + [a]) == actions && Last(actions + [a]) == a;
  }

  /** Over every run, content is appended by the turn that holds the session's lease, unless a whole life
      of the lease has passed since it renewed for that frame. */
  lemma {:induction false} WritesAreGuarded(ttl: nat, actions: seq<Action>, a: Action, turn: string)
    requires ttl >= 1
    ensures
      var w := Run(Empty(ttl), actions);
      turn in w.runners && Apply(w, a).runners[turn].written != w.runners[turn].written ==>
        && a == StepRunner(turn)
        && (Holds(w.leases, w.runners[turn].session, turn) <==> !Lapsed(w, w.runners[turn]))
  {
    EveryRunKeepsLeases(ttl, actions);
    var w := Run(Empty(ttl), actions);
    if turn in w.runners {
      assert LeaseOk(w, turn);
      RenewalMoves(w, a, turn);
    }
  }

  // ---------------------------------------------------------------------------------------------
  // Subscribers

  /** Logs only grow. */
  lemma LogsGrow(w: World, a: Action, turn: string)
    requires Consistent(w)
    ensures Log(w.streams, turn) <= Log(Apply(w, a).streams, turn)
  {
    hide ExpectedLog, Justified, StreamsAfter, RunnerAfter, LeasesAfter;
    if a.StepRunner? && a.turn in w.runners {
      if a.turn == turn { StepExtendsLog(w, turn); } else { StepTouchesOneLog(w, a.turn, turn); }
    }
  }

  lemma {:induction false} LogsGrowOverRuns(ttl: nat, actions: seq<Action>, k: nat, turn: string)
    requires k <= |actions|
    ensures Log(Run(Empty(ttl), actions[..k]).streams, turn) <= Log(Run(Empty(ttl), actions).streams, turn)
    decreases |actions|
  {
    if k == |actions| {
      assert actions[..k] == actions;
    } else {
      var w := Run(Empty(ttl), Init(actions));
      EveryRunIsConsistent(ttl, Init(actions));
      LogsGrow(w, Last(actions), turn);
      assert Init(actions)[..k] == actions[..k];
      LogsGrowOverRuns(ttl, Init(actions), k, turn);
    }
  }

  /** What a subscriber of `turn` meets when its reads happen at these moments of a run. */
  function Observed(ttl: nat, actions: seq<Action>, turn: string, moments: seq<nat>): seq<seq<Entry>>
    requires Moments(actions, moments)
  {
    seq(|moments|, k requires 0 <= k < |moments| => Log(Run(Empty(ttl), actions[..moments[k]]).streams, turn))
  }

  /** Moments of a run, in order. */
  predicate Moments(actions: seq<Action>, moments: seq<nat>) {
    && (forall k {:trigger moments[k]} :: 0 <= k < |moments| ==> moments[k] <= |actions|)
    && (forall j, k {:trigger moments[j], moments[k]} :: 0 <= j < k < |moments| ==> moments[j] <= moments[k])
  }

  /** Such reads are what a subscriber may rely on; so whatever the moments and the interleaving, it has
      handed on a prefix of the turn's log, and once it is done, the whole of it. */
  lemma {:induction false} SubscriberReplays(ttl: nat, actions: seq<Action>, turn: string, moments: seq<nat>)
    requires moments != [] && Moments(actions, moments)
    ensures
      var snapshots := Observed(ttl, actions, turn, moments);
      var log := Log(Run(Empty(ttl), actions).streams, turn);
      && OnlyGrows(snapshots)
      && (forall k {:trigger snapshots[k]} :: 0 <= k < |snapshots| ==> Numbered(snapshots[k]))
      && Reached(snapshots) <= |Last(snapshots)|
      && UpToTerminal(Last(snapshots)[..Reached(snapshots)]) <= log
      && (HasTerminal(Last(snapshots)[..Reached(snapshots)]) ==>
            UpToTerminal(Last(snapshots)[..Reached(snapshots)]) == log)
  {
    hide Run, Log, Reached, UpToTerminal, HasTerminal, OnlyGrows, Numbered;
    var snapshots := Observed(ttl, actions, turn, moments);
    ObservedGrows(ttl, actions, turn, moments);
    ReachedGrows(snapshots, |snapshots|);
    LogsGrowOverRuns(ttl, actions, Last(moments), turn);
    EveryRunIsConsistent(ttl, actions);
    LogEndsAtTerminal(Run(Empty(ttl), actions), turn);
    var log := Log(Run(Empty(ttl), actions).streams, turn);
    assert Last(snapshots) == Log(Run(Empty(ttl), actions[..Last(moments)]).streams, turn);
    hide Observed, Moments, Consistent;
    PrefixOfPrefix(Last(snapshots), Reached(snapshots), log);
    WholeWhenTerminal(log, Last(snapshots)[..Reached(snapshots)]);
  }

  predicate StoppedBy(w: World, turn: string) { turn in w.runners && w.runners[turn].phase.Stopped? }

  /** The replay gets there: once the turn has stopped, a subscriber whose reads from number k on are many
      enough for the whole log at one batch each has handed on all of it, the terminal frame included. */
  lemma {:induction false} SubscriberFinishes(
    ttl: nat, actions: seq<Action>, turn: string, moments: seq<nat>, k: nat)
    requires Moments(actions, moments) && k < |moments|
    requires StoppedBy(Run(Empty(ttl), actions[..moments[k]]), turn)
    requires |Log(Run(Empty(ttl), actions).streams, turn)| <= BATCH * (|moments| - k)
    ensures
      var snapshots := Observed(ttl, actions, turn, moments);
      var log := Log(Run(Empty(ttl), actions).streams, turn);
      && Reached(snapshots) == |log| == |Last(snapshots)|
      && HasTerminal(Last(snapshots)[..Reached(snapshots)])
      && UpToTerminal(Last(snapshots)[..Reached(snapshots)]) == log
  {
    var snapshots := Observed(ttl, actions, turn, moments);
    var log := Log(Run(Empty(ttl), actions).streams, turn);
    hide Run, Log, HasTerminal, UpToTerminal, Moments, OnlyGrows, Reached, StoppedBy, Numbered;
    ObservedGrows(ttl, actions, turn, moments);
    LogEndsAtTerminalIn(ttl, actions, turn);
    forall m {:trigger snapshots[m]} | k <= m < |moments|
      ensures snapshots[m] == log && HasTerminal(log)
    {
      StoppedLogStays(ttl, actions, turn, moments, k, m);
    }
    assert snapshots[k] == log;
    hide Observed;
    EnoughPolls(snapshots, k);
    WholeWhenTerminal(log, log);
    assert log[..|log|] == log;
  }

  lemma LogEndsAtTerminalIn(ttl: nat, actions: seq<Action>, turn: string)
    ensures
      var log := Log(Run(Empty(ttl), actions).streams, turn);
      forall k {:trigger log[k]} :: 0 <= k < |log| && log[k].terminal ==> k == |log| - 1
  {
    EveryRunIsConsistent(ttl, actions);
    LogEndsAtTerminal(Run(Empty(ttl), actions), turn);
  }

  /** What a read sees of a turn that had stopped before is its final log. */
  lemma StoppedLogStays(ttl: nat, actions: seq<Action>, turn: string, moments: seq<nat>, k: nat, m: nat)
    requires Moments(actions, moments) && k <= m < |moments|
    requires StoppedBy(Run(Empty(ttl), actions[..moments[k]]), turn)
    ensures Observed(ttl, actions, turn, moments)[m] == Log(Run(Empty(ttl), actions).streams, turn)
    ensures HasTerminal(Log(Run(Empty(ttl), actions).streams, turn))
  {
    var log := Log(Run(Empty(ttl), actions).streams, turn);
    var early := Log(Run(Empty(ttl), actions[..moments[k]]).streams, turn);
    var later := Log(Run(Empty(ttl), actions[..moments[m]]).streams, turn);
    StoppedLogs(ttl, actions[..moments[k]], turn);
    assert HasTerminal(early);
    LogEndsAtTerminalIn(ttl, actions, turn);
    LogsGrowOverRuns(ttl, actions, moments[k], turn);
    LogsGrowOverRuns(ttl, actions, moments[m], turn);
    assert k < m ==> moments[k] <= moments[m];
    assert actions[..moments[m]][..moments[k]] == actions[..moments[k]];
    LogsGrowOverRuns(ttl, actions[..moments[m]], moments[k], turn);
    hide Run, Log, HasTerminal, UpToTerminal;
    WholeWhenTerminal(log, early);
    Squeezed(early, later, log);
  }

  lemma Squeezed<T>(low: seq<T>, s: seq<T>, high: seq<T>)
    requires low <= s <= high && low == high
    ensures s == high
  {
  }

  lemma PrefixOfPrefix<T>(part: seq<T>, n: nat, whole: seq<T>)
    requires part <= whole && n <= |part|
    ensures part[..n] <= whole
  {
  }

  lemma ObservedGrows(ttl: nat, actions: seq<Action>, turn: string, moments: seq<nat>)
    requires Moments(actions, moments)
    ensures OnlyGrows(Observed(ttl, actions, turn, moments))
    ensures forall k {:trigger Observed(ttl, actions, turn, moments)[k]} :: 0 <= k < |moments| ==>
      Numbered(Observed(ttl, actions, turn, moments)[k])
  {
    hide Run, Log, Numbered;
    var snapshots := Observed(ttl, actions, turn, moments);
    forall j, k | 0 <= j < k < |snapshots|
      ensures snapshots[j] <= snapshots[k]
    {
      assert actions[..moments[k]][..moments[j]] == actions[..moments[j]];
      LogsGrowOverRuns(ttl, actions[..moments[k]], moments[j], turn);
    }
    forall k | 0 <= k < |snapshots|
      ensures Numbered(snapshots[k])
    {
      EveryRunIsConsistent(ttl, actions[..moments[k]]);
      LogsAreNumbered(Run(Empty(ttl), actions[..moments[k]]), turn);
    }
  }

  lemma LogsAreNumbered(w: World, turn: string)
    requires Consistent(w)
    ensures Numbered(Log(w.streams, turn))
  {
    assert turn in w.runners ==> Log(w.streams, turn) == ExpectedLog(w.runners[turn]);
  }

  lemma LogEndsAtTerminal(w: World, turn: string)
    requires Consistent(w)
    ensures
      var log := Log(w.streams, turn);
      forall k {:trigger log[k]} :: 0 <= k < |log| && log[k].terminal ==> k == |log| - 1
  {
    assert turn in w.runners ==> Log(w.streams, turn) == ExpectedLog(w.runners[turn]);
  }

  lemma {:induction false} WholeWhenTerminal(log: seq<Entry>, part: seq<Entry>)
    requires part <= log
    requires forall k {:trigger log[k]} :: 0 <= k < |log| && log[k].terminal ==> k == |log| - 1
    ensures UpToTerminal(part) == part
    ensures HasTerminal(part) ==> part == log
  {
    if HasTerminal(part) {
      var k :| 0 <= k < |part| && part[k].terminal;
      assert log[k].terminal && k == |log| - 1;
    }
    if part != [] {
      var early := Init(part);
      forall k | 0 <= k < |early|
        ensures !early[k].terminal
      {
        assert early[k] == log[k];
      }
      assert part == early + [Last(part)];
      UpToTerminalSplits(early, [Last(part)]);
    }
  }

  // ---------------------------------------------------------------------------------------------
  // The runner as code

  /** How many of `count` renewals in a row succeed, the k-th one meeting the leases `at(k)`. */
  function Renewals(session: string, turn: string, at: nat -> Leases, count: nat): (n: nat)
    ensures n <= count
    ensures forall k {:trigger at(k)} :: 0 <= k < n ==> Holds(at(k), session, turn)
    ensures n < count ==> !Holds(at(n), session, turn)
  {
    if count == 0 then 0
    else
      var n := Renewals(session, turn, at, count - 1);
      if n < count - 1 then n else if Holds(at(n), session, turn) then count else n
  }

  function EndOf(script: Script, renewed: nat): Ending {
    if renewed < |script.frames| then Lost else if script.raises then Failure else Finish
  }

  /** The leases as the last of n renewals left them; without any, as they were. */
  function LastRenewed(before: Leases, session: string, turn: string, at: nat -> Leases, n: nat, until: nat): Leases {
    if n == 0 then before else Renew(at(n - 1), session, turn, until)
  }

  /** `_run_turn` beginning to end, with others changing the leases in between: `at(k)` is what they are
      at the k-th renewal, and `at(|frames|)` at the release. Its log is that of a stopped runner. */
  method RunTurn(store: RedisChatTurnStream, session: string, turn: string, script: Script, at: nat -> Leases)
    requires Log(store.streams, turn) == []
    modifies store
    ensures
      var n := Renewals(session, turn, at, |script.frames|);
      && Log(store.streams, turn) == ExpectedLog(Runner(session, script, n, Stopped(EndOf(script, n)), 0))
      && (n < |script.frames| ==> EndOf(script, n) == Lost && store.leases == at(n))
      && (n == |script.frames| && !script.raises ==>
            EndOf(script, n) == Finish && store.leases == Release(at(n), session, turn))
      && (n == |script.frames| && script.raises ==>
            && EndOf(script, n) == Failure
            && store.leases == LastRenewed(old(store.leases), session, turn, at, n, store.now + store.ttl))
    ensures store.now == old(store.now)
    ensures OnlyTouches(old(store.streams), store.streams, turn)
  {
    hide Log, Append, OnlyTouches, Numbering, Holds, Renewals, Appended, LastRenewed, Release;
    ghost var before := store.streams;
    NothingWritten(before, session, turn, at);
    NothingRenewed(store.leases, session, turn, at, store.now + store.ttl);
    var id := Write(store, turn, before, [], START_FRAME, false);
    assert [] + [START_FRAME] == [START_FRAME] == [START_FRAME] + script.frames[..0];
    var k := 0;
    var lost := false;
    while k < |script.frames| && !lost
      invariant 0 <= k <= |script.frames|
      invariant Renewals(session, turn, at, k) == k
      invariant lost ==> k < |script.frames| && !Holds(at(k), session, turn) && store.leases == at(k)
      invariant !lost ==> store.leases == LastRenewed(old(store.leases), session, turn, at, k, store.now + store.ttl)
      invariant store.now == old(store.now)
      invariant Log(store.streams, turn) == Numbering([START_FRAME] + script.frames[..k], false)
      invariant OnlyTouches(before, store.streams, turn)
      decreases |script.frames| - k, !lost
    {
      store.leases := at(k);
      var renewed := store.RenewActiveTurn(session, turn);
      if renewed {
        assert [START_FRAME] + script.frames[..k] + [script.frames[k]] == [START_FRAME] + script.frames[..k + 1];
        id := Write(store, turn, before, [START_FRAME] + script.frames[..k], script.frames[k], false);
        OneMoreRenewed(old(store.leases), session, turn, at, k, store.now + store.ttl);
        k := k + 1;
      } else {
        lost := true;
      }
    }
    var end := Finish;
    if lost {
      end := Lost;
    } else if script.raises {
      end := Failure;
    } else {
      store.leases := at(k);
      var released := store.ReleaseActiveTurn(session, turn);
    }
    RenewalsStop(session, turn, at, k, |script.frames|);
    ghost var body := [START_FRAME] + script.frames[..k];
    id := Write(store, turn, before, body, ClosingFrame(end), false);
    id := Write(store, turn, before, body + [ClosingFrame(end)], DONE_FRAME, true);
    assert body + [ClosingFrame(end)] + [DONE_FRAME] == body + [ClosingFrame(end), DONE_FRAME];
  }

  /** No log but that of `turn` differs. */
  ghost predicate OnlyTouches(before: Streams, after: Streams, turn: string) {
    forall t {:trigger Log(after, t)} :: t != turn ==> Log(after, t) == Log(before, t)
  }

  /** Appends to the log of a turn whose frames so far are known. */
  method Write(store: RedisChatTurnStream, turn: string, ghost before: Streams, ghost sofar: seq<string>,
               frame: string, terminal: bool)
    returns (id: nat)
    requires Log(store.streams, turn) == Numbering(sofar, false) && OnlyTouches(before, store.streams, turn)
    modifies store`streams
    ensures Log(store.streams, turn) == Numbering(sofar + [frame], terminal)
    ensures id == |sofar| + 1
    ensures OnlyTouches(before, store.streams, turn)
  {
    AppendNumbered(sofar, frame, terminal);
    assert |Numbering(sofar + [frame], terminal)| == |sofar| + 1;
    ghost var mid := store.streams;
    id := store.AppendFrame(turn, frame, terminal);
    forall t | t != turn
      ensures Log(store.streams, t) == Log(before, t)
    {
      assert Log(mid, t) == Log(before, t);
    }
  }

  lemma NothingWritten(streams: Streams, session: string, turn: string, at: nat -> Leases)
    ensures Numbering([], false) == [] && OnlyTouches(streams, streams, turn) && Renewals(session, turn, at, 0) == 0
  {
  }

  lemma NothingRenewed(before: Leases, session: string, turn: string, at: nat -> Leases, until: nat)
    ensures LastRenewed(before, session, turn, at, 0, until) == before
  {
  }

  lemma OneMoreRenewed(before: Leases, session: string, turn: string, at: nat -> Leases, k: nat, until: nat)
    ensures LastRenewed(before, session, turn, at, k + 1, until) == Renew(at(k), session, turn, until)
  {
  }

  lemma {:induction false} RenewalsStop(session: string, turn: string, at: nat -> Leases, k: nat, count: nat)
    requires k <= count && Renewals(session, turn, at, k) == k
    requires k < count ==> !Holds(at(k), session, turn)
    ensures Renewals(session, turn, at, count) == k
    decreases count
  {
    if k < count { RenewalsStop(session, turn, at, k, count - 1); }
  }
}
