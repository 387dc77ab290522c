/** Commands, file leases and reclaiming over shared sandboxes: every interleaving of their atomic
    steps. */
module SandboxProtocol {
  import opened Sequences
  import opened CommandTask
  import opened SandboxStore

  /** A `_workspace_lease`: its sandbox was found active; then it is open, with or without a
      registration behind it - the code does not look; then it is closed. */
  datatype Phase = Checked | Open(registered: bool) | Closed

  datatype Lease = Lease(user: string, sandbox: string, phase: Phase)

  datatype World = World(store: Store, tasks: map<string, Task>, leases: map<string, Lease>)

  const EMPTY := World(map[], map[], map[])

  datatype Action =
    | AddSandbox(id: string, now: int)
    | AssignUser(id: string, user: string, now: int)
    | MoveOn(id: string, state: Life, clearUserBinding: bool)
    | ClaimIdle(id: string, cutoff: int)
    | SaveTask(task: string, user: string)
    | StepTask(task: string, step: Step, now: int)
    | CheckLease(lease: string, user: string, id: string)
    | RegisterLease(lease: string, now: int)
    | CloseLease(lease: string)

  /** Whether the shared store lets a task take this step. */
  predicate StoreAgrees(store: Store, t: Task, s: Step) {
    match s
    case Allocate(sandbox) => CanRegister(store, sandbox, t.user)
    case Register(granted) => t.stage.Tracked? && granted == CanRegister(store, t.stage.sandbox, t.user)
    case _ => true
  }

  /** What the step does to the shared store. */
  function StoreAfter(store: Store, t: Task, s: Step, now: int): Store
    requires Enabled(t, s)
  {
    match s
    case Register(_) => SandboxStore.Register(store, t.stage.sandbox, t.user, now)
    case Release(job) =>
      if GivesBack(t.jobs[job]) then Unregister(store, t.jobs[job].progress.snapshot.sandbox.value, 1) else store
    case _ => store
  }

  predicate Possible(w: World, a: Action) {
    match a
    case AddSandbox(id, _) => id !in w.store
    case AssignUser(id, _, _) => CanAssign(w.store, id)
    case MoveOn(id, state, _) => id in w.store && CanTransition(w.store[id].state, state) && !state.UserActive?
    case ClaimIdle(id, cutoff) => CanClaim(w.store, id, cutoff)
    case SaveTask(task, _) => task !in w.tasks
    case StepTask(task, step, _) =>
      task in w.tasks && Enabled(w.tasks[task], step) && StoreAgrees(w.store, w.tasks[task], step)
    case CheckLease(lease, user, id) => lease !in w.leases && CanRegister(w.store, id, user)
    case RegisterLease(lease, _) => lease in w.leases && w.leases[lease].phase.Checked?
    case CloseLease(lease) => lease in w.leases && w.leases[lease].phase.Open?
  }

  function Act(w: World, a: Action): World
    requires Possible(w, a)
  {
    match a
    case AddSandbox(id, now) => w.(store := w.store[id := Sandbox(Warming, None, 0, None, now)])
    case AssignUser(id, user, now) => w.(store := Assign(w.store, id, user, now))
    case MoveOn(id, state, clear) => w.(store := ChangeState(w.store, id, state, clear))
    case ClaimIdle(id, cutoff) => w.(store := Claim(w.store, id, cutoff))
    case SaveTask(task, user) => w.(tasks := w.tasks[task := NewTask(user)])
    case StepTask(task, step, now) =>
      w.(store := StoreAfter(w.store, w.tasks[task], step, now), tasks := w.tasks[task := Next(w.tasks[task], step)])
    case CheckLease(lease, user, id) => w.(leases := w.leases[lease := Lease(user, id, Checked)])
    case RegisterLease(lease, now) =>
      var l := w.leases[lease];
      w.(store := SandboxStore.Register(w.store, l.sandbox, l.user, now),
         leases := w.leases[lease := l.(phase := Open(CanRegister(w.store, l.sandbox, l.user)))])
    case CloseLease(lease) =>
      var l := w.leases[lease];
      w.(store := Unregister(w.store, l.sandbox, 1), leases := w.leases[lease := l.(phase := Closed)])
  }

  /** A run takes the actions that are possible when their turn comes. */
  function Run(w: World, actions: seq<Action>): World {
    if actions == [] then w
    else
      var before := Run(w, Init(actions));
      if Possible(before, Last(actions)) then Act(before, Last(actions)) else before
  }

  // ---------------------------------------------------------------------------------------------
  // What every action keeps

  function Protectors(w: World, id: string): set<string> {
    set t | t in w.tasks && Protects(w.tasks[t], id)
  }

  predicate Guards(l: Lease, id: string) { l.sandbox == id && l.phase == Open(true) }

  function Guardians(w: World, id: string): set<string> {
    set l | l in w.leases && Guards(w.leases[l], id)
  }

  ghost predicate TasksOk(w: World) {
    && (forall t {:trigger w.tasks[t]} :: t in w.tasks ==> TaskOk(w.tasks[t]))
    && (forall t, id {:trigger Protects(w.tasks[t], id)} :: t in w.tasks && Protects(w.tasks[t], id) ==>
          id in w.store && Age(w.store[id].state) >= 2)
  }

  /** A lease was checked against an active sandbox of its user, so it stays bound to that user while
      active; an unregistered open lease means the sandbox had moved on. */
  ghost predicate LeaseOk(store: Store, l: Lease) {
    && l.sandbox in store
    && Age(store[l.sandbox].state) >= 2
    && (store[l.sandbox].state.UserActive? && !l.phase.Closed? ==> store[l.sandbox].user == Some(l.user))
    && (l.phase == Open(false) ==> !store[l.sandbox].state.UserActive?)
  }

  ghost predicate LeasesOk(w: World) {
    forall l {:trigger w.leases[l]} :: l in w.leases ==> LeaseOk(w.store, w.leases[l])
  }

  /** The reference count of an active sandbox counts its protections and its registered leases. */
  ghost predicate Counted(w: World) {
    forall id {:trigger w.store[id]} :: id in w.store && w.store[id].state.UserActive? ==>
      w.store[id].count == |Protectors(w, id)| + |Guardians(w, id)|
  }

  ghost predicate Safe(w: World) {
    TasksOk(w) && LeasesOk(w) && Counted(w)
  }

  /** No sandbox forgets how far it has come, and an active one keeps its user. */
  ghost predicate MovesForward(a: Store, b: Store) {
    forall id {:trigger b[id]} {:trigger a[id]} :: id in a ==>
      id in b && Age(a[id].state) <= Age(b[id].state)
      && (b[id].state.UserActive? && a[id].state.UserActive? ==> b[id].user == a[id].user)
  }

  ghost predicate NothingActivated(a: Store, b: Store) {
    forall id {:trigger b[id]} :: id in a && id in b && b[id].state.UserActive? ==> a[id].state.UserActive?
  }

  lemma OneSandboxMoves(a: Store, b: Store, id: string)
    requires b == a || (id in b && b == a[id := b[id]])
    requires id in a && id in b ==>
      Age(a[id].state) <= Age(b[id].state)
      && (b[id].state.UserActive? && a[id].state.UserActive? ==> b[id].user == a[id].user)
    ensures MovesForward(a, b)
    ensures (id in a && id in b && b[id].state.UserActive? ==> a[id].state.UserActive?) ==> NothingActivated(a, b)
  {
  }

  lemma CountingMoves(store: Store, id: string, user: string, now: int)
    ensures MovesForward(store, SandboxStore.Register(store, id, user, now))
    ensures NothingActivated(store, SandboxStore.Register(store, id, user, now))
    ensures MovesForward(store, Unregister(store, id, 1)) && NothingActivated(store, Unregister(store, id, 1))
  {
    OneSandboxMoves(store, SandboxStore.Register(store, id, user, now), id);
    OneSandboxMoves(store, Unregister(store, id, 1), id);
  }

  lemma StepMovesForward(store: Store, t: Task, s: Step, now: int)
    requires Enabled(t, s)
    ensures MovesForward(store, StoreAfter(store, t, s, now)) && NothingActivated(store, StoreAfter(store, t, s, now))
  {
    hide SandboxStore.Register, Unregister;
    OneSandboxMoves(store, store, "");
    match s {
      case Register(_) => CountingMoves(store, t.stage.sandbox, t.user, now);
      case Release(job) =>
        if GivesBack(t.jobs[job]) { CountingMoves(store, t.jobs[job].progress.snapshot.sandbox.value, t.user, now); }
      case _ =>
    }
  }

  lemma ActionsMoveForward(w: World, a: Action)
    requires Possible(w, a)
    ensures MovesForward(w.store, Act(w, a).store)
    ensures !a.AssignUser? ==> NothingActivated(w.store, Act(w, a).store)
  {
    hide Next, Enabled, StoreAgrees, StoreAfter, MovesForward, NothingActivated, SandboxStore.Register, Unregister,
         IdleSince;
    match a {
      case AddSandbox(id, _) => OneSandboxMoves(w.store, Act(w, a).store, id);
      case AssignUser(id, _, _) => OneSandboxMoves(w.store, Act(w, a).store, id);
      case MoveOn(id, _, _) => OneSandboxMoves(w.store, Act(w, a).store, id);
      case ClaimIdle(id, _) => OneSandboxMoves(w.store, Act(w, a).store, id);
      case SaveTask(_, _) => OneSandboxMoves(w.store, w.store, "");
      case StepTask(task, step, now) => StepMovesForward(w.store, w.tasks[task], step, now);
      case CheckLease(_, _, _) => OneSandboxMoves(w.store, w.store, "");
      case RegisterLease(lease, now) =>
        CountingMoves(w.store, w.leases[lease].sandbox, w.leases[lease].user, now);
      case CloseLease(lease) => CountingMoves(w.store, w.leases[lease].sandbox, w.leases[lease].user, 0);
    }
  }

  lemma ActKeepsTasks(w: World, a: Action)
    requires Safe(w) && Possible(w, a)
    ensures TasksOk(Act(w, a))
  {
    hide TaskOk, Enabled, Next, StoreAfter, Protects, StoreAgrees, LeasesOk, Counted;
    ActionsMoveForward(w, a);
    match a {
      case SaveTask(task, user) =>
        NewTaskIsOk(user);
        NewTaskProtectsNothing(user);
        OneTaskChanges(w, Act(w, a), task);
      case StepTask(task, step, now) =>
        NextKeepsOk(w.tasks[task], step);
        forall id | Protects(Act(w, a).tasks[task], id)
          ensures id in w.store && Age(w.store[id].state) >= 2
        {
          StepProtectsActive(w, task, step, now, id);
        }
        OneTaskChanges(w, Act(w, a), task);
      case _ =>
    }
  }

  lemma OneTaskChanges(w: World, next: World, task: string)
    requires TasksOk(w) && MovesForward(w.store, next.store)
    requires task in next.tasks && next.tasks == w.tasks[task := next.tasks[task]]
    requires TaskOk(next.tasks[task])
    requires forall id {:trigger Protects(next.tasks[task], id)} :: Protects(next.tasks[task], id) ==>
               id in w.store && Age(w.store[id].state) >= 2
    ensures TasksOk(next)
  {
    hide TaskOk, Protects;
    assert forall t {:trigger next.tasks[t]} :: t in next.tasks && t != task ==> next.tasks[t] == w.tasks[t];
  }

  lemma NewTaskProtectsNothing(user: string)
    ensures forall id :: !Protects(NewTask(user), id)
  {
  }

  lemma StepProtectsActive(w: World, task: string, step: Step, now: int, id: string)
    requires TasksOk(w) && Possible(w, StepTask(task, step, now))
    ensures Protects(Next(w.tasks[task], step), id) ==> id in w.store && Age(w.store[id].state) >= 2
  {
    hide Protects, TaskOk, Next, Enabled;
    ProtectionChanges(w.tasks[task], step, id);
  }

  lemma ActKeepsLeases(w: World, a: Action)
    requires Safe(w) && Possible(w, a)
    ensures LeasesOk(Act(w, a))
  {
    ActionsMoveForward(w, a);
    var next := Act(w, a);
    hide TasksOk, Counted, StoreAfter, Enabled, Next, StoreAgrees;
    forall l | l in next.leases
      ensures LeaseOk(next.store, next.leases[l])
    {
      if l in w.leases { assert LeaseOk(w.store, w.leases[l]); }
    }
  }

  function One(b: bool): nat { if b then 1 else 0 }

  lemma ProtectorsAfter(w: World, next: World, task: string, id: string)
    requires task in next.tasks && next.tasks == w.tasks[task := next.tasks[task]]
    ensures |Protectors(next, id)| + One(task in w.tasks && Protects(w.tasks[task], id))
            == |Protectors(w, id)| + One(Protects(next.tasks[task], id))
  {
    hide Protects;
    var rest := Protectors(w, id) - {task};
    assert Protectors(next, id) == if Protects(next.tasks[task], id) then rest + {task} else rest;
    assert Protectors(w, id) == if task in w.tasks && Protects(w.tasks[task], id) then rest + {task} else rest;
  }

  lemma GuardiansAfter(w: World, next: World, lease: string, id: string)
    requires lease in next.leases && next.leases == w.leases[lease := next.leases[lease]]
    ensures |Guardians(next, id)| + One(lease in w.leases && Guards(w.leases[lease], id))
            == |Guardians(w, id)| + One(Guards(next.leases[lease], id))
  {
    hide Guards;
    var rest := Guardians(w, id) - {lease};
    assert Guardians(next, id) == if Guards(next.leases[lease], id) then rest + {lease} else rest;
    assert Guardians(w, id) == if lease in w.leases && Guards(w.leases[lease], id) then rest + {lease} else rest;
  }

  /** The reference count of one sandbox is right. */
  ghost predicate CountOk(w: World, id: string) {
    id in w.store && w.store[id].state.UserActive? ==>
      w.store[id].count == |Protectors(w, id)| + |Guardians(w, id)|
  }

  lemma StepKeepsCount(w: World, task: string, step: Step, now: int, id: string)
    requires Safe(w) && Possible(w, StepTask(task, step, now))
    ensures CountOk(Act(w, StepTask(task, step, now)), id)
  {
    var next := Act(w, StepTask(task, step, now));
    assert Guardians(next, id) == Guardians(w, id);
    assert CountOk(w, id);
    hide TaskOk, Next, Enabled, LeasesOk, Counted, Protects, Protectors, Guardians, StoreAfter, StoreAgrees;
    ProtectorsAfter(w, next, task, id);
    if id in w.store && w.store[id].state.UserActive? {
      StepCounts(w.store, w.tasks[task], step, now, id);
    } else {
      StepMovesForward(w.store, w.tasks[task], step, now);
      StepAddsNothing(w.store, w.tasks[task], step, now);
    }
  }

  lemma StepAddsNothing(store: Store, t: Task, s: Step, now: int)
    requires Enabled(t, s)
    ensures forall id :: id in StoreAfter(store, t, s, now) ==> id in store
  {
  }

  /** What a step does to the count of an active sandbox is what it does to the protection by its task. */
  lemma StepCounts(store: Store, t: Task, s: Step, now: int, id: string)
    requires Enabled(t, s) && TaskOk(t) && StoreAgrees(store, t, s)
    requires id in store && store[id].state.UserActive?
    requires store[id].count + One(Protects(Next(t, s), id)) >= One(Protects(t, id))
    ensures
      var after := StoreAfter(store, t, s, now);
      && id in after
      && after[id].count + One(Protects(t, id)) == store[id].count + One(Protects(Next(t, s), id))
  {
    ProtectionChanges(t, s, id);
    hide TaskOk, Next, Enabled, Protects, Later;
  }

  lemma LeaseKeepsCount(w: World, a: Action, id: string)
    requires Safe(w) && Possible(w, a) && (a.CheckLease? || a.RegisterLease? || a.CloseLease?)
    ensures CountOk(Act(w, a), id)
  {
    var next := Act(w, a);
    GuardiansAfter(w, next, a.lease, id);
    assert Protectors(next, id) == Protectors(w, id);
    assert CountOk(w, id);
    assert a.lease in w.leases ==> LeaseOk(w.store, w.leases[a.lease]);
    hide TasksOk, Counted, Protectors, Guardians, Later;
  }

  /** An assigned sandbox starts at zero, and nothing can have been registered on it before. */
  lemma NothingRegisteredYet(w: World, id: string)
    requires Safe(w) && id in w.store && Age(w.store[id].state) < 2
    ensures Protectors(w, id) == {} && Guardians(w, id) == {}
  {
    hide Protects, TaskOk;
    forall t | t in w.tasks
      ensures !Protects(w.tasks[t], id)
    {
    }
    forall l | l in w.leases
      ensures !Guards(w.leases[l], id)
    {
      assert LeaseOk(w.store, w.leases[l]);
    }
  }

  lemma StoreKeepsCount(w: World, a: Action, id: string)
    requires Safe(w) && Possible(w, a) && (a.AddSandbox? || a.AssignUser? || a.MoveOn? || a.ClaimIdle?)
    ensures CountOk(Act(w, a), id)
  {
    var next := Act(w, a);
    assert Protectors(next, id) == Protectors(w, id) && Guardians(next, id) == Guardians(w, id);
    assert CountOk(w, id);
    if a.AssignUser? { NothingRegisteredYet(w, a.id); }
  }

  lemma SavingKeepsCount(w: World, task: string, user: string, id: string)
    requires Safe(w) && Possible(w, SaveTask(task, user))
    ensures CountOk(Act(w, SaveTask(task, user)), id)
  {
    var next := Act(w, SaveTask(task, user));
    NewTaskProtectsNothing(user);
    ProtectorsAfter(w, next, task, id);
    assert Guardians(next, id) == Guardians(w, id);
    assert CountOk(w, id);
  }

  lemma ActKeepsSafe(w: World, a: Action)
    requires Safe(w) && Possible(w, a)
    ensures Safe(Act(w, a))
  {
    ActKeepsTasks(w, a);
    ActKeepsLeases(w, a);
    hide TasksOk, LeasesOk, Possible, Act;
    forall id | id in Act(w, a).store
      ensures CountOk(Act(w, a), id)
    {
      match a {
        case StepTask(task, step, now) => StepKeepsCount(w, task, step, now, id);
        case SaveTask(task, user) => SavingKeepsCount(w, task, user, id);
        case CheckLease(_, _, _) => LeaseKeepsCount(w, a, id);
        case RegisterLease(_, _) => LeaseKeepsCount(w, a, id);
        case CloseLease(_) => LeaseKeepsCount(w, a, id);
        case _ => StoreKeepsCount(w, a, id);
      }
    }
  }

  lemma EmptyIsSafe()
    ensures Safe(EMPTY)
  {
  }

  /** Every run from a safe world, however the steps of starters, workers, killers, leases and the watcher
      interleave. */
  lemma {:induction false} EveryRunIsSafe(start: World, actions: seq<Action>)
    requires Safe(start)
    ensures Safe(Run(start, actions))
  {
    if actions != [] {
      EveryRunIsSafe(start, Init(actions));
      var before := Run(start, Init(actions));
      if Possible(before, Last(actions)) { ActKeepsSafe(before, Last(actions)); }
    }
  }

  // ---------------------------------------------------------------------------------------------
  // Main results

  /** A claim by the reclaimer meets no registered lease and no protected task; in particular no task
      marked running or published that is not terminal runs on the sandbox it takes. */
  lemma ClaimsAreIdle(start: World, actions: seq<Action>, id: string, cutoff: int)
    requires Safe(start)
    ensures
      var w := Run(start, actions);
      Possible(w, ClaimIdle(id, cutoff)) ==>
        && (forall l {:trigger w.leases[l]} :: l in w.leases ==> !Guards(w.leases[l], id))
        && (forall t {:trigger w.tasks[t]} :: t in w.tasks ==>
              && !Protects(w.tasks[t], id)
              && !((w.tasks[t].stage.Marked? || w.tasks[t].stage.Published?)
                   && w.tasks[t].doc.sandbox == Some(id) && !Terminal(w.tasks[t].doc.status)))
  {
    EveryRunIsSafe(start, actions);
    var w := Run(start, actions);
    if Possible(w, ClaimIdle(id, cutoff)) {
      assert CountOk(w, id);
      assert |Protectors(w, id)| == 0 && |Guardians(w, id)| == 0;
      forall t | t in w.tasks
        ensures !Protects(w.tasks[t], id)
      {
        assert t !in Protectors(w, id);
      }
      forall l | l in w.leases
        ensures !Guards(w.leases[l], id)
      {
        assert l !in Guardians(w, id);
      }
      forall t | t in w.tasks && !Terminal(w.tasks[t].doc.status)
                 && (w.tasks[t].stage.Marked? || w.tasks[t].stage.Published?)
        ensures w.tasks[t].doc.sandbox != Some(id)
      {
        assert TaskOk(w.tasks[t]);
      }
    }
  }

  /** What the registered, unfinished tasks of a sandbox are. */
  function Unfinished(w: World, id: string): set<string> {
    set t | t in w.tasks && w.tasks[t].registered && !Terminal(w.tasks[t].doc.status)
            && w.tasks[t].doc.sandbox == Some(id)
  }

  /** Tasks whose finishing write is done and whose release is still to come. */
  function BeingReleased(w: World, id: string): set<string> {
    set t | t in w.tasks && Protects(w.tasks[t], id) && Terminal(w.tasks[t].doc.status)
  }

  /** The count of an active sandbox: its registered unfinished tasks, those about to be released, and
      its registered open leases. */
  lemma CountIsExact(start: World, actions: seq<Action>, id: string)
    requires Safe(start)
    ensures
      var w := Run(start, actions);
      id in w.store && w.store[id].state.UserActive? ==>
        w.store[id].count == |Unfinished(w, id)| + |BeingReleased(w, id)| + |Guardians(w, id)|
  {
    EveryRunIsSafe(start, actions);
    var w := Run(start, actions);
    forall t | t in w.tasks && !Terminal(w.tasks[t].doc.status)
      ensures w.tasks[t].releases == 0
    {
      assert TaskOk(w.tasks[t]);
    }
    assert Protectors(w, id) == Unfinished(w, id) + BeingReleased(w, id);
    assert Unfinished(w, id) !! BeingReleased(w, id);
    assert CountOk(w, id);
  }

  /** In every run a task is released at most once, and exactly once when it was registered, is terminal
      and no finishing write is still to be followed up. */
  lemma ReleasedExactly(start: World, actions: seq<Action>, task: string)
    requires Safe(start)
    ensures
      var w := Run(start, actions);
      task in w.tasks ==>
        var t := w.tasks[task];
        && t.releases <= 1
        && (t.releases == 1 <==> t.registered && Terminal(t.doc.status) && !Writing(t))
  {
    EveryRunIsSafe(start, actions);
    var w := Run(start, actions);
    if task in w.tasks { ReleasedOnce(w.tasks[task]); }
  }

  /** Over any continuation of a run: a terminal task stays as it is, and no task is ever released more
      often than it was registered. */
  lemma {:induction false} TerminalForGood(start: World, actions: seq<Action>, k: nat, task: string)
    requires Safe(start)
    requires k <= |actions|
    ensures
      var w, later := Run(start, actions[..k]), Run(start, actions);
      task in w.tasks ==>
        && task in later.tasks
        && (Terminal(w.tasks[task].doc.status) ==> later.tasks[task].doc == w.tasks[task].doc)
        && later.tasks[task].releases <= One(later.tasks[task].registered)
    decreases |actions|
  {
    EveryRunIsSafe(start, actions);
    var later := Run(start, actions);
    assert task in later.tasks ==> TaskOk(later.tasks[task]);
    if k == |actions| {
      assert actions[..k] == actions;
    } else {
      var before := Run(start, Init(actions));
      assert Init(actions)[..k] == actions[..k];
      TerminalForGood(start, Init(actions), k, task);
      EveryRunIsSafe(start, Init(actions));
      if Possible(before, Last(actions)) && task in before.tasks { ActKeepsTerminal(before, Last(actions), task); }
    }
  }

  /** Action n of a run, when it was possible, asked a job of the task to finish with this status. */
  ghost predicate AskedAt(start: World, actions: seq<Action>, n: nat, task: string, job: nat, status: Status) {
    && n < |actions|
    && actions[n].StepTask? && actions[n].task == task
    && Possible(Run(start, actions[..n]), actions[n])
    && AsksFor(Run(start, actions[..n]).tasks[task], actions[n].step, job, status)
  }

  ghost predicate Asked(start: World, actions: seq<Action>, task: string, job: nat, status: Status) {
    exists n: nat {:trigger AskedAt(start, actions, n, task, job, status)} ::
      AskedAt(start, actions, n, task, job, status)
  }

  lemma AskedEarlier(start: World, actions: seq<Action>, task: string, job: nat, status: Status)
    requires actions != [] && Asked(start, Init(actions), task, job, status)
    ensures Asked(start, actions, task, job, status)
  {
    var n: nat :| AskedAt(start, Init(actions), n, task, job, status);
    assert Init(actions)[..n] == actions[..n];
    assert AskedAt(start, actions, n, task, job, status);
  }

  lemma AskedLast(start: World, actions: seq<Action>, task: string, job: nat, status: Status)
    requires actions != [] && Last(actions).StepTask? && Last(actions).task == task
    requires Possible(Run(start, Init(actions)), Last(actions))
    requires AsksFor(Run(start, Init(actions)).tasks[task], Last(actions).step, job, status)
    ensures Asked(start, actions, task, job, status)
  {
    assert actions[..|actions| - 1] == Init(actions);
    assert AskedAt(start, actions, |actions| - 1, task, job, status);
  }

  /** Every job with something to finish was asked to, and a terminal task has a status that was asked for. */
  ghost predicate AllAsked(start: World, actions: seq<Action>, task: string) {
    var w := Run(start, actions);
    task in w.tasks ==>
      && (forall job {:trigger w.tasks[task].jobs[job]} ::
            job in w.tasks[task].jobs && w.tasks[task].jobs[job].work.Finish? ==>
            Asked(start, actions, task, job, w.tasks[task].jobs[job].work.status))
      && (Terminal(w.tasks[task].doc.status) ==>
            exists job :: Asked(start, actions, task, job, w.tasks[task].doc.status))
  }

  /** In every run, a terminal task has exactly a status that an earlier step asked for: KILLED or LOST by a
      kill, what the worker was told, or LOST or FAILED by a start that failed after or before the provider
      accepted the command. */
  lemma {:induction false} StatusWasAskedFor(start: World, actions: seq<Action>, task: string)
    requires Safe(start) && task !in start.tasks
    ensures AllAsked(start, actions, task)
  {
    if actions != [] {
      var early, a := Init(actions), Last(actions);
      var before := Run(start, early);
      StatusWasAskedFor(start, early, task);
      EveryRunIsSafe(start, early);
      if Possible(before, a) && a.StepTask? && a.task == task {
        StepsAreAskedFor(start, actions, task);
      } else {
        OthersAskNothing(start, actions, task);
      }
    }
  }

  lemma OthersAskNothing(start: World, actions: seq<Action>, task: string)
    requires actions != [] && AllAsked(start, Init(actions), task)
    requires !(Possible(Run(start, Init(actions)), Last(actions))
               && Last(actions).StepTask? && Last(actions).task == task)
    ensures AllAsked(start, actions, task)
  {
    var before, w := Run(start, Init(actions)), Run(start, actions);
    if task in w.tasks {
      assert task !in before.tasks ==> w.tasks[task].jobs == map[] && !Terminal(w.tasks[task].doc.status);
      assert task in before.tasks ==> w.tasks[task] == before.tasks[task];
      hide Run, Asked, Possible, Act;
      var t := w.tasks[task];
      forall job | job in t.jobs && t.jobs[job].work.Finish?
        ensures Asked(start, actions, task, job, t.jobs[job].work.status)
      {
        AskedEarlier(start, actions, task, job, t.jobs[job].work.status);
      }
      if Terminal(t.doc.status) {
        var job :| Asked(start, Init(actions), task, job, t.doc.status);
        AskedEarlier(start, actions, task, job, t.doc.status);
      }
    }
  }

  lemma StepsAreAskedFor(start: World, actions: seq<Action>, task: string)
    requires actions != [] && AllAsked(start, Init(actions), task) && Safe(Run(start, Init(actions)))
    requires Last(actions).StepTask? && Last(actions).task == task
    requires Possible(Run(start, Init(actions)), Last(actions))
    ensures AllAsked(start, actions, task)
  {
    var before, w := Run(start, Init(actions)), Run(start, actions);
    var t, next, s := before.tasks[task], w.tasks[task], Last(actions).step;
    assert next == Next(t, s) && TaskOk(t) && Enabled(t, s);
    hide Run, Asked, Possible, Act, Next, TaskOk, Enabled;
    forall job | job in next.jobs && next.jobs[job].work.Finish?
      ensures Asked(start, actions, task, job, next.jobs[job].work.status)
    {
      JobsAreAskedFor(t, s, job);
      if job in t.jobs {
        AskedEarlier(start, actions, task, job, t.jobs[job].work.status);
      } else {
        AskedLast(start, actions, task, job, next.jobs[job].work.status);
      }
    }
    DocumentChanges(t, s);
    if Terminal(next.doc.status) {
      if Terminal(t.doc.status) {
        TerminalIsFinal(t, s);
        var job :| Asked(start, Init(actions), task, job, t.doc.status);
        AskedEarlier(start, actions, task, job, t.doc.status);
      } else {
        JobsAreAskedFor(t, s, s.job);
        AskedEarlier(start, actions, task, s.job, next.doc.status);
      }
    }
  }

  lemma ActKeepsTerminal(w: World, a: Action, task: string)
    requires Safe(w) && Possible(w, a) && task in w.tasks
    ensures task in Act(w, a).tasks
    ensures Terminal(w.tasks[task].doc.status) ==> Act(w, a).tasks[task].doc == w.tasks[task].doc
  {
    if a.StepTask? && a.task == task && Terminal(w.tasks[task].doc.status) { TerminalIsFinal(w.tasks[task], a.step); }
  }

  /** Releasing on an active sandbox always finds something to release, so no release is lost. */
  lemma ReleasesFindACount(start: World, actions: seq<Action>, task: string, job: nat)
    requires Safe(start)
    ensures
      var w := Run(start, actions);
      task in w.tasks && Enabled(w.tasks[task], Release(job)) && GivesBack(w.tasks[task].jobs[job]) ==>
        var id := w.tasks[task].jobs[job].progress.snapshot.sandbox.value;
        id in w.store && (w.store[id].state.UserActive? ==> w.store[id].count >= 1)
  {
    EveryRunIsSafe(start, actions);
    var w := Run(start, actions);
    if task in w.tasks && Enabled(w.tasks[task], Release(job)) && GivesBack(w.tasks[task].jobs[job]) {
      var id := w.tasks[task].jobs[job].progress.snapshot.sandbox.value;
      ProtectionChanges(w.tasks[task], Release(job), id);
      assert task in Protectors(w, id);
      assert Protects(w.tasks[task], id);
      assert CountOk(w, id);
    }
  }

  /** A lease whose registration was refused takes a count away on closing that it never added. It does
      so on a sandbox that is no longer active - and an active one would have lost a protection. */
  lemma UnregisteredLeaseIsHarmless(start: World, actions: seq<Action>, lease: string)
    requires Safe(start)
    ensures
      var w := Run(start, actions);
      lease in w.leases && w.leases[lease].phase == Open(false) ==>
        && w.leases[lease].sandbox in w.store
        && !w.store[w.leases[lease].sandbox].state.UserActive?
        && (forall id {:trigger w.store[id]} :: id in w.store && w.store[id].state.UserActive? ==>
              Act(w, CloseLease(lease)).store[id] == w.store[id])
  {
    EveryRunIsSafe(start, actions);
    var w := Run(start, actions);
    if lease in w.leases { assert LeaseOk(w.store, w.leases[lease]); }
  }

  /** The guarantee rests on the lifecycle alone: in any world whose counts are right, closing an
      unregistered lease keeps a sandbox's count right exactly when that sandbox is not active, or has
      nothing registered that the close could take. */
  lemma OnlyTheLifecycleSaves(w: World, lease: string)
    requires Counted(w) && lease in w.leases && w.leases[lease].phase == Open(false)
    requires w.leases[lease].sandbox in w.store
    ensures
      var id := w.leases[lease].sandbox;
      CountOk(Act(w, CloseLease(lease)), id) <==> !w.store[id].state.UserActive? || w.store[id].count == 0
  {
    var id := w.leases[lease].sandbox;
    var next := Act(w, CloseLease(lease));
    GuardiansAfter(w, next, lease, id);
    assert Protectors(next, id) == Protectors(w, id);
    assert CountOk(w, id);
  }
}
