/** One command task of `CommandTaskService`: its stored document, its starter, its worker and every
    `_finish` and output write that may touch it, as atomic steps between awaits. */
module CommandTask {
  import opened Sequences

  datatype Status = Pending | Running | Completed | FailedToStart | TimedOut | Killed | Lost

  predicate Terminal(s: Status) { !s.Pending? && !s.Running? }

  /** The stored document, as far as it decides anything. */
  datatype Doc = Doc(sandbox: Option<string>, status: Status)

  /** Where `start_command` stands. */
  datatype Stage =
    | Saved                        // the pending document was saved
    | Allocated(sandbox: string)   // a workspace was allocated and its sandbox found active
    | Tracked(sandbox: string)     // the document names the sandbox
    | Refused(sandbox: string)     // register_active found nothing to register
    | Registered(sandbox: string)  // protection registered
    | Submitted(sandbox: string)   // the provider accepted the command
    | Marked(sandbox: string)      // the document says RUNNING
    | Published                    // lock and worker exist, the id is returned
    | Failing                      // the exception handler is finishing it

  datatype Work = Finish(status: Status, release: bool) | Output

  /** A `_finish` or an output write, from entering its lock on. Locks are numbered; a lock dropped from
      the table and created again is a different lock. */
  datatype Progress =
    | Waiting(lock: nat)
    | Holding(lock: nat)
    | HasRead(lock: nat, snapshot: Doc)
    | HasWritten(lock: nat, snapshot: Doc)
    | Done(sawTerminal: bool)

  datatype Job = Job(work: Work, progress: Progress)

  datatype Worker = Absent | Polling | Busy(job: nat) | Leaving | Gone

  /** `registered` and `releases` are history: whether protection was registered, and how often it was
      released. */
  datatype Task = Task(
    user: string,
    doc: Doc,
    stage: Stage,
    lock: Option<nat>,
    nextLock: nat,
    worker: Worker,
    jobs: map<nat, Job>,
    registered: bool,
    releases: nat)

  datatype Step =
    | Allocate(sandbox: string)
    | Track
    | Register(granted: bool)
    | Submit
    | MarkRunning
    | Publish
    | StartFails(job: nat)
    | Kill(job: nat, lost: bool)
    | WorkerLooks
    | WorkerWrites(job: nat)
    | WorkerFinishes(job: nat, status: Status)
    | WorkerResumes
    | WorkerExits
    | Acquire(job: nat)
    | Read(job: nat)
    | Write(job: nat)
    | Release(job: nat)

  function NewTask(user: string): Task {
    Task(user, Doc(None, Pending), Saved, None, 0, Absent, map[], false, 0)
  }

  predicate Holds(j: Job, lock: nat) {
    (j.progress.Holding? || j.progress.HasRead? || j.progress.HasWritten?) && j.progress.lock == lock
  }

  predicate Free(t: Task, lock: nat) {
    forall k :: k in t.jobs ==> !Holds(t.jobs[k], lock)
  }

  /** `_locks.setdefault`, then waiting for that lock. */
  function Enter(t: Task, job: nat, work: Work): Task {
    var lock := if t.lock.Some? then t.lock.value else t.nextLock;
    t.(lock := Some(lock),
       nextLock := if t.lock.Some? then t.nextLock else t.nextLock + 1,
       jobs := t.jobs[job := Job(work, Waiting(lock))])
  }

  predicate Starting(s: Stage) { !s.Published? && !s.Failing? }

  predicate OnProvider(s: Stage) { s.Submitted? || s.Marked? }

  /** Whether a step can be taken now. */
  predicate Enabled(t: Task, s: Step) {
    match s
    case Allocate(_) => t.stage.Saved?
    case Track => t.stage.Allocated?
    case Register(_) => t.stage.Tracked?
    case Submit => t.stage.Registered?
    case MarkRunning => t.stage.Submitted?
    case Publish => t.stage.Marked?
    case StartFails(job) => Starting(t.stage) && job !in t.jobs
    case Kill(job, _) => t.stage.Published? && job !in t.jobs
    case WorkerLooks => t.worker.Polling?
    case WorkerWrites(job) => t.worker.Polling? && t.lock.Some? && job !in t.jobs
    case WorkerFinishes(job, status) => t.worker.Polling? && job !in t.jobs && Terminal(status)
    case WorkerResumes => t.worker.Busy? && t.worker.job in t.jobs && t.jobs[t.worker.job].progress.Done?
    case WorkerExits => t.worker.Leaving?
    case Acquire(job) => job in t.jobs && t.jobs[job].progress.Waiting? && Free(t, t.jobs[job].progress.lock)
    case Read(job) => job in t.jobs && t.jobs[job].progress.Holding?
    case Write(job) => job in t.jobs && t.jobs[job].progress.HasRead?
    case Release(job) => job in t.jobs && t.jobs[job].progress.HasWritten?
  }

  function SetProgress(t: Task, job: nat, p: Progress): Task
    requires job in t.jobs
  {
    t.(jobs := t.jobs[job := t.jobs[job].(progress := p)])
  }

  /** Whether releasing this job's hold also gives the protection back. */
  predicate GivesBack(j: Job) {
    j.progress.HasWritten? && j.work.Finish? && j.work.release && j.progress.snapshot.sandbox.Some?
  }

  function Next(t: Task, s: Step): Task
    requires Enabled(t, s)
  {
    match s
    case Allocate(sandbox) => t.(stage := Allocated(sandbox))
    case Track => t.(stage := Tracked(t.stage.sandbox), doc := Doc(Some(t.stage.sandbox), Pending))
    case Register(granted) =>
      t.(stage := if granted then Registered(t.stage.sandbox) else Refused(t.stage.sandbox), registered := granted)
    case Submit => t.(stage := Submitted(t.stage.sandbox))
    case MarkRunning => t.(stage := Marked(t.stage.sandbox), doc := Doc(Some(t.stage.sandbox), Running))
    case Publish => t.(stage := Published, lock := Some(t.nextLock), nextLock := t.nextLock + 1, worker := Polling)
    case StartFails(job) =>
      Enter(t.(stage := Failing), job, Finish(if OnProvider(t.stage) then Lost else FailedToStart, t.registered))
    case Kill(job, lost) => Enter(t, job, Finish(if lost then Lost else Killed, true))
    case WorkerLooks => if Terminal(t.doc.status) then t.(worker := Leaving) else t
    case WorkerWrites(job) => Enter(t.(worker := Busy(job)), job, Output)
    case WorkerFinishes(job, status) => Enter(t.(worker := Busy(job)), job, Finish(status, true))
    case WorkerResumes =>
      var j := t.jobs[t.worker.job];
      t.(worker := if j.work.Finish? || j.progress.sawTerminal then Leaving else Polling)
    case WorkerExits => t.(worker := Gone, lock := None)
    case Acquire(job) => SetProgress(t, job, Holding(t.jobs[job].progress.lock))
    case Read(job) =>
      if Terminal(t.doc.status) then SetProgress(t, job, Done(true))
      else SetProgress(t, job, HasRead(t.jobs[job].progress.lock, t.doc))
    case Write(job) =>
      var j := t.jobs[job];
      var written := if j.work.Finish? then j.progress.snapshot.(status := j.work.status) else j.progress.snapshot;
      SetProgress(t, job, if j.work.Finish? then HasWritten(j.progress.lock, written) else Done(false)).(doc := written)
    case Release(job) =>
      SetProgress(t, job, Done(true)).(releases := t.releases + if GivesBack(t.jobs[job]) then 1 else 0)
  }

  // ---------------------------------------------------------------------------------------------
  // What every step keeps

  ghost predicate Writing(t: Task) {
    exists k {:trigger t.jobs[k]} :: k in t.jobs && t.jobs[k].progress.HasWritten?
  }

  /** Before publication nothing but the starter is at work. */
  ghost predicate StartOk(t: Task) {
    && (Starting(t.stage) ==> t.jobs == map[] && t.lock.None? && t.worker.Absent? && !Terminal(t.doc.status))
    && (t.stage.Failing? ==> t.worker.Absent?)
    && (t.stage.Registered? || t.stage.Submitted? || t.stage.Marked? || t.stage.Published? ==> t.registered)
    && (t.stage.Saved? || t.stage.Allocated? || t.stage.Tracked? || t.stage.Refused? ==> !t.registered)
    && (t.stage.Tracked? || t.stage.Refused? || t.stage.Registered? || t.stage.Submitted? || t.stage.Marked? ==>
          t.doc.sandbox == Some(t.stage.sandbox))
    && (t.registered ==> t.doc.sandbox.Some?)
  }

  /** While the document is not terminal, everyone works under the one lock in the table. */
  ghost predicate LockOk(t: Task) {
    && (forall k {:trigger t.jobs[k]} :: k in t.jobs && !Terminal(t.doc.status) ==>
          t.jobs[k].progress.Done? || (t.lock.Some? && t.jobs[k].progress.lock == t.lock.value))
    && (forall k, l {:trigger t.jobs[k], t.jobs[l]} :: k in t.jobs && l in t.jobs && k != l ==>
          forall g :: !(Holds(t.jobs[k], g) && Holds(t.jobs[l], g)))
  }

  /** Snapshots about to be written are current, writes of `_finish` make the document terminal, and a
      task is released as often as it was registered, once its finishing write has been followed up. */
  ghost predicate WriteOk(t: Task) {
    && (forall k {:trigger t.jobs[k]} :: k in t.jobs ==>
          && (t.jobs[k].work.Finish? ==> Terminal(t.jobs[k].work.status) && t.jobs[k].work.release == t.registered)
          && (t.jobs[k].progress.HasRead? ==> t.jobs[k].progress.snapshot == t.doc && !Terminal(t.doc.status))
          && (t.jobs[k].progress.HasWritten? ==>
                t.jobs[k].work.Finish? && Terminal(t.doc.status) && t.jobs[k].progress.snapshot == t.doc)
          && (t.jobs[k].progress.Done? && (t.jobs[k].work.Finish? || t.jobs[k].progress.sawTerminal) ==>
                Terminal(t.doc.status)))
    && (forall k, l {:trigger t.jobs[k], t.jobs[l]} ::
          k in t.jobs && l in t.jobs && t.jobs[k].progress.HasWritten? && t.jobs[l].progress.HasWritten? ==> k == l)
    && (t.releases == if t.registered && Terminal(t.doc.status) && !Writing(t) then 1 else 0)
  }

  ghost predicate WorkerOk(t: Task) {
    && (t.worker.Leaving? || t.worker.Gone? ==> Terminal(t.doc.status))
    && (t.worker.Polling? || t.worker.Busy? ==> t.lock.Some? && t.stage.Published?)
  }

  ghost predicate TaskOk(t: Task) {
    StartOk(t) && LockOk(t) && WriteOk(t) && WorkerOk(t)
  }

  lemma NewTaskIsOk(user: string)
    ensures TaskOk(NewTask(user))
  {
  }

  /** A job that enters waits for the lock in the table, creating it when there is none. */
  lemma EnterKeeps(t: Task, job: nat, work: Work)
    requires LockOk(t) && WriteOk(t) && job !in t.jobs
    requires work.Finish? ==> Terminal(work.status) && work.release == t.registered
    ensures LockOk(Enter(t, job, work)) && WriteOk(Enter(t, job, work))
  {
    hide LockOk, WriteOk, Enter;
    EnterKeepsLock(t, job, work);
    EnterKeepsWrite(t, job, work);
  }

  lemma EnterKeepsLock(t: Task, job: nat, work: Work)
    requires LockOk(t) && job !in t.jobs
    ensures LockOk(Enter(t, job, work))
  {
    hide Terminal;
    var next := Enter(t, job, work);
    assert forall k {:trigger next.jobs[k]} :: k in next.jobs && k != job ==> k in t.jobs && next.jobs[k] == t.jobs[k];
  }

  lemma EnterKeepsWrite(t: Task, job: nat, work: Work)
    requires WriteOk(t) && job !in t.jobs
    requires work.Finish? ==> Terminal(work.status) && work.release == t.registered
    ensures WriteOk(Enter(t, job, work))
  {
    hide Terminal;
    var next := Enter(t, job, work);
    assert forall k {:trigger next.jobs[k]} :: k in next.jobs && k != job ==> k in t.jobs && next.jobs[k] == t.jobs[k];
    SameWriting(t, next);
    hide Writing;
  }

  lemma SameWriting(t: Task, next: Task)
    requires forall k {:trigger next.jobs[k]} :: k in next.jobs && next.jobs[k].progress.HasWritten? ==>
               k in t.jobs && t.jobs[k].progress.HasWritten?
    requires forall k {:trigger t.jobs[k]} :: k in t.jobs && t.jobs[k].progress.HasWritten? ==>
               k in next.jobs && next.jobs[k].progress.HasWritten?
    ensures Writing(next) == Writing(t)
  {
    if Writing(t) {
      var k :| k in t.jobs && t.jobs[k].progress.HasWritten?;
      assert next.jobs[k].progress.HasWritten?;
    }
    if Writing(next) {
      var k :| k in next.jobs && next.jobs[k].progress.HasWritten?;
      assert t.jobs[k].progress.HasWritten?;
    }
  }

  predicate StarterStep(s: Step) {
    s.Allocate? || s.Track? || s.Register? || s.Submit? || s.MarkRunning? || s.Publish?
  }

  lemma StarterKeeps(t: Task, s: Step)
    requires Enabled(t, s) && TaskOk(t) && StarterStep(s)
    ensures LockOk(Next(t, s)) && WriteOk(Next(t, s))
  {
    var next := Next(t, s);
    assert t.jobs == map[] && next.jobs == map[];
    SameWriting(t, next);
  }

  lemma WorkerKeeps(t: Task, s: Step)
    requires Enabled(t, s) && TaskOk(t) && (s.WorkerLooks? || s.WorkerResumes? || s.WorkerExits?)
    ensures LockOk(Next(t, s)) && WriteOk(Next(t, s))
  {
    SameWriting(t, Next(t, s));
  }

  /** A free lock is taken; nobody else holds it then. */
  lemma AcquireKeepsLock(t: Task, job: nat)
    requires Enabled(t, Acquire(job)) && TaskOk(t)
    ensures LockOk(Next(t, Acquire(job)))
  {
    hide StartOk, WorkerOk, WriteOk;
    var next := Next(t, Acquire(job));
    var lock := t.jobs[job].progress.lock;
    assert forall k {:trigger next.jobs[k]} :: k in next.jobs && k != job ==> next.jobs[k] == t.jobs[k];
    assert forall k {:trigger next.jobs[k]} :: k in next.jobs && k != job ==> !Holds(next.jobs[k], lock);
    assert forall g :: Holds(next.jobs[job], g) ==> g == lock;
  }

  lemma AcquireKeepsWrite(t: Task, job: nat)
    requires Enabled(t, Acquire(job)) && TaskOk(t)
    ensures WriteOk(Next(t, Acquire(job)))
  {
    hide StartOk, WorkerOk, LockOk, Free;
    var next := Next(t, Acquire(job));
    assert forall k {:trigger next.jobs[k]} :: k in next.jobs && k != job ==> next.jobs[k] == t.jobs[k];
    SameWriting(t, next);
  }

  /** Steps of a job that already holds its lock keep holding it or let go. */
  lemma HolderKeepsLock(t: Task, s: Step)
    requires Enabled(t, s) && TaskOk(t) && (s.Read? || s.Write? || s.Release?)
    ensures LockOk(Next(t, s))
  {
    LettingGo(t, Next(t, s), s.job);
  }

  lemma LettingGo(t: Task, next: Task, job: nat)
    requires LockOk(t) && job in t.jobs && !t.jobs[job].progress.Done?
    requires next.lock == t.lock && (Terminal(t.doc.status) ==> Terminal(next.doc.status))
    requires job in next.jobs && next.jobs == t.jobs[job := t.jobs[job].(progress := next.jobs[job].progress)]
    requires next.jobs[job].progress.Done? || Holds(next.jobs[job], t.jobs[job].progress.lock)
    requires Holds(t.jobs[job], t.jobs[job].progress.lock)
    ensures LockOk(next)
  {
    assert forall k {:trigger next.jobs[k]} :: k in next.jobs && k != job ==> next.jobs[k] == t.jobs[k];
    assert forall g :: Holds(next.jobs[job], g) ==> Holds(t.jobs[job], g);
  }

  lemma ReadKeepsWrite(t: Task, job: nat)
    requires Enabled(t, Step.Read(job)) && TaskOk(t)
    ensures WriteOk(Next(t, Step.Read(job)))
  {
    hide StartOk, WorkerOk, LockOk;
    var next := Next(t, Step.Read(job));
    assert forall k {:trigger next.jobs[k]} :: k in next.jobs && k != job ==> next.jobs[k] == t.jobs[k];
    SameWriting(t, next);
  }

  /** Only one job can be past its read while the document is not terminal. */
  lemma OneReader(t: Task, job: nat, other: nat)
    requires TaskOk(t) && job in t.jobs && other in t.jobs && job != other
    requires t.jobs[job].progress.HasRead?
    ensures !t.jobs[other].progress.HasRead? && !t.jobs[other].progress.HasWritten?
  {
    var g := t.lock.value;
    assert Holds(t.jobs[job], g) && !Holds(t.jobs[other], g);
  }

  lemma WriteKeepsWrite(t: Task, job: nat)
    requires Enabled(t, Step.Write(job)) && TaskOk(t)
    ensures WriteOk(Next(t, Step.Write(job)))
  {
    var next := Next(t, Step.Write(job));
    forall k | k in t.jobs && k != job
      ensures !t.jobs[k].progress.HasRead? && !t.jobs[k].progress.HasWritten?
    {
      OneReader(t, job, k);
    }
    assert forall k {:trigger next.jobs[k]} :: k in next.jobs && k != job ==> next.jobs[k] == t.jobs[k];
    assert next.jobs[job].progress.HasWritten? ==> Writing(next);
  }

  lemma ReleaseKeepsWrite(t: Task, job: nat)
    requires Enabled(t, Step.Release(job)) && TaskOk(t)
    ensures WriteOk(Next(t, Step.Release(job)))
  {
    var next := Next(t, Step.Release(job));
    assert Writing(t);
    assert forall k {:trigger next.jobs[k]} :: k in next.jobs && k != job ==> next.jobs[k] == t.jobs[k];
    assert !Writing(next);
    assert GivesBack(t.jobs[job]) == t.registered;
  }

  lemma NextKeepsLockAndWrite(t: Task, s: Step)
    requires Enabled(t, s) && TaskOk(t)
    ensures LockOk(Next(t, s)) && WriteOk(Next(t, s))
  {
    hide LockOk, WriteOk, Enter, SetProgress, GivesBack;
    match s {
      case StartFails(job) =>
        StageDoesNotMatter(t, t.(stage := Failing));
        var write := Finish(if OnProvider(t.stage) then Lost else FailedToStart, t.registered);
        EnterKeeps(t.(stage := Failing), job, write);
      case Kill(job, lost) => EnterKeeps(t, job, Finish(if lost then Lost else Killed, true));
      case WorkerWrites(job) =>
        StageDoesNotMatter(t, t.(worker := Busy(job)));
        EnterKeeps(t.(worker := Busy(job)), job, Output);
      case WorkerFinishes(job, status) =>
        StageDoesNotMatter(t, t.(worker := Busy(job)));
        EnterKeeps(t.(worker := Busy(job)), job, Finish(status, true));
      case Acquire(job) => AcquireKeepsLock(t, job); AcquireKeepsWrite(t, job);
      case Read(job) => HolderKeepsLock(t, s); ReadKeepsWrite(t, job);
      case Write(job) => HolderKeepsLock(t, s); WriteKeepsWrite(t, job);
      case Release(job) => HolderKeepsLock(t, s); ReleaseKeepsWrite(t, job);
      case WorkerLooks => WorkerKeeps(t, s);
      case WorkerResumes => WorkerKeeps(t, s);
      case WorkerExits => WorkerKeeps(t, s);
      case _ => StarterKeeps(t, s);
    }
  }

  lemma StageDoesNotMatter(t: Task, u: Task)
    requires LockOk(t) && WriteOk(t) && u.(stage := t.stage, worker := t.worker) == t
    ensures LockOk(u) && WriteOk(u)
  {
    SameWriting(t, u);
  }

  lemma NextKeepsOk(t: Task, s: Step)
    requires Enabled(t, s) && TaskOk(t)
    ensures TaskOk(Next(t, s))
  {
    NextKeepsLockAndWrite(t, s);
  }

  /** A terminal document is never changed again, by any step. */
  lemma TerminalIsFinal(t: Task, s: Step)
    requires Enabled(t, s) && TaskOk(t) && Terminal(t.doc.status)
    ensures Next(t, s).doc == t.doc
  {
  }

  /** The only steps that change the document, and to what: the starter names the sandbox and later marks
      the command running; a finishing write sets the status its job was to finish with, and nothing
      else. An output write leaves it. */
  lemma DocumentChanges(t: Task, s: Step)
    requires Enabled(t, s) && TaskOk(t)
    ensures
      Next(t, s).doc
      == if s.Track? then Doc(Some(t.stage.sandbox), Pending)
         else if s.MarkRunning? then Doc(Some(t.stage.sandbox), Running)
         else if s.Write? && t.jobs[s.job].work.Finish? then t.doc.(status := t.jobs[s.job].work.status)
         else t.doc
    ensures Terminal(t.doc.status) <==> t.doc.status != Pending && t.doc.status != Running
    ensures !Terminal(t.doc.status) && Terminal(Next(t, s).doc.status) ==>
              s.Write? && t.jobs[s.job].work.Finish?
              && Next(t, s).doc == t.doc.(status := t.jobs[s.job].work.status)
  {
    if s.Write? { assert t.jobs[s.job].progress.snapshot == t.doc; }
  }

  /** What a step asks its job to finish with: killing asks for KILLED, or LOST where the provider's answer
      is not known; the worker asks for the status it was told; a failing start asks for LOST exactly when
      the provider had accepted the command, else for FAILED. */
  predicate AsksFor(t: Task, s: Step, job: nat, status: Status) {
    match s
    case Kill(j, lost) => j == job && status == if lost then Lost else Killed
    case WorkerFinishes(j, told) => j == job && status == told
    case StartFails(j) => j == job && status == if t.stage.Submitted? || t.stage.Marked? then Lost else FailedToStart
    case _ => false
  }

  /** Jobs keep their work, and only such a step brings one with something to finish. */
  lemma JobsAreAskedFor(t: Task, s: Step, job: nat)
    requires Enabled(t, s)
    ensures
      var next := Next(t, s);
      && (job in t.jobs ==> job in next.jobs && next.jobs[job].work == t.jobs[job].work)
      && (job !in t.jobs && job in next.jobs && next.jobs[job].work.Finish? ==>
            AsksFor(t, s, job, next.jobs[job].work.status))
  {
  }

  /** When the worker stops looking: at a terminal document, or after a job that finished it or found it so;
      leaving, it drops the lock from the table. */
  lemma WorkerLeaves(t: Task, s: Step)
    requires Enabled(t, s)
    ensures s.WorkerLooks? ==> (Next(t, s).worker.Leaving? <==> Terminal(t.doc.status))
    ensures s.WorkerResumes? ==>
              var j := t.jobs[t.worker.job];
              Next(t, s).worker.Leaving? <==> j.work.Finish? || j.progress.sawTerminal
    ensures s.WorkerExits? ==> Next(t, s).worker.Gone? && Next(t, s).lock.None?
    ensures s.Publish? ==> Next(t, s).worker.Polling? && Next(t, s).lock.Some? && Next(t, s).stage.Published?
  {
  }

  /** Never released more than once, never unless registered and terminal; and released exactly once
      when a registered task is terminal and no finishing write is still to be followed up. */
  lemma ReleasedOnce(t: Task)
    requires TaskOk(t)
    ensures t.releases <= 1
    ensures t.releases == 1 <==> t.registered && Terminal(t.doc.status) && !Writing(t)
  {
  }

  /** Protection of sandbox s registered by this task and not given back. */
  predicate Protects(t: Task, s: string) {
    t.registered && t.releases == 0 && t.doc.sandbox == Some(s)
  }

  /** Only a granted registration starts protecting and only a release that gives back stops it. */
  lemma ProtectionChanges(t: Task, s: Step, sandbox: string)
    requires Enabled(t, s) && TaskOk(t)
    ensures
      Protects(Next(t, s), sandbox) ==
        if s.Register? then s.granted && t.stage.sandbox == sandbox
        else if s.Release? && GivesBack(t.jobs[s.job]) then false
        else Protects(t, sandbox)
    ensures s.Register? ==> !Protects(t, sandbox)
    ensures s.Release? && GivesBack(t.jobs[s.job]) ==>
              (Protects(t, sandbox) <==> t.jobs[s.job].progress.snapshot.sandbox == Some(sandbox))
  {
    if s.Release? { assert Writing(t); }
    if s.Write? { assert t.jobs[s.job].progress.HasRead?; }
  }
}
