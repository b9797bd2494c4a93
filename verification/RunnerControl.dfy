/**
 One runner per session (src/container-runner.ts). The three module maps, the coroutines that
 update them around their awaits, and the containers that are really alive.
 */
module RunnerControl {
  /** `activeContainers`: the container process is named by a number of its own. */
  datatype Entry = Entry(container: nat, recovering: bool)

  /**
   Where a coroutine is suspended. `Starting` is `docker run` in progress; `Watching` and `Closed`
   are a recovery before and after its child's close event; `Settled` waits for `.finally`.
   */
  datatype Phase =
    | Setup
    | Starting(container: nat)
    | Watching(box: nat, stopFailed: bool)
    | Closed(box: nat, stopFailed: bool)
    | Settled

  datatype Job = Job(session: string, recovery: bool, phase: Phase)

  /**
   `jobs`, `live` (container processes), `watched` (`docker wait` watchers that have not ended) and
   the history fields `owner` and `locked` (recoveries whose container could not be stopped) are
   what the maps are supposed to describe.
   */
  datatype Control = Control(
    active: map<string, Entry>, wakes: map<string, nat>, recoveries: map<string, nat>,
    jobs: map<nat, Job>, live: map<nat, string>, watched: map<nat, string>,
    owner: map<nat, string>, locked: set<string>)

  datatype Step =
    | Wake(session: string, job: nat)
    | Recover(session: string, job: nat)
      // Deferred by admission, no agent group, or anything thrown before a process exists.
    | GaveUp(job: nat)
    | DockerRun(job: nat, container: nat)
    | RunFailed(job: nat)
    | RunSucceeded(job: nat)
    | RecoveryRun(job: nat, container: nat)
    | StopFailed(job: nat)
    | ChildClosed(job: nat)
    | RecoveryFinally(job: nat)
    | PromiseFinally(job: nat)
      // A container process ends: by itself, killed, or evicted to admit another session.
    | Exit(container: nat)
      // A terminal event of a watcher; `last` when the watcher emits no further one.
    | WatcherEnded(container: nat, last: bool)

  datatype Answer = AwaitsRecovery | Answered(woke: bool) | AwaitsWake | Starts

  /** Host start: the containers adopted from the previous host process, one per session. */
  function Adopted(containers: map<string, nat>): Control
    requires forall s, t | s in containers && t in containers && containers[s] == containers[t] :: s == t
  {
    var boxes := map s | s in containers :: containers[s] := s;
    Control(map s | s in containers :: Entry(containers[s], false), map[], map[], map[], boxes, boxes, boxes, {})
  }

  function WakeAnswer(d: Control, session: string): Answer {
    if session in d.recoveries then AwaitsRecovery
    else if session in d.active then Answered(!d.active[session].recovering)
    else if session in d.wakes then AwaitsWake
    else Starts
  }

  predicate At(d: Control, job: nat, recovery: bool) {
    job in d.jobs && d.jobs[job].recovery == recovery
  }

  function Move(d: Control, job: nat, phase: Phase): Control
    requires job in d.jobs
  {
    d.(jobs := d.jobs[job := d.jobs[job].(phase := phase)])
  }

  function Next(d: Control, step: Step): Control {
    match step
    case Wake(session, job) =>
      if job in d.jobs || WakeAnswer(d, session) != Starts then d
      else d.(wakes := d.wakes[session := job], jobs := d.jobs[job := Job(session, false, Setup)])
    case Recover(session, job) =>
      if job in d.jobs || session in d.recoveries || session in d.active || session in d.wakes then d
      else d.(recoveries := d.recoveries[session := job], jobs := d.jobs[job := Job(session, true, Setup)])
    case GaveUp(job) =>
      if job in d.jobs && d.jobs[job].phase.Setup? then Move(d, job, Settled) else d
    case DockerRun(job, container) =>
      if At(d, job, false) && d.jobs[job].phase.Setup? && container !in d.owner
      then
        var session := d.jobs[job].session;
        Move(d, job, Starting(container)).(
          live := d.live[container := session], owner := d.owner[container := session])
      else d
    case RunFailed(job) =>
      if At(d, job, false) && d.jobs[job].phase.Starting? then Move(d, job, Settled) else d
    case RunSucceeded(job) =>
      if At(d, job, false) && d.jobs[job].phase.Starting?
      then
        var session, container := d.jobs[job].session, d.jobs[job].phase.container;
        Move(d, job, Settled).(active := d.active[session := Entry(container, false)],
                               watched := d.watched[container := session])
      else d
    case RecoveryRun(job, container) =>
      if At(d, job, true) && d.jobs[job].phase.Setup? && container !in d.owner
      then
        var session := d.jobs[job].session;
        Move(d, job, Watching(container, false)).(
          active := d.active[session := Entry(container, true)],
          live := d.live[container := session], owner := d.owner[container := session])
      else d
    case StopFailed(job) =>
      if At(d, job, true) && d.jobs[job].phase.Watching?
      then Move(d, job, Watching(d.jobs[job].phase.box, true)).(locked := d.locked + {d.jobs[job].session})
      else d
    case ChildClosed(job) =>
      if At(d, job, true) && d.jobs[job].phase.Watching?
      then Move(d, job, Closed(d.jobs[job].phase.box, d.jobs[job].phase.stopFailed))
      else d
    case RecoveryFinally(job) =>
      if At(d, job, true) && d.jobs[job].phase.Closed?
      then
        var session, entry := d.jobs[job].session, Entry(d.jobs[job].phase.box, true);
        var settled := Move(d, job, Settled);
        if !d.jobs[job].phase.stopFailed && session in d.active && d.active[session] == entry
        then settled.(active := d.active - {session}) else settled
      else d
    case PromiseFinally(job) =>
      if job in d.jobs && d.jobs[job].phase.Settled?
      then
        var session := d.jobs[job].session;
        if d.jobs[job].recovery
        then d.(recoveries := d.recoveries - {session}, jobs := d.jobs - {job})
        else d.(wakes := d.wakes - {session}, jobs := d.jobs - {job})
      else d
    case Exit(container) => d.(live := d.live - {container})
    case WatcherEnded(container, last) =>
      if container !in d.watched then d
      else d.(active := d.active - {d.watched[container]},
              watched := if last then d.watched - {container} else d.watched)
  }

  /** The host is told that a container ended only once, and not before it ended. */
  predicate Clean(d: Control, step: Step) {
    match step
    case RunFailed(job) =>
      At(d, job, false) && d.jobs[job].phase.Starting? ==> d.jobs[job].phase.container !in d.live
    case ChildClosed(job) =>
      At(d, job, true) && d.jobs[job].phase.Watching? ==>
        d.jobs[job].phase.stopFailed || d.jobs[job].phase.box !in d.live
    case WatcherEnded(container, last) => last && container !in d.live
    case _ => true
  }

  function Run(start: Control, steps: seq<Step>): Control {
    if steps == [] then start else Next(Run(start, steps[..|steps| - 1]), steps[|steps| - 1])
  }

  predicate CleanRun(start: Control, steps: seq<Step>) {
    steps != [] ==>
      CleanRun(start, steps[..|steps| - 1]) && Clean(Run(start, steps[..|steps| - 1]), steps[|steps| - 1])
  }

  // ---- the imperative form: the module maps and the coroutines that update them ----

  class Runners {
    var activeContainers: map<string, Entry>
    var wakePromises: map<string, nat>
    var recoveryPromises: map<string, nat>
    var jobs: map<nat, Job>
    ghost var live: map<nat, string>
    ghost var watched: map<nat, string>
    ghost var owner: map<nat, string>
    ghost var locked: set<string>

    ghost function Now(): Control
      reads this
    {
      Control(activeContainers, wakePromises, recoveryPromises, jobs, live, watched, owner, locked)
    }

    method WakeContainer(session: string, job: nat) returns (answer: Answer)
      requires job !in jobs
      modifies this
      ensures answer == WakeAnswer(old(Now()), session)
      ensures Now() == Next(old(Now()), Wake(session, job))
    {
      if session in recoveryPromises {
        return AwaitsRecovery;
      }
      if session in activeContainers {
        return Answered(!activeContainers[session].recovering);
      }
      if session in wakePromises {
        return AwaitsWake;
      }
      jobs := jobs[job := Job(session, false, Setup)];
      wakePromises := wakePromises[session := job];
      return Starts;
    }

    method RecoverStoppedSession(session: string, job: nat)
      requires job !in jobs
      modifies this
      ensures Now() == Next(old(Now()), Recover(session, job))
    {
      if session in recoveryPromises {
        return;
      }
      if session in activeContainers || session in wakePromises {
        return;
      }
      jobs := jobs[job := Job(session, true, Setup)];
      recoveryPromises := recoveryPromises[session := job];
    }

    /** `docker run -d` returned zero: attach the `docker wait` watcher. */
    method AttachContainerWatcher(job: nat)
      requires At(Now(), job, false) && jobs[job].phase.Starting?
      modifies this
      ensures Now() == Next(old(Now()), RunSucceeded(job))
    {
      var session, container := jobs[job].session, jobs[job].phase.container;
      activeContainers := activeContainers[session := Entry(container, false)];
      watched := watched[container := session];
      jobs := jobs[job := jobs[job].(phase := Settled)];
    }

    /** The watcher's close or error handler. */
    method OnWatcherEnded(session: string, container: nat, ghost last: bool)
      requires container in watched && watched[container] == session
      modifies this
      ensures Now() == Next(old(Now()), WatcherEnded(container, last))
    {
      activeContainers := activeContainers - {session};
      if last {
        watched := watched - {container};
      }
    }

    /** runRecoveryContainer from its spawned child to its first await. */
    method SpawnRecovery(job: nat, container: nat)
      requires At(Now(), job, true) && jobs[job].phase.Setup? && container !in owner
      modifies this
      ensures Now() == Next(old(Now()), RecoveryRun(job, container))
    {
      var session := jobs[job].session;
      live := live[container := session];
      owner := owner[container := session];
      activeContainers := activeContainers[session := Entry(container, true)];
      jobs := jobs[job := jobs[job].(phase := Watching(container, false))];
    }

    /** runRecoveryContainer's `finally`. */
    method FinishRecovery(job: nat)
      requires At(Now(), job, true) && jobs[job].phase.Closed?
      modifies this
      ensures Now() == Next(old(Now()), RecoveryFinally(job))
    {
      var session, entry := jobs[job].session, Entry(jobs[job].phase.box, true);
      if !jobs[job].phase.stopFailed {
        if session in activeContainers && activeContainers[session] == entry {
          activeContainers := activeContainers - {session};
        }
      }
      jobs := jobs[job := jobs[job].(phase := Settled)];
    }

    /** The `.finally` callbacks of both kinds of promise. */
    method DropPromise(job: nat)
      requires job in jobs && jobs[job].phase.Settled?
      modifies this
      ensures Now() == Next(old(Now()), PromiseFinally(job))
    {
      if jobs[job].recovery {
        recoveryPromises := recoveryPromises - {jobs[job].session};
      } else {
        wakePromises := wakePromises - {jobs[job].session};
      }
      jobs := jobs - {job};
    }
  }

  // ---- the invariant: per session, per coroutine, per container ----

  predicate Owns(d: Control, container: nat, session: string) {
    container in d.owner && d.owner[container] == session
  }

  predicate Held(d: Control, session: string, box: nat, stopFailed: bool) {
    && Owns(d, box, session) && session in d.active && d.active[session] == Entry(box, true)
    && (stopFailed <==> session in d.locked)
  }

  /** A recovery that has a container and has not run its `finally` yet. */
  predicate Recovering(d: Control, session: string) {
    session in d.recoveries && d.recoveries[session] in d.jobs &&
    (d.jobs[d.recoveries[session]].phase.Watching? || d.jobs[d.recoveries[session]].phase.Closed?)
  }

  predicate SessionOk(d: Control, s: string) {
    && (s in d.wakes ==> d.wakes[s] in d.jobs && d.jobs[d.wakes[s]].session == s && !d.jobs[d.wakes[s]].recovery)
    && (s in d.recoveries ==>
          && s !in d.wakes && (s in d.active ==> d.active[s].recovering)
          && d.recoveries[s] in d.jobs && d.jobs[d.recoveries[s]].session == s && d.jobs[d.recoveries[s]].recovery)
    && (s in d.active ==>
          && Owns(d, d.active[s].container, s)
          && if d.active[s].recovering then Recovering(d, s) || s in d.locked
             else d.active[s].container in d.watched && d.watched[d.active[s].container] == s)
    && (s in d.locked ==> s in d.active && d.active[s].recovering)
  }

  predicate PhaseOk(d: Control, job: Job) {
    match job.phase
    case Setup => job.session !in d.active
    case Starting(container) =>
      !job.recovery && job.session !in d.active && Owns(d, container, job.session) && container !in d.watched
    case Watching(box, stopFailed) => job.recovery && Held(d, job.session, box, stopFailed)
    case Closed(box, stopFailed) =>
      job.recovery && Held(d, job.session, box, stopFailed) && (stopFailed || box !in d.live)
    case Settled => true
  }

  predicate JobOk(d: Control, j: nat) {
    j in d.jobs ==>
      var job := d.jobs[j];
      && (if job.recovery then job.session in d.recoveries && d.recoveries[job.session] == j
          else job.session in d.wakes && d.wakes[job.session] == j)
      && PhaseOk(d, job)
  }

  /** A live container is its session's entry, or is being started by its session's wake. */
  predicate BoxOk(d: Control, c: nat) {
    && (c in d.live ==>
          var s := d.live[c];
          && Owns(d, c, s)
          && ((s in d.active && d.active[s].container == c) ||
              (s in d.wakes && d.wakes[s] in d.jobs && d.jobs[d.wakes[s]].phase == Starting(c))))
    && (c in d.watched ==>
          Owns(d, c, d.watched[c]) && d.watched[c] in d.active && d.active[d.watched[c]] == Entry(c, false))
  }

  ghost predicate Inv(d: Control) {
    (forall s :: SessionOk(d, s)) && (forall j :: JobOk(d, j)) && (forall c :: BoxOk(d, c))
  }

  /** The container a coroutine at this point is concerned with lives, or no container of the session does. */
  predicate OnlyOwn(phase: Phase, container: nat) {
    match phase
    case Setup => false
    case Starting(own) => container == own
    case Watching(own, _) => container == own
    case Closed(own, _) => container == own
    case Settled => true
  }

  /**
   One runner per session, whether it is being set up, spawned, running or recovering: at most one live
   container, at most one coroutine, and beside a coroutine no live container but its own.
   */
  ghost predicate AtMostOneRunner(d: Control) {
    && (forall b, c | b in d.live && c in d.live && d.live[b] == d.live[c] :: b == c)
    && (forall i, j | i in d.jobs && j in d.jobs && d.jobs[i].session == d.jobs[j].session :: i == j)
    && (forall j, c | j in d.jobs && c in d.live && d.live[c] == d.jobs[j].session :: OnlyOwn(d.jobs[j].phase, c))
  }

  lemma AdoptedOk(containers: map<string, nat>)
    requires forall s, t | s in containers && t in containers && containers[s] == containers[t] :: s == t
    ensures Inv(Adopted(containers))
  {
  }

  lemma WakeKeeps(d: Control, session: string, job: nat)
    requires Inv(d) && Clean(d, Wake(session, job))
    ensures Inv(Next(d, Wake(session, job)))
  {
    var after := Next(d, Wake(session, job));
    assert SessionOk(d, session) && JobOk(d, job);
    assert after == d || (WakeAnswer(d, session).Starts? && job !in d.jobs &&
                          after == d.(wakes := d.wakes[session := job],
                                      jobs := d.jobs[job := Job(session, false, Setup)]));
    hide Next;
    forall s ensures SessionOk(after, s) {
      assert SessionOk(d, s);
    }
    forall j ensures JobOk(after, j) {
      assert JobOk(d, j);
    }
    forall c ensures BoxOk(after, c) {
      assert BoxOk(d, c);
    }
  }

  lemma RecoverKeeps(d: Control, session: string, job: nat)
    requires Inv(d) && Clean(d, Recover(session, job))
    ensures Inv(Next(d, Recover(session, job)))
  {
    var after := Next(d, Recover(session, job));
    assert SessionOk(d, session) && JobOk(d, job);
    assert after == d || (WakeAnswer(d, session).Starts? && job !in d.jobs &&
                          after == d.(recoveries := d.recoveries[session := job],
                                      jobs := d.jobs[job := Job(session, true, Setup)]));
    hide Next;
    forall s ensures SessionOk(after, s) {
      assert SessionOk(d, s);
    }
    forall j ensures JobOk(after, j) {
      assert JobOk(d, j);
    }
    forall c ensures BoxOk(after, c) {
      assert BoxOk(d, c);
    }
  }

  lemma GaveUpKeeps(d: Control, job: nat)
    requires Inv(d) && Clean(d, GaveUp(job))
    ensures Inv(Next(d, GaveUp(job)))
  {
    var after := Next(d, GaveUp(job));
    assert JobOk(d, job);
    assert job in d.jobs ==> SessionOk(d, d.jobs[job].session);
    assert after == d || (job in d.jobs && d.jobs[job].phase.Setup? && after == Move(d, job, Settled));
    hide Next;
    forall s ensures SessionOk(after, s) {
      assert SessionOk(d, s);
    }
    forall j ensures JobOk(after, j) {
      assert JobOk(d, j);
    }
    forall c ensures BoxOk(after, c) {
      assert BoxOk(d, c);
    }
  }

  lemma DockerRunKeeps(d: Control, job: nat, container: nat)
    requires Inv(d) && Clean(d, DockerRun(job, container))
    ensures Inv(Next(d, DockerRun(job, container)))
  {
    var after := Next(d, DockerRun(job, container));
    assert JobOk(d, job);
    assert job in d.jobs ==> SessionOk(d, d.jobs[job].session);
    assert BoxOk(d, container);
    forall s ensures SessionOk(after, s) {
      assert SessionOk(d, s);
    }
    forall j ensures JobOk(after, j) {
      assert JobOk(d, j);
    }
    forall c ensures BoxOk(after, c) {
      assert BoxOk(d, c);
    }
  }

  lemma RunFailedKeeps(d: Control, job: nat)
    requires Inv(d) && Clean(d, RunFailed(job))
    ensures Inv(Next(d, RunFailed(job)))
  {
    var after := Next(d, RunFailed(job));
    assert JobOk(d, job);
    assert job in d.jobs ==> SessionOk(d, d.jobs[job].session);
    forall s ensures SessionOk(after, s) {
      assert SessionOk(d, s);
    }
    forall j ensures JobOk(after, j) {
      assert JobOk(d, j);
    }
    forall c ensures BoxOk(after, c) {
      assert BoxOk(d, c);
    }
  }

  lemma RunSucceededKeeps(d: Control, job: nat)
    requires Inv(d) && Clean(d, RunSucceeded(job))
    ensures Inv(Next(d, RunSucceeded(job)))
  {
    var after := Next(d, RunSucceeded(job));
    assert JobOk(d, job);
    assert job in d.jobs ==> SessionOk(d, d.jobs[job].session);
    forall s ensures SessionOk(after, s) {
      assert SessionOk(d, s);
    }
    forall j ensures JobOk(after, j) {
      assert JobOk(d, j);
    }
    forall c ensures BoxOk(after, c) {
      assert BoxOk(d, c);
    }
  }

  lemma RecoveryRunKeeps(d: Control, job: nat, container: nat)
    requires Inv(d) && Clean(d, RecoveryRun(job, container))
    ensures Inv(Next(d, RecoveryRun(job, container)))
  {
    var after := Next(d, RecoveryRun(job, container));
    assert JobOk(d, job);
    assert job in d.jobs ==> SessionOk(d, d.jobs[job].session);
    assert BoxOk(d, container);
    forall s ensures SessionOk(after, s) {
      assert SessionOk(d, s);
    }
    forall j ensures JobOk(after, j) {
      assert JobOk(d, j);
    }
    forall c ensures BoxOk(after, c) {
      assert BoxOk(d, c);
    }
  }

  lemma StopFailedKeeps(d: Control, job: nat)
    requires Inv(d) && Clean(d, StopFailed(job))
    ensures Inv(Next(d, StopFailed(job)))
  {
    var after := Next(d, StopFailed(job));
    assert JobOk(d, job);
    assert job in d.jobs ==> SessionOk(d, d.jobs[job].session);
    forall s ensures SessionOk(after, s) {
      assert SessionOk(d, s);
    }
    forall j ensures JobOk(after, j) {
      assert JobOk(d, j);
    }
    forall c ensures BoxOk(after, c) {
      assert BoxOk(d, c);
    }
  }

  lemma ChildClosedKeeps(d: Control, job: nat)
    requires Inv(d) && Clean(d, ChildClosed(job))
    ensures Inv(Next(d, ChildClosed(job)))
  {
    var after := Next(d, ChildClosed(job));
    assert JobOk(d, job);
    assert job in d.jobs ==> SessionOk(d, d.jobs[job].session);
    forall s ensures SessionOk(after, s) {
      assert SessionOk(d, s);
    }
    forall j ensures JobOk(after, j) {
      assert JobOk(d, j);
    }
    forall c ensures BoxOk(after, c) {
      assert BoxOk(d, c);
    }
  }

  /** The stop failed: the entry stays and keeps the session locked. */
  lemma LockedRecoveryKeeps(d: Control, job: nat)
    requires Inv(d) && At(d, job, true) && d.jobs[job].phase.Closed? && d.jobs[job].phase.stopFailed
    ensures Inv(Next(d, RecoveryFinally(job)))
  {
    var after := Next(d, RecoveryFinally(job));
    var session, box := d.jobs[job].session, d.jobs[job].phase.box;
    assert JobOk(d, job) && SessionOk(d, session) && d.active[session] == Entry(box, true);
    assert after == Move(d, job, Settled);
    hide Next, Move;
    forall s ensures SessionOk(after, s) {
      assert SessionOk(d, s);
      assert s in d.recoveries && d.recoveries[s] == job ==> s == session;
    }
    forall j ensures JobOk(after, j) {
      assert JobOk(d, j);
      assert j in d.jobs && j != job ==> d.jobs[j].session != session;
    }
    forall c ensures BoxOk(after, c) {
      assert BoxOk(d, c);
      assert c in d.live && d.live[c] == session ==> c == box;
    }
  }

  /** The container is gone: its entry is dropped. */
  lemma EndedRecoveryKeeps(d: Control, job: nat)
    requires Inv(d) && At(d, job, true) && d.jobs[job].phase.Closed? && !d.jobs[job].phase.stopFailed
    ensures Inv(Next(d, RecoveryFinally(job)))
  {
    var after := Next(d, RecoveryFinally(job));
    var session, box := d.jobs[job].session, d.jobs[job].phase.box;
    assert JobOk(d, job) && SessionOk(d, session) && d.active[session] == Entry(box, true);
    assert after == Move(d, job, Settled).(active := d.active - {session});
    hide Next, Move;
    forall s ensures SessionOk(after, s) {
      assert SessionOk(d, s);
      assert s in d.recoveries && d.recoveries[s] == job ==> s == session;
    }
    forall j ensures JobOk(after, j) {
      assert JobOk(d, j);
      assert j in d.jobs && j != job ==> d.jobs[j].session != session;
    }
    forall c ensures BoxOk(after, c) {
      assert BoxOk(d, c);
      assert c in d.live && d.live[c] == session ==> c == box;
    }
  }

  lemma RecoveryFinallyKeeps(d: Control, job: nat)
    requires Inv(d)
    ensures Inv(Next(d, RecoveryFinally(job)))
  {
    hide Inv;
    if At(d, job, true) && d.jobs[job].phase.Closed? {
      if d.jobs[job].phase.stopFailed {
        LockedRecoveryKeeps(d, job);
      } else {
        EndedRecoveryKeeps(d, job);
      }
    }
  }

  lemma WakePromiseKeeps(d: Control, job: nat)
    requires Inv(d) && At(d, job, false) && d.jobs[job].phase.Settled?
    ensures Inv(Next(d, PromiseFinally(job)))
  {
    var after := Next(d, PromiseFinally(job));
    var session := d.jobs[job].session;
    assert JobOk(d, job) && SessionOk(d, session);
    assert after.jobs == d.jobs - {job} && after.recoveries == d.recoveries;
    hide Next;
    forall s ensures SessionOk(after, s) {
      assert SessionOk(d, s);
      if s == session {
        assert !Recovering(d, s);
      } else {
        assert s in d.wakes ==> d.wakes[s] != job;
        assert s in d.recoveries ==> d.recoveries[s] != job;
      }
    }
    forall j ensures JobOk(after, j) {
      assert JobOk(d, j);
      assert j in d.jobs && j != job ==> d.jobs[j].session != session;
    }
    forall c ensures BoxOk(after, c) {
      assert BoxOk(d, c);
    }
  }

  lemma RecoveryPromiseKeeps(d: Control, job: nat)
    requires Inv(d) && At(d, job, true) && d.jobs[job].phase.Settled?
    ensures Inv(Next(d, PromiseFinally(job)))
  {
    var after := Next(d, PromiseFinally(job));
    var session := d.jobs[job].session;
    assert JobOk(d, job) && SessionOk(d, session);
    assert after.jobs == d.jobs - {job} && after.wakes == d.wakes;
    hide Next;
    forall s ensures SessionOk(after, s) {
      assert SessionOk(d, s);
      if s == session {
        assert !Recovering(d, s);
      } else {
        assert s in d.wakes ==> d.wakes[s] != job;
        assert s in d.recoveries ==> d.recoveries[s] != job;
      }
    }
    forall j ensures JobOk(after, j) {
      assert JobOk(d, j);
      assert j in d.jobs && j != job ==> d.jobs[j].session != session;
    }
    forall c ensures BoxOk(after, c) {
      assert BoxOk(d, c);
    }
  }

  lemma PromiseFinallyKeeps(d: Control, job: nat)
    requires Inv(d)
    ensures Inv(Next(d, PromiseFinally(job)))
  {
    if job in d.jobs && d.jobs[job].phase.Settled? {
      if d.jobs[job].recovery {
        RecoveryPromiseKeeps(d, job);
      } else {
        WakePromiseKeeps(d, job);
      }
    }
  }

  lemma ExitKeeps(d: Control, container: nat)
    requires Inv(d) && Clean(d, Exit(container))
    ensures Inv(Next(d, Exit(container)))
  {
    var after := Next(d, Exit(container));
    assert BoxOk(d, container);
    forall s ensures SessionOk(after, s) {
      assert SessionOk(d, s);
    }
    forall j ensures JobOk(after, j) {
      assert JobOk(d, j);
    }
    forall c ensures BoxOk(after, c) {
      assert BoxOk(d, c);
    }
  }

  lemma WatcherEndedKeeps(d: Control, container: nat, last: bool)
    requires Inv(d) && Clean(d, WatcherEnded(container, last))
    ensures Inv(Next(d, WatcherEnded(container, last)))
  {
    var after := Next(d, WatcherEnded(container, last));
    assert BoxOk(d, container);
    forall s ensures SessionOk(after, s) {
      assert SessionOk(d, s);
    }
    forall j ensures JobOk(after, j) {
      assert JobOk(d, j);
    }
    forall c ensures BoxOk(after, c) {
      assert BoxOk(d, c);
    }
  }

  lemma StepKeeps(d: Control, step: Step)
    requires Inv(d) && Clean(d, step)
    ensures Inv(Next(d, step))
  {
    hide Next, Inv, Clean;
    match step
    case Wake(session, job) => WakeKeeps(d, session, job);
    case Recover(session, job) => RecoverKeeps(d, session, job);
    case GaveUp(job) => GaveUpKeeps(d, job);
    case DockerRun(job, container) => DockerRunKeeps(d, job, container);
    case RunFailed(job) => RunFailedKeeps(d, job);
    case RunSucceeded(job) => RunSucceededKeeps(d, job);
    case RecoveryRun(job, container) => RecoveryRunKeeps(d, job, container);
    case StopFailed(job) => StopFailedKeeps(d, job);
    case ChildClosed(job) => ChildClosedKeeps(d, job);
    case RecoveryFinally(job) => RecoveryFinallyKeeps(d, job);
    case PromiseFinally(job) => PromiseFinallyKeeps(d, job);
    case Exit(container) => ExitKeeps(d, container);
    case WatcherEnded(container, last) => WatcherEndedKeeps(d, container, last);
  }

  lemma {:induction false} CleanRunKeeps(containers: map<string, nat>, steps: seq<Step>)
    requires forall s, t | s in containers && t in containers && containers[s] == containers[t] :: s == t
    requires CleanRun(Adopted(containers), steps)
    ensures Inv(Run(Adopted(containers), steps))
  {
    hide Next, Inv, Clean, Adopted;
    AdoptedOk(containers);
    if steps != [] {
      CleanRunKeeps(containers, steps[..|steps| - 1]);
      StepKeeps(Run(Adopted(containers), steps[..|steps| - 1]), steps[|steps| - 1]);
    }
  }

  // ---- the theorems ----

  lemma OneRunner(d: Control)
    requires Inv(d)
    ensures AtMostOneRunner(d)
  {
    forall b, c | b in d.live && c in d.live && d.live[b] == d.live[c] ensures b == c {
      var s := d.live[b];
      assert BoxOk(d, b) && BoxOk(d, c) && SessionOk(d, s);
      assert s in d.wakes ==> JobOk(d, d.wakes[s]);
    }
    forall i, j | i in d.jobs && j in d.jobs && d.jobs[i].session == d.jobs[j].session ensures i == j {
      assert JobOk(d, i) && JobOk(d, j) && SessionOk(d, d.jobs[i].session);
    }
    forall j, c | j in d.jobs && c in d.live && d.live[c] == d.jobs[j].session ensures OnlyOwn(d.jobs[j].phase, c) {
      assert JobOk(d, j) && BoxOk(d, c) && SessionOk(d, d.live[c]);
    }
  }

  /** At any moment a session has at most one runner that is being set up, spawned, running or recovering. */
  lemma OneRunnerPerSession(containers: map<string, nat>, steps: seq<Step>)
    requires forall s, t | s in containers && t in containers && containers[s] == containers[t] :: s == t
    requires CleanRun(Adopted(containers), steps)
    ensures AtMostOneRunner(Run(Adopted(containers), steps))
  {
    hide Run, CleanRun, Adopted, AtMostOneRunner;
    CleanRunKeeps(containers, steps);
    OneRunner(Run(Adopted(containers), steps));
  }

  /**
   The three maps tell the truth. A wake starts a runner exactly when the session has no coroutine in
   progress, no watched container and no unstoppable recovery; then none of its containers is alive.
   It reports a running runner exactly when a container of the session is watched.
   */
  lemma WakeStartsExactlyWhenUnowned(containers: map<string, nat>, steps: seq<Step>, session: string)
    requires forall s, t | s in containers && t in containers && containers[s] == containers[t] :: s == t
    requires CleanRun(Adopted(containers), steps)
    ensures var d := Run(Adopted(containers), steps);
            && (WakeAnswer(d, session).Starts? <==>
                  && (forall j | j in d.jobs :: d.jobs[j].session != session)
                  && (forall c | c in d.watched :: d.watched[c] != session)
                  && session !in d.locked)
            && (WakeAnswer(d, session) == Answered(true) <==> exists c | c in d.watched :: d.watched[c] == session)
            && (WakeAnswer(d, session).Starts? ==> forall c | c in d.live :: d.live[c] != session)
  {
    hide Run, CleanRun, Adopted;
    CleanRunKeeps(containers, steps);
    var d := Run(Adopted(containers), steps);
    assert SessionOk(d, session);
    forall j | j in d.jobs ensures d.jobs[j].session == session ==> session in d.wakes || session in d.recoveries {
      assert JobOk(d, j);
    }
    forall c | c in d.watched
      ensures d.watched[c] == session ==> session in d.active && !d.active[session].recovering
    {
      assert BoxOk(d, c);
    }
    forall c | c in d.live ensures d.live[c] == session ==> session in d.active || session in d.wakes {
      assert BoxOk(d, c);
    }
  }

  /** Nobody holds the session: no coroutine in progress, no watched container and no unstoppable recovery. */
  ghost predicate Unowned(d: Control, session: string) {
    && (forall j | j in d.jobs :: d.jobs[j].session != session)
    && (forall c | c in d.watched :: d.watched[c] != session)
    && session !in d.locked
  }

  lemma UnownedIs(d: Control, session: string)
    requires Inv(d)
    ensures Unowned(d, session) <==> WakeAnswer(d, session).Starts?
  {
    assert SessionOk(d, session);
    forall j | j in d.jobs ensures d.jobs[j].session == session ==> session in d.wakes || session in d.recoveries {
      assert JobOk(d, j);
    }
    forall c | c in d.watched ensures d.watched[c] == session ==> session in d.active {
      assert BoxOk(d, c);
    }
  }

  /**
   A recovery starts exactly when nobody holds the session: then its coroutine is added at its first step
   and registered under the session, and otherwise nothing changes. The same holds of a wake.
   */
  lemma RecoverStartsExactlyWhenUnowned(containers: map<string, nat>, steps: seq<Step>, session: string, job: nat)
    requires forall s, t | s in containers && t in containers && containers[s] == containers[t] :: s == t
    requires CleanRun(Adopted(containers), steps) && job !in Run(Adopted(containers), steps).jobs
    ensures var d := Run(Adopted(containers), steps);
            var recovered, woken := Next(d, Recover(session, job)), Next(d, Wake(session, job));
            if Unowned(d, session)
            then
              && recovered == d.(recoveries := d.recoveries[session := job],
                                 jobs := d.jobs[job := Job(session, true, Setup)])
              && woken == d.(wakes := d.wakes[session := job], jobs := d.jobs[job := Job(session, false, Setup)])
            else recovered == d && woken == d
  {
    hide Run, CleanRun, Adopted, Inv, Unowned;
    CleanRunKeeps(containers, steps);
    UnownedIs(Run(Adopted(containers), steps), session);
  }

  /** A started recovery reaches a live container, which is then its session's entry. */
  lemma RecoveryReachesContainer(d: Control, session: string, job: nat, box: nat)
    requires Inv(d) && Unowned(d, session) && job !in d.jobs && box !in d.owner
    ensures var started := Next(Next(d, Recover(session, job)), RecoveryRun(job, box));
            && box in started.live && started.live[box] == session
            && session in started.active && started.active[session] == Entry(box, true)
            && started.jobs == d.jobs[job := Job(session, true, Watching(box, false))]
            && WakeAnswer(started, session) == AwaitsRecovery
  {
    UnownedIs(d, session);
    hide Unowned, Inv;
    var d1 := Next(d, Recover(session, job));
    assert d1.jobs[job := Job(session, true, Watching(box, false))] ==
           d.jobs[job := Job(session, true, Watching(box, false))];
  }

  // ---- every session can be freed ----

  lemma {:induction false} RunConcat(d: Control, xs: seq<Step>, ys: seq<Step>)
    requires CleanRun(d, xs) && CleanRun(Run(d, xs), ys)
    ensures Run(d, xs + ys) == Run(Run(d, xs), ys) && CleanRun(d, xs + ys)
  {
    hide Next, Clean;
    if ys == [] {
      assert xs + ys == xs;
    } else {
      RunConcat(d, xs, ys[..|ys| - 1]);
      assert (xs + ys)[..|xs + ys| - 1] == xs + ys[..|ys| - 1];
    }
  }

  lemma RunOne(d: Control, step: Step)
    ensures Run(d, [step]) == Next(d, step) && (CleanRun(d, [step]) <==> Clean(d, step))
  {
    hide Next, Clean;
    assert [step][..0] == [];
    EmptyRun(d);
  }

  lemma RunMore(d: Control, steps: seq<Step>, step: Step)
    requires Inv(d) && CleanRun(d, steps) && Clean(Run(d, steps), step) && Inv(Run(d, steps))
    ensures CleanRun(d, steps + [step]) && Run(d, steps + [step]) == Next(Run(d, steps), step)
    ensures Inv(Run(d, steps + [step]))
  {
    hide Inv, Next, Clean;
    RunOne(Run(d, steps), step);
    RunConcat(d, steps, [step]);
    StepKeeps(Run(d, steps), step);
  }

  /** The session's coroutine, if it has one, is the given one, and it is settled. */
  predicate SettledJob(d: Control, job: nat, session: string) {
    job in d.jobs && d.jobs[job].session == session && d.jobs[job].phase.Settled?
  }

  lemma EmptyRun(d: Control)
    ensures Run(d, []) == d && CleanRun(d, [])
  {
  }

  /** Whatever a coroutine is waiting for can happen, and then it settles. */
  lemma JobSettles(d: Control, job: nat) returns (more: seq<Step>)
    requires Inv(d) && job in d.jobs && d.jobs[job].session !in d.locked
    ensures CleanRun(d, more) && Inv(Run(d, more)) && Run(d, more).locked == d.locked
    ensures SettledJob(Run(d, more), job, d.jobs[job].session)
  {
    assert JobOk(d, job);
    hide Inv, CleanRun, Run, Next, Clean;
    EmptyRun(d);
    match d.jobs[job].phase
    case Settled => more := [];
    case Setup => more := OneStepSettles(d, job, GaveUp(job));
    case Starting(_) => more := StartingSettles(d, job);
    case Watching(_, _) => more := WatchingSettles(d, job);
    case Closed(_, _) => more := OneStepSettles(d, job, RecoveryFinally(job));
  }

  lemma OneStepSettles(d: Control, job: nat, step: Step) returns (more: seq<Step>)
    requires Inv(d) && job in d.jobs
    requires (d.jobs[job].phase.Setup? && step == GaveUp(job)) ||
             (d.jobs[job].phase.Closed? && d.jobs[job].recovery && step == RecoveryFinally(job))
    ensures CleanRun(d, more) && Inv(Run(d, more)) && Run(d, more).locked == d.locked
    ensures SettledJob(Run(d, more), job, d.jobs[job].session)
  {
    hide Inv, CleanRun, Run;
    EmptyRun(d);
    RunMore(d, [], step);
    more := [] + [step];
  }

  lemma StartingSettles(d: Control, job: nat) returns (more: seq<Step>)
    requires Inv(d) && At(d, job, false) && d.jobs[job].phase.Starting?
    ensures CleanRun(d, more) && Inv(Run(d, more)) && Run(d, more).locked == d.locked
    ensures SettledJob(Run(d, more), job, d.jobs[job].session)
  {
    hide Inv, CleanRun, Run;
    EmptyRun(d);
    var box := d.jobs[job].phase.container;
    RunMore(d, [], Exit(box));
    assert Run(d, [] + [Exit(box)]) == d.(live := d.live - {box});
    RunMore(d, [] + [Exit(box)], RunFailed(job));
    more := [] + [Exit(box)] + [RunFailed(job)];
  }

  lemma WatchingSettles(d: Control, job: nat) returns (more: seq<Step>)
    requires Inv(d) && At(d, job, true) && d.jobs[job].phase.Watching? && !d.jobs[job].phase.stopFailed
    ensures CleanRun(d, more) && Inv(Run(d, more)) && Run(d, more).locked == d.locked
    ensures SettledJob(Run(d, more), job, d.jobs[job].session)
  {
    hide Inv, CleanRun, Run;
    var box, session := d.jobs[job].phase.box, d.jobs[job].session;
    EmptyRun(d);
    var s1, s2, s3 := [] + [Exit(box)], [] + [Exit(box)] + [ChildClosed(job)],
      [] + [Exit(box)] + [ChildClosed(job)] + [RecoveryFinally(job)];
    RunMore(d, [], Exit(box));
    var d1 := Run(d, s1);
    assert d1 == d.(live := d.live - {box});
    RunMore(d, s1, ChildClosed(job));
    var d2 := Run(d, s2);
    assert d2 == Move(d1, job, Closed(box, false));
    RunMore(d, s2, RecoveryFinally(job));
    more := s3;
  }

  /**
   No session is ever lost but to a recovery that could not be stopped: from every reachable state some
   truthful continuation leaves the session to nobody, and then a wake or a recovery starts.
   */
  lemma EverySessionCanBeFreed(containers: map<string, nat>, steps: seq<Step>, session: string)
    returns (more: seq<Step>)
    requires forall s, t | s in containers && t in containers && containers[s] == containers[t] :: s == t
    requires CleanRun(Adopted(containers), steps) && session !in Run(Adopted(containers), steps).locked
    ensures CleanRun(Adopted(containers), steps + more)
    ensures Unowned(Run(Adopted(containers), steps + more), session)
  {
    hide Run, CleanRun, Adopted, Inv, Unowned;
    CleanRunKeeps(containers, steps);
    more := Freed(Run(Adopted(containers), steps), session);
    RunConcat(Adopted(containers), steps, more);
  }

  lemma PromiseDropped(d: Control, job: nat)
    requires Inv(d) && job in d.jobs && d.jobs[job].phase.Settled?
    ensures var after := Next(d, PromiseFinally(job));
            after.locked == d.locked && forall j | j in after.jobs :: after.jobs[j].session != d.jobs[job].session
  {
    OneRunner(d);
    hide Inv;
    assert Next(d, PromiseFinally(job)).jobs == d.jobs - {job};
  }

  lemma BoxEnds(d: Control, box: nat) returns (more: seq<Step>)
    requires Inv(d) && box in d.watched && d.watched[box] !in d.locked
    requires forall j | j in d.jobs :: d.jobs[j].session != d.watched[box]
    ensures CleanRun(d, more) && Unowned(Run(d, more), d.watched[box])
  {
    assert BoxOk(d, box);
    forall c | c in d.watched && d.watched[c] == d.watched[box] ensures c == box {
      assert BoxOk(d, c);
    }
    hide Inv, CleanRun;
    EmptyRun(d);
    RunMore(d, [], Exit(box));
    assert Run(d, [] + [Exit(box)]) == d.(live := d.live - {box});
    RunMore(d, [] + [Exit(box)], WatcherEnded(box, true));
    more := [] + [Exit(box)] + [WatcherEnded(box, true)];
  }

  lemma Freed(d: Control, session: string) returns (more: seq<Step>)
    requires Inv(d) && session !in d.locked
    ensures CleanRun(d, more) && Unowned(Run(d, more), session)
  {
    more := CoroutineEnds(d, session);
    hide Next, Clean, Run, CleanRun, Inv;
    var idle := Run(d, more);
    if box :| box in idle.watched && idle.watched[box] == session {
      var ended := BoxEnds(idle, box);
      RunConcat(d, more, ended);
      more := more + ended;
    }
  }

  lemma CoroutineEnds(d: Control, session: string) returns (more: seq<Step>)
    requires Inv(d) && session !in d.locked
    ensures CleanRun(d, more) && Inv(Run(d, more)) && session !in Run(d, more).locked
    ensures forall j | j in Run(d, more).jobs :: Run(d, more).jobs[j].session != session
  {
    hide Next, Inv;
    if job :| job in d.jobs && d.jobs[job].session == session {
      more := JobSettles(d, job);
      RunMore(d, more, PromiseFinally(job));
      PromiseDropped(Run(d, more), job);
      more := more + [PromiseFinally(job)];
    } else {
      more := [];
      EmptyRun(d);
    }
  }

  lemma LocksGrow(d: Control, step: Step)
    ensures d.locked <= Next(d, step).locked
  {
    match step
    case StopFailed(_) =>
    case _ => assert Next(d, step).locked == d.locked;
  }

  lemma LockedAnswer(d: Control, session: string)
    requires Inv(d) && session in d.locked
    ensures !WakeAnswer(d, session).Starts? && WakeAnswer(d, session) != Answered(true)
  {
    assert SessionOk(d, session);
  }

  /** A recovery container that could not be stopped keeps its session locked for the rest of the run. */
  lemma {:induction false} UnstoppableRecoveryLocks(containers: map<string, nat>, steps: seq<Step>,
          more: seq<Step>, session: string)
    requires forall s, t | s in containers && t in containers && containers[s] == containers[t] :: s == t
    requires CleanRun(Adopted(containers), steps + more)
    requires session in Run(Adopted(containers), steps).locked
    ensures var d := Run(Adopted(containers), steps + more);
            session in d.locked && !WakeAnswer(d, session).Starts? && WakeAnswer(d, session) != Answered(true)
  {
    hide Next, Clean, Adopted, Inv;
    if more == [] {
      assert steps + more == steps;
    } else {
      assert (steps + more)[..|steps + more| - 1] == steps + more[..|more| - 1];
      UnstoppableRecoveryLocks(containers, steps, more[..|more| - 1], session);
      LocksGrow(Run(Adopted(containers), (steps + more)[..|steps + more| - 1]), more[|more| - 1]);
    }
    CleanRunKeeps(containers, steps + more);
    LockedAnswer(Run(Adopted(containers), steps + more), session);
  }

  /** It is the failed stop that locks: from then on neither a wake nor a recovery of the session starts. */
  lemma FailedStopLocks(containers: map<string, nat>, steps: seq<Step>, job: nat, more: seq<Step>)
    requires forall s, t | s in containers && t in containers && containers[s] == containers[t] :: s == t
    requires CleanRun(Adopted(containers), steps + [StopFailed(job)] + more)
    requires At(Run(Adopted(containers), steps), job, true)
    requires Run(Adopted(containers), steps).jobs[job].phase.Watching?
    ensures var session := Run(Adopted(containers), steps).jobs[job].session;
            var d := Run(Adopted(containers), steps + [StopFailed(job)] + more);
            session in d.locked && !WakeAnswer(d, session).Starts? && WakeAnswer(d, session) != Answered(true)
  {
    hide Adopted, CleanRun;
    var stopped := steps + [StopFailed(job)];
    assert stopped[..|stopped| - 1] == steps;
    UnstoppableRecoveryLocks(containers, stopped, more, Run(Adopted(containers), steps).jobs[job].session);
  }

  /** A recovery that ends drops its own entry, and no other that stands in its place. */
  lemma RecoveryDropsOnlyItsOwn(d: Control, job: nat)
    requires At(d, job, true) && d.jobs[job].phase.Closed?
    ensures var own, session := Entry(d.jobs[job].phase.box, true), d.jobs[job].session;
            var after := Next(d, RecoveryFinally(job));
            && SettledJob(after, job, session) && after.recoveries == d.recoveries
            && (session in after.active <==>
                  session in d.active && (d.jobs[job].phase.stopFailed || d.active[session] != own))
            && (forall s | s in after.active :: s in d.active && after.active[s] == d.active[s])
            && (forall s | s in d.active && s != session :: s in after.active)
  {
  }

  /** The containers of the previous host process are watched entries of their sessions from the start. */
  lemma AdoptedAreRunning(containers: map<string, nat>, session: string)
    requires forall s, t | s in containers && t in containers && containers[s] == containers[t] :: s == t
    ensures var d := Adopted(containers);
            && (session in containers ==>
                  && WakeAnswer(d, session) == Answered(true)
                  && containers[session] in d.live && d.live[containers[session]] == session
                  && containers[session] in d.watched && d.watched[containers[session]] == session)
            && (session !in containers ==> WakeAnswer(d, session).Starts?)
  {
  }

  // ---- where the assumption on watchers matters ----

  /** A wake up to the point where `docker run` has been invoked. */
  function StartRunner(d: Control, session: string, job: nat, box: nat): Control {
    Next(Next(d, Wake(session, job)), DockerRun(job, box))
  }

  /** The end of a started wake: the watcher is attached and the promise settles. */
  function Attach(d: Control, job: nat): Control {
    Next(Next(d, RunSucceeded(job)), PromiseFinally(job))
  }

  lemma StartedRunner(d: Control, session: string, job: nat, box: nat)
    requires WakeAnswer(d, session).Starts? && job !in d.jobs && box !in d.owner
    ensures StartRunner(d, session, job, box) ==
            d.(wakes := d.wakes[session := job], jobs := d.jobs[job := Job(session, false, Starting(box))],
               live := d.live[box := session], owner := d.owner[box := session])
  {
    var d1 := Next(d, Wake(session, job));
    assert d1.jobs[job := Job(session, false, Starting(box))] == d.jobs[job := Job(session, false, Starting(box))];
  }

  lemma AttachedRunner(d: Control, session: string, job: nat, box: nat)
    requires job in d.jobs && d.jobs[job] == Job(session, false, Starting(box))
    ensures Attach(d, job) ==
            d.(active := d.active[session := Entry(box, false)], wakes := d.wakes - {session},
               jobs := d.jobs - {job}, watched := d.watched[box := session])
  {
    var d1 := Next(d, RunSucceeded(job));
    assert d1.jobs - {job} == d.jobs - {job};
  }

  /** A watcher that reports the end of a container still alive lets the next wake start a second one. */
  lemma EarlyEndAdmitsTwo(d: Control, container: nat, last: bool, job: nat, second: nat)
    requires Inv(d) && container in d.watched && container in d.live
    requires d.watched[container] !in d.wakes && d.watched[container] !in d.recoveries
    requires job !in d.jobs && second !in d.owner
    ensures var session := d.watched[container];
            var after := StartRunner(Next(d, WatcherEnded(container, last)), session, job, second);
            container in after.live && second in after.live && container != second
            && after.live[container] == after.live[second] == session
  {
    assert BoxOk(d, container);
    StartedRunner(Next(d, WatcherEnded(container, last)), d.watched[container], job, second);
  }

  /** A `docker run` reported as failed while its container lives lets the next wake start a second one. */
  lemma FailedRunAdmitsTwo(d: Control, job: nat, second: nat)
    requires Inv(d) && At(d, job, false) && d.jobs[job].phase.Starting? && d.jobs[job].phase.container in d.live
    requires second !in d.owner
    ensures var first, session := d.jobs[job].phase.container, d.jobs[job].session;
            var after := StartRunner(Next(Next(d, RunFailed(job)), PromiseFinally(job)), session, job, second);
            first in after.live && second in after.live && first != second
            && after.live[first] == after.live[second] == session
  {
    var first, session := d.jobs[job].phase.container, d.jobs[job].session;
    assert JobOk(d, job) && BoxOk(d, first) && SessionOk(d, session);
    var failed := Next(d, RunFailed(job));
    assert failed == d.(jobs := d.jobs[job := Job(session, false, Settled)]);
    var settled := Next(failed, PromiseFinally(job));
    assert settled == failed.(wakes := failed.wakes - {session}, jobs := failed.jobs - {job});
    hide Next;
    StartedRunner(settled, session, job, second);
  }

  /** A recovery told that its child closed while the container lives lets the next wake start a second one. */
  lemma ClosedChildAdmitsTwo(d: Control, job: nat, second: nat)
    requires Inv(d) && At(d, job, true) && d.jobs[job].phase.Watching? && !d.jobs[job].phase.stopFailed
    requires d.jobs[job].phase.box in d.live && second !in d.owner
    ensures var first, session := d.jobs[job].phase.box, d.jobs[job].session;
            var finished := Next(Next(d, ChildClosed(job)), RecoveryFinally(job));
            var after := StartRunner(Next(finished, PromiseFinally(job)), session, job, second);
            first in after.live && second in after.live && first != second
            && after.live[first] == after.live[second] == session
  {
    var first, session := d.jobs[job].phase.box, d.jobs[job].session;
    assert JobOk(d, job) && BoxOk(d, first) && SessionOk(d, session);
    var closed := Next(d, ChildClosed(job));
    assert closed == d.(jobs := d.jobs[job := Job(session, true, Closed(first, false))]);
    var finished := Next(closed, RecoveryFinally(job));
    assert finished == closed.(active := closed.active - {session},
                               jobs := closed.jobs[job := Job(session, true, Settled)]);
    var settled := Next(finished, PromiseFinally(job));
    assert settled == finished.(recoveries := finished.recoveries - {session}, jobs := finished.jobs - {job});
    hide Next;
    StartedRunner(settled, session, job, second);
  }

  /**
   A watcher that ends twice: its first event lets a wake start a successor, its second event deletes
   the successor's entry and the wake after that starts a third container beside it.
   */
  lemma SecondEndAdmitsTwo(d: Control, container: nat, job: nat, second: nat, third: nat)
    requires Inv(d) && container in d.watched
    requires d.watched[container] !in d.wakes && d.watched[container] !in d.recoveries
    requires job !in d.jobs && second !in d.owner && third !in d.owner && second != third
    ensures var session := d.watched[container];
            var succeeded := Attach(StartRunner(Next(d, WatcherEnded(container, false)), session, job, second), job);
            var after := StartRunner(Next(succeeded, WatcherEnded(container, true)), session, job, third);
            second in after.live && third in after.live && after.live[second] == after.live[third] == session
  {
    assert BoxOk(d, container);
    var session := d.watched[container];
    var ended := Next(d, WatcherEnded(container, false));
    assert ended == d.(active := d.active - {session});
    StartedRunner(ended, session, job, second);
    var started := StartRunner(ended, session, job, second);
    AttachedRunner(started, session, job, second);
    var succeeded := Attach(started, job);
    hide StartRunner, Attach;
    assert container in succeeded.watched && succeeded.watched[container] == session;
    var endedAgain := Next(succeeded, WatcherEnded(container, true));
    assert endedAgain == succeeded.(active := succeeded.active - {session}, watched := succeeded.watched - {container});
    hide Next;
    StartedRunner(endedAgain, session, job, third);
  }
}
