// The daemon's scheduler and the worker tasks it starts (apps/gundad/src/lib.rs). Workers run while the daemon
// waits inside a command, so every step of a worker may come between any two steps of the daemon.
module Scheduler {
  import opened Basics
  import opened Jobs

  const MAX_AUTOMATIC_ATTEMPTS: nat := 3
  const MAX_CONCURRENT_DOWNLOADS: nat := 3

  datatype Engine = Http | Stream

  /** Where a worker is within one attempt, or between two. */
  datatype Stage = Starting | Running | Retrying | Waiting

  datatype Worker = Worker(id: nat, attempts: nat, stage: Stage)

  /** A result on its way to the daemon; a file may be published though its record could not be saved. */
  datatype Finished = Finished(id: nat, published: bool)

  /** A command the daemon is in the middle of. */
  datatype Busy = Free | Resuming(id: nat) | Clearing(id: nat)

  datatype System = System(
    jobs: map<nat, Job>,
    active: map<nat, Control>,
    engines: map<nat, Engine>,
    outputs: set<nat>,
    workers: seq<Worker>,
    finished: seq<Finished>,
    busy: Busy)

  function WithState(s: System, id: nat, state: State): System
    requires id in s.jobs
  {
    s.(jobs := s.jobs[id := s.jobs[id].(state := state)])
  }

  // ---- Scheduling ----

  predicate IsWaiting(s: System, id: nat) {
    id in s.jobs && s.jobs[id].state == Queued && id !in s.active
  }

  /** The waiting job with the smallest number. */
  predicate IsNext(s: System, id: nat) {
    IsWaiting(s, id) && forall other :: other in s.jobs && IsWaiting(s, other) ==> id <= other
  }

  /** Any set with `some` in it has a smallest member. */
  lemma {:induction false} SmallestExists(ids: set<nat>, some: nat)
    requires some in ids
    ensures exists id :: id in ids && forall other :: other in ids ==> id <= other
    decreases some
  {
    if other :| other in ids && other < some {
      SmallestExists(ids, other);
    } else {
      assert some in ids && forall other :: other in ids ==> some <= other;
    }
  }

  function FirstWaiting(s: System): (r: Option<nat>)
    ensures r.Some? ==> IsNext(s, r.value)
    ensures r.None? ==> forall id :: id in s.jobs ==> !IsWaiting(s, id)
  {
    var waiting := set id | id in s.jobs && IsWaiting(s, id);
    assert forall id :: id in s.jobs && IsWaiting(s, id) ==> id in waiting;
    if waiting == {} then None
    else
      assert exists id :: id in waiting && forall other :: other in waiting ==> id <= other by {
        var some :| some in waiting;
        SmallestExists(waiting, some);
      }
      var id :| id in waiting && forall other :: other in waiting ==> id <= other;
      Some(id)
  }

  /** One more job has a worker of its own. */
  function Started(s: System, id: nat): System {
    s.(active := s.active[id := NO_REQUEST],
       engines := map other | other in s.engines && other != id :: s.engines[other],
       workers := s.workers + [Worker(id, 1, Starting)])
  }

  /** Jobs are started, smallest number first, until three run or none waits. */
  function Scheduled(s: System): (t: System)
    decreases MAX_CONCURRENT_DOWNLOADS - |s.active|
  {
    if |s.active| >= MAX_CONCURRENT_DOWNLOADS then s
    else
      match FirstWaiting(s)
      case None => s
      case Some(id) => Scheduled(Started(s, id))
  }

  // ---- What the daemon does ----

  /** A command to the manager; saving the change may fail. */
  function Commanded(s: System, id: nat, command: Command, saved: bool): (r: Option<System>) {
    if id !in s.jobs || !saved then None
    else
      var job :- ChangeIdle(s.jobs[id], command);
      Some(s.(jobs := s.jobs[id := job]))
  }

  function OrElse(r: Option<System>, s: System): System {
    if r.Some? then r.value else s
  }

  function WithEngine(r: Option<System>, id: nat, engine: Engine): Option<System> {
    var s :- r;
    Some(s.(engines := s.engines[id := engine]))
  }

  datatype Label =
    | Create(id: nat, engine: Engine)
    | Pause(id: nat, saved: bool)
    | Cancel(id: nat, saved: bool)
    | Retry(id: nat, saved: bool, engine: Engine)
    | BeginResume(id: nat)
    | EndResume(available: bool, saved: bool, engine: Engine)
    | BeginRestart(id: nat)
    | EndRestart(cleared: bool, saved: bool, engine: Engine)
    | SaveStatus(id: nat, saved: bool)
    | Finish
    | Work(k: nat, act: Act)

  /** Does the daemon take up something new here? It does one thing at a time. */
  predicate IsFresh(step: Label) {
    !step.EndResume? && !step.EndRestart? && !step.Work?
  }

  /** What a command does before the scheduler runs; None when it is not the daemon's turn to do it. */
  function Handled(s: System, step: Label): (r: Option<System>)
    requires !step.Work?
  {
    if IsFresh(step) && s.busy != Free then None
    else
      match step
      case Create(id, engine) =>
        if id in s.jobs then None
        else Some(s.(jobs := s.jobs[id := Job(Queued, false)], engines := s.engines[id := engine]))
      case Pause(id, saved) =>
        if id in s.active then Some(s.(active := s.active[id := RequestPause(s.active[id]).0]))
        else Some(OrElse(Commanded(s, id, Command.Pause, saved), s))
      case Cancel(id, saved) =>
        if id in s.active then Some(s.(active := s.active[id := RequestCancel(s.active[id])]))
        else Some(OrElse(Commanded(s, id, Command.Cancel, saved), s))
      case Retry(id, saved, engine) =>
        if id in s.active then Some(s)
        else Some(OrElse(WithEngine(Commanded(s, id, Command.Retry, saved), id, engine), s))
      case BeginResume(id) =>
        Some(if id in s.active || id !in s.jobs then s else s.(busy := Resuming(id)))
      case EndResume(available, saved, engine) =>
        if !s.busy.Resuming? then None
        else if !available then Some(s.(busy := Free))
        else Some(OrElse(WithEngine(Commanded(s, s.busy.id, Command.Resume, saved), s.busy.id, engine), s).(busy := Free))
      case BeginRestart(id) =>
        Some(if id in s.active || id !in s.jobs || !CanRestart(s.jobs[id].state) then s else s.(busy := Clearing(id)))
      case EndRestart(cleared, saved, engine) =>
        if !s.busy.Clearing? then None
        else if !cleared then Some(s.(busy := Free))
        else Some(OrElse(WithEngine(Commanded(s, s.busy.id, Command.Restart, saved), s.busy.id, engine), s).(busy := Free))
      case SaveStatus(id, saved) =>
        if id in s.outputs && id in s.jobs && s.jobs[id].state == Finalizing && saved
        then Some(WithState(s, id, Completed).(outputs := s.outputs - {id}))
        else Some(s)
      case Finish =>
        if s.finished == [] then None else Some(Retired(s))
  }

  /** The daemon hears that a worker is done. */
  function Retired(s: System): System
    requires s.finished != []
  {
    var result := s.finished[0];
    s.(active := map id | id in s.active && id != result.id :: s.active[id],
       outputs := if result.published then s.outputs + {result.id} else s.outputs,
       finished := s.finished[1..])
  }

  // ---- What a worker does ----

  datatype Act =
    | Begin(saved: bool)
    | Advance(supportsPause: bool)
    | Stop
    | Fail(retryable: bool)
    | Break
    | TryAgain(saved: bool)
    | Wake

  /** The worker's task is over and its result is on the way. */
  function Ended(s: System, k: nat, published: bool): System
    requires k < |s.workers|
  {
    s.(workers := s.workers[..k] + s.workers[k + 1..], finished := s.finished + [Finished(s.workers[k].id, published)])
  }

  function At(s: System, k: nat, stage: Stage): System
    requires k < |s.workers|
  {
    s.(workers := s.workers[k := s.workers[k].(stage := stage)])
  }

  function StoppedState(stop: Stop): State {
    match stop
    case ToPause => Paused
    case ToCancel => Cancelled
  }

  function Worked(s: System, k: nat, act: Act): (r: Option<System>) {
    if k >= |s.workers| || s.workers[k].id !in s.jobs || s.workers[k].id !in s.active then None
    else
      var w := s.workers[k];
      var job, control := s.jobs[w.id], s.active[w.id];
      match (w.stage, act)
      case (Starting, Begin(saved)) =>
        if job.state != Queued || !saved then Some(Ended(s, k, false))
        else if control.requested.Some? then Some(Ended(WithState(s, w.id, StoppedState(control.requested.value)), k, false))
        else Some(At(WithState(s, w.id, Inspecting), k, Running))
      case (Running, Advance(supportsPause)) =>
        (match job.state
         case Inspecting =>
           Some(WithState(s, w.id, Downloading).(active := s.active[w.id := control.(pauseSupported := supportsPause)]))
         case Downloading => Some(WithState(s, w.id, Finalizing))
         case Finalizing => Some(Ended(WithState(s, w.id, Completed), k, false))
         case _ => None)
      case (Running, Stop) =>
        if control.requested.None? || job.state == Finalizing then None
        else Some(Ended(WithState(s, w.id, StoppedState(control.requested.value)), k, false))
      case (Running, Fail(retryable)) =>
        if !CanTransition(job.state, Failed) then None
        else
          var failed := s.(jobs := s.jobs[w.id := Job(Failed, retryable)]);
          Some(if retryable && w.attempts < MAX_AUTOMATIC_ATTEMPTS then At(failed, k, Retrying) else Ended(failed, k, false))
      case (Running, Break) => Some(Ended(s, k, job.state == Finalizing))
      case (Retrying, TryAgain(saved)) =>
        (match Commanded(s, w.id, Command.Retry, saved)
         case Some(next) => Some(At(next, k, Waiting))
         case None => Some(Ended(s, k, false)))
      case (Waiting, Wake) => Some(s.(workers := s.workers[k := Worker(w.id, w.attempts + 1, Starting)]))
      case _ => None
  }

  /** One step of the whole: the scheduler runs at the end of everything the daemon handles. */
  function Step(s: System, step: Label): (r: Option<System>) {
    if step.Work? then Worked(s, step.k, step.act)
    else
      var handled :- Handled(s, step);
      Some(if handled.busy == Free then Scheduled(handled) else handled)
  }

  function Start(jobs: map<nat, Job>): System {
    System(jobs, map[], map[], {}, [], [], Free)
  }

  function Reached(jobs: map<nat, Job>, steps: seq<Label>, n: nat): (r: Option<System>)
    requires n <= |steps|
  {
    if n == 0 then Some(Start(jobs))
    else
      var before :- Reached(jobs, steps, n - 1);
      Step(before, steps[n - 1])
  }

  // ---- Safety ----

  function WorkerIds(workers: seq<Worker>): (ids: seq<nat>) {
    seq(|workers|, i requires 0 <= i < |workers| => workers[i].id)
  }

  function FinishedIds(finished: seq<Finished>): (ids: seq<nat>) {
    seq(|finished|, i requires 0 <= i < |finished| => finished[i].id)
  }

  /** Everything that may still write a download's files or report on it. */
  function Tasks(s: System): multiset<nat> {
    multiset(WorkerIds(s.workers)) + multiset(FinishedIds(s.finished))
  }

  ghost predicate WorkerFits(w: Worker) {
    && 1 <= w.attempts <= MAX_AUTOMATIC_ATTEMPTS
    && (w.stage == Retrying || w.stage == Waiting ==> w.attempts < MAX_AUTOMATIC_ATTEMPTS)
  }

  /** The daemon's list of active jobs is exactly what runs or has just finished, each of it once. */
  ghost predicate Matched(s: System) {
    Tasks(s) == multiset(s.active.Keys)
  }

  ghost predicate Inv(s: System) {
    && Matched(s)
    && |s.active| <= MAX_CONCURRENT_DOWNLOADS
    && s.active.Keys <= s.jobs.Keys
    && (forall i :: 0 <= i < |s.workers| ==> WorkerFits(s.workers[i]))
    && (s.busy != Free ==> s.busy.id !in s.active)
  }

  lemma OneMore(ids: set<nat>, id: nat)
    requires id !in ids
    ensures multiset(ids + {id}) == multiset(ids) + multiset{id} && |ids + {id}| == |ids| + 1
  {
  }

  lemma StartedMatches(s: System, id: nat)
    requires Matched(s) && id !in s.active
    ensures Matched(Started(s, id)) && Started(s, id).active.Keys == s.active.Keys + {id}
  {
    hide WorkerIds, FinishedIds;
    var t := Started(s, id);
    assert t.active.Keys == s.active.Keys + {id};
    OneMore(s.active.Keys, id);
    OneMoreWorker(s.workers, Worker(id, 1, Starting));
    assert multiset(WorkerIds(s.workers)) + multiset{id} + multiset(FinishedIds(s.finished))
        == Tasks(s) + multiset{id};
  }

  lemma OneMoreWorker(workers: seq<Worker>, w: Worker)
    ensures multiset(WorkerIds(workers + [w])) == multiset(WorkerIds(workers)) + multiset{w.id}
  {
    assert WorkerIds(workers + [w]) == WorkerIds(workers) + [w.id];
  }

  lemma CancelOne(a: multiset<nat>, b: multiset<nat>, id: nat)
    requires a + multiset{id} == b + multiset{id}
    ensures a == b
  {
    forall x ensures a[x] == b[x] {
      assert (a + multiset{id})[x] == (b + multiset{id})[x];
    }
  }

  lemma StartedKeeps(s: System, id: nat)
    requires Inv(s) && s.busy == Free && IsWaiting(s, id) && |s.active| < MAX_CONCURRENT_DOWNLOADS
    ensures Inv(Started(s, id))
  {
    hide Matched;
    StartedMatches(s, id);
    OneMore(s.active.Keys, id);
    assert |Started(s, id).active| == |Started(s, id).active.Keys| && |s.active| == |s.active.Keys|;
  }

  lemma {:induction false} ScheduledKeeps(s: System)
    requires Inv(s) && s.busy == Free
    ensures Inv(Scheduled(s)) && Scheduled(s).busy == Free && Scheduled(s).jobs == s.jobs
    decreases MAX_CONCURRENT_DOWNLOADS - |s.active|
  {
    hide Inv, Started;
    if |s.active| < MAX_CONCURRENT_DOWNLOADS && FirstWaiting(s).Some? {
      StartedKeeps(s, FirstWaiting(s).value);
      StartedMeasure(s, FirstWaiting(s).value);
      ScheduledKeeps(Started(s, FirstWaiting(s).value));
    }
  }

  lemma StartedMeasure(s: System, id: nat)
    requires id !in s.active
    ensures |Started(s, id).active| == |s.active| + 1 && Started(s, id).busy == s.busy && Started(s, id).jobs == s.jobs
  {
  }

  /** When the scheduler is done, three jobs run or no queued job is left without a worker. */
  lemma {:induction false} ScheduledIsFull(s: System)
    ensures var t := Scheduled(s);
            |t.active| >= MAX_CONCURRENT_DOWNLOADS || forall id :: id in t.jobs && t.jobs[id].state == Queued ==> id in t.active
    decreases MAX_CONCURRENT_DOWNLOADS - |s.active|
  {
    hide Started;
    if |s.active| < MAX_CONCURRENT_DOWNLOADS && FirstWaiting(s).Some? {
      StartedMeasure(s, FirstWaiting(s).value);
      ScheduledIsFull(Started(s, FirstWaiting(s).value));
    }
  }

  /** It never passes over a job: whatever it starts comes before whatever it leaves waiting. */
  lemma {:induction false} ScheduledInOrder(s: System, started: nat, left: nat)
    requires started in Scheduled(s).active && started !in s.active
    requires left in Scheduled(s).jobs && IsWaiting(Scheduled(s), left)
    ensures started < left
    decreases MAX_CONCURRENT_DOWNLOADS - |s.active|
  {
    if |s.active| < MAX_CONCURRENT_DOWNLOADS && FirstWaiting(s).Some? {
      var first := FirstWaiting(s).value;
      var next := Started(s, first);
      StartedMeasure(s, first);
      ActiveGrows(next);
      if started != first {
        ScheduledInOrder(next, started, left);
      }
    }
  }

  lemma {:induction false} ActiveGrows(s: System)
    ensures s.active.Keys <= Scheduled(s).active.Keys && Scheduled(s).jobs == s.jobs
    decreases MAX_CONCURRENT_DOWNLOADS - |s.active|
  {
    if |s.active| < MAX_CONCURRENT_DOWNLOADS && FirstWaiting(s).Some? {
      ActiveGrows(Started(s, FirstWaiting(s).value));
    }
  }

  lemma RetiredMatches(s: System)
    requires Matched(s) && s.finished != []
    ensures Matched(Retired(s))
    ensures Retired(s).active.Keys == s.active.Keys - {s.finished[0].id} && s.finished[0].id in s.active
  {
    var t := Retired(s);
    var id := s.finished[0].id;
    assert FinishedIds(s.finished) == [id] + FinishedIds(t.finished);
    assert multiset(FinishedIds(s.finished)) == multiset{id} + multiset(FinishedIds(t.finished));
    assert id in Tasks(s);
    assert t.active.Keys == s.active.Keys - {id} && s.active.Keys == t.active.Keys + {id};
    OneMore(t.active.Keys, id);
    CancelOne(Tasks(t), multiset(t.active.Keys), id);
  }

  /** Whatever leaves both sides alone keeps them matched. */
  lemma SameTasks(s: System, t: System)
    requires Matched(s) && WorkerIds(s.workers) == WorkerIds(t.workers) && s.finished == t.finished
    requires s.active.Keys == t.active.Keys
    ensures Matched(t) && |t.active| == |s.active|
  {
  }

  /** No command changes who has a task, and none starts a restart or a resumption of a download that has one. */
  lemma CommandsLeaveTasks(s: System, step: Label)
    requires !step.Work? && !step.Finish? && Handled(s, step).Some?
    ensures var t := Handled(s, step).value;
            && t.workers == s.workers && t.finished == s.finished && t.active.Keys == s.active.Keys
            && s.jobs.Keys <= t.jobs.Keys
            && (t.busy != Free ==> t.busy == s.busy || t.busy.id !in s.active)
  {
    hide RequestPause, RequestCancel, ChangeIdle, CanRestart;
  }

  lemma FinishKeeps(s: System)
    requires Inv(s) && s.finished != []
    ensures Inv(Retired(s))
  {
    hide Matched, WorkerFits;
    var t := Retired(s);
    RetiredMatches(s);
    OneMore(t.active.Keys, s.finished[0].id);
    assert t.active.Keys + {s.finished[0].id} == s.active.Keys;
    assert |t.active| == |t.active.Keys| && |s.active| == |s.active.Keys|;
  }

  lemma HandledKeeps(s: System, step: Label)
    requires Inv(s) && !step.Work? && Handled(s, step).Some?
    ensures Inv(Handled(s, step).value)
  {
    hide Matched, WorkerFits, Retired;
    if step.Finish? {
      FinishKeeps(s);
    } else {
      hide Handled;
      CommandsLeaveTasks(s, step);
      SameTasks(s, Handled(s, step).value);
    }
  }

  lemma WorkKeeps(s: System, k: nat, act: Act)
    requires Inv(s) && Worked(s, k, act).Some?
    ensures Inv(Worked(s, k, act).value)
  {
    hide Matched, Tasks, ChangeIdle;
    var t := Worked(s, k, act).value;
    assert t.active.Keys == s.active.Keys;
    assert |t.active| == |t.active.Keys| && |s.active| == |s.active.Keys|;
    if |t.workers| < |s.workers| {
      EndedMatches(s, k, t);
    } else {
      assert WorkerIds(t.workers) == WorkerIds(s.workers);
      SameTasks(s, t);
    }
  }

  /** A task that ends is still a task until the daemon hears of it. */
  lemma EndedMatches(s: System, k: nat, t: System)
    requires Matched(s) && k < |s.workers| && t.active.Keys == s.active.Keys
    requires t.workers == s.workers[..k] + s.workers[k + 1..]
    requires |t.finished| == |s.finished| + 1 && t.finished[..|s.finished|] == s.finished
    requires t.finished[|s.finished|].id == s.workers[k].id
    ensures Matched(t)
  {
    var ids := WorkerIds(s.workers);
    assert WorkerIds(t.workers) == ids[..k] + ids[k + 1..];
    assert ids == ids[..k] + [ids[k]] + ids[k + 1..];
    assert FinishedIds(t.finished) == FinishedIds(s.finished) + [ids[k]];
    assert Tasks(t) == Tasks(s);
  }

  lemma StepKeepsInv(s: System, step: Label)
    requires Inv(s) && Step(s, step).Some?
    ensures Inv(Step(s, step).value)
  {
    hide Inv, Handled, Worked, Scheduled;
    if step.Work? {
      WorkKeeps(s, step.k, step.act);
    } else {
      HandledKeeps(s, step);
      if Handled(s, step).value.busy == Free {
        ScheduledKeeps(Handled(s, step).value);
      }
    }
  }

  lemma {:induction false} EveryReachableStateIsSafe(jobs: map<nat, Job>, steps: seq<Label>, n: nat)
    requires n <= |steps| && Reached(jobs, steps, n).Some?
    ensures Inv(Reached(jobs, steps, n).value)
  {
    hide Inv, Step;
    if n > 0 {
      EveryReachableStateIsSafe(jobs, steps, n - 1);
      StepKeepsInv(Reached(jobs, steps, n - 1).value, steps[n - 1]);
    } else {
      StartIsSafe(jobs);
    }
  }

  lemma StartIsSafe(jobs: map<nat, Job>)
    ensures Inv(Start(jobs))
  {
    assert Tasks(Start(jobs)) == multiset{};
  }

  // ---- What that means ----

  /** Two tasks never share a download, not even while the job waits in the queue for its next attempt. */
  lemma OneTaskPerDownload(s: System, i: nat, j: nat)
    requires Inv(s)
    ensures i < j < |s.workers| ==> s.workers[i].id != s.workers[j].id
    ensures i < |s.workers| && j < |s.finished| ==> s.workers[i].id != s.finished[j].id
  {
    var workers, finished := WorkerIds(s.workers), FinishedIds(s.finished);
    if i < j < |s.workers| {
      TwiceInSequence(workers, i, j);
      assert Tasks(s)[workers[i]] <= 1;
    }
    if i < |s.workers| && j < |s.finished| {
      assert workers[i] in multiset(workers) && finished[j] in multiset(finished);
      assert Tasks(s)[workers[i]] <= 1;
    }
  }

  lemma TwiceInSequence(s: seq<nat>, i: nat, j: nat)
    requires i < j < |s|
    ensures s[i] == s[j] ==> multiset(s)[s[i]] >= 2
  {
    assert s == s[..i] + [s[i]] + s[i + 1..j] + [s[j]] + s[j + 1..];
  }

  /** While a restart clears a download's files, nothing else has anything to do with that download. */
  lemma CleanupIsAlone(s: System)
    requires Inv(s) && s.busy != Free
    ensures forall i :: 0 <= i < |s.workers| ==> s.workers[i].id != s.busy.id
    ensures forall i :: 0 <= i < |s.finished| ==> s.finished[i].id != s.busy.id
  {
    forall i | 0 <= i < |s.workers| ensures s.workers[i].id != s.busy.id {
      assert WorkerIds(s.workers)[i] in multiset(WorkerIds(s.workers));
      assert s.workers[i].id in Tasks(s);
    }
    forall i | 0 <= i < |s.finished| ensures s.finished[i].id != s.busy.id {
      assert FinishedIds(s.finished)[i] in multiset(FinishedIds(s.finished));
      assert s.finished[i].id in Tasks(s);
    }
  }

  /** Who can be at work on a download's staging files and checkpoint: a worker's task, or the daemon clearing them. */
  datatype Writer = Task(k: nat) | Cleanup

  ghost predicate MayWrite(s: System, id: nat, writer: Writer) {
    match writer
    case Task(k) => k < |s.workers| && s.workers[k].id == id
    case Cleanup => s.busy.Clearing? && s.busy.id == id
  }

  /**
   The one thing the two engines' protocols ask of the daemon: whatever was done before, at most one is at work on a
   download's files and checkpoint, so what is done to them is one history of steps.
   */
  lemma SingleWriter(jobs: map<nat, Job>, steps: seq<Label>, n: nat, id: nat, one: Writer, other: Writer)
    requires n <= |steps| && Reached(jobs, steps, n).Some?
    requires MayWrite(Reached(jobs, steps, n).value, id, one) && MayWrite(Reached(jobs, steps, n).value, id, other)
    ensures one == other
  {
    hide Reached, Inv;
    EveryReachableStateIsSafe(jobs, steps, n);
    var s := Reached(jobs, steps, n).value;
    if one.Task? && other.Task? {
      OneTaskPerDownload(s, one.k, other.k);
      OneTaskPerDownload(s, other.k, one.k);
    } else if s.busy.Clearing? {
      CleanupIsAlone(s);
    }
  }

  /** All of it, over every mix of commands, worker steps and failures. */
  lemma SchedulerIsSafe(jobs: map<nat, Job>, steps: seq<Label>)
    requires Reached(jobs, steps, |steps|).Some?
    ensures var s := Reached(jobs, steps, |steps|).value;
            && |s.active| <= MAX_CONCURRENT_DOWNLOADS
            && (forall i, j :: 0 <= i < j < |s.workers| ==> s.workers[i].id != s.workers[j].id)
            && (forall i :: 0 <= i < |s.workers| ==> s.workers[i].attempts <= MAX_AUTOMATIC_ATTEMPTS)
            && (s.busy.Clearing? ==> forall i :: 0 <= i < |s.workers| ==> s.workers[i].id != s.busy.id)
  {
    hide Reached, Tasks;
    EveryReachableStateIsSafe(jobs, steps, |steps|);
    var s := Reached(jobs, steps, |steps|).value;
    forall i, j | 0 <= i < j < |s.workers| ensures s.workers[i].id != s.workers[j].id {
      OneTaskPerDownload(s, i, j);
    }
    if s.busy != Free {
      CleanupIsAlone(s);
    }
  }

  /** After anything the daemon finishes handling, three jobs run or none is left waiting. */
  lemma NoJobIsForgotten(s: System, step: Label)
    requires Step(s, step).Some? && !step.Work? && Step(s, step).value.busy == Free
    ensures var t := Step(s, step).value;
            |t.active| >= MAX_CONCURRENT_DOWNLOADS || forall id :: id in t.jobs && t.jobs[id].state == Queued ==> id in t.active
  {
    hide Handled;
    ScheduledIsFull(Handled(s, step).value);
  }
}
