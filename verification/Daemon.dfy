// The daemon's own loops (apps/gundad/src/lib.rs).
module Daemons {
  import opened Basics
  import opened Jobs
  import opened Scheduler

  class Daemon {
    var jobs: map<nat, Job>
    var activeJobs: map<nat, Control>
    var pendingEngines: map<nat, Engine>
    var pendingOutputs: set<nat>
    var workers: seq<Worker>
    var finished: seq<Finished>

    function Value(): System
      reads this
    {
      System(jobs, activeJobs, pendingEngines, pendingOutputs, workers, finished, Free)
    }

    constructor (known: map<nat, Job>)
      ensures Value() == Scheduler.Start(known)
    {
      jobs, activeJobs, pendingEngines, pendingOutputs, workers, finished := known, map[], map[], {}, [], [];
    }

    method ScheduleJobs()
      modifies this
      ensures Value() == Scheduled(old(Value()))
    {
      while |activeJobs| < MAX_CONCURRENT_DOWNLOADS
        invariant Scheduled(Value()) == Scheduled(old(Value()))
        decreases MAX_CONCURRENT_DOWNLOADS - |activeJobs|
      {
        var job := FirstWaiting(Value());
        if job.None? {
          break;
        }
        StartedMeasure(Value(), job.value);
        pendingEngines := map other | other in pendingEngines && other != job.value :: pendingEngines[other];
        activeJobs := activeJobs[job.value := NO_REQUEST];
        workers := workers + [Worker(job.value, 1, Starting)];
      }
    }

    method HandleFinished()
      requires finished != []
      modifies this
      ensures Some(Value()) == Step(old(Value()), Label.Finish)
    {
      var result := finished[0];
      finished := finished[1..];
      activeJobs := map id | id in activeJobs && id != result.id :: activeJobs[id];
      if result.published {
        pendingOutputs := pendingOutputs + {result.id};
      }
      ScheduleJobs();
    }

    /** A running download is asked to pause; any other is paused where it waits. */
    method Pause(id: nat, saved: bool) returns (ok: bool)
      modifies this
      ensures Some(Value()) == Handled(old(Value()), Label.Pause(id, saved))
      ensures old(id in activeJobs) ==> ok == old(RequestPause(activeJobs[id]).1)
      ensures old(id !in activeJobs) ==> ok == Commanded(old(Value()), id, Command.Pause, saved).Some?
    {
      if id in activeJobs {
        var (control, taken) := RequestPause(activeJobs[id]);
        activeJobs := activeJobs[id := control];
        return taken;
      }
      ok := false;
      if id in jobs && saved {
        var job := ChangeIdle(jobs[id], Command.Pause);
        if job.Some? {
          jobs, ok := jobs[id := job.value], true;
        }
      }
    }

    method Cancel(id: nat, saved: bool) returns (ok: bool)
      modifies this
      ensures Some(Value()) == Handled(old(Value()), Label.Cancel(id, saved))
      ensures old(id in activeJobs) ==> ok
      ensures old(id !in activeJobs) ==> ok == Commanded(old(Value()), id, Command.Cancel, saved).Some?
    {
      if id in activeJobs {
        activeJobs := activeJobs[id := RequestCancel(activeJobs[id])];
        return true;
      }
      ok := false;
      if id in jobs && saved {
        var job := ChangeIdle(jobs[id], Command.Cancel);
        if job.Some? {
          jobs, ok := jobs[id := job.value], true;
        }
      }
    }
  }

  // ---- Automatic attempts ----

  /** How one attempt went: could it be tried again, and could the job be put back in the queue? */
  datatype Attempt = Attempt(retryable: bool, requeued: bool)

  /** Seconds before the attempt after `n` retries: a one shifted left. */
  function Delay(n: nat): nat {
    if n == 0 then 1 else 2 * Delay(n - 1)
  }

  /** Attempts follow one another while each may be tried again, three at most, with growing pauses between. */
  method ExecuteJob(outcomes: nat -> Attempt) returns (attempts: nat, pauses: seq<nat>)
    ensures 1 <= attempts <= MAX_AUTOMATIC_ATTEMPTS
    ensures forall n :: 1 <= n < attempts ==> outcomes(n) == Attempt(true, true)
    ensures attempts == MAX_AUTOMATIC_ATTEMPTS || outcomes(attempts) != Attempt(true, true)
    ensures |pauses| == attempts - 1
    ensures forall n :: 0 <= n < |pauses| ==> pauses[n] == Delay(n)
  {
    attempts, pauses := 0, [];
    while true
      invariant attempts < MAX_AUTOMATIC_ATTEMPTS && |pauses| == attempts
      invariant forall n :: 1 <= n <= attempts ==> outcomes(n) == Attempt(true, true)
      invariant forall n :: 0 <= n < |pauses| ==> pauses[n] == Delay(n)
      decreases MAX_AUTOMATIC_ATTEMPTS - attempts
    {
      attempts := attempts + 1;
      if !outcomes(attempts).retryable || attempts >= MAX_AUTOMATIC_ATTEMPTS {
        return;
      }
      if !outcomes(attempts).requeued {
        return;
      }
      pauses := pauses + [Delay(attempts - 1)];
    }
  }
}
