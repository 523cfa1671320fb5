// Download jobs and how they may change (crates/gunda-core/src/download/state.rs,
// crates/gunda-core/src/application/manager.rs, crates/gunda-core/src/application/download_cancellation.rs).
module Jobs {
  import opened Basics

  datatype State = Queued | Inspecting | Downloading | Paused | Finalizing | Completed | Failed | Cancelled | Interrupted

  /** `retryable` says whether the last failure, if any, may be tried again. */
  datatype Job = Job(state: State, retryable: bool)

  predicate CanTransition(from: State, to: State) {
    match from
    case Queued => to in {Inspecting, Paused, Cancelled}
    case Inspecting => to in {Downloading, Paused, Failed, Interrupted, Cancelled}
    case Downloading => to in {Paused, Finalizing, Failed, Interrupted, Cancelled}
    case Paused => to in {Queued, Cancelled}
    case Finalizing => to in {Completed, Failed, Interrupted}
    case Failed => to in {Queued, Cancelled}
    case Interrupted => to in {Queued, Cancelled}
    case Completed => false
    case Cancelled => false
  }

  predicate CanRestart(state: State) {
    state !in {Inspecting, Downloading, Finalizing}
  }

  datatype Command = Pause | Resume | Retry | Restart | Cancel

  /** What a command makes of a job nobody works on, if it may. */
  function ChangeIdle(job: Job, command: Command): (r: Option<Job>) {
    match (command, job.state)
    case (Pause, Queued) => Some(job.(state := Paused))
    case (Resume, Paused) => Some(job.(state := Queued))
    case (Resume, Interrupted) => Some(job.(state := Queued))
    case (Retry, Failed) => if job.retryable then Some(job.(state := Queued)) else None
    case (Restart, state) => if CanRestart(state) then Some(Job(Queued, false)) else None
    case (Cancel, Queued) => Some(job.(state := Cancelled))
    case (Cancel, Paused) => Some(job.(state := Cancelled))
    case _ => None
  }

  /** No command touches a job that is being worked on, and every change but a restart is one the lifecycle allows. */
  lemma CommandsFollowTheLifecycle(job: Job, command: Command)
    requires ChangeIdle(job, command).Some?
    ensures CanRestart(job.state)
    ensures command != Restart ==> CanTransition(job.state, ChangeIdle(job, command).value.state)
    ensures ChangeIdle(job, command).value.state in {Queued, Paused, Cancelled}
  {
  }

  // ---- Stopping a running job ----

  datatype Stop = ToPause | ToCancel

  /** What has been asked of a running attempt; pausing only counts once the transfer says it supports it. */
  datatype Control = Control(requested: Option<Stop>, pauseSupported: bool)

  const NO_REQUEST := Control(None, false)

  function RequestCancel(c: Control): (r: Control) {
    c.(requested := Some(ToCancel))
  }

  /** The new state, and whether the request was taken. */
  function RequestPause(c: Control): (r: (Control, bool)) {
    if c.pauseSupported && c.requested.None? then (c.(requested := Some(ToPause)), true) else (c, false)
  }

  datatype Press = PressPause | PressCancel | Supports(yes: bool)

  function Pressed(c: Control, presses: seq<Press>): (r: Control)
    decreases |presses|
  {
    if presses == [] then c
    else
      var before := Pressed(c, presses[..|presses| - 1]);
      match presses[|presses| - 1]
      case PressPause => RequestPause(before).0
      case PressCancel => RequestCancel(before)
      case Supports(yes) => before.(pauseSupported := yes)
  }

  /** However the requests interleave, a cancellation is never lost and never undone. */
  lemma {:induction false} CancelWins(c: Control, presses: seq<Press>)
    ensures Pressed(c, presses).requested == Some(ToCancel) <==> PressCancel in presses || c.requested == Some(ToCancel)
    ensures c.requested.Some? ==> Pressed(c, presses).requested.Some?
  {
    if presses != [] {
      CancelWins(c, presses[..|presses| - 1]);
      assert presses == presses[..|presses| - 1] + [presses[|presses| - 1]];
    }
  }
}
