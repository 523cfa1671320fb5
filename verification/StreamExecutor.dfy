// Running a segmented download (crates/gunda-stream/src/executor.rs). Every effect is recorded as a step
// of the protocol, so the protocol's theorems speak about this code.
module StreamExecutor {
  import opened Basics
  import opened Staging
  import opened StreamResume
  import opened StreamStorage
  import opened StreamProtocol
  import opened Progress
  import opened Stores
  import Environment

  const CHECKPOINT_BYTES: nat := 8 * 1024 * 1024

  datatype Failure = Integrity | Staging | Http | SizeOverflow | Muxing | Storage(kind: StoreError)

  datatype Written = Written(bytes: nat, stopped: bool)

  datatype Outcome = Finished(written: nat) | Stopped(written: nat)

  /** One turn of the select in the append loop. A write cut short leaves some bytes behind. */
  datatype Arrival = Cancelled(torn: Bytes) | Failed(torn: Bytes) | Chunk(bytes: Bytes) | End

  /** Anything may arrive, except an empty chunk, or a good end of a body other than the resource's. */
  method NextArrival(received: Bytes, body: Bytes) returns (a: Arrival)
    ensures a.End? ==> received == body
    ensures a.Chunk? ==> a.bytes != []
  {
    a := *;
    if (a.End? && received != body) || (a.Chunk? && a.bytes == []) {
      a := Failed([]);
    }
  }

  lemma HistoryGrows(plan: Plan, history: seq<Config>, labels: seq<Label>, l: Label, c: Config)
    requires IsHistory(plan, history, labels)
    requires Step(plan, history[|history| - 1], l, c)
    ensures IsHistory(plan, history + [c], labels + [l])
  {
  }

  /** Between two resources, the engine's position is never behind the stored one. */
  lemma CheckpointMayAdvance(plan: Plan, c: Config)
    requires Inv(plan, c) && c.phase.Boundary? && c.row.Some?
    ensures c.row.value.WithTrack(c.phase.track, TrackCheckpoint(c.phase.next, c.phase.written)).Some?
  {
  }

  class StreamDownload {
    var plan: Plan
    const id: nat
    const store: StreamStore?
    /** What the plan's tracks are staged in: the partial file of one track, or a file for each of two. */
    var files: seq<Entry>
    /** What the other of those three paths hold; the partial file is there when there are two tracks. */
    var rest: seq<Entry>
    var resume: Option<StreamResumeState>
    var reports: seq<nat>
    ghost var phase: Phase
    ghost var history: seq<Config>
    ghost var labels: seq<Label>

    ghost function Row(): Option<StreamResumeState>
      requires store != null ==> store.Valid()
      reads this, store
    {
      if store == null then None else store.Stored(id)
    }

    ghost function Now(): Config
      requires store != null ==> store.Valid()
      reads this, store
    {
      Config(files, Row(), phase)
    }

    ghost predicate ThreePaths()
      reads this`files, this`rest
    {
      |files| + |rest| == 3 && forall t :: 0 <= t < |rest| ==> rest[t].Valid()
    }

    /** The recorded history starts with nothing stored, leads here by protocol steps, and so is safe here. */
    ghost predicate Valid()
      reads this, store
    {
      && (store != null ==> store.Valid())
      && plan.Valid() && ThreePaths()
      && IsHistory(plan, history, labels)
      && Fresh(plan, history[0])
      && history[|history| - 1] == Now()
      && Inv(plan, Now())
    }

    /** The run holds in memory exactly what is stored. */
    ghost predicate Prepared()
      requires store != null ==> store.Valid()
      reads this, store
    {
      resume == Row() && (store != null ==> resume.Some?)
    }

    constructor (plan: Plan, id: nat, store: StreamStore?)
      requires plan.Valid()
      requires store != null ==> store.Valid() && store.Stored(id).None?
      ensures Valid() && Now() == history[0]
      ensures this.plan == plan && this.id == id && this.store == store
    {
      this.plan, this.id, this.store := plan, id, store;
      files, rest := seq(|plan.bodies|, _ => Missing), seq(3 - |plan.bodies|, _ => Missing);
      resume, reports := None, [];
      phase := Idle;
      history := [Config(seq(|plan.bodies|, _ => Missing), None, Idle)];
      labels := [];
      new;
      FreshIsSafe(plan, Now());
    }

    /** Records that the effect just made was the protocol step `l`. */
    ghost method Took(l: Label)
      requires store != null ==> store.Valid()
      requires plan.Valid() && ThreePaths() && IsHistory(plan, history, labels) && Fresh(plan, history[0])
      requires Inv(plan, history[|history| - 1])
      requires Step(plan, history[|history| - 1], l, Now())
      modifies this`history, this`labels
      ensures Valid()
      ensures history == old(history) + [Now()] && labels == old(labels) + [l]
    {
      StepKeepsInv(plan, history[|history| - 1], l, Now());
      HistoryGrows(plan, history, labels, l, Now());
      history, labels := history + [Now()], labels + [l];
    }

    method Leave()
      requires Valid()
      modifies this`phase, this`history, this`labels
      ensures Valid() && phase == Idle
    {
      phase := Idle;
      Took(Label.Leave);
    }

    /** The process dies: what is in memory is lost and the files keep what a crash keeps. */
    method Crash()
      requires Valid()
      modifies this`files, this`rest, this`resume, this`reports, this`phase, this`history, this`labels
      ensures Valid() && phase == Idle && Row() == old(Row())
      ensures |files| == |old(files)| && |rest| == |old(rest)|
      ensures forall t :: 0 <= t < |files| ==> Survives(old(files)[t], files[t])
      ensures forall t :: 0 <= t < |rest| ==> Survives(old(rest)[t], rest[t])
    {
      resume, reports, phase := None, [], Idle;
      files := WreckAll(files);
      rest := WreckAll(rest);
      Took(Label.Crash);
    }

    /** Keeps the plan when something is stored for it; with nothing stored, the paths are the new plan's from now on. */
    method Adopt(next: Plan)
      requires Valid() && phase == Idle && Row().None? && next.Valid()
      modifies this`plan, this`files, this`rest, this`history, this`labels
      ensures Valid() && plan == next && history == [Now()]
      ensures (files == old(files) && rest == old(rest)) || (files == old(rest) && rest == old(files))
    {
      if |next.bodies| != |plan.bodies| {
        files, rest := rest, files;
      }
      plan, history, labels := next, [Config(files, None, Idle)], [];
      FreshIsSafe(plan, Now());
    }

    /**
     Loads or creates the checkpoint for the plan just made from the manifest. What is stored is of a plan of the same
     resources if it is of the same fingerprint. `saved` is the job's total and `total` the plan's, when it is exact.
     */
    method Prepare(next: Plan, saved: Option<nat>, total: Option<nat>) returns (r: Result<nat, Failure>)
      requires Valid() && phase == Idle && next.Valid()
      requires Row().Some? && next.fingerprint == plan.fingerprint ==> next == plan
      modifies this, store
      ensures Valid() && phase == Idle
      ensures r.Ok? ==> plan == next && Prepared() && r.value == if resume.Some? then resume.value.StartingBytes() else 0
      ensures old(Row()).Some? ==> plan == old(plan) && Now() == old(Now())
      ensures old(Row()).Some? && next.fingerprint != old(plan.fingerprint) ==> r.Err?
      ensures old(Row()).Some? && |next.bodies| != |old(plan).bodies| ==> r.Err?
      ensures r.Ok? && store != null && saved.Some? && total.Some? ==> saved == total
      ensures r.Ok? && total.Some? ==> r.value <= total.value
      ensures (files == old(files) && rest == old(rest)) || (files == old(rest) && rest == old(files))
    {
      resume := None;
      if store == null {
        Adopt(next);
        return Ok(0);
      }
      var found := store.Find(id);
      if found.Err? {
        return Err(Storage(found.error));
      }
      if found.value.Some? {
        var state := found.value.value;
        if state.fingerprint != next.fingerprint || |state.tracks| != |next.bodies| {
          return Err(Integrity);
        }
        for track := 0 to |state.tracks| {
          if state.tracks[track].nextResource > |next.bodies[track]| {
            return Err(Integrity);
          }
        }
        resume := Some(state);
      } else {
        Adopt(next);
        r := Create();
        if r.Err? {
          return;
        }
      }
      var starting := resume.value.StartingBytes();
      if (saved.Some? && total.Some? && saved != total) || (total.Some? && starting > total.value) {
        return Err(Integrity);
      }
      r := Ok(starting);
    }

    /** Stores a first checkpoint for a plan that has none; it may be there although the store failed. */
    method Create() returns (r: Result<nat, Failure>)
      requires Valid() && phase == Idle && store != null && Row().None?
      modifies this`resume, this`history, this`labels, store
      ensures Valid() && (r.Ok? ==> Prepared() && resume.Some?)
    {
      var initialized := store.Initialize(id, plan.fingerprint, |plan.bodies|);
      if Row().Some? {
        Took(Label.Initialize);
      }
      if initialized.Err? {
        return Err(Storage(initialized.error));
      }
      resume := Some(initialized.value);
      r := Ok(0);
    }

    method OpenTrack(track: nat, durable: nat, resuming: bool) returns (r: Result<(), Failure>)
      requires Valid() && Prepared() && MayOpen(plan, Now(), track)
      requires durable == CheckpointOf(Row(), track).durableBytes && resuming == resume.Some?
      modifies this`files, this`phase, this`history, this`labels
      ensures Valid() && Prepared()
      ensures r.Ok? ==> phase == Boundary(track, CheckpointOf(Row(), track).nextResource, durable)
    {
      hide IsHistory, Fresh, StoredIn, Consistent, StreamStore.Valid;
      var up := Environment.Choice();
      if !up {
        return Err(Failure.Staging);
      }
      var entry := OpenEntry(files[track], durable, resuming);
      if entry.Err? {
        return Err(if resuming then Integrity else Failure.Staging);
      }
      files := files[track := entry.value];
      phase := Boundary(track, CheckpointOf(Row(), track).nextResource, durable);
      Took(Label.Open(track));
      up := Environment.Choice();
      r := if up then Ok(()) else Err(Failure.Staging);
    }

    method Append(track: nat, bytes: Bytes)
      requires Valid() && Prepared() && phase.Receiving? && phase.track == track
      modifies this`files, this`history, this`labels
      ensures Valid() && Prepared()
      ensures track < |files| == |old(files)| && files[track].Regular?
      ensures files[track].content == old(files[track].content) + bytes
    {
      files := files[track := files[track].Appended(bytes)];
      Took(Label.Arrive(bytes));
    }

    method TruncateTrack(track: nat, bytes: nat) returns (r: Result<(), Failure>)
      requires Valid() && Prepared() && phase.Receiving? && phase.track == track && phase.start == bytes
      modifies this`files, this`phase, this`history, this`labels
      ensures Valid() && Prepared()
      ensures r.Ok? ==> phase == Boundary(track, old(phase.next), bytes)
    {
      var up := Environment.Choice();
      if !up {
        return Err(Failure.Staging);
      }
      files := files[track := files[track].Truncated(bytes)];
      phase := Boundary(track, phase.next, bytes);
      Took(Label.Rewind);
      up := Environment.Choice();
      r := if up then Ok(()) else Err(Failure.Staging);
    }

    method SyncTrack(track: nat) returns (r: Result<(), Failure>)
      requires Valid() && Prepared() && phase.Boundary? && phase.track == track
      modifies this`files, this`history, this`labels
      ensures Valid() && Prepared()
      ensures r.Ok? ==> files[track] == files[track].Synced()
      ensures r.Err? ==> r.error == Failure.Staging
    {
      var up := Environment.Choice();
      if !up {
        return Err(Failure.Staging);
      }
      files := files[track := files[track].Synced()];
      Took(Label.Sync);
      r := Ok(());
    }

    /**
     Synchronises the file, then moves the checkpoint. The in-memory rule never refuses, and the store
     refuses only a count that does not fit its column.
     */
    method CheckpointTrack(track: nat, next: nat, durable: nat) returns (r: Result<(), Failure>)
      requires Valid() && Prepared() && phase == Boundary(track, next, durable)
      modifies this`files, this`resume, this`history, this`labels, store
      ensures Valid() && (r.Ok? ==> Prepared())
      ensures r.Ok? && store != null ==> CheckpointOf(Row(), track) == TrackCheckpoint(next, durable)
      ensures r.Ok? && store != null ==> forall t :: 0 <= t < |plan.bodies| && t != track ==>
                CheckpointOf(Row(), t) == old(CheckpointOf(Row(), t))
      ensures r.Err? ==> r.error == Failure.Staging || r.error.Storage?
      ensures r.Err? && r.error.Storage? && r.error.kind != Internal ==> !Encodable(TrackCheckpoint(next, durable))
    {
      var synced := SyncTrack(track);
      if synced.Err? || resume.None? {
        return synced;
      }
      if store == null {
        return Err(Storage(InvalidData));
      }
      r := SaveTrack(track, next, durable);
    }

    /** Moves the checkpoint of a track whose file is synchronised; it may have moved although the store failed. */
    method SaveTrack(track: nat, next: nat, durable: nat) returns (r: Result<(), Failure>)
      requires Valid() && Prepared() && phase == Boundary(track, next, durable) && store != null
      requires track < |files| && files[track] == files[track].Synced()
      modifies this`resume, this`history, this`labels, store
      ensures Valid() && (r.Ok? ==> Prepared())
      ensures r.Ok? ==> CheckpointOf(Row(), track) == TrackCheckpoint(next, durable)
      ensures r.Ok? ==> forall t :: 0 <= t < |plan.bodies| && t != track ==>
                CheckpointOf(Row(), t) == old(CheckpointOf(Row(), t))
      ensures r.Err? ==> r.error.Storage?
      ensures r.Err? && r.error.kind != Internal ==> !Encodable(TrackCheckpoint(next, durable))
    {
      hide IsHistory, CheckpointHolds, StoredIn, Consistent, Flatten, FirstTrackFirst;
      CheckpointMayAdvance(plan, Now());
      StoredFits(store.states, store.tracks, id);
      MemoryRuleIsStoreRule(resume.value, track, TrackCheckpoint(next, durable));
      var candidate := resume.value.WithTrack(track, TrackCheckpoint(next, durable));
      if candidate.None? {
        return Err(Integrity);
      }
      var persisted := store.SaveCheckpoint(id, candidate.value);
      if Row() == candidate {
        Took(Label.Save);
      }
      if persisted.Err? {
        return Err(Storage(persisted.error));
      }
      if persisted.value != candidate.value {
        return Err(Storage(InvalidData));
      }
      resume := Some(persisted.value);
      r := Ok(());
    }

    /** Gives up the resource being received: back to its start, and checkpoint there. */
    method Abandon(track: nat, next: nat, start: nat, torn: Bytes) returns (r: Result<(), Failure>)
      requires Valid() && Prepared() && phase == Receiving(track, next, start)
      modifies this`files, this`resume, this`phase, this`history, this`labels, store
      ensures Valid() && (r.Ok? ==> Prepared())
      ensures r.Ok? && store != null ==> CheckpointOf(Row(), track) == TrackCheckpoint(next, start)
      ensures r.Ok? && store != null ==> forall t :: 0 <= t < |plan.bodies| && t != track ==>
                CheckpointOf(Row(), t) == old(CheckpointOf(Row(), t))
    {
      Append(track, torn);
      r := TruncateTrack(track, start);
      if r.Ok? {
        r := CheckpointTrack(track, next, start);
      }
    }

    /** Receives the body of resource `next` until it ends well, fails or is cut off. */
    method ReceiveBody(track: nat, next: nat, base: nat, start: nat, ghost floor: nat)
        returns (ending: Arrival, written: nat, overflow: bool)
      requires Valid() && Prepared() && phase == Receiving(track, next, start)
      requires files[track].content == plan.Prefix(track, next) && |plan.Prefix(track, next)| == start <= U64_MAX
      requires floor <= base + start && Rising(reports, floor) && LastAtMost(reports, base + start)
      modifies this`files, this`reports, this`history, this`labels
      ensures Valid() && Prepared() && phase == old(phase) && Row() == old(Row())
      ensures track < |files| && files[track].Regular?
      ensures !ending.Chunk? || overflow
      ensures start <= written <= U64_MAX && Rising(reports, floor) && LastAtMost(reports, base + written)
      ensures ending.End? ==>
                && |files[track].content| == written
                && files[track].content[start..] == plan.bodies[track][next]
    {
      hide Inv, IsHistory, CheckpointHolds, FirstTrackFirst, Fresh, ThreePaths, StoredIn, Consistent, StreamStore.Valid;
      TracksMatch();
      var body := plan.bodies[track][next];
      var received: Bytes := [];
      ghost var before := files[track].content;
      written, overflow := start, false;
      while true
        invariant Valid() && Prepared() && phase == old(phase) && Row() == old(Row())
        invariant written == start + |received| <= U64_MAX && !overflow
        invariant track < |files| && files[track].Regular? && files[track].content == before + received
        invariant Rising(reports, floor) && LastAtMost(reports, base + written)
        decreases U64_MAX - written
      {
        ending := NextArrival(received, body);
        if !ending.Chunk? {
          return;
        }
        Append(track, ending.bytes);
        received := received + ending.bytes;
        if written + |ending.bytes| > U64_MAX {
          overflow := true;
          return;
        }
        written := written + |ending.bytes|;
        if base + written > U64_MAX {
          overflow := true;
          return;
        }
        reports := reports + [base + written];
      }
    }

    /** Receives resource `next` of a track to its end, or stops at the boundary before it. */
    method WriteResource(track: nat, next: nat, base: nat, start: nat, ghost floor: nat)
        returns (r: Result<Written, Failure>)
      requires Valid() && Prepared() && phase == Boundary(track, next, start)
      requires next < |plan.bodies[track]| && start <= U64_MAX
      requires floor <= base + start && Rising(reports, floor) && LastAtMost(reports, base + start)
      modifies this`files, this`resume, this`phase, this`reports, this`history, this`labels, store
      ensures Valid() && Rising(reports, floor) && (r.Ok? ==> Prepared())
      ensures r.Ok? && !r.value.stopped ==>
                && phase == Boundary(track, next + 1, r.value.bytes)
                && start <= r.value.bytes <= U64_MAX
                && LastAtMost(reports, base + r.value.bytes)
                && Row() == old(Row())
      ensures r.Ok? && r.value.stopped ==>
                && r.value.bytes == start
                && (store != null ==> CheckpointOf(Row(), track) == TrackCheckpoint(next, start))
                && (store != null ==> forall t :: 0 <= t < |plan.bodies| && t != track ==>
                      CheckpointOf(Row(), t) == old(CheckpointOf(Row(), t)))
    {
      hide Inv, IsHistory, StoredIn, Consistent, Flatten, StreamStore.Valid, Fresh, ThreePaths, Rising, LastAtMost;
      TracksMatch();
      BoundaryIsExact();
      var answered := Environment.Choice();
      if !answered {
        return Err(Http);
      }
      phase := Receiving(track, next, start);
      Took(Label.Request);
      var ending, written, overflow := ReceiveBody(track, next, base, start, floor);
      if overflow {
        return Err(SizeOverflow);
      }
      match ending
      case Cancelled(torn) =>
        var abandoned := Abandon(track, next, start, torn);
        r := if abandoned.Ok? then Ok(Written(start, true)) else Err(abandoned.error);
      case Failed(torn) =>
        var abandoned := Abandon(track, next, start, torn);
        r := if abandoned.Ok? then Err(Http) else Err(abandoned.error);
      case End =>
        phase := Boundary(track, next + 1, written);
        Took(Label.EndOfBody);
        r := Ok(Written(written, false));
      case Chunk(_) =>
        assert false;
    }

    /** One turn of the track's loop: resource `next`, then a checkpoint if one is due. */
    method Advance(track: nat, next: nat, base: nat, written: nat, lastCheckpoint: nat, ghost floor: nat)
        returns (r: Result<Written, Failure>, checkpointed: bool)
      requires Valid() && Prepared() && phase == Boundary(track, next, written)
      requires next < |plan.bodies[track]| && lastCheckpoint <= written <= U64_MAX
      requires floor <= base + written && Rising(reports, floor) && LastAtMost(reports, base + written)
      modifies this`files, this`resume, this`phase, this`reports, this`history, this`labels, store
      ensures Valid() && Rising(reports, floor) && (r.Ok? ==> Prepared())
      ensures r.Ok? && !r.value.stopped ==>
                && phase == Boundary(track, next + 1, r.value.bytes)
                && written <= r.value.bytes <= U64_MAX
                && LastAtMost(reports, base + r.value.bytes)
      ensures r.Ok? && r.value.stopped && store != null ==>
                CheckpointOf(Row(), track) == TrackCheckpoint(next, r.value.bytes)
      ensures r.Ok? && store != null ==> forall t :: 0 <= t < |plan.bodies| && t != track ==>
                CheckpointOf(Row(), t) == old(CheckpointOf(Row(), t))
    {
      hide Inv, IsHistory;
      TracksMatch();
      checkpointed := false;
      var cancelled := Environment.Choice();
      if cancelled {
        var saved := CheckpointTrack(track, next, written);
        r := if saved.Ok? then Ok(Written(written, true)) else Err(saved.error);
        return;
      }
      r := WriteResource(track, next, base, written, floor);
      if r.Err? || r.value.stopped {
        return;
      }
      var overdue := Environment.Choice();
      if next + 1 == |plan.bodies[track]| || r.value.bytes - lastCheckpoint >= CHECKPOINT_BYTES || overdue {
        var saved := CheckpointTrack(track, next + 1, r.value.bytes);
        checkpointed := true;
        if saved.Err? {
          r := Err(saved.error);
        }
      }
    }

    /** Writes what is missing of one track; `base` is what its progress counts from. */
    method WriteTrack(track: nat, base: nat, ghost floor: nat) returns (r: Result<Written, Failure>)
      requires Valid() && Prepared() && MayOpen(plan, Now(), track)
      requires Rising(reports, floor) && LastAtMost(reports, base + CheckpointOf(Row(), track).durableBytes)
      requires CheckpointOf(Row(), track).nextResource < |plan.bodies[track]| ==>
                 floor <= base + CheckpointOf(Row(), track).durableBytes
      modifies this`files, this`resume, this`phase, this`reports, this`history, this`labels, store
      ensures Valid() && Rising(reports, floor) && (r.Ok? ==> Prepared())
      ensures r.Ok? && !r.value.stopped ==>
                && phase == Boundary(track, |plan.bodies[track]|, r.value.bytes)
                && LastAtMost(reports, base + r.value.bytes)
      ensures r.Ok? && store != null ==>
                && CheckpointOf(Row(), track).durableBytes == r.value.bytes
                && CheckpointOf(Row(), track).nextResource <= |plan.bodies[track]|
                && (r.value.stopped <==> CheckpointOf(Row(), track).nextResource < |plan.bodies[track]|)
                && forall t :: 0 <= t < |plan.bodies| && t != track ==>
                     CheckpointOf(Row(), t) == old(CheckpointOf(Row(), t))
    {
      hide Inv, IsHistory, StoredIn, Consistent, StreamStore.Valid, Fresh;
      TracksMatch();
      var checkpoint := if resume.Some? then resume.value.tracks[track] else START;
      var count := |plan.bodies[track]|;
      if checkpoint.nextResource > count {
        return Err(Integrity);
      }
      DurableBytesFit(track);
      var open := OpenTrack(track, checkpoint.durableBytes, resume.Some?);
      if open.Err? {
        return Err(open.error);
      }
      var written: nat, lastCheckpoint: nat := checkpoint.durableBytes, checkpoint.durableBytes;
      for next := checkpoint.nextResource to count
        invariant lastCheckpoint <= written <= U64_MAX && checkpoint.durableBytes <= written
        invariant Valid() && Prepared() && phase == Boundary(track, next, written)
        invariant Rising(reports, floor) && LastAtMost(reports, base + written)
        invariant forall t :: 0 <= t < |plan.bodies| && t != track ==>
          CheckpointOf(Row(), t) == old(CheckpointOf(Row(), t))
      {
        var result, checkpointed := Advance(track, next, base, written, lastCheckpoint, floor);
        if result.Err? || result.value.stopped {
          return result;
        }
        written := result.value.bytes;
        lastCheckpoint := if checkpointed then written else lastCheckpoint;
      }
      var saved := CheckpointTrack(track, count, written);
      r := if saved.Ok? then Ok(Written(written, false)) else Err(saved.error);
    }

    lemma TracksMatch()
      requires Valid()
      ensures |files| == |plan.bodies|
      ensures Row().Some? ==> |Row().value.tracks| == |plan.bodies|
      ensures forall t :: 0 <= t < |plan.bodies| ==> CheckpointOf(Row(), t).nextResource <= |plan.bodies[t]|
      ensures !phase.Idle? ==> phase.track < |plan.bodies| && files[phase.track].Regular?
      ensures phase.Receiving? ==> phase.next < |plan.bodies[phase.track]|
    {
      forall t | 0 <= t < |plan.bodies|
        ensures CheckpointOf(Row(), t).nextResource <= |plan.bodies[t]|
      {
        assert CheckpointHolds(plan, Row(), files[t], t);
      }
    }

    /** Between two resources the file is exactly what came before. */
    lemma BoundaryIsExact()
      requires Valid() && phase.Boundary?
      ensures phase.track < |plan.bodies| && phase.next <= |plan.bodies[phase.track]| && files[phase.track].Regular?
      ensures files[phase.track].content == plan.Prefix(phase.track, phase.next)
      ensures |plan.Prefix(phase.track, phase.next)| == phase.written
    {
      hide IsHistory, CheckpointHolds, FirstTrackFirst;
    }

    lemma DurableBytesFit(track: nat)
      requires Valid() && track < |plan.bodies|
      ensures CheckpointOf(Row(), track).durableBytes <= I64_MAX
    {
    }

    /** Every staging file present and byte for byte the concatenation of its track's resources. */
    ghost predicate Staged()
      reads this
    {
      |files| == |plan.bodies| &&
      forall t :: 0 <= t < |files| ==> files[t].Regular? && files[t].content == plan.Whole(t)
    }

    /** How many bytes the first `n` tracks are. */
    ghost function WholeLength(n: nat): nat
      requires n <= |plan.bodies|
      reads this`plan
    {
      if n == 0 then 0 else WholeLength(n - 1) + |plan.Whole(n - 1)|
    }

    /** Removes what a staging path holds, unless it is not a regular file. */
    method RemoveStagingFile(track: nat) returns (r: Result<(), Failure>)
      requires Valid() && phase == Idle && track < |plan.bodies|
      modifies this`files, this`history, this`labels
      ensures Valid() && |files| == |old(files)|
      ensures forall t :: 0 <= t < |files| && t != track ==> files[t] == old(files)[t]
      ensures files[track].Missing? || files[track] == old(files)[track]
      ensures r.Ok? ==> files[track].Missing?
    {
      match files[track]
      case Missing =>
        r := Ok(());
      case Other =>
        r := Err(Failure.Staging);
      case Regular(_, _) =>
        var up := Environment.Choice();
        if !up {
          return Err(Failure.Staging);
        }
        files := files[track := Missing];
        Took(Label.Remove(track));
        r := Ok(());
    }

    /** After a cancellation: drop what can be dropped, then the checkpoint; failures are ignored. */
    method CleanupStaging(withStore: bool)
      requires Valid() && phase == Idle
      modifies this`files, this`history, this`labels, store
      ensures Valid() && phase == Idle
      ensures Row() == old(Row()) || Row().None?
    {
      for track := 0 to |plan.bodies|
        invariant Valid() && phase == Idle && Row() == old(Row())
      {
        var _ := RemoveStagingFile(track);
      }
      if withStore && store != null {
        var _ := ClearRow();
      }
    }

    /** Clears the checkpoint; it may be gone although the store failed. */
    method ClearRow() returns (r: Result<(), Failure>)
      requires Valid() && phase == Idle && store != null
      modifies this`history, this`labels, store
      ensures Valid() && (Row() == old(Row()) || Row().None?)
      ensures r.Ok? ==> Row().None?
    {
      var cleared := store.Clear(id);
      if Row().None? {
        Took(Label.Clear);
      }
      r := if cleared.Ok? then Ok(()) else Err(Storage(cleared.error));
    }

    /** Removes what is at a path that none of the plan's tracks is staged in. */
    method RemoveOther(i: nat) returns (r: Result<(), Failure>)
      requires Valid() && i < |rest|
      modifies this`rest
      ensures Valid() && |rest| == |old(rest)|
      ensures forall t :: 0 <= t < |rest| && t != i ==> rest[t] == old(rest)[t]
      ensures rest[i].Missing? || rest[i] == old(rest)[i]
      ensures r.Ok? ==> rest[i].Missing?
    {
      match rest[i]
      case Missing =>
        r := Ok(());
      case Other =>
        r := Err(Failure.Staging);
      case Regular(_, _) =>
        var up := Environment.Choice();
        if !up {
          return Err(Failure.Staging);
        }
        rest := rest[i := Missing];
        r := Ok(());
    }

    method RemoveRest(count: nat) returns (r: Result<(), Failure>)
      requires Valid() && phase == Idle && count <= |rest|
      modifies this`rest
      ensures Valid() && |rest| == |old(rest)|
      ensures r.Ok? ==> forall t :: 0 <= t < count ==> rest[t].Missing?
    {
      for i := 0 to count
        invariant Valid() && |rest| == |old(rest)|
        invariant forall t :: 0 <= t < i ==> rest[t].Missing?
      {
        r := RemoveOther(i);
        if r.Err? {
          return;
        }
      }
      r := Ok(());
    }

    method RemoveFiles() returns (r: Result<(), Failure>)
      requires Valid() && phase == Idle
      modifies this`files, this`history, this`labels
      ensures Valid()
      ensures r.Ok? ==> forall t :: 0 <= t < |files| ==> files[t].Missing?
    {
      for track := 0 to |files|
        invariant Valid() && |files| == |old(files)|
        invariant forall t :: 0 <= t < track ==> files[t].Missing?
      {
        r := RemoveStagingFile(track);
        if r.Err? {
          return;
        }
      }
      r := Ok(());
    }

    /**
     Before a restart: every staging file gone first, and only then the checkpoint. The partial file comes first; the
     two track files are left alone only when what is stored says that there is one track.
     */
    method ResetForRestart() returns (r: Result<(), Failure>)
      requires Valid() && phase == Idle
      modifies this`files, this`rest, this`history, this`labels, store
      ensures Valid() && phase == Idle
      ensures r.Ok? ==> Row().None? && forall t :: 0 <= t < |files| ==> files[t].Missing?
      ensures r.Ok? && (old(Row()).None? || |plan.bodies| == 2) ==> forall t :: 0 <= t < |rest| ==> rest[t].Missing?
      ensures Row() == old(Row()) || forall t :: 0 <= t < |files| ==> files[t].Missing?
    {
      hide Inv, IsHistory, Fresh, StoredIn, Consistent;
      TracksMatch();
      var single := false;
      if store != null {
        var found := store.Find(id);
        if found.Err? {
          return Err(Storage(found.error));
        }
        single := found.value.Some? && |found.value.value.tracks| == 1;
      }
      if |plan.bodies| == 1 {
        r := RemoveFiles();
        if r.Ok? && !single {
          r := RemoveRest(2);
        }
      } else {
        r := RemoveRest(1);
        if r.Ok? {
          r := RemoveFiles();
        }
      }
      if r.Ok? && store != null {
        r := ClearRow();
      }
    }

    /** The tracks before `track` are written, saved and counted, and a run from here keeps progress above `floor`. */
    ghost predicate AtTrack(track: nat, written: nat, floor: nat)
      requires Valid() && track <= |plan.bodies|
      reads this, store
    {
      && Rising(reports, floor) && LastAtMost(reports, written)
      && written == WholeLength(track)
      && (if track == 0 then phase == Idle && floor == StartingBytes()
          else
            var last := TrackCheckpoint(|plan.bodies[track - 1]|, |plan.Whole(track - 1)|);
            && phase == Boundary(track - 1, last.nextResource, last.durableBytes)
            && (store != null ==> CheckpointOf(Row(), track - 1) == last))
      && (track == 1 && |plan.bodies| == 2 ==> floor <= written + CheckpointOf(Row(), 1).durableBytes)
    }

    method WriteNextTrack(track: nat, written: nat, ghost floor: nat) returns (r: Result<Written, Failure>)
      requires Valid() && Prepared() && track < |plan.bodies| && AtTrack(track, written, floor)
      modifies this`files, this`resume, this`phase, this`reports, this`history, this`labels, store
      ensures Valid() && Rising(reports, floor) && (r.Ok? ==> Prepared())
      ensures r.Ok? && !r.value.stopped ==> AtTrack(track + 1, written + r.value.bytes, floor)
      ensures r.Ok? && r.value.stopped && store != null ==> written + r.value.bytes == StartingBytes()
    {
      hide Inv, IsHistory, Fresh, StoredIn, Consistent, ThreePaths;
      StartingBytesAdd();
      DurableBytesMatch();
      assert WholeLength(0) == 0 && WholeLength(1) == |plan.Whole(0)|;
      assert track == 0 || (track == 1 && |plan.bodies| == 2);
      r := WriteTrack(track, written, floor);
      StartingBytesAdd();
      DurableBytesMatch();
      if r.Ok? && !r.value.stopped {
        BoundaryIsExact();
      }
    }

    lemma DurableBytesMatch()
      requires Valid()
      ensures CheckpointOf(Row(), 0).nextResource == |plan.bodies[0]| ==>
                CheckpointOf(Row(), 0).durableBytes == |plan.Whole(0)|
      ensures |plan.bodies| == 2 && CheckpointOf(Row(), 0).nextResource != |plan.bodies[0]| ==>
                CheckpointOf(Row(), 1) == START
      ensures CheckpointOf(Row(), 0).durableBytes <= |plan.Whole(0)|
    {
      assert CheckpointHolds(plan, Row(), files[0], 0);
      FlattenGrows(plan.bodies[0], CheckpointOf(Row(), 0).nextResource, |plan.bodies[0]|);
    }

    /** Writes every track in order, the second counting on from the first; `unsummed` when the counts have no sum. */
    method WriteTracks() returns (r: Result<Written, Failure>, unsummed: bool)
      requires Valid() && Prepared() && phase == Idle
      modifies this`files, this`resume, this`phase, this`reports, this`history, this`labels, store
      ensures Valid() && (r.Ok? ==> Prepared())
      ensures Rising(reports, old(StartingBytes()))
      ensures r.Ok? && !r.value.stopped ==> Staged() && r.value.bytes == WholeLength(|plan.bodies|)
      ensures r.Ok? && r.value.stopped && store != null ==> r.value.bytes == StartingBytes()
    {
      hide Inv, IsHistory;
      reports, unsummed := [], false;
      var written: nat := 0;
      ghost var floor := StartingBytes();
      for track := 0 to |plan.bodies|
        invariant Valid() && Prepared() && AtTrack(track, written, floor)
      {
        var result := WriteNextTrack(track, written, floor);
        if result.Err? {
          return Err(result.error), false;
        }
        if written + result.value.bytes > U64_MAX {
          return Err(SizeOverflow), true;
        }
        written := written + result.value.bytes;
        if result.value.stopped {
          return Ok(Written(written, true)), false;
        }
      }
      EveryTrackIsStaged(written, floor);
      r := Ok(Written(written, false));
    }

    lemma EveryTrackIsStaged(written: nat, floor: nat)
      requires Valid() && AtTrack(|plan.bodies|, written, floor)
      ensures Staged()
    {
    }

    ghost function StartingBytes(): nat
      requires store != null ==> store.Valid()
      reads this, store
    {
      if Row().None? then 0 else Row().value.StartingBytes()
    }

    lemma StartingBytesAdd()
      requires Valid()
      ensures StartingBytes() ==
              CheckpointOf(Row(), 0).durableBytes +
              if |plan.bodies| == 2 then CheckpointOf(Row(), 1).durableBytes else 0
    {
      if Row().Some? {
        DurableBytesFit(0);
        if |plan.bodies| == 1 {
          StartingBytesOfOne(Row().value, Row().value.tracks[0]);
        } else {
          DurableBytesFit(1);
          StartingBytesOfTwo(Row().value, Row().value.tracks[0], Row().value.tracks[1]);
        }
      }
    }

    /** Makes one file of two tracks, at the partial path. What is in it is not part of this model. */
    method Mux() returns (r: Result<(), Failure>)
      requires Valid() && |plan.bodies| == 2
      modifies this`rest
      ensures Valid() && (r.Ok? ==> rest[0].Regular?)
    {
      var made: Entry := *;
      if made.Valid() {
        rest := [made];
      }
      r := if made.Valid() && made.Regular? then Ok(()) else Err(Muxing);
    }

    /**
     One attempt. It finishes only with every track exactly staged; stopped to be paused, it reports what
     the next attempt starts from. Without a store a track that fails takes the staging files with it, but two
     tracks whose counts have no sum, or that cannot be made one file, leave them.
     */
    method TransferControlled() returns (r: Result<Outcome, Failure>)
      requires Valid() && Prepared() && phase == Idle
      modifies this`files, this`rest, this`resume, this`phase, this`reports, this`history, this`labels, store
      ensures Valid() && phase == Idle
      ensures Rising(reports, old(StartingBytes()))
      ensures r.Ok? && r.value.Finished? ==> Staged() && r.value.written == WholeLength(|plan.bodies|)
      ensures r.Ok? && r.value.Stopped? && Row().Some? ==> r.value.written == StartingBytes()
    {
      hide Inv, IsHistory, Fresh, StoredIn, Consistent, ThreePaths;
      var result, unsummed := WriteTracks();
      Leave();
      if result.Err? {
        if resume.None? && !unsummed {
          CleanupStaging(false);
        }
        return Err(result.error);
      }
      if result.value.stopped {
        var cancel := Environment.Choice();
        if cancel {
          CleanupStaging(true);
        }
        return Ok(Stopped(result.value.bytes));
      }
      if |plan.bodies| == 2 {
        var muxed := Mux();
        if muxed.Err? {
          return Err(muxed.error);
        }
      }
      r := Ok(Finished(result.value.bytes));
    }

    /** What is at the partial path: the one track, or the file two tracks were made into. */
    function PartialFile(): Entry
      requires if |plan.bodies| == 1 then |files| > 0 else |rest| > 0
      reads this
    {
      if |plan.bodies| == 1 then files[0] else rest[0]
    }

    /** After publication: the checkpoint goes, then the two tracks that were made into one file; failures are ignored. */
    method Settle(moved: bool)
      requires Valid() && phase == Idle && PartialFile().Regular?
      modifies this`files, this`rest, this`history, this`labels, store
      ensures Valid() && phase == Idle
      ensures Row() == old(Row()) || Row().None?
    {
      if moved && |plan.bodies| == 1 {
        files := files[0 := Missing];
        Took(Label.Remove(0));
      } else if moved {
        rest := rest[0 := Missing];
      }
      if store != null {
        var _ := ClearRow();
      }
      if |plan.bodies| == 2 {
        for track := 0 to 2
          invariant Valid() && phase == Idle && |plan.bodies| == 2
          invariant Row() == old(Row()) || Row().None?
        {
          var _ := RemoveStagingFile(track);
        }
      }
    }
  }
}
