// Running a direct HTTP download (crates/gunda-http/src/executor.rs and partial.rs). Every effect is
// recorded as a step of the protocol.
module HttpExecutor {
  import opened Basics
  import opened Staging
  import opened HttpBodies
  import opened HttpClient
  import opened HttpStorage
  import opened HttpProtocol
  import opened Progress
  import opened Stores
  import Environment

  const CHECKPOINT_BYTES: nat := 8 * 1024 * 1024

  datatype Failure =
    | Http(error: HttpError)
    | File
    | CountOverflow
    | InvalidBodyState
    | InvalidPartial
    | RecoveryIntegrity
    | ResumeStore(kind: StoreError)

  datatype Outcome = Finished(written: nat) | Stopped(written: nat)

  /** How a transfer will run: from zero, or on from a checkpoint with the body that completes it. */
  datatype Prepared =
    | FreshTransfer(body: HttpBody, metadata: Inspection)
    | Resumed(rest: Option<HttpBody>, state: HttpResumeState)

  /** A GET for the whole resource: no answer, or any answer an honest origin might give. */
  method FetchWhole(reps: Representations) returns (r: Result<Response, HttpError>)
    ensures r.Ok? ==> HonestWhole(reps, r.value)
  {
    r := *;
    if r.Ok? && !HonestWhole(reps, r.value) {
      r := Err(Transport);
    }
  }

  /** A conditional GET for the rest of a representation. */
  method FetchTail(reps: Representations, validator: Bytes) returns (r: Result<Response, HttpError>)
    ensures r.Ok? ==> HonestTail(reps, r.value, validator)
  {
    r := *;
    if r.Ok? && !HonestTail(reps, r.value, validator) {
      r := Err(Transport);
    }
  }

  /** The body still to be read continues `whole` at `from` and is counted to end where it ends. */
  ghost predicate Continues(s: BodyState, whole: Bytes, from: nat) {
    && s.Valid()
    && from <= |whole|
    && s.limit.Some? && s.received <= s.limit.value
    && from + (s.limit.value - s.received) == |whole|
    && (s.response.Some? ==> Agrees(Payload(s.response.value), whole, from))
  }

  /** One read of such a body: what it yields is next, and the good end comes only at the end. */
  lemma NextContinues(s: BodyState, whole: Bytes, from: nat)
    requires Continues(s, whole, from)
    ensures var (after, chunk) := Next(s);
            match chunk
            case Err(_) => true
            case Ok(None) => (s.response.Some? ==> from == |whole|)
            case Ok(Some(bytes)) =>
              && from + |bytes| <= |whole|
              && bytes == whole[from..from + |bytes|]
              && Continues(after, whole, from + |bytes|)
  {
    hide Next, Payload;
    NextConsumes(s);
    var (after, chunk) := Next(s);
    if chunk == Ok(None) && s.response.Some? {
      GoodEndIsComplete(s);
    }
    if chunk.Ok? && chunk.value.Some? {
      AgreesSplit(chunk.value.value, Payload(after.response.value), whole, from);
    }
  }

  lemma AgreesSplit(head: Bytes, tail: Bytes, whole: Bytes, from: nat)
    requires Agrees(head + tail, whole, from)
    ensures Agrees(tail, whole, from + |head|)
    ensures from + |head| <= |whole| ==> head == whole[from..from + |head|]
  {
    assert forall i :: 0 <= i < |head| ==> (head + tail)[i] == head[i];
    assert forall i :: 0 <= i < |tail| ==> (head + tail)[|head| + i] == tail[i];
  }

  lemma HistoryGrows(reps: Representations, history: seq<Config>, labels: seq<Label>, l: Label, c: Config)
    requires IsHistory(reps, history, labels)
    requires Step(reps, history[|history| - 1], l, c)
    ensures IsHistory(reps, history + [c], labels + [l])
  {
  }

  class HttpDownload {
    const reps: Representations
    const id: nat
    const store: HttpStore?
    var file: Entry
    var resumeState: Option<HttpResumeState>
    var reports: seq<nat>
    ghost var phase: Phase
    ghost var history: seq<Config>
    ghost var labels: seq<Label>

    ghost function Row(): Option<HttpResumeState>
      reads this, store
    {
      if store == null then None else store.Stored(id)
    }

    ghost function Now(): Config
      reads this, store
    {
      Config(file, Row(), phase)
    }

    /** The recorded history starts from nothing, leads here by protocol steps, and so is safe here. */
    ghost predicate Valid()
      reads this, store
    {
      && (store != null ==> store.Valid())
      && IsHistory(reps, history, labels)
      && Fresh(history[0])
      && history[|history| - 1] == Now()
      && Inv(reps, Now())
    }

    constructor (reps: Representations, id: nat, store: HttpStore?)
      requires store != null ==> store.Valid() && store.Stored(id).None?
      ensures Valid() && Now() == history[0]
      ensures this.reps == reps && this.id == id && this.store == store
    {
      this.reps, this.id, this.store := reps, id, store;
      file, resumeState, reports := Missing, None, [];
      phase := Idle;
      history, labels := [Config(Missing, None, Idle)], [];
    }

    /** Records that the effect just made was the protocol step `l`. */
    ghost method Took(l: Label)
      requires store != null ==> store.Valid()
      requires IsHistory(reps, history, labels) && Fresh(history[0])
      requires Inv(reps, history[|history| - 1])
      requires Step(reps, history[|history| - 1], l, Now())
      modifies this`history, this`labels
      ensures Valid()
      ensures history == old(history) + [Now()] && labels == old(labels) + [l]
    {
      StepKeepsInv(reps, history[|history| - 1], l, Now());
      HistoryGrows(reps, history, labels, l, Now());
      history, labels := history + [Now()], labels + [l];
    }

    method Leave()
      requires Valid()
      modifies this`phase, this`history, this`labels
      ensures Valid() && phase == Idle
    {
      phase := Idle;
      Took(Label.Leave);
    }

    /** The process dies: memory is lost and the file keeps what a crash keeps. */
    method Crash()
      requires Valid()
      modifies this
      ensures Valid() && phase == Idle && Row() == old(Row())
      ensures Survives(old(file), file)
    {
      resumeState, reports, phase := None, [], Idle;
      file := Wreck(file);
      Took(Label.Crash);
    }

    /** What the checks made without asking the server demand of a checkpoint. */
    ghost predicate Resumable(savedTotal: Option<nat>, isFile: bool, planned: bool, outputFree: bool)
      requires store != null ==> store.Valid()
      reads this, store
    {
      && Row().Some?
      && savedTotal == Some(Row().value.total) && isFile && planned
      && (Row().value.durable == Row().value.total ==> outputFree)
      && file.Regular? && Row().value.durable <= |file.content|
    }

    /** Resuming is offered, to a job that stands idle, exactly when those checks would pass. */
    method CanResume(idle: bool, savedTotal: Option<nat>, isFile: bool, planned: bool, outputFree: bool)
        returns (r: Result<bool, Failure>)
      requires Valid()
      ensures r.Ok? ==> r.value == (idle && Resumable(savedTotal, isFile, planned, outputFree))
      ensures r.Err? ==> r.error == ResumeStore(Internal)
    {
      if !idle || !isFile {
        return Ok(false);
      }
      if store == null {
        return Ok(false);
      }
      var found := store.Find(id);
      if found.Err? {
        return Err(ResumeStore(found.error));
      }
      if found.value.None? || savedTotal != Some(found.value.value.total) || !planned {
        return Ok(false);
      }
      var state := found.value.value;
      if state.durable == state.total && !outputFree {
        return Ok(false);
      }
      r := Ok(file.Regular? && state.durable <= |file.content|);
    }

    /** Chooses how to run: from zero, from zero under a saved identity, from the middle, or with nothing left to fetch. */
    method Prepare(savedTotal: Option<nat>, isFile: bool, planned: bool, outputFree: bool)
        returns (r: Result<Prepared, Failure>)
      requires Valid() && phase == Idle
      ensures r.Ok? && r.value.FreshTransfer? ==>
                && Row().None?
                && fresh(r.value.body) && IsFreshBody(r.value.body, r.value.metadata)
      ensures r.Ok? && r.value.Resumed? ==>
                && store != null && Row() == Some(r.value.state)
                && (r.value.rest.Some? ==> fresh(r.value.rest.value) && r.value.rest.value.State().IsUnconsumed())
                && Completes(r.value.rest, r.value.state)
      ensures r.Ok? && Row().Some? ==> r.value.Resumed? && Resumable(savedTotal, isFile, planned, outputFree)
      ensures Resumable(savedTotal, isFile, planned, outputFree) && Row().value.durable == Row().value.total ==>
                r.Ok? || r.error == ResumeStore(Internal)
    {
      if store == null {
        r := OpenFresh();
        return;
      }
      var found := store.Find(id);
      if found.Err? {
        return Err(ResumeStore(found.error));
      }
      if found.value.None? {
        r := OpenFresh();
        return;
      }
      var state := found.value.value;
      if savedTotal != Some(state.total) || !isFile || !planned {
        return Err(RecoveryIntegrity);
      }
      if state.durable == state.total && !outputFree {
        return Err(Failure.File);
      }
      if !file.Regular? || |file.content| < state.durable {
        return Err(RecoveryIntegrity);
      }
      if state.durable == state.total {
        r := Ok(Resumed(None, state));
      } else if state.durable == 0 {
        r := OpenWhole(state);
      } else {
        r := OpenRest(state);
      }
    }

    /** The response's body, unread, and what it is known to be. */
    ghost predicate IsFreshBody(body: HttpBody, metadata: Inspection)
      reads body
    {
      && body.State().IsUnconsumed() && body.State().limit == metadata.contentLength
      && body.State().Valid()
      && (metadata.strongEtag.Some? && metadata.contentLength.Some? ==>
            && metadata.strongEtag.value in reps
            && Continues(body.State(), reps[metadata.strongEtag.value], 0))
    }

    /** What is left to read, if anything, completes the representation from the checkpoint on. */
    ghost predicate Completes(rest: Option<HttpBody>, state: HttpResumeState)
      reads if rest.Some? then {rest.value} else {}
    {
      && state.tag in reps && state.total == |reps[state.tag]|
      && (rest.None? ==> state.durable == state.total)
      && (rest.Some? ==> Continues(rest.value.State(), reps[state.tag], state.durable))
    }

    method OpenFresh() returns (r: Result<Prepared, Failure>)
      requires Valid() && Row().None?
      ensures r.Ok? ==> r.value.FreshTransfer? && fresh(r.value.body) && IsFreshBody(r.value.body, r.value.metadata)
    {
      var response := FetchWhole(reps);
      if response.Err? {
        return Err(Http(response.error));
      }
      var metadata := InspectResponse(response.value);
      if metadata.Err? {
        return Err(Http(metadata.error));
      }
      var body := new HttpBody(metadata.value.contentLength, response.value.wire);
      r := Ok(FreshTransfer(body, metadata.value));
    }

    method OpenWhole(state: HttpResumeState) returns (r: Result<Prepared, Failure>)
      requires Valid() && Row() == Some(state) && state.durable == 0
      ensures r.Ok? ==>
                && r.value.Resumed? && r.value.state == state && r.value.rest.Some?
                && fresh(r.value.rest.value) && r.value.rest.value.State().IsUnconsumed()
                && Completes(r.value.rest, state)
    {
      hide InspectResponse;
      var response := FetchWhole(reps);
      if response.Err? {
        return Err(Http(response.error));
      }
      var metadata := InspectResponse(response.value);
      if metadata.Err? {
        return Err(Http(metadata.error));
      }
      if metadata.value.contentLength != Some(state.total) || metadata.value.strongEtag != Some(state.tag) {
        return Err(RecoveryIntegrity);
      }
      var body := new HttpBody(metadata.value.contentLength, response.value.wire);
      r := Ok(Resumed(Some(body), state));
    }

    method OpenRest(state: HttpResumeState) returns (r: Result<Prepared, Failure>)
      requires Valid() && Row() == Some(state) && 0 < state.durable < state.total
      ensures r.Ok? ==>
                && r.value.Resumed? && r.value.state == state && r.value.rest.Some?
                && fresh(r.value.rest.value) && r.value.rest.value.State().IsUnconsumed()
                && Completes(r.value.rest, state)
    {
      hide OpenRange, HonestTail, Payload;
      var response := FetchTail(reps, state.tag);
      if response.Err? {
        return Err(Http(response.error));
      }
      var metadata := OpenRange(response.value, state.durable, state.total, state.tag);
      if metadata.Err? {
        // The server no longer has what the checkpoint describes.
        var gone := metadata.error.UnexpectedStatus? && metadata.error.status in {200, 412, 416};
        return Err(if gone then RecoveryIntegrity else Http(metadata.error));
      }
      AcceptedTailIsTheRest(reps, response.value, state.durable, state.total, state.tag);
      var body := new HttpBody(metadata.value.contentLength, response.value.wire);
      r := Ok(Resumed(Some(body), state));
    }

    /** The run holds in memory the checkpoint that is stored, exactly when it stages a known representation. */
    ghost predicate InStep()
      reads this, store
    {
      && phase.Streaming?
      && resumeState == Row()
      && (phase.source.Some? <==> resumeState.Some?)
    }

    /** The rest of the body continues what is staged. */
    ghost predicate Feeds(rest: Option<HttpBody>)
      requires phase.Streaming?
      reads this, if rest.Some? then {rest.value} else {}
    {
      && (rest.Some? ==> rest.value.response.Some?)
      && if phase.source.None? then
        rest.Some? && rest.value.State().Valid() && rest.value.State().received == phase.written
      else
        && phase.source.value in reps
        && if rest.Some? then Continues(rest.value.State(), reps[phase.source.value], phase.written)
           else phase.written == |reps[phase.source.value]|
    }

    /**
     Synchronises the file, then moves the checkpoint if it has moved. The count never exceeds the
     representation, so no checkpoint is refused: only the database can fail, and it may have stored it then.
     */
    method SyncCheckpoint() returns (r: Result<(), Failure>)
      requires Valid() && InStep()
      modifies this`file, this`resumeState, this`history, this`labels, store
      ensures Valid() && (r.Ok? ==> InStep())
      ensures r.Ok? ==> file == file.Synced() && file.content == old(file.content)
      ensures file.Regular? && file.content == old(file.content)
      ensures r.Ok? && resumeState.Some? ==> resumeState.value.durable == phase.written
      ensures r.Err? ==> r.error == Failure.File || r.error == ResumeStore(Internal)
    {
      hide IsHistory;
      var up := Environment.Choice();
      if !up {
        return Err(Failure.File);
      }
      file := file.Synced();
      Took(Label.Sync);
      if resumeState.None? || resumeState.value.durable == |file.content| {
        return Ok(());
      }
      if store == null {
        return Err(ResumeStore(InvalidData));
      }
      var current := resumeState.value;
      var candidate := New(current.tag, current.total, |file.content|);
      if candidate.None? {
        return Err(ResumeStore(InvalidData));
      }
      var persisted := store.SaveCheckpoint(id, candidate.value);
      if Row() == candidate {
        Took(Label.Save);
      }
      if persisted.Err? {
        return Err(ResumeStore(persisted.error));
      }
      if persisted.value != candidate.value {
        return Err(ResumeStore(InvalidData));
      }
      resumeState := Some(persisted.value);
      r := Ok(());
    }

    /** Writes one chunk; a write that fails leaves any part of it, or anything else, behind. */
    method WriteChunk(chunk: Bytes) returns (r: Result<(), Failure>)
      requires Valid() && InStep()
      requires phase.source.Some? ==>
                 && phase.source.value in reps
                 && phase.written + |chunk| <= |reps[phase.source.value]|
                 && chunk == reps[phase.source.value][phase.written..phase.written + |chunk|]
      modifies this`file, this`phase, this`history, this`labels
      ensures Valid()
      ensures r.Ok? ==> InStep() && phase == old(phase).(written := old(phase).written + |chunk|)
      ensures r.Ok? ==> file.Regular? && old(file).Regular? && file.content == old(file.content) + chunk
      ensures r.Err? ==> r.error == Failure.File
    {
      hide IsHistory;
      var up := Environment.Choice();
      if !up {
        var junk: Bytes := *;
        file, phase := file.Appended(junk), Idle;
        Took(Label.Torn(junk));
        return Err(Failure.File);
      }
      file := file.Appended(chunk);
      phase := phase.(written := phase.written + |chunk|);
      Took(Label.Arrive(chunk));
      up := Environment.Choice();
      r := if up then Ok(()) else Err(Failure.File);
    }

    /** Removes the staging file of a failed transfer that has no checkpoint. */
    method DiscardOwnedPartial() returns (r: Result<(), Failure>)
      requires Valid() && phase == Idle
      modifies this`file, this`history, this`labels
      ensures Valid() && phase == Idle
      ensures r.Ok? ==> file.Missing?
    {
      if !file.Regular? {
        return Err(InvalidPartial);
      }
      var up := Environment.Choice();
      if !up {
        return Err(Failure.File);
      }
      file := Missing;
      Took(Label.Discard);
      r := Ok(());
    }

    /** What is left on the wire of a body, if there is one. */
    ghost function Left(rest: Option<HttpBody>): (bytes: Bytes)
      reads if rest.Some? then {rest.value} else {}
    {
      if rest.Some? && rest.value.response.Some? then Payload(rest.value.response.value) else []
    }

    /** Will the transport end well? */
    ghost predicate WillEnd(rest: Option<HttpBody>)
      reads if rest.Some? then {rest.value} else {}
    {
      rest.Some? && rest.value.response.Some? && EndsWell(rest.value.response.value)
    }

    /** Reads one chunk and writes it; `None` is the good end of the body. */
    method WriteNext(body: HttpBody, written: nat, ghost floor: nat) returns (r: Result<Option<nat>, Failure>)
      requires Valid() && InStep() && Feeds(Some(body)) && phase.written == written <= U64_MAX
      requires Rising(reports, floor) && LastAtMost(reports, phase.written) && floor <= phase.written
      modifies this, store, body
      ensures Valid() && Rising(reports, floor)
      ensures r.Ok? ==> InStep() && phase.source == old(phase.source)
      ensures r.Ok? && r.value.None? ==>
                && phase == old(phase) && LastAtMost(reports, phase.written)
                && file == old(file) && Left(Some(body)) == old(Left(Some(body))) == [] && old(WillEnd(Some(body)))
                && (phase.source.Some? ==>
                      phase.source.value in reps && phase.written == |reps[phase.source.value]|)
                && (phase.source.None? && body.contentLength.Some? ==> phase.written == body.contentLength.value)
      ensures r.Ok? && r.value.Some? ==>
                && r.value.value > 0
                && phase.written == old(phase.written) + r.value.value <= U64_MAX
                && Feeds(Some(body)) && LastAtMost(reports, phase.written)
                && |body.response.value| < old(|body.response.value|)
                && file.Regular? && old(file).Regular?
                && file.content + Left(Some(body)) == old(file.content) + old(Left(Some(body)))
                && WillEnd(Some(body)) == old(WillEnd(Some(body)))
    {
      hide Inv, IsHistory, Continues, Next, Payload, EndsWell, HttpStore.Valid, Fresh;
      NextFeeds(body);
      NextConsumes(body.State());
      var chunk := body.NextChunk();
      if chunk.Err? {
        if resumeState.None? {
          Leave();
          var discarded := DiscardOwnedPartial();
          return Err(if discarded.Err? then discarded.error else Http(chunk.error));
        }
        var saved := SyncCheckpoint();
        return Err(if saved.Err? then saved.error else Http(chunk.error));
      }
      if chunk.value.None? {
        return Ok(None);
      }
      var bytes := chunk.value.value;
      if written + |bytes| > U64_MAX {
        return Err(CountOverflow);
      }
      var wrote := WriteChunk(bytes);
      if wrote.Err? {
        return Err(wrote.error);
      }
      reports := reports + [written + |bytes|];
      r := Ok(Some(|bytes|));
    }

    /** Appends the rest of the body to the staging file. */
    method StreamToPartial(rest: Option<HttpBody>, ghost floor: nat) returns (r: Result<Outcome, Failure>)
      requires Valid() && InStep() && Feeds(rest) && phase.written <= U64_MAX
      requires Rising(reports, floor) && LastAtMost(reports, phase.written) && floor <= phase.written
      modifies this, store, if rest.Some? then {rest.value} else {}
      ensures Valid() && Rising(reports, floor)
      ensures r.Ok? ==> InStep() && phase.source == old(phase.source)
      ensures r.Ok? && r.value.Finished? ==>
                && file.Regular? && file == file.Synced() && |file.content| == r.value.written
                && old(file).Regular? && file.content == old(file.content) + old(Left(rest))
                && (rest.Some? ==> old(WillEnd(rest)))
                && (rest.Some? && rest.value.contentLength.Some? && old(phase.source).None? ==>
                      r.value.written == rest.value.contentLength.value)
                && (resumeState.Some? ==>
                      && resumeState.value.durable == resumeState.value.total == r.value.written
                      && file.content == reps[resumeState.value.tag])
      ensures r.Ok? && r.value.Stopped? && resumeState.Some? ==> r.value.written == resumeState.value.durable
    {
      hide Inv, IsHistory, Continues, Left, WillEnd, Rising, LastAtMost, HttpStore.Valid, Fresh;
      StagedWhole();
      var written: nat := |file.content|;
      var lastCheckpoint: nat := written;
      while true
        invariant Valid() && InStep() && Feeds(rest) && phase.source == old(phase.source)
        invariant lastCheckpoint <= written == phase.written <= U64_MAX
        invariant file.Regular? && file.content + Left(rest) == old(file.content) + old(Left(rest))
        invariant rest.Some? ==> WillEnd(rest) == old(WillEnd(rest))
        invariant Rising(reports, floor) && LastAtMost(reports, written) && floor <= written
        decreases if rest.Some? && rest.value.response.Some? then |rest.value.response.value| else 0
      {
        var cancelled := Environment.Choice();
        if cancelled {
          r := StopHere(written);
          return;
        }
        if rest.None? {
          NothingLeft();
          break;
        }
        var wrote := WriteNext(rest.value, written, floor);
        if wrote.Err? {
          return Err(wrote.error);
        }
        if wrote.value.None? {
          break;
        }
        written := written + wrote.value.value;
        var checkpointed := CheckpointIfDue(written, lastCheckpoint);
        if checkpointed.Err? {
          return Err(checkpointed.error);
        }
        lastCheckpoint := checkpointed.value;
      }
      assert Left(rest) == [] && file.content + [] == file.content;
      r := EndHere(written);
    }

    /** Moves the checkpoint when enough was written, or enough time passed, since it last moved; says where it is then. */
    method CheckpointIfDue(written: nat, lastCheckpoint: nat) returns (r: Result<nat, Failure>)
      requires Valid() && InStep() && lastCheckpoint <= written == phase.written
      modifies this`file, this`resumeState, this`history, this`labels, store
      ensures Valid() && (r.Ok? ==> InStep() && r.value <= written)
      ensures file.Regular? && file.content == old(file.content)
    {
      hide Inv, IsHistory;
      StagedWhole();
      var overdue := Environment.Choice();
      if resumeState.None? || (written - lastCheckpoint < CHECKPOINT_BYTES && !overdue) {
        return Ok(lastCheckpoint);
      }
      var saved := SyncCheckpoint();
      r := if saved.Ok? then Ok(written) else Err(saved.error);
    }

    /** Cancelled while receiving: stops at what is written, once that is checkpointed. */
    method StopHere(written: nat) returns (r: Result<Outcome, Failure>)
      requires Valid() && InStep() && phase.written == written
      modifies this`file, this`resumeState, this`history, this`labels, store
      ensures Valid() && (r.Ok? ==> r.value == Stopped(written) && InStep())
      ensures r.Ok? && resumeState.Some? ==> written == resumeState.value.durable
    {
      hide Inv, IsHistory;
      var saved := SyncCheckpoint();
      r := if saved.Ok? then Ok(Stopped(written)) else Err(saved.error);
    }

    /** Nothing is left to receive: what is written is checkpointed, and that finishes it unless it was cancelled by then. */
    method EndHere(written: nat) returns (r: Result<Outcome, Failure>)
      requires Valid() && InStep() && phase.written == written
      requires phase.source.Some? ==> phase.source.value in reps && written == |reps[phase.source.value]|
      modifies this`file, this`resumeState, this`history, this`labels, store
      ensures Valid() && (r.Ok? ==> r.value.written == written && InStep())
      ensures r.Ok? ==> file.Regular? && old(file).Regular? && file == file.Synced() && file.content == old(file.content)
      ensures r.Ok? ==> |file.content| == written
      ensures r.Ok? && resumeState.Some? ==>
                && resumeState.value.durable == resumeState.value.total == written
                && resumeState.value.tag in reps && file.content == reps[resumeState.value.tag]
    {
      hide Inv, IsHistory;
      StagedWhole();
      var saved := SyncCheckpoint();
      if saved.Err? {
        return Err(saved.error);
      }
      StagedWhole();
      var cancelled := Environment.Choice();
      r := Ok(if cancelled then Stopped(written) else Finished(written));
    }

    lemma NothingLeft()
      ensures Left(None) == []
    {
    }

    /** A representation staged to its length is staged exactly. */
    lemma StagedWhole()
      requires Valid() && InStep()
      ensures file.Regular? && |file.content| == phase.written
      ensures resumeState.Some? ==>
                && phase.source == Some(resumeState.value.tag)
                && resumeState.value.tag in reps && resumeState.value.total == |reps[resumeState.value.tag]|
                && (phase.written == resumeState.value.total ==> file.content == reps[resumeState.value.tag])
    {
    }

    lemma NextFeeds(body: HttpBody)
      requires Valid() && InStep() && Feeds(Some(body))
      ensures var (after, chunk) := Next(body.State());
              && after.Valid()
              && (chunk == Ok(None) ==>
                    && (phase.source.Some? ==> phase.written == |reps[phase.source.value]|)
                    && (phase.source.None? && body.contentLength.Some? ==> phase.written == body.contentLength.value)
                    && Left(Some(body)) == [] && WillEnd(Some(body)) && after.response.None?)
              && (chunk.Ok? && chunk.value.Some? ==>
                    var bytes := chunk.value.value;
                    && bytes != []
                    && after.response.Some? && body.response.Some?
                    && |after.response.value| < |body.response.value|
                    && (phase.source.None? ==> after.received == phase.written + |bytes|)
                    && (phase.source.Some? ==>
                          && phase.written + |bytes| <= |reps[phase.source.value]|
                          && bytes == reps[phase.source.value][phase.written..phase.written + |bytes|]
                          && Continues(after, reps[phase.source.value], phase.written + |bytes|)))
    {
      NextConsumes(body.State());
      if Next(body.State()).1 == Ok(None) {
        GoodEndIsEnd(body.State());
        if body.contentLength.Some? {
          GoodEndIsComplete(body.State());
        }
      }
      if phase.source.Some? {
        NextContinues(body.State(), reps[phase.source.value], phase.written);
      }
    }

    /** A transfer from zero: creates the staging file, and a checkpoint if the response can be resumed. */
    method WriteBodyToPartial(body: HttpBody, metadata: Inspection) returns (r: Result<Outcome, Failure>)
      requires Valid() && phase == Idle && Row().None? && IsFreshBody(body, metadata)
      modifies this, store, body
      ensures Valid() && Rising(reports, 0)
      ensures r.Ok? && r.value.Finished? ==> Exact(r.value.written)
      ensures r.Ok? && r.value.Finished? ==> file.content == old(Left(Some(body))) && old(WillEnd(Some(body)))
      ensures r.Ok? && r.value.Finished? && metadata.contentLength.Some? ==> r.value.written == metadata.contentLength.value
      ensures r.Ok? && r.value.Finished? && metadata.strongEtag.Some? && metadata.contentLength.Some? ==>
                metadata.strongEtag.value in reps && file.content == reps[metadata.strongEtag.value]
      ensures r.Ok? && r.value.Stopped? && Row().Some? ==> r.value.written == Row().value.durable
    {
      hide IsHistory, Continues, Inv, Left, WillEnd, HttpStore.Valid, Fresh, BodyState.Valid;
      reports, resumeState := [], None;
      if body.response.None? || body.failure.Some? || body.receivedBytes != 0 {
        return Err(InvalidBodyState);
      }
      var cancelled := Environment.Choice();
      if cancelled {
        return Ok(Stopped(0));
      }
      var empty := NothingStored();
      if empty.Err? {
        return Err(empty.error);
      }
      cancelled := Environment.Choice();
      if cancelled {
        return Ok(Stopped(0));
      }
      if metadata.strongEtag.Some? && metadata.contentLength.Some? {
        LengthIsRepresentation(body, metadata);
      }
      r := ReceiveWhole(body, metadata);
    }

    /** Creates the file and receives into it; what was asked before it no longer matters. */
    method ReceiveWhole(body: HttpBody, metadata: Inspection) returns (r: Result<Outcome, Failure>)
      requires Valid() && phase == Idle && Row().None? && IsFreshBody(body, metadata)
      requires reports == [] && resumeState.None?
      modifies this, store, body
      ensures Valid() && Rising(reports, 0)
      ensures r.Ok? && r.value.Finished? ==> Exact(r.value.written)
      ensures r.Ok? && r.value.Finished? ==> file.content == old(Left(Some(body))) && old(WillEnd(Some(body)))
      ensures r.Ok? && r.value.Finished? && metadata.contentLength.Some? ==> r.value.written == metadata.contentLength.value
      ensures r.Ok? && r.value.Stopped? && Row().Some? ==> r.value.written == Row().value.durable
    {
      hide IsHistory, Continues, Inv, Left, WillEnd, HttpStore.Valid, Fresh;
      if metadata.strongEtag.Some? && metadata.contentLength.Some? {
        LengthIsRepresentation(body, metadata);
      }
      var created := CreatePartial(metadata);
      if created.Err? {
        return Err(created.error);
      }
      assert [] + Left(Some(body)) == Left(Some(body));
      r := StreamToPartial(Some(body), 0);
      ExactWhenFinished();
    }

    /** Asks the store once more, before anything is created. */
    method NothingStored() returns (r: Result<(), Failure>)
      requires Valid()
      ensures r.Ok? ==> Row().None?
      ensures r.Err? ==> r.error.ResumeStore?
    {
      if store == null {
        return Ok(());
      }
      var found := store.Find(id);
      if found.Err? {
        return Err(ResumeStore(found.error));
      }
      r := if found.value.None? then Ok(()) else Err(ResumeStore(ConstraintViolation));
    }

    /** Creates the staging file, never over an existing path, and its identity when there is one. */
    method CreatePartial(metadata: Inspection) returns (r: Result<(), Failure>)
      requires Valid() && phase == Idle && Row().None? && resumeState.None?
      requires metadata.strongEtag.Some? && metadata.contentLength.Some? ==>
                 metadata.strongEtag.value in reps && metadata.contentLength.value == |reps[metadata.strongEtag.value]|
      modifies this`file, this`resumeState, this`phase, this`history, this`labels, store
      ensures Valid()
      ensures r.Ok? ==> InStep() && file == EMPTY && phase.written == 0 &&
                        (phase.source.Some? ==> metadata.contentLength.Some? && phase.source == metadata.strongEtag)
    {
      hide IsHistory;
      var up := Environment.Choice();
      if !up || !file.Missing? {
        return Err(Failure.File);
      }
      file, phase := EMPTY, Streaming(None, 0);
      Took(Label.Create);
      up := Environment.Choice();
      if !up {
        return Err(Failure.File);
      }
      if store == null || metadata.strongEtag.None? || metadata.contentLength.None? {
        return Ok(());
      }
      r := Identify(metadata.strongEtag.value, metadata.contentLength.value);
    }

    /** Saves whose bytes are about to be staged, before any of them is. */
    method Identify(tag: Bytes, total: nat) returns (r: Result<(), Failure>)
      requires Valid() && phase == Streaming(None, 0) && Row().None? && resumeState.None? && store != null
      requires tag in reps && total == |reps[tag]|
      modifies this`resumeState, this`phase, this`history, this`labels, store
      ensures Valid()
      ensures r.Ok? ==> InStep() && phase == Streaming(Some(tag), 0)
    {
      hide IsHistory;
      var expected := New(tag, total, 0);
      if expected.None? {
        return Err(ResumeStore(InvalidData));
      }
      var persisted := store.Initialize(id, tag, total);
      if Row().Some? {
        phase := Streaming(Some(tag), 0);
        Took(Label.Initialize(tag));
      }
      if persisted.Err? {
        return Err(ResumeStore(persisted.error));
      }
      if persisted.value != expected.value {
        return Err(ResumeStore(InvalidData));
      }
      resumeState := Some(persisted.value);
      r := Ok(());
    }

    /** A transfer from a checkpoint: the file goes back to exactly what is durable, then the rest is appended. */
    method ResumeBodyToPartial(rest: Option<HttpBody>, state: HttpResumeState) returns (r: Result<Outcome, Failure>)
      requires Valid() && phase == Idle && Row() == Some(state)
      requires rest.Some? ==> rest.value.State().IsUnconsumed()
      requires Completes(rest, state)
      modifies this, store, if rest.Some? then {rest.value} else {}
      ensures Valid() && Rising(reports, state.durable)
      ensures r.Ok? && r.value.Finished? ==> Exact(r.value.written)
      ensures r.Ok? && r.value.Finished? ==>
                && old(file).Regular? && state.durable <= |old(file).content|
                && file.content == old(file).content[..state.durable] + old(Left(rest))
      ensures r.Ok? && r.value.Finished? ==> Row().Some? && Row().value.tag == state.tag && r.value.written == state.total
      ensures r.Ok? && r.value.Stopped? && Row().Some? ==> r.value.written == Row().value.durable
    {
      hide IsHistory, Continues, Inv, Left, WillEnd;
      reports, resumeState := [], Some(state);
      var cancelled := Environment.Choice();
      if cancelled {
        return Ok(Stopped(state.durable));
      }
      if !file.Regular? || |file.content| < state.durable {
        return Err(InvalidPartial);
      }
      var reopened := ReopenPartial(state);
      if reopened.Err? {
        return Err(reopened.error);
      }
      r := StreamToPartial(rest, state.durable);
      ExactWhenFinished();
    }

    /** Cuts what is not durable off the staging file and stands at its end. */
    method ReopenPartial(state: HttpResumeState) returns (r: Result<(), Failure>)
      requires Valid() && phase == Idle && Row() == Some(state) && resumeState == Row()
      requires file.Regular? && state.durable <= |file.content|
      modifies this`file, this`phase, this`history, this`labels
      ensures Valid()
      ensures r.Ok? ==> InStep() && phase == Streaming(Some(state.tag), state.durable)
      ensures r.Ok? ==> file.Regular? && file.content == old(file.content)[..state.durable]
    {
      hide IsHistory;
      var up := Environment.Choice();
      if !up {
        return Err(Failure.File);
      }
      var shorten := |file.content| != state.durable;
      file, phase := file.Truncated(state.durable), Streaming(Some(state.tag), state.durable);
      Took(Label.Reopen);
      if shorten {
        up := Environment.Choice();
        if !up {
          return Err(Failure.File);
        }
        file := file.Synced();
        Took(Label.Sync);
      }
      up := Environment.Choice();
      r := if up then Ok(()) else Err(Failure.File);
    }

    /** The staging file is stable, as long as said, and, under a saved identity, is the representation. */
    ghost predicate Exact(written: nat)
      reads this, store
    {
      && file.Regular? && file == file.Synced() && |file.content| == written
      && (Row().Some? ==> Row().value.tag in reps && file.content == reps[Row().value.tag])
    }

    lemma ExactWhenFinished()
      requires Valid()
      ensures phase.Streaming? && Row().Some? ==> Row().value.tag in reps && phase.source == Some(Row().value.tag)
    {
    }

    /** A response of a strong tag and a declared length sends that representation, if it sends that much. */
    lemma LengthIsRepresentation(body: HttpBody, metadata: Inspection)
      requires IsFreshBody(body, metadata) && metadata.strongEtag.Some? && metadata.contentLength.Some?
      ensures metadata.strongEtag.value in reps
      ensures metadata.contentLength.value == |reps[metadata.strongEtag.value]|
      ensures |Left(Some(body))| == metadata.contentLength.value ==> Left(Some(body)) == reps[metadata.strongEtag.value]
    {
      hide Payload;
      var (sent, whole) := (Left(Some(body)), reps[metadata.strongEtag.value]);
      if |sent| == metadata.contentLength.value {
        assert forall i :: 0 <= i < |sent| ==> sent[i] == whole[0 + i];
      }
    }

    /** One attempt, as prepared. */
    method TransferControlled(prepared: Prepared) returns (r: Result<Outcome, Failure>)
      requires Valid() && phase == Idle
      requires match prepared
               case FreshTransfer(body, metadata) => Row().None? && IsFreshBody(body, metadata)
               case Resumed(rest, state) =>
                 && Row() == Some(state) && Completes(rest, state)
                 && (rest.Some? ==> rest.value.State().IsUnconsumed())
      modifies this, store,
               match prepared
               case FreshTransfer(body, _) => {body}
               case Resumed(rest, _) => if rest.Some? then {rest.value} else {}
      ensures Valid() && phase == Idle
      ensures Rising(reports, if prepared.Resumed? then prepared.state.durable else 0)
      ensures r.Ok? && r.value.Finished? ==>
                && Exact(r.value.written)
                && (prepared.FreshTransfer? ==>
                      && file.content == old(Left(Some(prepared.body))) && old(WillEnd(Some(prepared.body)))
                      && (prepared.metadata.contentLength.Some? ==> r.value.written == prepared.metadata.contentLength.value)
                      && (prepared.metadata.strongEtag.Some? && prepared.metadata.contentLength.Some? ==>
                            && prepared.metadata.strongEtag.value in reps
                            && file.content == reps[prepared.metadata.strongEtag.value]))
                && (prepared.Resumed? ==>
                      && old(file).Regular? && prepared.state.durable <= |old(file).content|
                      && file.content == old(file).content[..prepared.state.durable] + old(Left(prepared.rest))
                      && Row().Some? && Row().value.tag == prepared.state.tag
                      && r.value.written == prepared.state.total)
      ensures r.Ok? && r.value.Stopped? && Row().Some? ==> r.value.written == Row().value.durable
    {
      hide Left, WillEnd;
      match prepared
      case FreshTransfer(body, metadata) =>
        r := WriteBodyToPartial(body, metadata);
        Leave();
      case Resumed(rest, state) =>
        r := ResumeBodyToPartial(rest, state);
        Leave();
    }

    /** Publication took the staging name away. */
    method Moved()
      requires Valid() && phase == Idle && file.Regular?
      modifies this`file, this`history, this`labels
      ensures Valid() && phase == Idle && file.Missing?
    {
      file := Missing;
      Took(Label.Discard);
    }

    /** Before a restart: the staging file gone first, and only then the checkpoint. */
    method ResetForRestart() returns (r: Result<(), Failure>)
      requires Valid() && phase == Idle
      modifies this`file, this`history, this`labels, store
      ensures Valid() && phase == Idle
      ensures r.Ok? ==> file.Missing? && Row().None?
      ensures Row() == old(Row()) || file.Missing?
    {
      if file.Other? {
        return Err(Failure.File);
      }
      if file.Regular? {
        r := DiscardOwnedPartial();
        if r.Err? {
          return;
        }
      }
      if store != null {
        var cleared := store.Clear(id);
        if Row().None? {
          Took(Label.Clear);
        }
        if cleared.Err? {
          return Err(ResumeStore(cleared.error));
        }
      }
      r := Ok(());
    }
  }
}
