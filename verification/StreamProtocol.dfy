// The segmented engine as a state machine over what survives and what does not: staging files and the
// stored checkpoint survive a crash, the engine's position does not. Every effect of the code in
// crates/gunda-stream/src/executor.rs is one step; a crash may come between any two of them.
module StreamProtocol {
  import opened Basics
  import opened Staging
  import opened StreamResume

  /** What the origin serves for one plan: for each track, the body of each of its resources in order. */
  datatype Plan = Plan(fingerprint: Bytes, bodies: seq<seq<Bytes>>) {

    ghost predicate Valid() {
      1 <= |bodies| <= 2
    }

    /** The bytes of the first `n` resources of a track. */
    function Prefix(track: nat, n: nat): (bytes: Bytes)
      requires track < |bodies| && n <= |bodies[track]|
    {
      Flatten(bodies[track][..n])
    }

    function Whole(track: nat): (bytes: Bytes)
      requires track < |bodies|
    {
      Prefix(track, |bodies[track]|)
    }
  }

  /** Where the engine is: between two resources of a track, or inside one that began at `start`. */
  datatype Phase =
    | Idle
    | Boundary(track: nat, next: nat, written: nat)
    | Receiving(track: nat, next: nat, start: nat)

  datatype Config = Config(files: seq<Entry>, row: Option<StreamResumeState>, phase: Phase)

  datatype Label =
    | Initialize
    | Open(track: nat)
    | Request
    | Arrive(bytes: Bytes)
    | EndOfBody
    | Rewind
    | Sync
    | Save
    | Leave
    | Remove(track: nat)
    | Clear
    | Crash

  datatype OpenError = AlreadyExists | NotRegular | Absent | TooShort

  /** The entry a track's staging file becomes when a run opens it at its checkpoint. */
  function OpenEntry(entry: Entry, durable: nat, resuming: bool): (r: Result<Entry, OpenError>)
    ensures r.Ok? ==> r.value.Regular? && (entry.Valid() ==> r.value.Valid())
    ensures r.Ok? && resuming ==> |r.value.content| == durable
    ensures r.Ok? && !resuming ==> r.value == EMPTY
    ensures r.Ok? && entry.Regular? ==> durable <= |entry.content| && r.value.content == entry.content[..durable]
  {
    if !resuming then
      if entry.Missing? then Ok(EMPTY) else Err(AlreadyExists)
    else
      match entry
      case Missing => if durable == 0 then Ok(EMPTY) else Err(Absent)
      case Other => Err(NotRegular)
      case Regular(content, _) =>
        if |content| < durable then Err(TooShort) else Ok(entry.Truncated(durable))
  }

  /** The checkpoint a run of a track starts from. */
  function CheckpointOf(row: Option<StreamResumeState>, track: nat): (checkpoint: TrackCheckpoint) {
    if row.Some? && track < |row.value.tracks| then row.value.tracks[track] else START
  }

  /** A track is opened first, or after the track before it was written and saved to its end. */
  ghost predicate MayOpen(plan: Plan, c: Config, track: nat) {
    && track < |plan.bodies|
    && if track == 0 then c.phase.Idle?
       else
         && c.phase.Boundary?
         && c.phase.track == track - 1
         && c.phase.next == |plan.bodies[track - 1]|
         && (c.row.Some? ==>
               CheckpointOf(c.row, track - 1) == TrackCheckpoint(c.phase.next, c.phase.written))
  }

  ghost predicate InFile(c: Config) {
    && !c.phase.Idle?
    && c.phase.track < |c.files|
    && c.files[c.phase.track].Regular?
  }

  ghost predicate Step(plan: Plan, c: Config, l: Label, c': Config) {
    match l
    case Initialize =>
      && c.phase.Idle? && c.row.None?
      && c' == c.(row := Some(StreamResumeState(plan.fingerprint, seq(|plan.bodies|, _ => START))))
    case Open(track) =>
      && MayOpen(plan, c, track) && track < |c.files|
      && var checkpoint := CheckpointOf(c.row, track);
      && var outcome := OpenEntry(c.files[track], checkpoint.durableBytes, c.row.Some?);
      && outcome.Ok?
      && c' == c.(files := c.files[track := outcome.value],
                  phase := Boundary(track, checkpoint.nextResource, checkpoint.durableBytes))
    case Request =>
      && c.phase.Boundary?
      && c.phase.track < |plan.bodies|
      && c.phase.next < |plan.bodies[c.phase.track]|
      && c' == c.(phase := Receiving(c.phase.track, c.phase.next, c.phase.written))
    case Arrive(bytes) =>
      && c.phase.Receiving? && InFile(c)
      && c' == c.(files := c.files[c.phase.track := c.files[c.phase.track].Appended(bytes)])
    case EndOfBody =>
      && c.phase.Receiving? && InFile(c)
      && c.phase.track < |plan.bodies|
      && c.phase.next < |plan.bodies[c.phase.track]|
      && var content := c.files[c.phase.track].content;
      // The one thing asked of the origin: a body that ends well was the resource's body.
      && c.phase.start <= |content|
      && content[c.phase.start..] == plan.bodies[c.phase.track][c.phase.next]
      && c' == c.(phase := Boundary(c.phase.track, c.phase.next + 1, |content|))
    case Rewind =>
      && c.phase.Receiving? && InFile(c)
      && c.phase.start <= |c.files[c.phase.track].content|
      && c' == c.(files := c.files[c.phase.track := c.files[c.phase.track].Truncated(c.phase.start)],
                  phase := Boundary(c.phase.track, c.phase.next, c.phase.start))
    case Sync =>
      && c.phase.Boundary? && InFile(c)
      && c' == c.(files := c.files[c.phase.track := c.files[c.phase.track].Synced()])
    case Save =>
      && c.phase.Boundary? && InFile(c) && c.row.Some?
      && c.files[c.phase.track] == c.files[c.phase.track].Synced()
      && var saved := c.row.value.WithTrack(c.phase.track, TrackCheckpoint(c.phase.next, c.phase.written));
      && saved.Some?
      && c' == c.(row := saved)
    case Leave =>
      c' == c.(phase := Idle)
    case Remove(track) =>
      && c.phase.Idle? && track < |c.files|
      && c.files[track].Regular?
      && c' == c.(files := c.files[track := Missing])
    case Clear =>
      && c.phase.Idle?
      && c' == c.(row := None)
    case Crash =>
      && |c'.files| == |c.files|
      && (forall t :: 0 <= t < |c.files| ==> Survives(c.files[t], c'.files[t]))
      && c'.row == c.row
      && c'.phase == Idle
  }

  /** A history: configurations, each reached from the one before by the labelled step. */
  ghost predicate IsHistory(plan: Plan, history: seq<Config>, labels: seq<Label>) {
    && |history| == |labels| + 1
    && forall i :: 0 <= i < |labels| ==> Step(plan, history[i], labels[i], history[i + 1])
  }

  /** Nothing stored and nothing running; something may be staged that an earlier plan left behind. */
  ghost predicate Fresh(plan: Plan, c: Config) {
    |c.files| == |plan.bodies| && (forall t :: 0 <= t < |c.files| ==> c.files[t].Valid()) && c.row.None? && c.phase.Idle?
  }

  // ---- What every reachable configuration keeps ----

  /** A stored checkpoint is true of the staging file: that many bytes are stable and they are the right ones. */
  ghost predicate CheckpointHolds(plan: Plan, row: Option<StreamResumeState>, entry: Entry, track: nat)
    requires track < |plan.bodies|
  {
    var checkpoint := CheckpointOf(row, track);
    && checkpoint.nextResource <= |plan.bodies[track]|
    && var expected := plan.Prefix(track, checkpoint.nextResource);
    && checkpoint.durableBytes == |expected|
    && (entry.Regular? ==> |expected| <= entry.stable && expected <= entry.content)
  }

  /** The second track is only begun once the first is complete. */
  ghost predicate FirstTrackFirst(plan: Plan, row: Option<StreamResumeState>) {
    |plan.bodies| == 2 && CheckpointOf(row, 1) != START ==>
      CheckpointOf(row, 0).nextResource == |plan.bodies[0]|
  }

  ghost predicate PhaseHolds(plan: Plan, c: Config)
    requires |plan.bodies| == |c.files|
  {
    c.phase.Idle? ||
    (var track := c.phase.track;
     && track < |plan.bodies|
     && c.phase.next <= |plan.bodies[track]|
     && CheckpointOf(c.row, track).nextResource <= c.phase.next
     && c.files[track].Regular?
     && var done := plan.Prefix(track, c.phase.next);
     && (c.phase.Boundary? ==> c.files[track].content == done && c.phase.written == |done|)
     && (c.phase.Receiving? ==>
           && c.phase.next < |plan.bodies[track]|
           && c.phase.start == |done|
           && done <= c.files[track].content)
     && (track == 1 ==>
           && c.files[0].Regular?
           && c.files[0].content == plan.Whole(0)
           && (c.row.Some? ==> CheckpointOf(c.row, 0).nextResource == |plan.bodies[0]|)))
  }

  ghost predicate Inv(plan: Plan, c: Config) {
    && plan.Valid()
    && |c.files| == |plan.bodies|
    && (forall t :: 0 <= t < |c.files| ==> c.files[t].Valid())
    && (c.row.Some? ==> c.row.value.fingerprint == plan.fingerprint && |c.row.value.tracks| == |plan.bodies|)
    && (forall t :: 0 <= t < |plan.bodies| ==> CheckpointHolds(plan, c.row, c.files[t], t))
    && FirstTrackFirst(plan, c.row)
    && PhaseHolds(plan, c)
  }

  lemma FreshIsSafe(plan: Plan, c: Config)
    requires plan.Valid() && Fresh(plan, c)
    ensures Inv(plan, c)
  {
  }

  lemma StepKeepsInv(plan: Plan, c: Config, l: Label, c': Config)
    requires Inv(plan, c) && Step(plan, c, l, c')
    ensures Inv(plan, c')
  {
    hide Inv, Step;
    match l
    case Open(track) => OpenKeepsInv(plan, c, track, c');
    case EndOfBody => EndOfBodyKeepsInv(plan, c, c');
    case Rewind => RewindKeepsInv(plan, c, c');
    case Save => SaveKeepsInv(plan, c, c');
    case Crash => CrashKeepsInv(plan, c, c');
    case _ => OtherStepKeepsInv(plan, c, l, c');
  }

  lemma OtherStepKeepsInv(plan: Plan, c: Config, l: Label, c': Config)
    requires Inv(plan, c) && Step(plan, c, l, c')
    requires l.Initialize? || l.Request? || l.Arrive? || l.Sync? || l.Leave? || l.Remove? || l.Clear?
    ensures Inv(plan, c')
  {
  }

  lemma CrashKeepsInv(plan: Plan, c: Config, c': Config)
    requires Inv(plan, c) && Step(plan, c, Crash, c')
    ensures Inv(plan, c')
  {
  }

  lemma OpenKeepsInv(plan: Plan, c: Config, track: nat, c': Config)
    requires Inv(plan, c) && Step(plan, c, Open(track), c')
    ensures Inv(plan, c')
  {
  }

  lemma EndOfBodyKeepsInv(plan: Plan, c: Config, c': Config)
    requires Inv(plan, c) && Step(plan, c, EndOfBody, c')
    ensures Inv(plan, c')
  {
    FlattenNext(plan.bodies[c.phase.track], c.phase.next);
    var content := c.files[c.phase.track].content;
    assert content == content[..c.phase.start] + content[c.phase.start..];
  }

  lemma RewindKeepsInv(plan: Plan, c: Config, c': Config)
    requires Inv(plan, c) && Step(plan, c, Rewind, c')
    ensures Inv(plan, c')
  {
    var track := c.phase.track;
    FlattenGrows(plan.bodies[track], CheckpointOf(c.row, track).nextResource, c.phase.next);
    forall t | 0 <= t < |plan.bodies|
      ensures CheckpointHolds(plan, c'.row, c'.files[t], t)
    {
      assert CheckpointHolds(plan, c.row, c.files[t], t);
    }
  }

  lemma SaveKeepsInv(plan: Plan, c: Config, c': Config)
    requires Inv(plan, c) && Step(plan, c, Save, c')
    ensures Inv(plan, c')
  {
  }

  // ---- The theorems ----

  lemma {:induction false} EveryReachableConfigIsSafe(plan: Plan, history: seq<Config>, labels: seq<Label>, i: nat)
    requires plan.Valid()
    requires IsHistory(plan, history, labels) && Fresh(plan, history[0])
    requires i < |history|
    ensures Inv(plan, history[i])
  {
    hide Inv, Step, Fresh;
    if i == 0 {
      FreshIsSafe(plan, history[0]);
    } else {
      EveryReachableConfigIsSafe(plan, history, labels, i - 1);
      StepKeepsInv(plan, history[i - 1], labels[i - 1], history[i]);
    }
  }

  /**
   No step but a removal takes a byte of a stored checkpoint away: the staging file keeps them all, in
   place and stable, through truncations and crashes alike.
   */
  lemma NoStepCutsTheDurablePrefix(plan: Plan, c: Config, l: Label, c': Config, track: nat)
    requires Inv(plan, c) && Step(plan, c, l, c')
    requires track < |plan.bodies| && c.files[track].Regular?
    requires l != Remove(track)
    ensures var durable := CheckpointOf(c.row, track).durableBytes;
            || (c'.files[track].Missing? && durable == 0)
            || (&& c'.files[track].Regular?
                && durable <= c.files[track].stable <= |c.files[track].content|
                && durable <= c'.files[track].stable <= |c'.files[track].content|
                && c'.files[track].content[..durable] == c.files[track].content[..durable])
  {
    StepKeepsInv(plan, c, l, c');
    assert CheckpointHolds(plan, c.row, c.files[track], track);
    if l.Rewind? && c.phase.track == track {
      FlattenGrows(plan.bodies[track], CheckpointOf(c.row, track).nextResource, c.phase.next);
    }
  }

  lemma {:induction false} PositionsOnlyAdvance(plan: Plan, history: seq<Config>, labels: seq<Label>, i: nat, j: nat, track: nat)
    requires plan.Valid()
    requires IsHistory(plan, history, labels) && Fresh(plan, history[0])
    requires i <= j < |history| && track < |plan.bodies|
    requires history[i].row.Some?
    requires forall k :: i <= k < j ==> !labels[k].Clear?
    ensures history[j].row.Some?
    ensures CheckpointOf(history[j].row, track).Reaches(CheckpointOf(history[i].row, track))
    decreases j
  {
    EveryReachableConfigIsSafe(plan, history, labels, i);
    if i < j {
      PositionsOnlyAdvance(plan, history, labels, i, j - 1, track);
      EveryReachableConfigIsSafe(plan, history, labels, j - 1);
      assert Step(plan, history[j - 1], labels[j - 1], history[j]);
    }
  }

  /** Whatever happened before, a track written to its end is the concatenation of its resources. */
  lemma CompletedTracksAreExact(plan: Plan, history: seq<Config>, labels: seq<Label>, i: nat)
    requires plan.Valid()
    requires IsHistory(plan, history, labels) && Fresh(plan, history[0])
    requires i < |history|
    requires var phase := history[i].phase;
             && phase.Boundary?
             && phase.track == |plan.bodies| - 1
             && phase.next == |plan.bodies[phase.track]|
    ensures |history[i].files| == |plan.bodies|
    ensures forall t :: 0 <= t < |plan.bodies| ==>
              history[i].files[t].Regular? && history[i].files[t].content == plan.Whole(t)
  {
    EveryReachableConfigIsSafe(plan, history, labels, i);
  }

  /**
   After a crash at any point, a track whose file was there opens at exactly the bytes its checkpoint
   stands for.
   */
  lemma ResumeAfterCrashIsExact(plan: Plan, history: seq<Config>, labels: seq<Label>, i: nat, after: Config, track: nat)
    requires plan.Valid()
    requires IsHistory(plan, history, labels) && Fresh(plan, history[0])
    requires i < |history| && Step(plan, history[i], Crash, after)
    requires track < |plan.bodies| == |history[i].files|
    requires history[i].row.Some? && history[i].files[track].Regular?
    ensures var checkpoint := CheckpointOf(history[i].row, track);
            var reopened := OpenEntry(after.files[track], checkpoint.durableBytes, true);
            && checkpoint.nextResource <= |plan.bodies[track]|
            && reopened.Ok?
            && reopened.value.content == plan.Prefix(track, checkpoint.nextResource)
  {
    EveryReachableConfigIsSafe(plan, history, labels, i);
    StepKeepsInv(plan, history[i], Crash, after);
    assert CheckpointHolds(plan, after.row, after.files[track], track);
    var checkpoint := CheckpointOf(after.row, track);
    assert plan.Prefix(track, 0) == [];
  }

  // ---- Offering to resume ----

  /** What the scheduler is told before it offers to resume. */
  predicate CanResume(files: seq<Entry>, row: Option<StreamResumeState>) {
    && row.Some?
    && |row.value.tracks| == |files|
    && forall t :: 0 <= t < |files| ==>
      || (files[t].Regular? && row.value.tracks[t].durableBytes <= |files[t].content|)
      || (files[t].Missing? && row.value.tracks[t].durableBytes == 0)
  }

  /** Resuming is offered exactly when every track would open. */
  lemma CanResumeMeansEveryTrackOpens(files: seq<Entry>, row: StreamResumeState)
    requires |row.tracks| == |files|
    ensures CanResume(files, Some(row)) <==>
            forall t :: 0 <= t < |files| ==> OpenEntry(files[t], row.tracks[t].durableBytes, true).Ok?
  {
  }
}
