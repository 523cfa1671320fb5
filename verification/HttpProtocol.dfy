// A direct HTTP download as a state machine over what a crash keeps and what it does not. The steps are
// the effects of crates/gunda-http/src/partial.rs, in the order the code makes them.
module HttpProtocol {
  import opened Basics
  import opened Staging
  import opened HttpStorage

  /**
   What the origin serves. A strong entity tag names one sequence of bytes for good (RFC 9110 section
   8.8.1); nothing is known of a response without one.
   */
  type Representations = map<Bytes, Bytes>

  /** `source` is the tag whose bytes are being staged, if they have one; `written` is the file's length. */
  datatype Phase = Idle | Streaming(source: Option<Bytes>, written: nat)

  datatype Config = Config(file: Entry, row: Option<HttpResumeState>, phase: Phase)

  datatype Label =
    | Create
    | Initialize(tag: Bytes)
    | Reopen
    | Arrive(bytes: Bytes)
    | Torn(junk: Bytes)
    | Sync
    | Save
    | Leave
    | Discard
    | Clear
    | Crash

  ghost predicate Step(reps: Representations, c: Config, l: Label, c': Config) {
    match l
    case Create =>
      && c.phase.Idle? && c.row.None? && c.file.Missing?
      && c' == Config(EMPTY, None, Streaming(None, 0))
    case Initialize(tag) =>
      && c.phase == Streaming(None, 0) && c.row.None?
      && tag in reps
      && c' == c.(row := Some(HttpResumeState(tag, |reps[tag]|, 0)), phase := Streaming(Some(tag), 0))
    case Reopen =>
      && c.phase.Idle? && c.row.Some? && c.file.Regular?
      && c.row.value.durable <= |c.file.content|
      && c' == c.(file := c.file.Truncated(c.row.value.durable),
                  phase := Streaming(Some(c.row.value.tag), c.row.value.durable))
    case Arrive(bytes) =>
      && c.phase.Streaming? && c.file.Regular?
      // The one thing asked of the origin: bytes sent under a strong tag are that representation's bytes.
      && (c.phase.source.Some? ==>
            && c.phase.source.value in reps
            && c.phase.written + |bytes| <= |reps[c.phase.source.value]|
            && bytes == reps[c.phase.source.value][c.phase.written..c.phase.written + |bytes|])
      && c' == c.(file := c.file.Appended(bytes), phase := c.phase.(written := c.phase.written + |bytes|))
    case Torn(junk) =>
      && c.phase.Streaming? && c.file.Regular?
      && c' == c.(file := c.file.Appended(junk), phase := Idle)
    case Sync =>
      && c.phase.Streaming? && c.file.Regular?
      && c' == c.(file := c.file.Synced())
    case Save =>
      && c.phase.Streaming? && c.phase.source.Some? && c.row.Some?
      && c.file.Regular? && c.file == c.file.Synced()
      && c.row.value.durable <= c.phase.written <= c.row.value.total
      && c' == c.(row := Some(c.row.value.(durable := c.phase.written)))
    case Leave =>
      c' == c.(phase := Idle)
    case Discard =>
      && c.phase.Idle? && c.file.Regular?
      && c' == c.(file := Missing)
    case Clear =>
      && c.phase.Idle?
      && c' == c.(row := None)
    case Crash =>
      && Survives(c.file, c'.file)
      && c'.row == c.row
      && c'.phase == Idle
  }

  ghost predicate IsHistory(reps: Representations, history: seq<Config>, labels: seq<Label>) {
    && |history| == |labels| + 1
    && forall i :: 0 <= i < |labels| ==> Step(reps, history[i], labels[i], history[i + 1])
  }

  ghost predicate Fresh(c: Config) {
    c == Config(Missing, None, Idle)
  }

  /** A stored checkpoint is true of the staging file. */
  ghost predicate CheckpointHolds(reps: Representations, c: Config) {
    c.row.Some? ==>
      var row := c.row.value;
      && row.tag in reps
      && row.total == |reps[row.tag]|
      && row.durable <= row.total
      && (c.file.Regular? ==>
            && row.durable <= c.file.stable
            && reps[row.tag][..row.durable] <= c.file.content)
  }

  ghost predicate PhaseHolds(reps: Representations, c: Config) {
    c.phase.Streaming? ==>
      && c.file.Regular? && |c.file.content| == c.phase.written
      && (c.phase.source.None? ==> c.row.None?)
      && (c.phase.source.Some? ==>
            && c.row.Some? && c.row.value.tag == c.phase.source.value
            && c.row.value.durable <= c.phase.written <= c.row.value.total
            && c.row.value.tag in reps
            && c.file.content <= reps[c.row.value.tag])
  }

  ghost predicate Inv(reps: Representations, c: Config) {
    c.file.Valid() && CheckpointHolds(reps, c) && PhaseHolds(reps, c)
  }

  lemma StepKeepsInv(reps: Representations, c: Config, l: Label, c': Config)
    requires Inv(reps, c) && Step(reps, c, l, c')
    ensures Inv(reps, c')
  {
  }

  // ---- The theorems ----

  lemma {:induction false} EveryReachableConfigIsSafe(reps: Representations, history: seq<Config>, labels: seq<Label>, i: nat)
    requires IsHistory(reps, history, labels) && Fresh(history[0])
    requires i < |history|
    ensures Inv(reps, history[i])
  {
    if i > 0 {
      EveryReachableConfigIsSafe(reps, history, labels, i - 1);
      StepKeepsInv(reps, history[i - 1], labels[i - 1], history[i]);
    }
  }

  /** No step but a discard takes a durable byte away; a crash takes none either. */
  lemma NoStepCutsTheDurablePrefix(reps: Representations, c: Config, l: Label, c': Config)
    requires Inv(reps, c) && Step(reps, c, l, c')
    requires c.row.Some? && c.file.Regular? && !l.Discard?
    ensures var durable := c.row.value.durable;
            || (c'.file.Missing? && durable == 0)
            || (&& c'.file.Regular?
                && durable <= |c.file.content| && durable <= c'.file.stable <= |c'.file.content|
                && c'.file.content[..durable] == c.file.content[..durable])
  {
  }

  /** The durable count never decreases, and the representation never changes, until the row is cleared. */
  lemma {:induction false} CheckpointsOnlyAdvance(reps: Representations, history: seq<Config>, labels: seq<Label>, i: nat, j: nat)
    requires IsHistory(reps, history, labels) && Fresh(history[0])
    requires i <= j < |history| && history[i].row.Some?
    requires forall k :: i <= k < j ==> !labels[k].Clear?
    ensures history[j].row.Some?
    ensures history[j].row.value.tag == history[i].row.value.tag
    ensures history[j].row.value.total == history[i].row.value.total
    ensures history[i].row.value.durable <= history[j].row.value.durable
    decreases j
  {
    if i < j {
      CheckpointsOnlyAdvance(reps, history, labels, i, j - 1);
      assert Step(reps, history[j - 1], labels[j - 1], history[j]);
    }
  }

  /** After any history, a transfer that has written the declared total holds exactly the representation. */
  lemma CompletedTransfersAreExact(reps: Representations, history: seq<Config>, labels: seq<Label>, i: nat)
    requires IsHistory(reps, history, labels) && Fresh(history[0])
    requires i < |history|
    requires history[i].phase.Streaming? && history[i].row.Some?
    requires history[i].phase.written == history[i].row.value.total
    ensures var row := history[i].row.value;
            && row.tag in reps
            && history[i].file.Regular?
            && history[i].file.content == reps[row.tag]
  {
    EveryReachableConfigIsSafe(reps, history, labels, i);
  }

  /** After a crash at any point the file reopens at exactly the durable prefix. */
  lemma ResumeAfterCrashIsExact(reps: Representations, history: seq<Config>, labels: seq<Label>, i: nat, after: Config)
    requires IsHistory(reps, history, labels) && Fresh(history[0])
    requires i < |history| && Step(reps, history[i], Crash, after)
    requires history[i].row.Some? && history[i].file.Regular?
    ensures var row := history[i].row.value;
            && row.tag in reps && row.durable <= |reps[row.tag]|
            && (after.file.Missing? ==> row.durable == 0)
            && (after.file.Regular? ==>
                  && row.durable <= |after.file.content|
                  && after.file.Truncated(row.durable).content == reps[row.tag][..row.durable])
  {
    EveryReachableConfigIsSafe(reps, history, labels, i);
    StepKeepsInv(reps, history[i], Crash, after);
  }

  /** A run can go on from here: the file is there with all that the checkpoint counts. */
  ghost predicate CanReopen(reps: Representations, c: Config) {
    exists next :: Step(reps, c, Reopen, next)
  }

  /**
   In any history, whatever a crash leaves can be gone on with exactly when something of the file was synchronised, as
   it was once a checkpoint counts a byte.
   */
  lemma CrashIsResumableExactly(reps: Representations, history: seq<Config>, labels: seq<Label>, i: nat)
    requires IsHistory(reps, history, labels) && Fresh(history[0])
    requires i < |history| && history[i].row.Some? && history[i].file.Regular?
    ensures (forall after :: Step(reps, history[i], Crash, after) ==> CanReopen(reps, after)) <==> history[i].file.stable > 0
    ensures history[i].row.value.durable > 0 ==> history[i].file.stable > 0
  {
    EveryReachableConfigIsSafe(reps, history, labels, i);
    var c := history[i];
    if c.file.stable == 0 {
      var lost := Config(Missing, c.row, Idle);
      assert Step(reps, c, Crash, lost) && !CanReopen(reps, lost);
    } else {
      forall after | Step(reps, c, Crash, after) ensures CanReopen(reps, after) {
        StepKeepsInv(reps, c, Crash, after);
        var row := after.row.value;
        assert Step(reps, after, Reopen, Config(after.file.Truncated(row.durable), after.row, Streaming(Some(row.tag), row.durable)));
      }
    }
  }

  /** So it can before the first synchronisation: a checkpoint at zero is left, and no file to resume it with. */
  lemma CheckpointWithoutFile(reps: Representations, tag: Bytes) returns (history: seq<Config>, labels: seq<Label>)
    requires tag in reps
    ensures IsHistory(reps, history, labels) && Fresh(history[0])
    ensures history[|labels|] == Config(Missing, Some(HttpResumeState(tag, |reps[tag]|, 0)), Idle)
  {
    var row := Some(HttpResumeState(tag, |reps[tag]|, 0));
    history := [Config(Missing, None, Idle), Config(EMPTY, None, Streaming(None, 0)),
                Config(EMPTY, row, Streaming(Some(tag), 0)), Config(Missing, row, Idle)];
    labels := [Create, Initialize(tag), Crash];
  }
}
