// From a finished transfer to the file under its own name (finalize in crates/gunda-http/src/executor.rs and
// crates/gunda-stream/src/executor.rs).
module Delivery {
  import opened Basics
  import opened Staging
  import opened FileNames
  import opened Publication
  import Http = HttpExecutor
  import Stream = StreamExecutor
  import StreamProtocol

  datatype Failure = NotTransferred(stopped: bool) | NotPublished(error: PublishError)

  /** A directory with `entry` under `name`. */
  function Showing(entries: map<string, Node>, name: string, entry: Entry): (r: map<string, Node>) {
    match entry
    case Missing => map n | n in entries && n != name :: entries[n]
    case Regular(content, _) => entries[name := File(content)]
    case Other => entries[name := Node.Other]
  }

  /** The bytes are there under `name`, and every name but that and the staging one stands for what it stood for. */
  ghost predicate Delivered(before: map<string, Node>, after: map<string, Node>, id: nat, name: string, content: Bytes) {
    && name != PartialName(id) && name in after && after[name] == File(content)
    && forall n :: n != name && n != PartialName(id) ==> (n in after <==> n in before) && (n in before ==> after[n] == before[n])
  }

  /** The staging file is one of the directory's files; publishing it may leave its name behind. */
  method PublishStaged(directory: Directory, id: nat, staged: Entry, written: nat, preferred: Option<string>,
                       policy: Policy, samePlace: bool, sameFile: bool)
    returns (r: Result<string, PublishError>, moved: bool)
    modifies directory
    ensures r.Ok? ==>
              && staged.Regular? && |staged.content| == written
              && Delivered(old(directory.entries), directory.entries, id, r.value, staged.content)
    ensures r.Ok? && !policy.Overwrite? ==> r.value !in old(directory.entries)
    ensures r.Err? ==> forall n :: n != PartialName(id) ==>
                                     && (n in directory.entries <==> n in old(directory.entries))
                                     && (n in old(directory.entries) ==> directory.entries[n] == old(directory.entries[n]))
  {
    hide PartialName, FirstFree, IsValidName, CandidateName;
    directory.entries := Showing(directory.entries, PartialName(id), staged);
    ghost var shown := directory.entries;
    r := directory.Publish(id, written, preferred, policy, samePlace, sameFile);
    if r.Ok? && !policy.Overwrite? {
      FreeIsNew(shown, Wanted(preferred, id), Attempts(policy), r.value);
    }
    moved := r.Ok? && PartialName(id) !in directory.entries;
  }

  lemma FreeIsNew(before: map<string, Node>, filename: string, attempts: nat, name: string)
    requires FirstFree(before, filename, attempts, name)
    ensures name !in before
  {
  }

  /**
   A direct download from its prepared attempt to its published file: under the published name there is everything the
   server sent, and the whole of the representation wherever a strong tag named one; nothing else is touched.
   */
  method DeliverHttp(download: Http.HttpDownload, prepared: Http.Prepared, directory: Directory, preferred: Option<string>,
                     policy: Policy, samePlace: bool, sameFile: bool)
    returns (r: Result<string, Failure>)
    requires download.Valid() && download.phase.Idle?
    requires match prepared
             case FreshTransfer(body, metadata) => download.Row().None? && download.IsFreshBody(body, metadata)
             case Resumed(rest, state) =>
               && download.Row() == Some(state) && download.Completes(rest, state)
               && (rest.Some? ==> rest.value.State().IsUnconsumed())
    modifies download, download.store, directory,
             match prepared
             case FreshTransfer(body, _) => {body}
             case Resumed(rest, _) => if rest.Some? then {rest.value} else {}
    ensures download.Valid() && download.phase.Idle?
    ensures r.Ok? ==>
              r.value in directory.entries && directory.entries[r.value].File? &&
              var content := directory.entries[r.value].content;
                && Delivered(old(directory.entries), directory.entries, download.id, r.value, content)
                && (download.Row().Some? ==>
                      download.Row().value.tag in download.reps && content == download.reps[download.Row().value.tag])
                && (prepared.Resumed? ==> download.Row().Some? && download.Row().value.tag == prepared.state.tag)
                && (prepared.FreshTransfer? ==>
                      && content == old(download.Left(Some(prepared.body)))
                      && (prepared.metadata.contentLength.Some? ==> |content| == prepared.metadata.contentLength.value)
                      && (prepared.metadata.strongEtag.Some? && prepared.metadata.contentLength.Some? ==>
                            && prepared.metadata.strongEtag.value in download.reps
                            && content == download.reps[prepared.metadata.strongEtag.value]))
    ensures r.Ok? && !policy.Overwrite? ==> r.value !in old(directory.entries)
  {
    hide Http.HttpDownload.Valid, Http.HttpDownload.Left, Http.HttpDownload.WillEnd, Showing, PartialName;
    var outcome := download.TransferControlled(prepared);
    if outcome.Err? || outcome.value.Stopped? {
      return Err(NotTransferred(outcome.Ok?));
    }
    var published, moved := PublishStaged(directory, download.id, download.file, outcome.value.written, preferred, policy,
                                          samePlace, sameFile);
    if published.Err? {
      return Err(NotPublished(published.error));
    }
    if moved {
      download.Moved();
    }
    r := Ok(published.value);
  }

  /** One attempt of a segmented download, and what stands at the partial path when it finishes. */
  method TransferStream(download: Stream.StreamDownload) returns (r: Result<(Entry, nat), Failure>)
    requires download.Valid() && download.Prepared() && download.phase.Idle?
    modifies download, download.store
    ensures download.Valid() && download.phase.Idle? && download.plan == old(download.plan)
    ensures |download.plan.bodies| == 1 || |download.plan.bodies| == 2
    ensures if |download.plan.bodies| == 1 then |download.files| > 0 else |download.rest| > 0
    ensures r.Ok? ==> r.value.0 == download.PartialFile()
    ensures r.Ok? && |download.plan.bodies| == 1 ==> r.value.0.Regular? && r.value.0.content == download.plan.Whole(0)
  {
    hide StreamProtocol.IsHistory, StreamProtocol.CheckpointHolds, StreamProtocol.FirstTrackFirst, StreamProtocol.PhaseHolds;
    var outcome := download.TransferControlled();
    download.TracksMatch();
    if outcome.Err? || outcome.value.Stopped? {
      return Err(NotTransferred(outcome.Ok?));
    }
    var staged := download.PartialFile();
    var length := if |download.plan.bodies| == 1 then outcome.value.written
                  else if staged.Regular? then |staged.content| else 0;
    r := Ok((staged, length));
  }

  /**
   A segmented download from its prepared attempt to its published file: one track is published as the concatenation of
   its resources. The file two tracks are made into is not part of this model, only that what is published is that file.
   */
  method DeliverStream(download: Stream.StreamDownload, directory: Directory, preferred: Option<string>,
                       policy: Policy, samePlace: bool, sameFile: bool)
    returns (r: Result<string, Failure>)
    requires download.Valid() && download.Prepared() && download.phase.Idle?
    modifies download, download.store, directory
    ensures download.Valid() && download.phase.Idle? && download.plan == old(download.plan)
    ensures r.Ok? ==>
              r.value in directory.entries && directory.entries[r.value].File? &&
              var content := directory.entries[r.value].content;
                && Delivered(old(directory.entries), directory.entries, download.id, r.value, content)
                && (|download.plan.bodies| == 1 ==> content == download.plan.Whole(0))
    ensures r.Ok? && !policy.Overwrite? ==> r.value !in old(directory.entries)
  {
    hide Stream.StreamDownload.Valid, Showing, PartialName;
    var staged := TransferStream(download);
    if staged.Err? {
      return Err(staged.error);
    }
    var published, moved := PublishStaged(directory, download.id, staged.value.0, staged.value.1, preferred, policy,
                                          samePlace, sameFile);
    if published.Err? {
      return Err(NotPublished(published.error));
    }
    download.Settle(moved);
    r := Ok(published.value);
  }
}
