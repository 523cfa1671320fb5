// The in-memory checkpoint of a segmented download (crates/gunda-stream/src/resume.rs).
module StreamResume {
  import opened Basics

  datatype TrackCheckpoint = TrackCheckpoint(nextResource: nat, durableBytes: nat) {

    predicate Reaches(earlier: TrackCheckpoint) {
      earlier.nextResource <= nextResource && earlier.durableBytes <= durableBytes
    }
  }

  const START := TrackCheckpoint(0, 0)

  datatype StreamResumeState = StreamResumeState(fingerprint: Bytes, tracks: seq<TrackCheckpoint>) {

    /** Moves one track forward; a track that is not there or a step back is refused. */
    function WithTrack(track: nat, checkpoint: TrackCheckpoint): (r: Option<StreamResumeState>)
      ensures r.Some? <==>
              && track < |tracks| <= 2
              && checkpoint.Reaches(tracks[track])
      ensures r.Some? ==>
                && r.value.fingerprint == fingerprint
                && |r.value.tracks| == |tracks|
                && r.value.tracks[track] == checkpoint
                && forall i :: 0 <= i < |tracks| && i != track ==> r.value.tracks[i] == tracks[i]
    {
      if track >= |tracks| || !checkpoint.Reaches(tracks[track]) then None
      else New(fingerprint, tracks[track := checkpoint])
    }

    /** The bytes a resumed run starts from, saturating as the source's fold does. */
    function StartingBytes(): (total: nat) {
      SaturatingTotal(tracks)
    }
  }

  function New(fingerprint: Bytes, tracks: seq<TrackCheckpoint>): (r: Option<StreamResumeState>)
    ensures r.Some? <==> 1 <= |tracks| <= 2
    ensures r.Some? ==> r.value.fingerprint == fingerprint && r.value.tracks == tracks
  {
    if tracks == [] || |tracks| > 2 then None else Some(StreamResumeState(fingerprint, tracks))
  }

  function SaturatingTotal(tracks: seq<TrackCheckpoint>): (total: nat)
    ensures total <= U64_MAX
  {
    if tracks == [] then 0
    else Min(SaturatingTotal(tracks[..|tracks| - 1]) + tracks[|tracks| - 1].durableBytes, U64_MAX)
  }

  lemma StartingBytesOfOne(state: StreamResumeState, track: TrackCheckpoint)
    requires state.tracks == [track] && track.durableBytes <= U64_MAX
    ensures state.StartingBytes() == track.durableBytes
  {
    TotalSnoc([], track);
    assert state.tracks == [] + [track];
  }

  lemma StartingBytesOfTwo(state: StreamResumeState, first: TrackCheckpoint, second: TrackCheckpoint)
    requires state.tracks == [first, second]
    requires first.durableBytes + second.durableBytes <= U64_MAX
    ensures state.StartingBytes() == first.durableBytes + second.durableBytes
  {
    StartingBytesOfOne(StreamResumeState([], [first]), first);
    TotalSnoc([first], second);
    assert state.tracks == [first] + [second];
  }

  lemma TotalSnoc(tracks: seq<TrackCheckpoint>, last: TrackCheckpoint)
    ensures SaturatingTotal(tracks + [last]) == Min(SaturatingTotal(tracks) + last.durableBytes, U64_MAX)
  {
  }
}
