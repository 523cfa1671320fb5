// Durable checkpoints of segmented downloads (crates/gunda-storage/src/stream_resume.rs).
module StreamStorage {
  import opened Basics
  import opened StreamResume
  import opened Stores
  import Environment

  datatype StateRow = StateRow(fingerprint: Bytes, trackCount: nat)

  datatype TrackKey = TrackKey(id: nat, track: nat)

  type StateTable = map<nat, StateRow>
  type TrackTable = map<TrackKey, TrackCheckpoint>

  predicate Encodable(checkpoint: TrackCheckpoint) {
    checkpoint.nextResource <= I64_MAX && checkpoint.durableBytes <= I64_MAX
  }

  /** Every state row has exactly its own track rows, and every column holds a signed count. */
  ghost predicate Consistent(states: StateTable, tracks: TrackTable) {
    && (forall id :: id in states ==> 1 <= states[id].trackCount <= 2)
    && (forall key :: key in tracks <==> key.id in states && key.track < states[key.id].trackCount)
    && (forall key :: key in tracks ==> Encodable(tracks[key]))
  }

  /** The checkpoint the rows of `id` stand for. */
  ghost function StoredIn(states: StateTable, tracks: TrackTable, id: nat): (r: Option<StreamResumeState>)
    requires Consistent(states, tracks)
    ensures r.Some? <==> id in states
    ensures r.Some? ==>
              && r.value.fingerprint == states[id].fingerprint
              && |r.value.tracks| == states[id].trackCount
              && forall t: nat :: t < |r.value.tracks| ==> r.value.tracks[t] == tracks[TrackKey(id, t)]
  {
    if id !in states then None
    else
      var rows := seq(states[id].trackCount, (t: nat) requires TrackKey(id, t) in tracks => tracks[TrackKey(id, t)]);
      Some(StreamResumeState(states[id].fingerprint, rows))
  }

  lemma StoredFits(states: StateTable, tracks: TrackTable, id: nat)
    requires Consistent(states, tracks) && id in states
    ensures forall t :: 0 <= t < states[id].trackCount ==> Encodable(StoredIn(states, tracks, id).value.tracks[t])
  {
  }

  /** What the guarded update demands of a stored checkpoint before it lets `state` replace it. */
  ghost predicate Accepts(stored: Option<StreamResumeState>, state: StreamResumeState) {
    && stored.Some?
    && stored.value.fingerprint == state.fingerprint
    && |stored.value.tracks| == |state.tracks|
    && forall t :: 0 <= t < |state.tracks| ==>
      Encodable(state.tracks[t]) && state.tracks[t].Reaches(stored.value.tracks[t])
  }

  /**
   The in-memory rule and the SQL guard are the same rule: for a checkpoint that moves one track of the
   stored state, `WithTrack` says yes exactly when the update touches every row, provided the counts fit
   a signed column.
   */
  lemma MemoryRuleIsStoreRule(stored: StreamResumeState, track: nat, checkpoint: TrackCheckpoint)
    requires 1 <= |stored.tracks| <= 2 && track < |stored.tracks|
    requires forall t :: 0 <= t < |stored.tracks| ==> Encodable(stored.tracks[t])
    ensures var moved := StreamResumeState(stored.fingerprint, stored.tracks[track := checkpoint]);
            && (Accepts(Some(stored), moved) <==>
                stored.WithTrack(track, checkpoint).Some? && Encodable(checkpoint))
            && (stored.WithTrack(track, checkpoint).Some? ==> stored.WithTrack(track, checkpoint) == Some(moved))
  {
  }

  /** The table with the first `n` track rows of one download replaced. */
  function Replaced(tracks: TrackTable, id: nat, checkpoints: seq<TrackCheckpoint>, n: nat): (r: TrackTable)
    requires n <= |checkpoints|
    ensures r.Keys == tracks.Keys
  {
    map key | key in tracks :: if key.id == id && key.track < n then checkpoints[key.track] else tracks[key]
  }

  lemma NothingReplaced(tracks: TrackTable, id: nat, checkpoints: seq<TrackCheckpoint>)
    ensures Replaced(tracks, id, checkpoints, 0) == tracks
  {
  }

  lemma ReplacedNext(tracks: TrackTable, id: nat, checkpoints: seq<TrackCheckpoint>, n: nat)
    requires n < |checkpoints| && TrackKey(id, n) in tracks
    ensures Replaced(tracks, id, checkpoints, n + 1) == Replaced(tracks, id, checkpoints, n)[TrackKey(id, n) := checkpoints[n]]
    ensures Replaced(tracks, id, checkpoints, n)[TrackKey(id, n)] == tracks[TrackKey(id, n)]
  {
  }

  /** Replacing all of them by a state's checkpoints stores that state, and no other download's changes. */
  lemma ReplacedIsStored(states: StateTable, tracks: TrackTable, id: nat, state: StreamResumeState)
    requires Consistent(states, tracks) && id in states && states[id].fingerprint == state.fingerprint
    requires states[id].trackCount == |state.tracks|
    requires forall t: nat :: t < |state.tracks| ==> Encodable(state.tracks[t])
    ensures var after := Replaced(tracks, id, state.tracks, |state.tracks|);
            && Consistent(states, after)
            && StoredIn(states, after, id) == Some(state)
            && forall other :: other != id ==> StoredIn(states, after, other) == StoredIn(states, tracks, other)
  {
    hide StoredIn;
    var after := Replaced(tracks, id, state.tracks, |state.tracks|);
    assert StoredIn(states, after, id).value.tracks == state.tracks;
    forall other | other != id && other in states
      ensures StoredIn(states, after, other) == StoredIn(states, tracks, other)
    {
      assert StoredIn(states, after, other).value.tracks == StoredIn(states, tracks, other).value.tracks;
    }
  }

  /** The guard, row by row. */
  lemma GuardIsAccepts(states: StateTable, tracks: TrackTable, id: nat, state: StreamResumeState)
    requires Consistent(states, tracks) && id in states && states[id].fingerprint == state.fingerprint
    requires states[id].trackCount == |state.tracks|
    ensures forall t: nat :: t < |state.tracks| ==> TrackKey(id, t) in tracks
    ensures Accepts(StoredIn(states, tracks, id), state)
            <==> forall t: nat :: t < |state.tracks| ==> RowAllows(tracks, TrackKey(id, t), state.tracks[t])
  {
  }

  predicate RowAllows(tracks: TrackTable, key: TrackKey, checkpoint: TrackCheckpoint) {
    key in tracks && Encodable(checkpoint) && checkpoint.Reaches(tracks[key])
  }

  lemma AllowedFits(tracks: TrackTable, id: nat, checkpoints: seq<TrackCheckpoint>)
    requires forall t: nat :: t < |checkpoints| ==> RowAllows(tracks, TrackKey(id, t), checkpoints[t])
    ensures forall t: nat :: t < |checkpoints| ==> Encodable(checkpoints[t])
  {
  }

  /** The guarded updates of one transaction: the first row that refuses, or a failure, rolls all of them back. */
  method UpdateTracks(tracks: TrackTable, id: nat, checkpoints: seq<TrackCheckpoint>)
      returns (r: Result<TrackTable, StoreError>)
    requires forall t: nat :: t < |checkpoints| ==> TrackKey(id, t) in tracks
    ensures r.Ok? ==> r.value == Replaced(tracks, id, checkpoints, |checkpoints|)
    ensures r.Ok? ==> forall t: nat :: t < |checkpoints| ==> RowAllows(tracks, TrackKey(id, t), checkpoints[t])
    ensures r.Err? ==> r.error == Internal || r.error == ConstraintViolation
    ensures r == Err(ConstraintViolation) ==>
              exists t: nat :: t < |checkpoints| && !RowAllows(tracks, TrackKey(id, t), checkpoints[t])
  {
    hide Replaced, TrackCheckpoint.Reaches, Encodable;
    var updated := tracks;
    assert updated == Replaced(tracks, id, checkpoints, 0) by { NothingReplaced(tracks, id, checkpoints); }
    for track := 0 to |checkpoints|
      invariant updated == Replaced(tracks, id, checkpoints, track)
      invariant forall t: nat :: t < track ==> RowAllows(tracks, TrackKey(id, t), checkpoints[t])
    {
      var checkpoint := checkpoints[track];
      ReplacedNext(tracks, id, checkpoints, track);
      if !Encodable(checkpoint) {
        assert !RowAllows(tracks, TrackKey(id, track), checkpoint);
        return Err(ConstraintViolation);
      }
      var up := Environment.Choice();
      if !up {
        return Err(Internal);
      }
      if TrackKey(id, track) !in updated || !checkpoint.Reaches(updated[TrackKey(id, track)]) {
        assert !RowAllows(tracks, TrackKey(id, track), checkpoint);
        return Err(ConstraintViolation);
      }
      updated := updated[TrackKey(id, track) := checkpoint];
    }
    r := Ok(updated);
  }

  /** Without the rows of one download the others are as they were. */
  lemma ClearedIsStored(states: StateTable, tracks: TrackTable, id: nat, rows: TrackTable)
    requires Consistent(states, tracks)
    requires rows == map key | key in tracks && key.id != id :: tracks[key]
    ensures Consistent(states - {id}, rows) && StoredIn(states - {id}, rows, id).None?
    ensures forall other :: other != id ==> StoredIn(states - {id}, rows, other) == StoredIn(states, tracks, other)
  {
    hide StoredIn;
    forall other | other != id && other in states
      ensures StoredIn(states - {id}, rows, other) == StoredIn(states, tracks, other)
    {
      assert StoredIn(states - {id}, rows, other).value.tracks == StoredIn(states, tracks, other).value.tracks;
    }
  }

  class StreamStore {
    var states: StateTable
    var tracks: TrackTable

    ghost predicate Valid()
      reads this
    {
      Consistent(states, tracks)
    }

    ghost function Stored(id: nat): (r: Option<StreamResumeState>)
      requires Valid()
      reads this
    {
      StoredIn(states, tracks, id)
    }

    constructor ()
      ensures Valid() && forall id :: Stored(id) == None
    {
      states, tracks := map[], map[];
    }

    method Initialize(id: nat, fingerprint: Bytes, trackCount: nat)
        returns (r: Result<StreamResumeState, StoreError>)
      requires Valid()
      modifies this
      ensures Valid()
      ensures forall other :: other != id ==> Stored(other) == old(Stored(other))
      ensures r.Ok? ==>
                && old(Stored(id)).None?
                && 1 <= trackCount <= 2
                && r.value == StreamResumeState(fingerprint, seq(trackCount, _ => START))
                && Stored(id) == Some(r.value)
      ensures r.Err? && Stored(id) != old(Stored(id)) ==>
                && r.error == Internal && old(Stored(id)).None?
                && Stored(id) == Some(StreamResumeState(fingerprint, seq(trackCount, _ => START)))
      ensures r.Err? && r.error != Internal ==> old(Stored(id)).Some? || !(1 <= trackCount <= 2)
    {
      if !(1 <= trackCount <= 2) {
        return Err(InvalidData);
      }
      var up := Environment.Choice();
      if !up {
        return Err(Internal);
      }
      if id in states {
        return Err(ConstraintViolation);
      }
      hide StoredIn;
      var inserted := tracks;
      for track := 0 to trackCount
        invariant forall key :: key in inserted <==> key in tracks || (key.id == id && key.track < track)
        invariant forall key :: key in inserted ==>
          inserted[key] == if key in tracks then tracks[key] else START
      {
        inserted := inserted[TrackKey(id, track) := START];
      }
      var committed := Environment.Choice();
      if !committed {
        return Err(Internal);
      }
      states, tracks := states[id := StateRow(fingerprint, trackCount)], inserted;
      var heard := Environment.Choice();
      r := if heard then Ok(StreamResumeState(fingerprint, seq(trackCount, _ => START))) else Err(Internal);
      assert Stored(id).value.tracks == seq(trackCount, _ => START);
      assert forall other :: other != id && other in states ==> Stored(other).value.tracks == old(Stored(other)).value.tracks;
    }

    method Find(id: nat) returns (r: Result<Option<StreamResumeState>, StoreError>)
      requires Valid()
      ensures r.Ok? ==> r.value == Stored(id)
      ensures r.Err? ==> r.error == Internal
    {
      var up := Environment.Choice();
      if !up {
        return Err(Internal);
      }
      if id !in states {
        return Ok(None);
      }
      var rows: seq<TrackCheckpoint> := [];
      for track := 0 to states[id].trackCount
        invariant |rows| == track
        invariant forall t: nat :: t < track ==> rows[t] == Stored(id).value.tracks[t]
      {
        if TrackKey(id, track) !in tracks {
          return Err(InvalidData);
        }
        rows := rows + [tracks[TrackKey(id, track)]];
      }
      assert rows == Stored(id).value.tracks;
      var state := New(states[id].fingerprint, rows);
      r := if state.None? then Err(InvalidData) else Ok(state);
    }

    /**
     Moves every track of one checkpoint forward in a single transaction, or none of them. A commit whose outcome
     was not heard of is an internal error, whichever of the two happened.
     */
    method SaveCheckpoint(id: nat, state: StreamResumeState)
        returns (r: Result<StreamResumeState, StoreError>)
      requires Valid()
      modifies this
      ensures Valid()
      ensures forall other :: other != id ==> Stored(other) == old(Stored(other))
      ensures r.Ok? ==> r.value == state && Stored(id) == Some(state) && Accepts(old(Stored(id)), state)
      ensures r.Err? && Stored(id) != old(Stored(id)) ==>
                r.error == Internal && Stored(id) == Some(state) && Accepts(old(Stored(id)), state)
      ensures r.Err? && r.error != Internal ==> !Accepts(old(Stored(id)), state)
    {
      var up := Environment.Choice();
      if !up {
        return Err(Internal);
      }
      if id !in states || states[id].fingerprint != state.fingerprint {
        return Err(NotFound);
      }
      if states[id].trackCount != |state.tracks| {
        return Err(ConstraintViolation);
      }
      hide StoredIn, Accepts, Consistent, Replaced, Encodable, RowAllows;
      GuardIsAccepts(states, tracks, id, state);
      var updated := UpdateTracks(tracks, id, state.tracks);
      if updated.Err? {
        return Err(updated.error);
      }
      var committed := Environment.Choice();
      if !committed {
        return Err(Internal);
      }
      AllowedFits(tracks, id, state.tracks);
      ReplacedIsStored(states, tracks, id, state);
      tracks := updated.value;
      var heard := Environment.Choice();
      r := if heard then Ok(state) else Err(Internal);
    }

    /** Deletes the state row and, by the foreign key, its track rows. */
    method Clear(id: nat) returns (r: Result<(), StoreError>)
      requires Valid()
      modifies this
      ensures Valid()
      ensures forall other :: other != id ==> Stored(other) == old(Stored(other))
      ensures r.Ok? ==> Stored(id).None?
      ensures r.Err? ==> Stored(id) == old(Stored(id)) || Stored(id).None?
    {
      var done := Environment.Choice();
      if !done {
        return Err(Internal);
      }
      hide StoredIn, Consistent;
      var rows := map key | key in tracks && key.id != id :: tracks[key];
      ClearedIsStored(states, tracks, id, rows);
      states := states - {id};
      tracks := rows;
      var heard := Environment.Choice();
      r := if heard then Ok(()) else Err(Internal);
    }
  }
}
