// Identity and checkpoint of a direct HTTP download: in memory (crates/gunda-http/src/resume_state.rs)
// and stored (crates/gunda-storage/src/http_resume.rs).
module HttpStorage {
  import opened Basics
  import opened Stores
  import Environment

  datatype HttpResumeState = HttpResumeState(tag: Bytes, total: nat, durable: nat)

  /** A checkpoint beyond the representation is refused. */
  function New(tag: Bytes, total: nat, durable: nat): (r: Option<HttpResumeState>)
    ensures r.Some? <==> durable <= total
    ensures r.Some? ==> r.value == HttpResumeState(tag, total, durable)
  {
    if durable > total then None else Some(HttpResumeState(tag, total, durable))
  }

  /** What the guarded update demands of the stored row. */
  predicate Accepts(stored: Option<HttpResumeState>, state: HttpResumeState) {
    && stored.Some?
    && stored.value.tag == state.tag
    && stored.value.total == state.total <= I64_MAX
    && stored.value.durable <= state.durable <= state.total
  }

  /**
   The in-memory rule and the SQL guard are one rule: a moved count makes a checkpoint that the guard lets through
   exactly when it is between the stored count and the size of the representation.
   */
  lemma MemoryRuleIsStoreRule(stored: HttpResumeState, durable: nat)
    requires stored.durable <= stored.total <= I64_MAX
    ensures var moved := New(stored.tag, stored.total, durable);
            (moved.Some? && Accepts(Some(stored), moved.value)) <==> stored.durable <= durable <= stored.total
  {
  }

  class HttpStore {
    var rows: map<nat, HttpResumeState>

    ghost predicate Valid()
      reads this
    {
      forall id :: id in rows ==> rows[id].durable <= rows[id].total <= I64_MAX
    }

    function Stored(id: nat): Option<HttpResumeState>
      reads this
    {
      if id in rows then Some(rows[id]) else None
    }

    constructor ()
      ensures Valid() && rows == map[]
    {
      rows := map[];
    }

    method Initialize(id: nat, tag: Bytes, total: nat) returns (r: Result<HttpResumeState, StoreError>)
      requires Valid()
      modifies this
      ensures Valid()
      ensures r.Ok? ==>
                && old(Stored(id)).None?
                && r.value == HttpResumeState(tag, total, 0)
                && rows == old(rows)[id := r.value]
      ensures r.Err? && rows != old(rows) ==>
                r.error == Internal && old(Stored(id)).None? && rows == old(rows)[id := HttpResumeState(tag, total, 0)]
      ensures r.Err? && r.error != Internal ==> old(Stored(id)).Some? || total > I64_MAX
    {
      if total > I64_MAX {
        return Err(ConstraintViolation);
      }
      var up := Environment.Choice();
      if !up {
        return Err(Internal);
      }
      if id in rows {
        return Err(ConstraintViolation);
      }
      rows := rows[id := HttpResumeState(tag, total, 0)];
      var heard := Environment.Choice();
      r := if heard then Ok(rows[id]) else Err(Internal);
    }

    method Find(id: nat) returns (r: Result<Option<HttpResumeState>, StoreError>)
      requires Valid()
      ensures r.Ok? ==> r.value == Stored(id)
      ensures r.Err? ==> r.error == Internal
    {
      var up := Environment.Choice();
      if !up {
        return Err(Internal);
      }
      if id !in rows {
        return Ok(None);
      }
      var state := New(rows[id].tag, rows[id].total, rows[id].durable);
      r := if state.None? then Err(InvalidData) else Ok(state);
    }

    /** A statement whose outcome was not heard of is an internal error, whether it took effect or not. */
    method SaveCheckpoint(id: nat, state: HttpResumeState) returns (r: Result<HttpResumeState, StoreError>)
      requires Valid() && state.durable <= state.total
      modifies this
      ensures Valid()
      ensures r.Ok? ==> r.value == state && Accepts(old(Stored(id)), state) && rows == old(rows)[id := state]
      ensures r.Err? && rows != old(rows) ==>
                r.error == Internal && Accepts(old(Stored(id)), state) && rows == old(rows)[id := state]
      ensures r.Err? && r.error != Internal ==> !Accepts(old(Stored(id)), state)
    {
      if state.total > I64_MAX || state.durable > I64_MAX {
        return Err(ConstraintViolation);
      }
      var up := Environment.Choice();
      if !up {
        return Err(Internal);
      }
      if id in rows && rows[id].tag == state.tag && rows[id].total == state.total && rows[id].durable <= state.durable {
        rows := rows[id := rows[id].(durable := state.durable)];
        var heard := Environment.Choice();
        return if heard then Ok(state) else Err(Internal);
      }
      var found := Find(id);
      if found.Err? {
        return Err(found.error);
      }
      r := Err(if found.value.None? then NotFound else ConstraintViolation);
    }

    method Clear(id: nat) returns (r: Result<(), StoreError>)
      requires Valid()
      modifies this
      ensures Valid()
      ensures rows == old(rows) - {id} || (r.Err? && rows == old(rows))
    {
      var up := Environment.Choice();
      if !up {
        return Err(Internal);
      }
      rows := rows - {id};
      var heard := Environment.Choice();
      r := if heard then Ok(()) else Err(Internal);
    }
  }
}
