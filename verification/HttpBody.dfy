// An HTTP response body read chunk by chunk (crates/gunda-http/src/body.rs).
module HttpBodies {
  import opened Basics

  datatype HttpError =
    | InvalidRequest
    | Timeout
    | Transport
    | UnexpectedStatus(status: nat)
    | InvalidMetadata
    | UnsupportedEncoding
    | BodyLengthMismatch
    | ByteCountOverflow

  /** What the transport hands over; a wire that runs out without an end goes silent. */
  datatype WireEvent = Data(bytes: Bytes) | EndOfStream | Broken(error: HttpError)

  type Wire = seq<WireEvent>

  /** The bytes on a wire up to its end or its failure. */
  function Payload(wire: Wire): Bytes {
    if wire == [] || !wire[0].Data? then [] else wire[0].bytes + Payload(wire[1..])
  }

  /** The transport itself reports a clean end. */
  predicate EndsWell(wire: Wire) {
    wire != [] && (wire[0].EndOfStream? || (wire[0].Data? && EndsWell(wire[1..])))
  }

  /** The four fields of a body. */
  datatype BodyState = BodyState(limit: Option<nat>, response: Option<Wire>, received: nat, failure: Option<HttpError>) {

    ghost predicate Valid() {
      && received <= U64_MAX
      && (limit.Some? ==> received <= limit.value)
      && (failure.Some? ==> response.None?)
    }

    predicate IsUnconsumed() {
      response.Some? && failure.None? && received == 0
    }

    function StopWith(error: HttpError): BodyState {
      this.(failure := Some(error), response := None)
    }
  }

  /** One read: what the body becomes, and what the caller gets. */
  function Next(s: BodyState): (r: (BodyState, Result<Option<Bytes>, HttpError>))
    ensures s.Valid() ==> r.0.Valid()
    ensures r.0.limit == s.limit
    decreases if s.response.Some? then |s.response.value| else 0
  {
    if s.failure.Some? then (s, Err(s.failure.value))
    else if s.response.None? then (s, Ok(None))
    else if s.response.value == [] then (s.StopWith(Timeout), Err(Timeout))
    else
      var rest := s.response.value[1..];
      match s.response.value[0]
      case Broken(error) => (s.StopWith(error), Err(error))
      case EndOfStream =>
        if s.limit.Some? && s.received != s.limit.value then (s.StopWith(BodyLengthMismatch), Err(BodyLengthMismatch))
        else (s.(response := None), Ok(None))
      case Data(bytes) =>
        var received := s.received + |bytes|;
        if bytes == [] then Next(s.(response := Some(rest)))
        else if received > U64_MAX then (s.StopWith(ByteCountOverflow), Err(ByteCountOverflow))
        else if s.limit.Some? && received > s.limit.value then
          (s.StopWith(BodyLengthMismatch), Err(BodyLengthMismatch))
        else (s.(response := Some(rest), received := received), Ok(Some(bytes)))
  }

  class HttpBody {
    const contentLength: Option<nat>
    var response: Option<Wire>
    var receivedBytes: nat
    var failure: Option<HttpError>

    function State(): BodyState
      reads this
    {
      BodyState(contentLength, response, receivedBytes, failure)
    }

    constructor (contentLength: Option<nat>, wire: Wire)
      ensures State() == Opened(contentLength, wire)
    {
      this.contentLength := contentLength;
      response, receivedBytes, failure := Some(wire), 0, None;
    }

    method NextChunk() returns (r: Result<Option<Bytes>, HttpError>)
      modifies this
      ensures (State(), r) == Next(old(State()))
    {
      if failure.Some? {
        return Err(failure.value);
      }
      while true
        invariant failure.None? && Next(State()) == Next(old(State()))
        decreases if response.Some? then |response.value| else 0
      {
        if response.None? {
          return Ok(None);
        }
        var wire := response.value;
        if wire == [] || wire[0].Broken? {
          var error := if wire == [] then Timeout else wire[0].error;
          StopWithError(error);
          return Err(error);
        }
        if wire[0].EndOfStream? {
          if contentLength.Some? && receivedBytes != contentLength.value {
            StopWithError(BodyLengthMismatch);
            return Err(BodyLengthMismatch);
          }
          response := None;
          return Ok(None);
        }
        var chunk := wire[0].bytes;
        if chunk == [] {
          response := Some(wire[1..]);
          continue;
        }
        var received := receivedBytes + |chunk|;
        if received > U64_MAX {
          StopWithError(ByteCountOverflow);
          return Err(ByteCountOverflow);
        }
        if contentLength.Some? && received > contentLength.value {
          StopWithError(BodyLengthMismatch);
          return Err(BodyLengthMismatch);
        }
        response, receivedBytes := Some(wire[1..]), received;
        return Ok(Some(chunk));
      }
    }

    method StopWithError(error: HttpError)
      modifies this`failure, this`response
      ensures State() == old(State()).StopWith(error)
    {
      failure, response := Some(error), None;
    }
  }

  function Opened(contentLength: Option<nat>, wire: Wire): BodyState {
    BodyState(contentLength, Some(wire), 0, None)
  }

  // ---- What a reader of the whole body gets ----

  /** Everything delivered, and the error that ended it, when reading until the body stops. */
  ghost function Drain(s: BodyState): (r: (Bytes, Option<HttpError>))
    decreases if s.response.Some? then |s.response.value| else 0
  {
    var (after, chunk) := Next(s);
    NextConsumes(s);
    match chunk
    case Err(error) => ([], Some(error))
    case Ok(None) => ([], None)
    case Ok(Some(bytes)) =>
      var (rest, ending) := Drain(after);
      (bytes + rest, ending)
  }

  lemma NextConsumes(s: BodyState)
    ensures var (after, chunk) := Next(s);
            chunk.Ok? && chunk.value.Some? ==>
              && chunk.value.value != []
              && s.response.Some? && after.response.Some?
              && |after.response.value| < |s.response.value|
              && Payload(s.response.value) == chunk.value.value + Payload(after.response.value)
              && EndsWell(s.response.value) == EndsWell(after.response.value)
              && after.received == s.received + |chunk.value.value|
              && after.failure == s.failure
    decreases if s.response.Some? then |s.response.value| else 0
  {
    if s.failure.None? && s.response.Some? && s.response.value != [] && s.response.value[0] == Data([]) {
      NextConsumes(s.(response := Some(s.response.value[1..])));
    }
  }

  /** The good end of a body of declared length comes only when that many bytes were counted. */
  lemma GoodEndIsComplete(s: BodyState)
    requires Next(s).1 == Ok(None) && s.response.Some? && s.limit.Some?
    ensures s.received == s.limit.value
    decreases if s.response.Some? then |s.response.value| else 0
  {
    if s.failure.None? && s.response.value != [] && s.response.value[0] == Data([]) {
      GoodEndIsComplete(s.(response := Some(s.response.value[1..])));
    }
  }

  /** And only when nothing is left on the wire. */
  lemma GoodEndIsEnd(s: BodyState)
    requires Next(s).1 == Ok(None) && s.response.Some?
    ensures Payload(s.response.value) == [] && EndsWell(s.response.value) && Next(s).0.response.None?
    decreases if s.response.Some? then |s.response.value| else 0
  {
    if s.failure.None? && s.response.value != [] && s.response.value[0] == Data([]) {
      GoodEndIsEnd(s.(response := Some(s.response.value[1..])));
    }
  }

  /**
   A body is read to a good end exactly when the transport ended it and the bytes counted add up to the
   declared length; and then what was read is what was sent. Otherwise only a prefix of it was read, and
   never more than the declared length.
   */
  lemma DrainIsExact(s: BodyState)
    requires s.Valid() && s.failure.None? && s.response.Some?
    ensures var (read, error) := Drain(s);
            var sent := Payload(s.response.value);
            && read <= sent
            && s.received + |read| <= U64_MAX
            && (s.limit.Some? ==> s.received + |read| <= s.limit.value)
            && (error.None? <==>
                && EndsWell(s.response.value)
                && s.received + |sent| <= U64_MAX
                && (s.limit.Some? ==> s.received + |sent| == s.limit.value))
            && (error.None? ==> read == sent)
    decreases |s.response.value|
  {
    var wire := s.response.value;
    hide BodyState.Valid;
    if wire != [] && wire[0] == Data([]) {
      DrainIsExact(s.(response := Some(wire[1..])));
    } else {
      var (after, chunk) := Next(s);
      NextConsumes(s);
      if chunk.Ok? && chunk.value.Some? {
        hide Next;
        DrainIsExact(after);
      }
    }
  }

  /** After a failure every further read returns that failure again, and nothing more is delivered. */
  lemma FailureIsSticky(s: BodyState)
    requires Next(s).1.Err?
    ensures Next(Next(s).0) == Next(s)
    decreases if s.response.Some? then |s.response.value| else 0
  {
    if s.failure.None? && s.response.Some? && s.response.value != [] && s.response.value[0] == Data([]) {
      FailureIsSticky(s.(response := Some(s.response.value[1..])));
    }
  }
}
