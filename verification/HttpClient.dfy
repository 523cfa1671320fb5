// Which responses the client accepts (crates/gunda-http/src/client.rs and validator.rs).
module HttpClient {
  import opened Basics
  import opened Text
  import opened HttpBodies
  import HttpRange

  /** A response as received: every header with all the values it was sent with. */
  datatype Response = Response(
    status: nat,
    encoding: seq<string>,
    contentLength: seq<string>,
    contentType: seq<string>,
    contentRange: seq<string>,
    etag: seq<Bytes>,
    wire: Wire)

  datatype Inspection = Inspection(contentLength: Option<nat>, contentType: Option<string>, strongEtag: Option<Bytes>)

  function SingleHeader(values: seq<string>): (r: Result<Option<string>, HttpError>)
    ensures r.Ok? <==> |values| <= 1
  {
    if values == [] then Ok(None) else if |values| == 1 then Ok(Some(values[0])) else Err(InvalidMetadata)
  }

  predicate IsTagByte(b: bv8) {
    b == 0x21 || 0x23 <= b <= 0x7e || 0x80 <= b
  }

  /** RFC 9110 section 8.8.3: a quoted opaque tag; the weak form is not one. */
  predicate IsStrongTag(value: Bytes) {
    && |value| >= 2
    && value[0] == 0x22 && value[|value| - 1] == 0x22
    && forall i :: 0 < i < |value| - 1 ==> IsTagByte(value[i])
  }

  function StrongTag(values: seq<Bytes>): (r: Option<Bytes>) {
    if |values| == 1 && IsStrongTag(values[0]) then Some(values[0]) else None
  }

  function InspectHeaders(response: Response): (r: Result<Inspection, HttpError>) {
    match SingleHeader(response.encoding)
    case Err(error) => Err(error)
    case Ok(encoding) =>
      if encoding.Some? && !EqualsIgnoringCase(Trim(encoding.value), "identity") then Err(UnsupportedEncoding)
      else
        match SingleHeader(response.contentLength)
        case Err(error) => Err(error)
        case Ok(length) =>
          if length.Some? && HttpRange.ParseDecimal(Trim(length.value)).None? then Err(InvalidMetadata)
          else
            match SingleHeader(response.contentType)
            case Err(error) => Err(error)
            case Ok(contentType) =>
              var bytes := if length.Some? then HttpRange.ParseDecimal(Trim(length.value)) else None;
              Ok(Inspection(bytes, contentType, StrongTag(response.etag)))
  }

  /** A complete response: 200, and not a range. */
  function InspectResponse(response: Response): (r: Result<Inspection, HttpError>) {
    if response.status != 200 then Err(UnexpectedStatus(response.status))
    else if response.contentRange != [] then Err(InvalidMetadata)
    else InspectHeaders(response)
  }

  predicate IsMultipart(contentType: Option<string>) {
    && contentType.Some?
    && EqualsIgnoringCase(Trim(Split(contentType.value, ';')[0]), "multipart/byteranges")
  }

  /** The interval a partial response announces. */
  function AnnouncedRange(response: Response): (r: Option<HttpRange.ContentRange>)
    ensures r.Some? ==> r.value.Valid()
  {
    if |response.contentRange| == 1 then HttpRange.Parse(response.contentRange[0]) else None
  }

  /**
   Accepts the answer to a request for everything from `start` on, made under `validator`. The length
   is the interval's, whether or not the response declared one.
   */
  function OpenRange(response: Response, start: nat, total: nat, validator: Bytes): (r: Result<Inspection, HttpError>) {
    if start == 0 || start >= total then Err(InvalidRequest)
    else if response.status != 206 then Err(UnexpectedStatus(response.status))
    else
      var range := AnnouncedRange(response);
      if range.None? || !range.value.IsTail(start, total) then Err(InvalidMetadata)
      else
        var inspected := InspectHeaders(response);
        if inspected.Err? then inspected
        else
          var length := range.value.BodyLength();
          if inspected.value.contentLength.Some? && inspected.value.contentLength.value != length then Err(InvalidMetadata)
          else if IsMultipart(inspected.value.contentType) then Err(InvalidMetadata)
          else if response.etag != [] && inspected.value.strongEtag != Some(validator) then Err(InvalidMetadata)
          else Ok(inspected.value.(contentLength := Some(length)))
  }

  /** Accepts the answer to a request for exactly `first` to `last`, an interval of a manifest's resource. */
  function OpenByteRange(response: Response, first: nat, last: nat): (r: Result<Inspection, HttpError>) {
    if last < first then Err(InvalidRequest)
    else if response.status != 206 then Err(UnexpectedStatus(response.status))
    else
      var range := AnnouncedRange(response);
      if range.None? || range.value.start != first || range.value.end != last then Err(InvalidMetadata)
      else
        var inspected := InspectHeaders(response);
        if inspected.Err? then inspected
        else
          var length := range.value.BodyLength();
          if inspected.value.contentLength.Some? && inspected.value.contentLength.value != length then Err(InvalidMetadata)
          else if IsMultipart(inspected.value.contentType) then Err(InvalidMetadata)
          else Ok(inspected.value.(contentLength := Some(length)))
  }

  // ---- What an honest origin sends ----

  /** As far as both go, `payload` is `whole` from `offset` on. */
  predicate Agrees(payload: Bytes, whole: Bytes, offset: nat) {
    forall i :: 0 <= i < |payload| && offset + i < |whole| ==> payload[i] == whole[offset + i]
  }

  /**
   A complete response under a strong tag carries that tag's representation, and a length it declares is
   the representation's. The wire may still break, stop short or run on.
   */
  predicate HonestWhole(reps: map<Bytes, Bytes>, response: Response) {
    var inspected := InspectResponse(response);
    inspected.Ok? && inspected.value.strongEtag.Some? ==>
      var tag := inspected.value.strongEtag.value;
      && tag in reps
      && (inspected.value.contentLength.Some? ==> inspected.value.contentLength.value == |reps[tag]|)
      && Agrees(Payload(response.wire), reps[tag], 0)
  }

  /**
   A partial response carries the announced interval of the representation it names, or, naming none, of
   the one the condition asked for (RFC 9110 sections 13.1.5 and 14.4). Nothing is known of an encoded or
   multipart one.
   */
  predicate HonestTail(reps: map<Bytes, Bytes>, response: Response, validator: Bytes) {
    var inspected := InspectHeaders(response);
    var named := if response.etag == [] then Some(validator) else StrongTag(response.etag);
    && response.status == 206 && inspected.Ok? && !IsMultipart(inspected.value.contentType)
    && AnnouncedRange(response).Some?
    && named.Some? && named.value in reps ==>
      Agrees(Payload(response.wire), reps[named.value], AnnouncedRange(response).value.start)
  }

  /** Every check `OpenRange` makes is used: what it lets through is the rest of the right representation. */
  lemma AcceptedTailIsTheRest(reps: map<Bytes, Bytes>, response: Response, start: nat, total: nat, validator: Bytes)
    requires validator in reps
    requires HonestTail(reps, response, validator)
    requires OpenRange(response, start, total, validator).Ok?
    ensures 0 < start < total
    ensures OpenRange(response, start, total, validator).value.contentLength == Some(total - start)
    ensures Agrees(Payload(response.wire), reps[validator], start)
  {
    hide InspectHeaders, IsMultipart, AnnouncedRange, StrongTag, Payload;
    StrongEtagIsRead(response);
  }

  lemma StrongEtagIsRead(response: Response)
    ensures InspectHeaders(response).Ok? ==> InspectHeaders(response).value.strongEtag == StrongTag(response.etag)
  {
    hide StrongTag, Trim, EqualsIgnoringCase, HttpRange.ParseDecimal;
  }

  /** A partial response to an unconditional request carries the announced interval of the resource. */
  predicate HonestInterval(resource: Bytes, response: Response) {
    var inspected := InspectHeaders(response);
    && response.status == 206 && inspected.Ok? && !IsMultipart(inspected.value.contentType)
    && AnnouncedRange(response).Some? ==>
      && AnnouncedRange(response).value.total == |resource|
      && Agrees(Payload(response.wire), resource, AnnouncedRange(response).value.start)
  }

  /** A ranged segment read to a good end is exactly that interval of the resource. */
  lemma RangedSegmentIsExact(resource: Bytes, response: Response, first: nat, last: nat)
    requires HonestInterval(resource, response)
    requires OpenByteRange(response, first, last).Ok?
    ensures last < |resource|
    ensures var (read, error) := Drain(Opened(OpenByteRange(response, first, last).value.contentLength, response.wire));
            && read <= resource[first..last + 1]
            && (error.None? ==> read == resource[first..last + 1])
  {
    hide InspectHeaders, IsMultipart, AnnouncedRange, Payload, Drain, EndsWell;
    var limit := OpenByteRange(response, first, last).value.contentLength;
    DrainIsExact(Opened(limit, response.wire));
    var (read, error) := Drain(Opened(limit, response.wire));
    assert read <= Payload(response.wire);
    forall i | 0 <= i < |read|
      ensures read[i] == resource[first..last + 1][i]
    {
      assert read[i] == Payload(response.wire)[i];
    }
  }
}
