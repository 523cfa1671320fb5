// Parsing an HLS playlist (crates/gunda-stream/src/hls.rs), RFC 8216 section 4.3.
module HlsPlaylists {
  import opened Basics
  import opened Text
  import opened Manifests
  import opened HlsSyntax


  datatype ResourceRef = ResourceRef(uri: string, byteRange: Option<ByteRange>)

  datatype KeyRef = KeyRef(method': string, uri: Option<string>, iv: Option<string>)

  datatype Segment = Segment(
    resource: ResourceRef,
    durationMillis: Option<nat>,
    mediaSequence: nat,
    init: Option<ResourceRef>,
    key: Option<KeyRef>,
    discontinuity: bool)

  datatype Variant = Variant(
    uri: string,
    bandwidth: Option<nat>,
    resolution: Option<(nat, nat)>,
    codecs: Option<string>,
    audioGroup: Option<string>)

  datatype Rendition = Rendition(
    kind: string,
    groupId: Option<string>,
    name: Option<string>,
    language: Option<string>,
    uri: Option<string>,
    isDefault: bool)

  datatype MasterPlaylist = MasterPlaylist(variants: seq<Variant>, renditions: seq<Rendition>, iframes: seq<Variant>)

  datatype MediaPlaylist = MediaPlaylist(segments: seq<Segment>, targetDuration: Option<nat>, ended: bool)

  datatype Playlist = Master(master: MasterPlaylist) | Media(media: MediaPlaylist)

  // ---- What a line says ----

  datatype Event =
    | Ignored
    | Resource(uri: string)
    | StreamInf(attributes: seq<Attribute>)
    | IFrame(variant: Variant)
    | RenditionTag(rendition: Rendition)
    | Duration(millis: nat)
    | Range(range: ByteRange)
    | TargetDuration(seconds: nat)
    | MediaSequence(number: nat)
    | EndList
    | Discontinuity
    | Key(key: Option<KeyRef>)
    | Map(map': ResourceRef)

  /** How a decimal number of seconds rounds to milliseconds; the conversion itself is not modelled. */
  type Clock = string -> Option<nat>

  function Attributes(value: Option<string>): (r: Result<seq<Attribute>, ManifestError>) {
    var list := ParseList(if value.Some? then value.value else "");
    if list.None? then Err(Malformed) else Ok(list.value)
  }

  function ParseResolution(value: string): (r: Result<(nat, nat), ManifestError>) {
    var split := SplitOnce(value, 'x');
    if split.None? then Err(Malformed)
    else
      var width := ParseUnsigned(Trim(split.value.0), U32_MAX);
      var height := ParseUnsigned(Trim(split.value.1), U32_MAX);
      if width.None? || height.None? then Err(InvalidNumber) else Ok((width.value, height.value))
  }

  function VariantOf(attributes: seq<Attribute>, uri: string): (r: Result<Variant, ManifestError>) {
    var resolution := Get(attributes, "RESOLUTION");
    if resolution.Some? && ParseResolution(resolution.value).Err? then Err(ParseResolution(resolution.value).error)
    else
      var bandwidth := Get(attributes, "BANDWIDTH");
      if bandwidth.Some? && ParseUnsigned(Trim(bandwidth.value), U64_MAX).None? then Err(InvalidNumber)
      else
        Ok(Variant(
             uri,
             if bandwidth.Some? then ParseUnsigned(Trim(bandwidth.value), U64_MAX) else None,
             if resolution.Some? then Some(ParseResolution(resolution.value).value) else None,
             Get(attributes, "CODECS"),
             Get(attributes, "AUDIO")))
  }

  function Number(value: Option<string>): (r: Result<nat, ManifestError>)
    ensures r.Ok? ==> r.value <= U64_MAX
  {
    if value.None? then Err(Malformed)
    else
      var number := ParseUnsigned(Trim(value.value), U64_MAX);
      if number.None? then Err(InvalidNumber) else Ok(number.value)
  }

  function ReadStreamInf(value: Option<string>): (r: Result<Event, ManifestError>)
    ensures r.Ok? ==> r.value.StreamInf?
  {
    match Attributes(value)
    case Err(error) => Err(error)
    case Ok(attributes) => Ok(StreamInf(attributes))
  }

  function ReadIFrame(value: Option<string>): (r: Result<Event, ManifestError>)
    ensures r.Ok? ==> r.value.IFrame?
  {
    match Attributes(value)
    case Err(error) => Err(error)
    case Ok(attributes) =>
      var uri := Get(attributes, "URI");
      if uri.None? then Err(Malformed)
      else
        match VariantOf(attributes, uri.value)
        case Err(error) => Err(error)
        case Ok(variant) => Ok(IFrame(variant))
  }

  function ReadRendition(value: Option<string>): (r: Result<Event, ManifestError>)
    ensures r.Ok? ==> r.value.RenditionTag?
  {
    match Attributes(value)
    case Err(error) => Err(error)
    case Ok(attributes) =>
      var kind := Get(attributes, "TYPE");
      if kind.None? then Err(Malformed)
      else
        var yes := Get(attributes, "DEFAULT");
        Ok(RenditionTag(Rendition(
                          kind.value,
                          Get(attributes, "GROUP-ID"),
                          Get(attributes, "NAME"),
                          Get(attributes, "LANGUAGE"),
                          Get(attributes, "URI"),
                          yes.Some? && EqualsIgnoringCase(yes.value, "YES"))))
  }

  function ReadDuration(value: Option<string>, clock: Clock): (r: Result<Event, ManifestError>)
    ensures r.Ok? ==> r.value.Duration?
  {
    if value.None? then Err(Malformed)
    else
      var millis := clock(Split(value.value, ',')[0]);
      if millis.None? then Err(InvalidNumber) else Ok(Duration(millis.value))
  }

  function ReadRange(value: Option<string>): (r: Result<Event, ManifestError>)
    ensures r.Ok? ==> r.value.Range?
  {
    if value.None? then Err(Malformed)
    else
      match ParseByteRange(value.value)
      case Err(error) => Err(error)
      case Ok(range) => Ok(Range(range))
  }

  function ReadKey(value: Option<string>): (r: Result<Event, ManifestError>)
    ensures r.Ok? ==> r.value.Key?
  {
    if value.None? then Err(Malformed)
    else
      match Attributes(value)
      case Err(error) => Err(error)
      case Ok(attributes) =>
        var method' := Get(attributes, "METHOD");
        if method'.None? then Err(Malformed)
        else if EqualsIgnoringCase(method'.value, "NONE") then Ok(Key(None))
        else Ok(Key(Some(KeyRef(method'.value, Get(attributes, "URI"), Get(attributes, "IV")))))
  }

  function ReadMap(value: Option<string>): (r: Result<Event, ManifestError>)
    ensures r.Ok? ==> r.value.Map?
  {
    if value.None? then Err(Malformed)
    else
      match Attributes(value)
      case Err(error) => Err(error)
      case Ok(attributes) =>
        var uri, range := Get(attributes, "URI"), Get(attributes, "BYTERANGE");
        if uri.None? then Err(Malformed)
        else if range.None? then Ok(Map(ResourceRef(uri.value, None)))
        else
          match ParseByteRange(range.value)
          case Err(error) => Err(error)
          case Ok(byteRange) => Ok(Map(ResourceRef(uri.value, Some(byteRange))))
  }

  function ReadTag(name: string, value: Option<string>, clock: Clock): (r: Result<Event, ManifestError>) {
    if name == "EXT-X-STREAM-INF" then ReadStreamInf(value)
    else if name == "EXT-X-I-FRAME-STREAM-INF" then ReadIFrame(value)
    else if name == "EXT-X-MEDIA" then ReadRendition(value)
    else if name == "EXTINF" then ReadDuration(value, clock)
    else if name == "EXT-X-BYTERANGE" then ReadRange(value)
    else if name == "EXT-X-TARGETDURATION" then
      match Number(value)
      case Err(error) => Err(error)
      case Ok(seconds) => Ok(TargetDuration(seconds))
    else if name == "EXT-X-MEDIA-SEQUENCE" then
      match Number(value)
      case Err(error) => Err(error)
      case Ok(number) => Ok(MediaSequence(number))
    else if name == "EXT-X-ENDLIST" then Ok(EndList)
    else if name == "EXT-X-DISCONTINUITY" then Ok(Discontinuity)
    else if name == "EXT-X-KEY" then ReadKey(value)
    else if name == "EXT-X-MAP" then ReadMap(value)
    else Ok(Ignored)
  }

  /** One line: blank, a tag, or the URI of a resource. Tags it does not know are ignored. */
  function ReadLine(raw: string, clock: Clock): (r: Result<Event, ManifestError>) {
    var line := Trim(raw);
    if line == "" then Ok(Ignored)
    else if line[0] == '#' then
      match SplitOnce(line[1..], ':')
      case Some((name, value)) => ReadTag(name, Some(value), clock)
      case None => ReadTag(line[1..], None, clock)
    else if "data:" <= line then Err(DataUriSegments)
    else Ok(Resource(line))
  }

  // ---- The loop ----

  /** The loop's variables. */
  datatype State = State(
    master: MasterPlaylist,
    media: MediaPlaylist,
    pendingInf: Option<seq<Attribute>>,
    pendingDuration: Option<nat>,
    pendingRange: Option<ByteRange>,
    discontinuity: bool,
    key: Option<KeyRef>,
    map': Option<ResourceRef>,
    sequence: nat,
    lastRangeEnd: Option<(string, nat)>,
    sawMaster: bool,
    sawMedia: bool)

  const START := State(
    MasterPlaylist([], [], []), MediaPlaylist([], None, false),
    None, None, None, false, None, None, 0, None, false, false)

  /** Where a range ends, in the source's 64-bit arithmetic. */
  function RangeEnd(range: ByteRange): (end: nat) {
    ((if range.offset.Some? then range.offset.value else 0) + range.length) % (U64_MAX + 1)
  }

  /** A range whose offset is left out goes on where the last one on the same URI ended. */
  function Resolve(range: Option<ByteRange>, uri: string, last: Option<(string, nat)>): (r: Option<ByteRange>) {
    if range.Some? && range.value.offset.None? && last.Some? && last.value.0 == uri
    then Some(ByteRange(range.value.length, Some(last.value.1)))
    else range
  }

  function Apply(s: State, e: Event): (r: Result<State, ManifestError>) {
    match e
    case Ignored => Ok(s)
    case Resource(uri) =>
      if s.pendingInf.None? then
        var range := Resolve(s.pendingRange, uri, s.lastRangeEnd);
        if |s.media.segments| >= MAX_SEGMENTS then Err(TooManySegments)
        else
          var segment := Segment(ResourceRef(uri, range), s.pendingDuration, s.sequence, s.map', s.key, s.discontinuity);
          Ok(s.(media := s.media.(segments := s.media.segments + [segment]),
                pendingDuration := None,
                pendingRange := None,
                discontinuity := false,
                sequence := Min(s.sequence + 1, U64_MAX),
                lastRangeEnd := if range.Some? then Some((uri, RangeEnd(range.value))) else None,
                sawMedia := true))
      else if s.pendingRange.Some? then Err(Malformed)
      else
        (match VariantOf(s.pendingInf.value, uri)
         case Err(error) => Err(error)
         case Ok(variant) =>
           Ok(s.(master := s.master.(variants := s.master.variants + [variant]), pendingInf := None, sawMaster := true)))
    case StreamInf(attributes) => Ok(s.(pendingInf := Some(attributes), sawMaster := true))
    case IFrame(variant) =>
      Ok(s.(master := s.master.(iframes := s.master.iframes + [variant]), sawMaster := true))
    case RenditionTag(rendition) =>
      Ok(s.(master := s.master.(renditions := s.master.renditions + [rendition]), sawMaster := true))
    case Duration(millis) => Ok(s.(pendingDuration := Some(millis), sawMedia := true))
    case Range(range) => Ok(s.(pendingRange := Some(range), sawMedia := true))
    case TargetDuration(seconds) => Ok(s.(media := s.media.(targetDuration := Some(seconds)), sawMedia := true))
    case MediaSequence(number) => Ok(s.(sequence := number, sawMedia := true))
    case EndList => Ok(s.(media := s.media.(ended := true), sawMedia := true))
    case Discontinuity => Ok(s.(discontinuity := true, sawMedia := true))
    case Key(key) => Ok(s.(key := key, sawMedia := true))
    case Map(map') => Ok(s.(map' := Some(map'), sawMedia := true))
  }

  /** What the variables are after the first `n` lines. */
  function After(lines: seq<string>, clock: Clock, n: nat): (r: Result<State, ManifestError>)
    requires n <= |lines|
  {
    if n == 0 then Ok(START)
    else
      match After(lines, clock, n - 1)
      case Err(error) => Err(error)
      case Ok(state) =>
        match ReadLine(lines[n - 1], clock)
        case Err(error) => Err(error)
        case Ok(event) => Apply(state, event)
  }

  /** A variant tag needs its URI, and a playlist is of one kind. */
  function Conclude(s: State): (r: Result<Playlist, ManifestError>) {
    if s.pendingInf.Some? then Err(Malformed)
    else if s.sawMaster && s.sawMedia then Err(AmbiguousPlaylist)
    else if s.sawMaster then Ok(Master(s.master))
    else if s.sawMedia then Ok(Media(s.media))
    else Err(NotAManifest)
  }

  /** The header must be the first line that is not blank. */
  predicate HasHeader(lines: seq<string>) {
    lines != [] && if Trim(lines[0]) == "" then HasHeader(lines[1..]) else Trim(lines[0]) == "#EXTM3U"
  }

  function Lines(text: string): (lines: seq<string>) {
    Split(if text != "" && text[0] == '\U{feff}' then text[1..] else text, '\n')
  }

  function Parsed(text: string, clock: Clock): (r: Result<Playlist, ManifestError>) {
    var lines := Lines(text);
    if !HasHeader(lines) then Err(NotAManifest)
    else
      match After(lines, clock, |lines|)
      case Err(error) => Err(error)
      case Ok(state) => Conclude(state)
  }

  /** The parser: one pass over the lines, the first thing wrong ends it. */
  method Parse(text: string, clock: Clock) returns (r: Result<Playlist, ManifestError>)
    ensures r == Parsed(text, clock)
  {
    hide ReadLine, VariantOf, Lines, Resolve, RangeEnd, HasHeader, Min;
    var lines := Lines(text);
    if !HasHeader(lines) {
      return Err(NotAManifest);
    }
    var master, media := START.master, START.media;
    var pendingInf: Option<seq<Attribute>>, pendingDuration: Option<nat>, pendingRange: Option<ByteRange> := None, None, None;
    var discontinuity := false;
    var currentKey: Option<KeyRef>, currentMap: Option<ResourceRef> := None, None;
    var mediaSequence: nat := 0;
    var lastRangeEnd: Option<(string, nat)> := None;
    var sawMaster, sawMedia := false, false;
    for i := 0 to |lines|
      invariant After(lines, clock, i) == Ok(State(
                                               master, media, pendingInf, pendingDuration, pendingRange, discontinuity,
                                               currentKey, currentMap, mediaSequence, lastRangeEnd, sawMaster, sawMedia))
    {
      var event := ReadLine(lines[i], clock);
      if event.Err? {
        Stops(lines, clock, i + 1);
        return Err(event.error);
      }
      match event.value
      case Ignored =>
      case Resource(uri) =>
        if pendingInf.None? {
          var range := Resolve(pendingRange, uri, lastRangeEnd);
          lastRangeEnd := if range.Some? then Some((uri, RangeEnd(range.value))) else None;
          sawMedia := true;
          if |media.segments| >= MAX_SEGMENTS {
            Stops(lines, clock, i + 1);
            return Err(TooManySegments);
          }
          var segment := Segment(ResourceRef(uri, range), pendingDuration, mediaSequence, currentMap, currentKey, discontinuity);
          media := media.(segments := media.segments + [segment]);
          pendingRange, pendingDuration := None, None;
          mediaSequence := Min(mediaSequence + 1, U64_MAX);
          discontinuity := false;
        } else {
          if pendingRange.Some? {
            Stops(lines, clock, i + 1);
            return Err(Malformed);
          }
          var variant := VariantOf(pendingInf.value, uri);
          if variant.Err? {
            Stops(lines, clock, i + 1);
            return Err(variant.error);
          }
          pendingInf := None;
          master := master.(variants := master.variants + [variant.value]);
          sawMaster := true;
        }
      case StreamInf(attributes) =>
        pendingInf, sawMaster := Some(attributes), true;
      case IFrame(variant) =>
        master, sawMaster := master.(iframes := master.iframes + [variant]), true;
      case RenditionTag(rendition) =>
        master, sawMaster := master.(renditions := master.renditions + [rendition]), true;
      case Duration(millis) =>
        pendingDuration, sawMedia := Some(millis), true;
      case Range(range) =>
        pendingRange, sawMedia := Some(range), true;
      case TargetDuration(seconds) =>
        media, sawMedia := media.(targetDuration := Some(seconds)), true;
      case MediaSequence(number) =>
        mediaSequence, sawMedia := number, true;
      case EndList =>
        media, sawMedia := media.(ended := true), true;
      case Discontinuity =>
        discontinuity, sawMedia := true, true;
      case Key(key) =>
        currentKey, sawMedia := key, true;
      case Map(map') =>
        currentMap, sawMedia := Some(map'), true;
    }
    r := if pendingInf.Some? then Err(Malformed)
         else
           match (sawMaster, sawMedia)
           case (true, true) => Err(AmbiguousPlaylist)
           case (true, false) => Ok(Master(master))
           case (false, true) => Ok(Media(media))
           case (false, false) => Err(NotAManifest);
  }

  /** What is wrong with a line stays the result, whatever lines follow. */
  lemma {:induction false} Stops(lines: seq<string>, clock: Clock, n: nat)
    requires n <= |lines| && After(lines, clock, n).Err?
    ensures After(lines, clock, |lines|) == After(lines, clock, n)
    decreases |lines| - n
  {
    hide ReadLine, Apply;
    if n < |lines| {
      Stops(lines, clock, n + 1);
    }
  }
}
