// The compact text that names the chosen track of a presentation (crates/gunda-stream/src/selection.rs,
// crates/gunda-core/src/download/selection.rs).
module Selections {
  import opened Basics
  import opened Text
  import opened Manifests

  const MAX_LEN: nat := 128

  datatype HlsSelection = HlsSelection(
    variant: nat,
    bandwidth: Option<nat>,
    resolution: Option<(nat, nat)>,
    declaredTotal: Option<nat>,
    audioRendition: Option<nat>,
    audioLanguage: Option<string>)

  datatype DashSelection = DashSelection(
    videoSet: Option<nat>,
    videoRepresentation: Option<nat>,
    videoBandwidth: Option<nat>,
    audioSet: Option<nat>,
    audioRepresentation: Option<nat>,
    audioBandwidth: Option<nat>)

  /** One DASH track: its adaptation set, its representation and the bandwidth it declares. */
  datatype DashTrack = DashTrack(set_: nat, representation: nat, bandwidth: Option<nat>)

  // ---- What may be stored ----

  predicate MayAppear(c: char) {
    IsAlphanumeric(c) || c in "-_.:;,="
  }

  /** A selection is stored only when it is short and plain. */
  predicate IsSelection(value: string) {
    0 < |value| <= MAX_LEN && forall i :: 0 <= i < |value| ==> MayAppear(value[i])
  }

  function NewSelection(value: string): (r: Result<string, ManifestError>) {
    if IsSelection(value) then Ok(value) else Err(Malformed)
  }

  // ---- Printing ----

  function PrintOptional(n: Option<nat>): (s: string) {
    if n.None? then "-" else Print(n.value)
  }

  function PrintWidth(resolution: Option<(nat, nat)>): (s: string) {
    if resolution.None? then "-" else Print(resolution.value.0)
  }

  function PrintHeight(resolution: Option<(nat, nat)>): (s: string) {
    if resolution.None? then "-" else Print(resolution.value.1)
  }

  /** A language tag with everything but letters, digits, `-` and `_` replaced. */
  function Sanitised(language: Option<string>): (s: string)
    ensures ':' !in s
    ensures language.Some? ==> |s| == |language.value|
  {
    var text := if language.None? then "-" else language.value;
    seq(|text|, i requires 0 <= i < |text| =>
      if IsAlphanumeric(text[i]) || text[i] == '-' || text[i] == '_' then text[i] else '-')
  }

  function HlsParts(variant: nat, bandwidth: Option<nat>, resolution: Option<(nat, nat)>): (parts: seq<string>) {
    ["hls", "1", Print(variant), PrintOptional(bandwidth), PrintWidth(resolution), PrintHeight(resolution)]
  }

  function HlsAudioParts(variant: nat, bandwidth: Option<nat>, resolution: Option<(nat, nat)>,
                         audio: nat, language: Option<string>): (parts: seq<string>) {
    ["hls", "2", Print(variant), PrintOptional(bandwidth), PrintWidth(resolution), PrintHeight(resolution),
     Print(audio), Sanitised(language)]
  }

  function TrackParts(track: Option<DashTrack>): (parts: seq<string>)
    ensures |parts| == 3
  {
    if track.None? then ["-", "-", "-"]
    else [Print(track.value.set_), Print(track.value.representation), PrintOptional(track.value.bandwidth)]
  }

  function DashParts(video: Option<DashTrack>, audio: Option<DashTrack>): (parts: seq<string>)
    ensures |parts| == 8
  {
    ["dash", "1"] + TrackParts(video) + TrackParts(audio)
  }

  /** The printers: `new` has the last word. */
  function PrintHls(variant: nat, bandwidth: Option<nat>, resolution: Option<(nat, nat)>): Result<string, ManifestError> {
    NewSelection(Join(HlsParts(variant, bandwidth, resolution), ':'))
  }

  function PrintHlsWithAudio(variant: nat, bandwidth: Option<nat>, resolution: Option<(nat, nat)>,
                             audio: nat, language: Option<string>): Result<string, ManifestError> {
    NewSelection(Join(HlsAudioParts(variant, bandwidth, resolution, audio, language), ':'))
  }

  function PrintDash(video: Option<DashTrack>, audio: Option<DashTrack>): Result<string, ManifestError> {
    NewSelection(Join(DashParts(video, audio), ':'))
  }

  /** The daemon appends a declared total to an HLS selection, and to no other. */
  function WithSize(selection: string, size: Option<nat>): (r: string) {
    if !("hls:" <= selection) || size.None? then selection else selection + ":" + Print(size.value)
  }

  // ---- Parsing ----

  function Part(parts: seq<string>, i: nat): (r: Option<string>) {
    if i < |parts| then Some(parts[i]) else None
  }

  function ParseNumber(part: Option<string>): (r: Result<nat, ManifestError>) {
    if part.None? || ParseUnsigned(part.value, U64_MAX).None? then Err(SelectionUnavailable)
    else Ok(ParseUnsigned(part.value, U64_MAX).value)
  }

  /** A missing part and a dash both say that there is no number. */
  function ParseOptional(part: Option<string>): (r: Result<Option<nat>, ManifestError>) {
    if part.None? || part.value == "-" then Ok(None)
    else
      var n := ParseUnsigned(part.value, U64_MAX);
      if n.None? then Err(SelectionUnavailable) else Ok(n)
  }

  function ParseResolution(width: Option<nat>, height: Option<nat>): (r: Result<Option<(nat, nat)>, ManifestError>) {
    if width.Some? && height.Some? then
      if width.value <= U32_MAX && height.value <= U32_MAX then Ok(Some((width.value, height.value)))
      else Err(SelectionUnavailable)
    else if width.None? && height.None? then Ok(None)
    else Err(SelectionUnavailable)
  }

  function ParseHls(selection: string): (r: Result<HlsSelection, ManifestError>) {
    var parts := Split(selection, ':');
    if parts[0] != "hls" || |parts| == 1 || (parts[1] != "1" && parts[1] != "2") then Err(SelectionUnavailable)
    else
      var withAudio := parts[1] == "2";
      var variant, bandwidth := ParseNumber(Part(parts, 2)), ParseOptional(Part(parts, 3));
      var width, height := ParseOptional(Part(parts, 4)), ParseOptional(Part(parts, 5));
      var audio := if withAudio then ParseOptional(Part(parts, 6)) else Ok(None);
      var language := if withAudio && |parts| > 7 && parts[7] != "-" then Some(parts[7]) else None;
      var last := if withAudio then 8 else 6;
      var total := ParseOptional(Part(parts, last));
      if variant.Err? || bandwidth.Err? || width.Err? || height.Err? || audio.Err? || total.Err? || |parts| > last + 1
      then Err(SelectionUnavailable)
      else
        match ParseResolution(width.value, height.value)
        case Err(error) => Err(error)
        case Ok(resolution) =>
          Ok(HlsSelection(variant.value, bandwidth.value, resolution, total.value, audio.value, language))
  }

  function ParseDash(selection: string): (r: Result<DashSelection, ManifestError>) {
    var parts := Split(selection, ':');
    if parts[0] != "dash" || Part(parts, 1) != Some("1") then Err(SelectionUnavailable)
    else
      var videoSet, videoRepresentation := ParseOptional(Part(parts, 2)), ParseOptional(Part(parts, 3));
      var videoBandwidth, audioSet := ParseOptional(Part(parts, 4)), ParseOptional(Part(parts, 5));
      var audioRepresentation, audioBandwidth := ParseOptional(Part(parts, 6)), ParseOptional(Part(parts, 7));
      if videoSet.Err? || videoRepresentation.Err? || videoBandwidth.Err? || audioSet.Err? || audioRepresentation.Err?
         || audioBandwidth.Err? || |parts| > 8
      then Err(SelectionUnavailable)
      else
        Ok(DashSelection(videoSet.value, videoRepresentation.value, videoBandwidth.value,
                         audioSet.value, audioRepresentation.value, audioBandwidth.value))
  }

  // ---- Round trips ----

  predicate Fits(n: Option<nat>) {
    n.Some? ==> n.value <= U64_MAX
  }

  predicate ResolutionFits(resolution: Option<(nat, nat)>) {
    resolution.Some? ==> resolution.value.0 <= U32_MAX && resolution.value.1 <= U32_MAX
  }

  predicate TrackFits(track: Option<DashTrack>) {
    track.Some? ==> track.value.set_ <= U64_MAX && track.value.representation <= U64_MAX && Fits(track.value.bandwidth)
  }

  lemma NumberParts(n: nat)
    ensures ':' !in Print(n) && Print(n) != "-"
    ensures n <= U64_MAX ==> ParseNumber(Some(Print(n))) == Ok(n)
  {
    ParsePrint(n, U64_MAX);
    assert AllDigits(Print(n)) && !IsDigit(':') && !AllDigits("-") by { assert !IsDigit("-"[0]); }
  }

  lemma OptionalParts(n: Option<nat>)
    ensures ':' !in PrintOptional(n)
    ensures Fits(n) ==> ParseOptional(Some(PrintOptional(n))) == Ok(n)
  {
    if n.Some? {
      NumberParts(n.value);
    }
  }

  /** The parts of a printed selection with its total. */
  function Whole(parts: seq<string>, size: Option<nat>): (whole: seq<string>) {
    parts + if size.Some? then [Print(size.value)] else []
  }

  lemma PrintedSize(parts: seq<string>, size: Option<nat>)
    requires |parts| >= 2 && parts[0] == "hls"
    ensures WithSize(Join(parts, ':'), size) == Join(Whole(parts, size), ':')
  {
    assert Join(parts, ':')[..4] == "hls:";
    if size.Some? {
      JoinSnoc(parts, Print(size.value), ':');
    } else {
      assert Whole(parts, size) == parts;
    }
  }

  lemma SplitWhole(parts: seq<string>, size: Option<nat>)
    requires |parts| >= 2 && parts[0] == "hls" && forall i :: 0 <= i < |parts| ==> ':' !in parts[i]
    ensures Split(WithSize(Join(parts, ':'), size), ':') == Whole(parts, size)
  {
    if size.Some? {
      NumberParts(size.value);
    }
    PrintedSize(parts, size);
    SplitJoin(Whole(parts, size), ':');
  }

  lemma ResolutionParts(resolution: Option<(nat, nat)>)
    ensures ':' !in PrintWidth(resolution) && ':' !in PrintHeight(resolution)
    ensures ResolutionFits(resolution) ==>
              ParseOptional(Some(PrintWidth(resolution))) == Ok(if resolution.None? then None else Some(resolution.value.0))
    ensures ResolutionFits(resolution) ==>
              ParseOptional(Some(PrintHeight(resolution))) == Ok(if resolution.None? then None else Some(resolution.value.1))
  {
    if resolution.Some? {
      OptionalParts(Some(resolution.value.0));
      OptionalParts(Some(resolution.value.1));
    }
  }

  // ---- Lengths ----

  predicate Plain(s: string) {
    forall i :: 0 <= i < |s| ==> MayAppear(s[i])
  }

  lemma PlainNumber(n: Option<nat>)
    requires Fits(n)
    ensures Plain(PrintOptional(n)) && |PrintOptional(n)| <= 20
  {
    if n.Some? {
      assert Pow10(5) == 100_000;
      assert Pow10(10) == 10_000_000_000;
      assert Pow10(15) == 1_000_000_000_000_000;
      assert Pow10(20) == 100_000_000_000_000_000_000;
      PrintLength(n.value, 20);
      assert AllDigits(Print(n.value));
    }
  }

  /** How long the parts are together. */
  function Lengths(parts: seq<string>): (n: nat) {
    if parts == [] then 0 else |parts[0]| + Lengths(parts[1..])
  }

  lemma {:induction false} PlainJoin(parts: seq<string>)
    requires parts != [] && forall i :: 0 <= i < |parts| ==> Plain(parts[i])
    ensures Plain(Join(parts, ':')) && |Join(parts, ':')| == Lengths(parts) + |parts| - 1
  {
    hide Plain;
    if |parts| > 1 {
      PlainJoin(parts[1..]);
      PlainThree(parts[0], Join(parts[1..], ':'));
    }
  }

  lemma PlainThree(a: string, b: string)
    requires Plain(a) && Plain(b)
    ensures Plain(a + [':'] + b)
  {
  }

  /** Plain parts make a selection exactly when they are short enough together. */
  lemma StoredExactlyWhenShort(parts: seq<string>)
    requires |parts| > 1 && forall i :: 0 <= i < |parts| ==> Plain(parts[i])
    ensures IsSelection(Join(parts, ':')) <==> Lengths(parts) + |parts| - 1 <= MAX_LEN
  {
    PlainJoin(parts);
  }

  function TotalLength(size: Option<nat>): (n: nat) {
    if size.None? then 0 else 1 + |Print(size.value)|
  }

  lemma {:induction false} LengthsWhole(parts: seq<string>, size: Option<nat>)
    ensures Lengths(Whole(parts, size)) + |Whole(parts, size)| == Lengths(parts) + |parts| + TotalLength(size)
  {
    hide Print;
    if parts == [] {
      assert size.Some? ==> Whole(parts, size)[1..] == [];
    } else {
      LengthsWhole(parts[1..], size);
      assert Whole(parts, size)[1..] == Whole(parts[1..], size);
    }
  }

  /** With its total, a printed HLS selection is stored exactly when both fit the limit together. */
  lemma TotalFitsExactly(parts: seq<string>, size: Option<nat>)
    requires |parts| > 1 && parts[0] == "hls" && Fits(size) && forall i :: 0 <= i < |parts| ==> Plain(parts[i])
    ensures NewSelection(WithSize(Join(parts, ':'), size)).Ok?
            <==> Lengths(parts) + |parts| - 1 + TotalLength(size) <= MAX_LEN
  {
    hide Join, WithSize, Plain, Lengths;
    PrintedSize(parts, size);
    PlainNumber(size);
    if size.Some? {
      AudioPart(size.value);
    }
    StoredExactlyWhenShort(Whole(parts, size));
    LengthsWhole(parts, size);
  }

  lemma PlainResolution(resolution: Option<(nat, nat)>)
    requires ResolutionFits(resolution)
    ensures Plain(PrintWidth(resolution)) && |PrintWidth(resolution)| <= 20
    ensures Plain(PrintHeight(resolution)) && |PrintHeight(resolution)| <= 20
  {
    if resolution.Some? {
      PlainNumber(Some(resolution.value.0));
      PlainNumber(Some(resolution.value.1));
    }
  }

  lemma PlainHls(variant: nat, bandwidth: Option<nat>, resolution: Option<(nat, nat)>)
    requires variant <= U64_MAX && Fits(bandwidth) && ResolutionFits(resolution)
    ensures forall i :: 0 <= i < 6 ==> Plain(HlsParts(variant, bandwidth, resolution)[i])
    ensures Lengths(HlsParts(variant, bandwidth, resolution)) <= 84
  {
    hide Print, PrintOptional, PrintWidth, PrintHeight;
    PlainNumber(Some(variant));
    PlainNumber(bandwidth);
    PlainResolution(resolution);
    AudioPart(variant);
    var parts := HlsParts(variant, bandwidth, resolution);
    SixLengths(parts);
  }

  lemma SixLengths(parts: seq<string>)
    requires |parts| >= 6
    ensures Lengths(parts) == |parts[0]| + |parts[1]| + |parts[2]| + |parts[3]| + |parts[4]| + |parts[5]| + Lengths(parts[6..])
  {
    assert Lengths(parts) == |parts[0]| + Lengths(parts[1..]);
    assert Lengths(parts[1..]) == |parts[1]| + Lengths(parts[2..]);
    assert Lengths(parts[2..]) == |parts[2]| + Lengths(parts[3..]);
    assert Lengths(parts[3..]) == |parts[3]| + Lengths(parts[4..]);
    assert Lengths(parts[4..]) == |parts[4]| + Lengths(parts[5..]);
    assert Lengths(parts[5..]) == |parts[5]| + Lengths(parts[6..]);
  }

  lemma TwoLengths(a: string, b: string)
    ensures Lengths([a, b]) == |a| + |b|
  {
    assert [a, b][1..] == [b] && [b][1..] == [];
    assert Lengths([b]) == |b|;
  }

  /** How long an HLS selection with an audio rendition is: numbers, language and eleven characters around them. */
  function AudioLength(variant: nat, bandwidth: Option<nat>, resolution: Option<(nat, nat)>,
                       audio: nat, language: Option<string>): (n: nat) {
    11 + |Print(variant)| + |PrintOptional(bandwidth)| + |PrintWidth(resolution)| + |PrintHeight(resolution)|
    + |Print(audio)| + if language.None? then 1 else |language.value|
  }

  lemma PlainAudio(variant: nat, bandwidth: Option<nat>, resolution: Option<(nat, nat)>, audio: nat, language: Option<string>)
    requires variant <= U64_MAX && Fits(bandwidth) && ResolutionFits(resolution) && audio <= U64_MAX
    ensures var parts := HlsAudioParts(variant, bandwidth, resolution, audio, language);
            && (forall i :: 0 <= i < 8 ==> Plain(parts[i]))
            && Lengths(parts) + 7 == AudioLength(variant, bandwidth, resolution, audio, language)
  {
    hide Print, PrintOptional, PrintWidth, PrintHeight;
    PlainNumber(Some(variant));
    PlainNumber(bandwidth);
    PlainResolution(resolution);
    PlainNumber(Some(audio));
    AudioPart(variant);
    AudioPart(audio);
    var parts := HlsAudioParts(variant, bandwidth, resolution, audio, language);
    SixLengths(parts);
    assert parts[6..] == [Print(audio), Sanitised(language)];
    TwoLengths(Print(audio), Sanitised(language));
    assert Plain(Sanitised(language));
  }

  /** How long a DASH selection is: six fields and twelve characters around them. */
  function DashLength(video: Option<DashTrack>, audio: Option<DashTrack>): (n: nat) {
    12 + TrackLength(video) + TrackLength(audio)
  }

  function TrackLength(track: Option<DashTrack>): (n: nat) {
    if track.None? then 3
    else |Print(track.value.set_)| + |Print(track.value.representation)| + |PrintOptional(track.value.bandwidth)|
  }

  lemma PlainTrack(track: Option<DashTrack>)
    requires TrackFits(track)
    ensures var parts := TrackParts(track);
            && Plain(parts[0]) && Plain(parts[1]) && Plain(parts[2])
            && |parts[0]| + |parts[1]| + |parts[2]| == TrackLength(track)
  {
    hide Print, PrintOptional;
    PlainNumber(None);
    if track.Some? {
      PlainNumber(Some(track.value.set_));
      PlainNumber(Some(track.value.representation));
      PlainNumber(track.value.bandwidth);
      AudioPart(track.value.set_);
      AudioPart(track.value.representation);
    }
  }

  lemma PlainDash(video: Option<DashTrack>, audio: Option<DashTrack>)
    requires TrackFits(video) && TrackFits(audio)
    ensures (forall i :: 0 <= i < 8 ==> Plain(DashParts(video, audio)[i]))
    ensures Lengths(DashParts(video, audio)) + 7 == DashLength(video, audio)
  {
    hide TrackParts, TrackLength;
    PlainTrack(video);
    PlainTrack(audio);
    var parts := DashParts(video, audio);
    SixLengths(parts);
    assert parts[6..] == [parts[6], parts[7]];
    TwoLengths(parts[6], parts[7]);
    assert Plain("dash") && Plain("1");
  }

  /** What the parser makes of the last part. */
  lemma TotalPart(parts: seq<string>, size: Option<nat>)
    requires Fits(size)
    ensures ParseOptional(Part(Whole(parts, size), |parts|)) == Ok(size)
    ensures |Whole(parts, size)| <= |parts| + 1
    ensures forall i :: 0 <= i < |parts| ==> Part(Whole(parts, size), i) == Some(parts[i])
  {
    OptionalParts(size);
  }

  /** A plain HLS selection always fits, total included, and is read back. */
  lemma HlsRoundTrip(variant: nat, bandwidth: Option<nat>, resolution: Option<(nat, nat)>, size: Option<nat>)
    requires variant <= U64_MAX && Fits(bandwidth) && ResolutionFits(resolution) && Fits(size)
    ensures PrintHls(variant, bandwidth, resolution).Ok?
    ensures var printed := WithSize(PrintHls(variant, bandwidth, resolution).value, size);
            && NewSelection(printed) == Ok(printed)
            && ParseHls(printed) == Ok(HlsSelection(variant, bandwidth, resolution, size, None, None))
            && ParseDash(printed) == Err(SelectionUnavailable)
  {
    hide Split, Join, Print, ParseNumber, ParseOptional, PrintOptional, PrintWidth, PrintHeight, WithSize, IsSelection, Whole, Part;
    hide Plain, Lengths;
    var parts := HlsParts(variant, bandwidth, resolution);
    PlainHls(variant, bandwidth, resolution);
    TotalIsShort(size);
    TotalFitsExactly(parts, None);
    TotalFitsExactly(parts, size);
    NumberParts(variant);
    OptionalParts(bandwidth);
    ResolutionParts(resolution);
    WithoutSize(Join(parts, ':'));
    SplitWhole(parts, size);
    TotalPart(parts, size);
    PartAt(Whole(parts, size), parts);
  }

  lemma TotalIsShort(size: Option<nat>)
    requires Fits(size)
    ensures TotalLength(size) <= 21
  {
    hide Print;
    PlainNumber(size);
  }

  /**
   With an audio rendition the printer succeeds exactly when the text is short enough, the text with its total is
   stored exactly when both are, and then index, sanitised language and total are read back.
   */
  lemma HlsAudioRoundTrip(variant: nat, bandwidth: Option<nat>, resolution: Option<(nat, nat)>,
                          audio: nat, language: Option<string>, size: Option<nat>)
    requires variant <= U64_MAX && Fits(bandwidth) && ResolutionFits(resolution) && audio <= U64_MAX && Fits(size)
    ensures var printed := PrintHlsWithAudio(variant, bandwidth, resolution, audio, language);
            var length := AudioLength(variant, bandwidth, resolution, audio, language);
            var tag := Sanitised(language);
            && (printed.Ok? <==> length <= MAX_LEN)
            && (printed.Ok? ==> |printed.value| == length)
            && (printed.Ok? ==> (NewSelection(WithSize(printed.value, size)).Ok? <==> length + TotalLength(size) <= MAX_LEN))
            && (length + TotalLength(size) <= MAX_LEN ==>
                  var stored := WithSize(printed.value, size);
                  && NewSelection(stored) == Ok(stored)
                  && ParseHls(stored)
                     == Ok(HlsSelection(variant, bandwidth, resolution, size, Some(audio), if tag == "-" then None else Some(tag)))
                  && ParseDash(stored) == Err(SelectionUnavailable))
  {
    hide Split, Join, Print, ParseNumber, ParseOptional, PrintOptional, PrintWidth, PrintHeight, WithSize, IsSelection, Whole, Part,
         Sanitised, Plain, Lengths, AudioLength, ParseHls, ParseDash;
    var parts := HlsAudioParts(variant, bandwidth, resolution, audio, language);
    PlainAudio(variant, bandwidth, resolution, audio, language);
    PlainJoin(parts);
    StoredExactlyWhenShort(parts);
    TotalFitsExactly(parts, size);
    AudioReadsBack(variant, bandwidth, resolution, audio, language, size);
  }

  lemma AudioReadsBack(variant: nat, bandwidth: Option<nat>, resolution: Option<(nat, nat)>,
                       audio: nat, language: Option<string>, size: Option<nat>)
    requires variant <= U64_MAX && Fits(bandwidth) && ResolutionFits(resolution) && audio <= U64_MAX && Fits(size)
    ensures var text := WithSize(Join(HlsAudioParts(variant, bandwidth, resolution, audio, language), ':'), size);
            var tag := Sanitised(language);
            && ParseHls(text)
               == Ok(HlsSelection(variant, bandwidth, resolution, size, Some(audio), if tag == "-" then None else Some(tag)))
            && ParseDash(text) == Err(SelectionUnavailable)
  {
    hide Split, Join, Print, ParseNumber, ParseOptional, PrintOptional, PrintWidth, PrintHeight, WithSize, Whole, Part,
         Sanitised;
    var parts := HlsAudioParts(variant, bandwidth, resolution, audio, language);
    NumberParts(variant);
    OptionalParts(bandwidth);
    ResolutionParts(resolution);
    OptionalParts(Some(audio));
    AudioPart(audio);
    SplitWhole(parts, size);
    TotalPart(parts, size);
    PartAt(Whole(parts, size), parts);
  }

  /** A selection that is stored and, once its total is appended, no longer is: the daemon refuses it. */
  lemma TotalCanBeTooMuch() returns (language: string)
    ensures language == seq(112, _ => 'a')
    ensures var printed := PrintHlsWithAudio(0, None, None, 0, Some(language));
            && printed.Ok? && |printed.value| == MAX_LEN
            && NewSelection(WithSize(printed.value, Some(1))) == Err(Malformed)
  {
    hide PrintHlsWithAudio, WithSize, IsSelection, ParseHls, ParseDash;
    language := seq(112, _ => 'a');
    assert |Print(0)| == 1 && |Print(1)| == 1;
    HlsAudioRoundTrip(0, None, None, 0, Some(language), Some(1));
  }

  lemma AudioPart(audio: nat)
    ensures PrintOptional(Some(audio)) == Print(audio)
  {
  }

  lemma WithoutSize(selection: string)
    ensures WithSize(selection, None) == selection
  {
  }

  lemma PartAt(whole: seq<string>, parts: seq<string>)
    requires forall i :: 0 <= i < |parts| ==> Part(whole, i) == Some(parts[i])
    ensures |parts| <= |whole| && forall i :: 0 <= i < |parts| ==> whole[i] == parts[i]
  {
    if parts != [] {
      assert Part(whole, |parts| - 1).Some?;
    }
  }

  lemma DashTrackParts(track: Option<DashTrack>)
    requires TrackFits(track)
    ensures forall i :: 0 <= i < 3 ==> ':' !in TrackParts(track)[i]
    ensures ParseOptional(Some(TrackParts(track)[0])) == Ok(if track.None? then None else Some(track.value.set_))
    ensures ParseOptional(Some(TrackParts(track)[1])) == Ok(if track.None? then None else Some(track.value.representation))
    ensures ParseOptional(Some(TrackParts(track)[2])) == Ok(if track.None? then None else track.value.bandwidth)
  {
    hide ParseOptional;
    OptionalParts(None);
    if track.Some? {
      OptionalParts(Some(track.value.set_));
      OptionalParts(Some(track.value.representation));
      OptionalParts(track.value.bandwidth);
    }
  }

  /** A DASH selection is printed exactly when it is short enough; it never carries a total, and both tracks are read back. */
  lemma DashRoundTrip(video: Option<DashTrack>, audio: Option<DashTrack>, size: Option<nat>)
    requires TrackFits(video) && TrackFits(audio)
    ensures PrintDash(video, audio).Ok? <==> DashLength(video, audio) <= MAX_LEN
    ensures DashLength(video, audio) <= MAX_LEN ==>
              var stored := WithSize(PrintDash(video, audio).value, size);
              && stored == PrintDash(video, audio).value && |stored| == DashLength(video, audio)
              && NewSelection(stored) == Ok(stored)
              && ParseHls(stored) == Err(SelectionUnavailable)
              && ParseDash(stored) == Ok(BothTracks(video, audio))
  {
    hide Split, Join, Print, ParseOptional, PrintOptional, WithSize, IsSelection, TrackParts, Plain, Lengths, DashLength, BothTracks,
         ParseHls, ParseDash;
    var parts := DashParts(video, audio);
    PlainDash(video, audio);
    PlainJoin(parts);
    StoredExactlyWhenShort(parts);
    NotHls(parts, size);
    DashReadsBack(video, audio);
  }

  function BothTracks(video: Option<DashTrack>, audio: Option<DashTrack>): DashSelection {
    DashSelection(
      if video.None? then None else Some(video.value.set_),
      if video.None? then None else Some(video.value.representation),
      if video.None? then None else video.value.bandwidth,
      if audio.None? then None else Some(audio.value.set_),
      if audio.None? then None else Some(audio.value.representation),
      if audio.None? then None else audio.value.bandwidth)
  }

  lemma DashReadsBack(video: Option<DashTrack>, audio: Option<DashTrack>)
    requires TrackFits(video) && TrackFits(audio)
    ensures var text := Join(DashParts(video, audio), ':');
            ParseHls(text) == Err(SelectionUnavailable) && ParseDash(text) == Ok(BothTracks(video, audio))
  {
    hide Split, Join, Print, ParseOptional, PrintOptional, TrackParts;
    DashTrackParts(video);
    DashTrackParts(audio);
    SplitJoin(DashParts(video, audio), ':');
  }

  /** Numbers that are too long together are refused: six of twenty digits make 132 characters. */
  lemma LargestDashIsRefused()
    ensures var track := Some(DashTrack(U64_MAX, U64_MAX, Some(U64_MAX)));
            && TrackFits(track) && DashLength(track, track) == 132
            && PrintDash(track, track) == Err(Malformed)
  {
    hide Join, WithSize, ParseHls, ParseDash, IsSelection;
    var track := Some(DashTrack(U64_MAX, U64_MAX, Some(U64_MAX)));
    assert Pow10(5) == 100_000;
    assert Pow10(10) == 10_000_000_000;
    assert Pow10(15) == 1_000_000_000_000_000;
    assert Pow10(19) == 10_000_000_000_000_000_000;
    PrintDigits(U64_MAX, 20);
    DashRoundTrip(track, track, None);
  }

  lemma NotHls(parts: seq<string>, size: Option<nat>)
    requires |parts| > 1 && parts[0] == "dash"
    ensures WithSize(Join(parts, ':'), size) == Join(parts, ':')
  {
    assert Join(parts, ':')[0] == 'd' && "hls:"[0] == 'h';
  }
}
