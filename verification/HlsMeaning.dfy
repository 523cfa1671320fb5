// What a media playlist means (RFC 8216 sections 4.3.2 and 4.3.3.2), said of the whole list of lines at
// once rather than by a loop with variables: and the loop computes it.
module HlsMeaning {
  import opened Basics
  import opened Text
  import opened Manifests
  import opened HlsSyntax
  import opened HlsPlaylists

  type Events = seq<Event>

  /** The kinds of event a later one looks back for. */
  datatype Wanted = INF | URI | KEY | MAP | DURATION | BREAK | SEQUENCE | RANGE | TARGET | END

  predicate IsA(e: Event, want: Wanted) {
    match want
    case INF => e.StreamInf?
    case URI => e.Resource?
    case KEY => e.Key?
    case MAP => e.Map?
    case DURATION => e.Duration?
    case BREAK => e.Discontinuity?
    case SEQUENCE => e.MediaSequence?
    case RANGE => e.Range?
    case TARGET => e.TargetDuration?
    case END => e.EndList?
  }

  /** The last event before `i` of the wanted kind, or -1. */
  function LastBefore(es: Events, i: nat, want: Wanted): (j: int)
    requires i <= |es|
    ensures -1 <= j < i
    ensures j >= 0 ==> IsA(es[j], want)
    ensures forall m :: j < m < i ==> !IsA(es[m], want)
  {
    if i == 0 then -1 else if IsA(es[i - 1], want) then i - 1 else LastBefore(es, i - 1, want)
  }

  /** A URI names a media segment unless a variant tag since the last URI claims it. */
  predicate IsSegment(es: Events, i: nat)
    requires i < |es|
  {
    es[i].Resource? && LastBefore(es, i, INF) <= LastBefore(es, i, URI)
  }

  function LastSegmentBefore(es: Events, i: nat): (j: int)
    requires i <= |es|
    ensures -1 <= j < i
    ensures j >= 0 ==> IsSegment(es, j)
    ensures forall m :: j < m < i ==> !IsSegment(es, m)
  {
    if i == 0 then -1 else if IsSegment(es, i - 1) then i - 1 else LastSegmentBefore(es, i - 1)
  }

  /** Where the segments among the first `i` events are. */
  function Positions(es: Events, i: nat): (ps: seq<nat>)
    requires i <= |es|
    ensures forall k :: 0 <= k < |ps| ==> ps[k] < i && IsSegment(es, ps[k])
    ensures forall k, l :: 0 <= k < l < |ps| ==> ps[k] < ps[l]
    ensures forall m: nat :: m < i && IsSegment(es, m) ==> m in ps
  {
    if i == 0 then []
    else if IsSegment(es, i - 1) then Positions(es, i - 1) + [i - 1]
    else Positions(es, i - 1)
  }

  // ---- What surrounds an event ----

  /** The key tag last seen, however far back. */
  function KeyAt(es: Events, i: nat): Option<KeyRef>
    requires i <= |es|
  {
    var j := LastBefore(es, i, KEY);
    if j < 0 then None else es[j].key
  }

  function MapAt(es: Events, i: nat): Option<ResourceRef>
    requires i <= |es|
  {
    var j := LastBefore(es, i, MAP);
    if j < 0 then None else Some(es[j].map')
  }

  /** A duration, a discontinuity and a byte range count only if tagged since the previous segment. */
  function DurationAt(es: Events, i: nat): Option<nat>
    requires i <= |es|
  {
    var j := LastBefore(es, i, DURATION);
    if j <= LastSegmentBefore(es, i) then None else Some(es[j].millis)
  }

  predicate DiscontinuityAt(es: Events, i: nat)
    requires i <= |es|
  {
    LastBefore(es, i, BREAK) > LastSegmentBefore(es, i)
  }

  function TaggedRangeAt(es: Events, i: nat): Option<ByteRange>
    requires i <= |es|
  {
    var j := LastBefore(es, i, RANGE);
    if j <= LastSegmentBefore(es, i) then None else Some(es[j].range)
  }

  function InfAt(es: Events, i: nat): Option<seq<Attribute>>
    requires i <= |es|
  {
    var j := LastBefore(es, i, INF);
    if j <= LastBefore(es, i, URI) then None else Some(es[j].attributes)
  }

  /** The number the last sequence tag gave, and one more for each segment since. */
  function SequenceAt(es: Events, i: nat): nat
    requires i <= |es|
  {
    var j := LastBefore(es, i, SEQUENCE);
    Min((if j < 0 then 0 else es[j].number) + SegmentsBetween(es, j + 1, i), U64_MAX)
  }

  function SegmentsBetween(es: Events, low: nat, high: nat): (n: nat)
    requires low <= high <= |es|
  {
    if low == high then 0 else SegmentsBetween(es, low, high - 1) + if IsSegment(es, high - 1) then 1 else 0
  }

  /** The byte range of the segment at `i`: its offset, when left out, continues the segment before on the same URI. */
  function RangeAt(es: Events, i: nat): (r: Option<ByteRange>)
    requires i < |es| && IsSegment(es, i)
    decreases i, 1
  {
    Resolve(TaggedRangeAt(es, i), es[i].uri, EndBefore(es, i))
  }

  function EndBefore(es: Events, i: nat): (r: Option<(string, nat)>)
    requires i <= |es|
    decreases i, 0
  {
    var q := LastSegmentBefore(es, i);
    if q < 0 then None
    else
      var range := RangeAt(es, q);
      if range.Some? then Some((es[q].uri, RangeEnd(range.value))) else None
  }

  function SegmentAt(es: Events, i: nat): Segment
    requires i < |es| && IsSegment(es, i)
  {
    Segment(
      ResourceRef(es[i].uri, RangeAt(es, i)),
      DurationAt(es, i),
      SequenceAt(es, i),
      MapAt(es, i),
      KeyAt(es, i),
      DiscontinuityAt(es, i))
  }

  function SegmentsOf(es: Events, i: nat): (segments: seq<Segment>)
    requires i <= |es|
  {
    var ps := Positions(es, i);
    seq(|ps|, k requires 0 <= k < |ps| => SegmentAt(es, ps[k]))
  }

  /** The target duration last tagged, and whether the list is said to have ended. */
  function TargetAt(es: Events, i: nat): Option<nat>
    requires i <= |es|
  {
    var j := LastBefore(es, i, TARGET);
    if j < 0 then None else Some(es[j].seconds)
  }

  predicate EndedAt(es: Events, i: nat)
    requires i <= |es|
  {
    LastBefore(es, i, END) >= 0
  }

  /** A URI that a variant tag claims, with the attributes of that tag. */
  function VariantLines(es: Events, i: nat): (lines: seq<(seq<Attribute>, string)>)
    requires i <= |es|
  {
    if i == 0 then []
    else
      VariantLines(es, i - 1)
      + if es[i - 1].Resource? && InfAt(es, i - 1).Some? then [(InfAt(es, i - 1).value, es[i - 1].uri)] else []
  }

  /** The variants are what those lines describe, in order. */
  ghost predicate Describes(lines: seq<(seq<Attribute>, string)>, variants: seq<Variant>) {
    |lines| == |variants| && forall k :: 0 <= k < |lines| ==> VariantOf(lines[k].0, lines[k].1) == Ok(variants[k])
  }

  function RenditionsOf(es: Events, i: nat): (renditions: seq<Rendition>)
    requires i <= |es|
  {
    if i == 0 then [] else RenditionsOf(es, i - 1) + if es[i - 1].RenditionTag? then [es[i - 1].rendition] else []
  }

  function IFramesOf(es: Events, i: nat): (iframes: seq<Variant>)
    requires i <= |es|
  {
    if i == 0 then [] else IFramesOf(es, i - 1) + if es[i - 1].IFrame? then [es[i - 1].variant] else []
  }

  // ---- The loop computes the meaning ----

  function Run(es: Events, i: nat): (r: Result<State, ManifestError>)
    requires i <= |es|
  {
    if i == 0 then Ok(HlsPlaylists.START)
    else
      match Run(es, i - 1)
      case Err(error) => Err(error)
      case Ok(state) => Apply(state, es[i - 1])
  }

  /** When no line is wrong, parsing is running over what the lines say. */
  lemma {:induction false} AfterIsRun(lines: seq<string>, clock: Clock, es: Events, n: nat)
    requires n <= |lines| == |es|
    requires forall i :: 0 <= i < n ==> ReadLine(lines[i], clock) == Ok(es[i])
    ensures After(lines, clock, n) == Run(es, n)
  {
    hide ReadLine, Apply;
    if n > 0 {
      AfterIsRun(lines, clock, es, n - 1);
    }
  }

  ghost predicate Means(es: Events, i: nat, s: State)
    requires i <= |es|
  {
    && s.pendingInf == InfAt(es, i)
    && s.pendingDuration == DurationAt(es, i)
    && s.pendingRange == TaggedRangeAt(es, i)
    && s.discontinuity == DiscontinuityAt(es, i)
    && s.key == KeyAt(es, i)
    && s.map' == MapAt(es, i)
    && s.sequence == SequenceAt(es, i)
    && s.lastRangeEnd == EndBefore(es, i)
    && s.media.segments == SegmentsOf(es, i)
    && MasterMeans(es, i, s)
  }

  ghost predicate MasterMeans(es: Events, i: nat, s: State)
    requires i <= |es|
  {
    && Describes(VariantLines(es, i), s.master.variants)
    && s.master.renditions == RenditionsOf(es, i)
    && s.master.iframes == IFramesOf(es, i)
    && s.media.targetDuration == TargetAt(es, i)
    && s.media.ended == EndedAt(es, i)
  }

  /** Every number a line can give is a 64-bit one, and no byte range is empty. */
  predicate InRange(e: Event) {
    && (e.MediaSequence? ==> e.number <= U64_MAX)
    && (e.Range? ==>
          && 0 < e.range.length <= U64_MAX
          && (e.range.offset.Some? ==> e.range.offset.value <= U64_MAX))
  }

  lemma LinesAreInRange(raw: string, clock: Clock)
    requires ReadLine(raw, clock).Ok?
    ensures InRange(ReadLine(raw, clock).value)
  {
    hide Trim, SplitOnce, ReadTag, InRange;
    var line := Trim(raw);
    assert InRange(Ignored) && InRange(Resource(line)) by { NothingToCheck(line); }
    if line != "" && line[0] == '#' {
      match SplitOnce(line[1..], ':')
      case Some((name, value)) => TagsAreInRange(name, Some(value), clock);
      case None => TagsAreInRange(line[1..], None, clock);
    }
  }

  lemma NothingToCheck(uri: string)
    ensures InRange(Ignored) && InRange(Resource(uri))
  {
  }

  lemma TagsAreInRange(name: string, value: Option<string>, clock: Clock)
    requires ReadTag(name, value, clock).Ok?
    ensures InRange(ReadTag(name, value, clock).value)
  {
    hide ParseByteRange, ReadStreamInf, ReadIFrame, ReadRendition, ReadDuration, ReadKey, ReadMap, Number;
  }

  ghost predicate AllInRange(es: Events) {
    forall i :: 0 <= i < |es| ==> InRange(es[i])
  }

  lemma {:induction false} LoopComputesMeaning(es: Events, i: nat)
    requires i <= |es| && Run(es, i).Ok? && AllInRange(es)
    ensures Means(es, i, Run(es, i).value)
  {
    hide Apply;
    if i > 0 {
      LoopComputesMeaning(es, i - 1);
      StepKeepsMeaning(es, i - 1, Run(es, i - 1).value);
    } else {
      assert SegmentsOf(es, 0) == [];
    }
  }

  lemma StepKeepsMeaning(es: Events, i: nat, s: State)
    requires i < |es| && Means(es, i, s) && Apply(s, es[i]).Ok? && InRange(es[i])
    ensures Means(es, i + 1, Apply(s, es[i]).value)
  {
    hide Apply, InfAt, DurationAt, TaggedRangeAt, DiscontinuityAt, KeyAt, MapAt, SequenceAt, EndBefore, SegmentsOf, InRange, MasterMeans;
    MasterGrows(es, i, s);
    StickyTags(es, i, s);
    PendingInf(es, i, s);
    PendingDuration(es, i, s);
    PendingRange(es, i, s);
    PendingDiscontinuity(es, i, s);
    SequenceCounts(es, i, s);
    SegmentsGrow(es, i, s);
  }

  /** What one event adds to a master playlist, and what it says of the whole list. */
  lemma ApplyToMaster(s: State, e: Event)
    requires Apply(s, e).Ok?
    ensures var after := Apply(s, e).value;
            && after.master.renditions == s.master.renditions + (if e.RenditionTag? then [e.rendition] else [])
            && after.master.iframes == s.master.iframes + (if e.IFrame? then [e.variant] else [])
            && after.media.targetDuration == (if e.TargetDuration? then Some(e.seconds) else s.media.targetDuration)
            && after.media.ended == (e.EndList? || s.media.ended)
            && if e.Resource? && s.pendingInf.Some? then
                 && VariantOf(s.pendingInf.value, e.uri).Ok?
                 && after.master.variants == s.master.variants + [VariantOf(s.pendingInf.value, e.uri).value]
               else after.master.variants == s.master.variants
  {
    hide Resolve, RangeEnd, VariantOf;
  }

  lemma MasterGrows(es: Events, i: nat, s: State)
    requires i < |es| && Apply(s, es[i]).Ok? && MasterMeans(es, i, s) && s.pendingInf == InfAt(es, i)
    ensures MasterMeans(es, i + 1, Apply(s, es[i]).value)
  {
    hide Apply, VariantOf, InfAt, LastBefore, LastSegmentBefore, IsSegment;
    ApplyToMaster(s, es[i]);
    OneMore(es, i, TARGET);
    OneMore(es, i, END);
  }

  lemma StickyTags(es: Events, i: nat, s: State)
    requires i < |es| && Apply(s, es[i]).Ok?
    requires s.key == KeyAt(es, i) && s.map' == MapAt(es, i)
    ensures var after := Apply(s, es[i]).value;
            after.key == KeyAt(es, i + 1) && after.map' == MapAt(es, i + 1)
  {
    hide Resolve, RangeEnd, VariantOf;
  }

  lemma PendingInf(es: Events, i: nat, s: State)
    requires i < |es| && Apply(s, es[i]).Ok? && s.pendingInf == InfAt(es, i)
    ensures Apply(s, es[i]).value.pendingInf == InfAt(es, i + 1)
    ensures IsSegment(es, i) <==> es[i].Resource? && s.pendingInf.None?
  {
    hide Resolve, RangeEnd, VariantOf;
  }

  /** What one more event changes. */
  lemma OneMore(es: Events, i: nat, want: Wanted)
    requires i < |es|
    ensures LastBefore(es, i + 1, want) == if IsA(es[i], want) then i else LastBefore(es, i, want)
    ensures LastSegmentBefore(es, i + 1) == if IsSegment(es, i) then i else LastSegmentBefore(es, i)
  {
  }

  lemma PendingDuration(es: Events, i: nat, s: State)
    requires i < |es| && Apply(s, es[i]).Ok?
    requires IsSegment(es, i) <==> es[i].Resource? && s.pendingInf.None?
    requires s.pendingDuration == DurationAt(es, i)
    ensures Apply(s, es[i]).value.pendingDuration == DurationAt(es, i + 1)
  {
    hide Resolve, RangeEnd, VariantOf, IsSegment, LastBefore, LastSegmentBefore;
    OneMore(es, i, DURATION);
  }

  lemma PendingRange(es: Events, i: nat, s: State)
    requires i < |es| && Apply(s, es[i]).Ok?
    requires IsSegment(es, i) <==> es[i].Resource? && s.pendingInf.None?
    requires s.pendingRange == TaggedRangeAt(es, i)
    ensures Apply(s, es[i]).value.pendingRange == TaggedRangeAt(es, i + 1)
  {
    hide Resolve, RangeEnd, VariantOf, IsSegment, LastBefore, LastSegmentBefore;
    OneMore(es, i, RANGE);
  }

  lemma PendingDiscontinuity(es: Events, i: nat, s: State)
    requires i < |es| && Apply(s, es[i]).Ok?
    requires IsSegment(es, i) <==> es[i].Resource? && s.pendingInf.None?
    requires s.discontinuity == DiscontinuityAt(es, i)
    ensures Apply(s, es[i]).value.discontinuity == DiscontinuityAt(es, i + 1)
  {
    hide Resolve, RangeEnd, VariantOf, IsSegment, LastBefore, LastSegmentBefore;
    OneMore(es, i, BREAK);
  }

  lemma SequenceCounts(es: Events, i: nat, s: State)
    requires i < |es| && Apply(s, es[i]).Ok? && InRange(es[i])
    requires IsSegment(es, i) <==> es[i].Resource? && s.pendingInf.None?
    requires s.sequence == SequenceAt(es, i)
    ensures Apply(s, es[i]).value.sequence == SequenceAt(es, i + 1)
  {
    hide Resolve, RangeEnd, VariantOf, IsSegment, LastBefore, LastSegmentBefore;
    OneMore(es, i, SEQUENCE);
    assert SegmentsBetween(es, i + 1, i + 1) == 0;
  }

  lemma SegmentsGrow(es: Events, i: nat, s: State)
    requires i < |es| && Apply(s, es[i]).Ok? && Means(es, i, s)
    requires IsSegment(es, i) <==> es[i].Resource? && s.pendingInf.None?
    ensures var after := Apply(s, es[i]).value;
            && after.lastRangeEnd == EndBefore(es, i + 1)
            && after.media.segments == SegmentsOf(es, i + 1)
  {
    hide Apply, IsSegment, SegmentsOf, EndBefore, RangeAt;
    ApplyGrows(s, es[i]);
    EndMoves(es, i);
    MoreSegments(es, i);
    if IsSegment(es, i) {
      assert SegmentAt(es, i) == SegmentFrom(s, es[i].uri, RangeAt(es, i));
    }
  }

  function SegmentFrom(s: State, uri: string, range: Option<ByteRange>): Segment {
    Segment(ResourceRef(uri, range), s.pendingDuration, s.sequence, s.map', s.key, s.discontinuity)
  }

  /** Only a segment line adds a segment and moves the end of the last range. */
  lemma ApplyGrows(s: State, e: Event)
    requires Apply(s, e).Ok?
    ensures var after := Apply(s, e).value;
            if e.Resource? && s.pendingInf.None? then
              var range := Resolve(s.pendingRange, e.uri, s.lastRangeEnd);
              && after.media.segments == s.media.segments + [SegmentFrom(s, e.uri, range)]
              && after.lastRangeEnd == if range.Some? then Some((e.uri, RangeEnd(range.value))) else None
            else
              after.media.segments == s.media.segments && after.lastRangeEnd == s.lastRangeEnd
  {
    hide Resolve, RangeEnd, VariantOf;
  }

  /** Where the last byte range ended, after one more event. */
  lemma EndMoves(es: Events, i: nat)
    requires i < |es|
    ensures IsSegment(es, i) ==> RangeAt(es, i) == Resolve(TaggedRangeAt(es, i), es[i].uri, EndBefore(es, i))
    ensures EndBefore(es, i + 1)
            == if !IsSegment(es, i) then EndBefore(es, i)
               else if RangeAt(es, i).Some? then Some((es[i].uri, RangeEnd(RangeAt(es, i).value)))
               else None
  {
    hide Resolve, RangeEnd, IsSegment, LastBefore, LastSegmentBefore, TaggedRangeAt;
    OneMore(es, i, URI);
  }

  lemma MoreSegments(es: Events, i: nat)
    requires i < |es|
    ensures SegmentsOf(es, i + 1) == SegmentsOf(es, i) + if IsSegment(es, i) then [SegmentAt(es, i)] else []
  {
    hide IsSegment, SegmentAt, LastBefore, LastSegmentBefore;
    assert Positions(es, i + 1) == Positions(es, i) + if IsSegment(es, i) then [i] else [];
  }

  // ---- What a parsed playlist says ----

  /** What the lines say, when every one of them can be read. */
  ghost predicate Reads(lines: seq<string>, clock: Clock, es: Events) {
    |es| == |lines| && forall i :: 0 <= i < |lines| ==> ReadLine(lines[i], clock) == Ok(es[i])
  }

  lemma {:induction false} ParsedLinesRead(lines: seq<string>, clock: Clock, n: nat) returns (es: Events)
    requires n <= |lines| && After(lines, clock, n).Ok?
    ensures Reads(lines[..n], clock, es)
  {
    hide ReadLine, Apply;
    es := [];
    if n > 0 {
      var before := ParsedLinesRead(lines, clock, n - 1);
      es := before + [ReadLine(lines[n - 1], clock).value];
    }
  }

  /** Tags that only a master playlist has. */
  predicate IsMasterTag(e: Event) {
    e.StreamInf? || e.IFrame? || e.RenditionTag?
  }

  /** Tags that only a media playlist has, and its segments. */
  predicate IsMediaMark(es: Events, i: nat)
    requires i < |es|
  {
    || es[i].Duration? || es[i].Range? || es[i].TargetDuration? || es[i].MediaSequence? || es[i].EndList?
    || es[i].Discontinuity? || es[i].Key? || es[i].Map? || IsSegment(es, i)
  }

  ghost predicate HasMaster(es: Events, n: nat)
    requires n <= |es|
  {
    exists i :: 0 <= i < n && IsMasterTag(es[i])
  }

  ghost predicate HasMedia(es: Events, n: nat)
    requires n <= |es|
  {
    exists i :: 0 <= i < n && IsMediaMark(es, i)
  }

  lemma {:induction false} SawTheTags(es: Events, n: nat)
    requires n <= |es| && Run(es, n).Ok? && AllInRange(es)
    ensures var s := Run(es, n).value; (s.sawMaster <==> HasMaster(es, n)) && (s.sawMedia <==> HasMedia(es, n))
  {
    hide Apply, IsMasterTag, IsMediaMark, IsSegment, Means, AllInRange;
    if n > 0 {
      SawTheTags(es, n - 1);
      LoopComputesMeaning(es, n - 1);
      var s := Run(es, n - 1).value;
      if InfAt(es, n - 1).Some? {
        PendingIsMaster(es, n - 1);
      }
      MeansParts(es, n - 1, s);
      SawOne(es, n - 1, s);
    }
  }

  lemma SawOne(es: Events, i: nat, s: State)
    requires i < |es| && Apply(s, es[i]).Ok? && s.pendingInf == InfAt(es, i)
    requires s.pendingInf.Some? ==> s.sawMaster
    ensures var after := Apply(s, es[i]).value;
            && (after.sawMaster <==> s.sawMaster || IsMasterTag(es[i]))
            && (after.sawMedia <==> s.sawMedia || IsMediaMark(es, i))
  {
  }

  lemma PendingIsMaster(es: Events, i: nat)
    requires i <= |es| && InfAt(es, i).Some?
    ensures HasMaster(es, i)
  {
  }

  /**
   * A playlist that parses is of the one kind its tags and lines are of, and a media playlist's segments
   * are what its lines mean: one for each segment line, in order, each with what surrounds that line.
   */
  lemma ParsedPlaylistMeansItsLines(text: string, clock: Clock) returns (es: Events)
    requires Parsed(text, clock).Ok?
    ensures Reads(Lines(text), clock, es)
    ensures Parsed(text, clock).value.Master? <==> HasMaster(es, |es|) && !HasMedia(es, |es|)
    ensures Parsed(text, clock).value.Media? <==> !HasMaster(es, |es|) && HasMedia(es, |es|)
    ensures Parsed(text, clock).value.Media? ==>
              var media := Parsed(text, clock).value.media;
              && media.segments == SegmentsOf(es, |es|)
              && media.targetDuration == TargetAt(es, |es|) && media.ended == EndedAt(es, |es|)
    ensures Parsed(text, clock).value.Master? ==>
              var master := Parsed(text, clock).value.master;
              && Describes(VariantLines(es, |es|), master.variants)
              && master.renditions == RenditionsOf(es, |es|) && master.iframes == IFramesOf(es, |es|)
  {
    hide Lines, ReadLine, HasHeader, Run, SegmentsOf, Means, HasMaster, HasMedia, Describes, VariantLines, TargetAt, EndedAt;
    var lines := Lines(text);
    es := ParsedLinesRead(lines, clock, |lines|);
    assert lines[..|lines|] == lines;
    AfterIsRun(lines, clock, es, |lines|);
    forall i | 0 <= i < |es| ensures InRange(es[i]) { LinesAreInRange(lines[i], clock); }
    SawTheTags(es, |es|);
    LoopComputesMeaning(es, |es|);
    MeansParts(es, |es|, Run(es, |es|).value);
  }

  lemma MeansParts(es: Events, i: nat, s: State)
    requires i <= |es| && Means(es, i, s)
    ensures s.media.segments == SegmentsOf(es, i) && MasterMeans(es, i, s)
    ensures s.pendingInf == InfAt(es, i)
  {
  }

  // ---- Media sequence numbers ----

  lemma {:induction false} CountIsPositions(es: Events, i: nat)
    requires i <= |es|
    ensures |Positions(es, i)| == SegmentsBetween(es, 0, i)
  {
    hide IsSegment;
    if i > 0 {
      CountIsPositions(es, i - 1);
    }
  }

  lemma {:induction false} CountSplits(es: Events, a: nat, b: nat)
    requires a <= b <= |es|
    ensures SegmentsBetween(es, 0, b) == SegmentsBetween(es, 0, a) + SegmentsBetween(es, a, b)
    decreases b
  {
    hide IsSegment;
    if a < b {
      CountSplits(es, a, b - 1);
    }
  }

  /** The segment numbered `k` has `k` segments before it. */
  lemma {:induction false} PositionsBefore(es: Events, i: nat, k: nat)
    requires i <= |es| && k < |Positions(es, i)|
    ensures |Positions(es, Positions(es, i)[k])| == k
  {
    hide IsSegment;
    if k < |Positions(es, i - 1)| {
      PositionsBefore(es, i - 1, k);
    }
  }

  lemma {:induction false} LastBeforeSkips(es: Events, i: nat, n: nat, want: Wanted)
    requires i <= n <= |es| && forall m :: i <= m < n ==> !IsA(es[m], want)
    ensures LastBefore(es, n, want) == LastBefore(es, i, want)
    decreases n
  {
  }

  /** With every sequence tag before the first segment, segment `k` has number start + k. */
  lemma SequenceIsStartPlusIndex(es: Events, k: nat)
    requires k < |Positions(es, |es|)|
    requires forall i, m :: 0 <= m < i < |es| && es[i].MediaSequence? ==> !IsSegment(es, m)
    ensures var j := LastBefore(es, |es|, SEQUENCE);
            var start := if j < 0 then 0 else es[j].number;
            SegmentAt(es, Positions(es, |es|)[k]).mediaSequence == Min(start + k, U64_MAX)
  {
    hide LastBefore, Positions, RangeAt, DurationAt, MapAt, KeyAt, DiscontinuityAt;
    var i := Positions(es, |es|)[k];
    LastBeforeSkips(es, i, |es|, SEQUENCE);
    var j := LastBefore(es, i, SEQUENCE);
    PositionsBefore(es, |es|, k);
    CountIsPositions(es, i);
    CountSplits(es, j + 1, i);
    NoneBetween(es, j + 1);
  }

  lemma {:induction false} NoneBetween(es: Events, b: nat)
    requires b <= |es| && forall m :: 0 <= m < b ==> !IsSegment(es, m)
    ensures SegmentsBetween(es, 0, b) == 0
  {
    hide IsSegment;
    if b > 0 {
      NoneBetween(es, b - 1);
    }
  }

  // ---- Byte ranges that follow on ----

  /** The first and last byte a range asks for. */
  function Interval(range: ByteRange): (r: (nat, nat))
    requires range.length > 0
  {
    var first := if range.offset.Some? then range.offset.value else 0;
    (first, Min(first + range.length - 1, U64_MAX))
  }

  /** The segment at `q` comes right after the one at `p`, on the same URI, with its offset left out. */
  predicate Follows(es: Events, p: nat, q: nat) {
    && p < q < |es| && IsSegment(es, p) && IsSegment(es, q) && LastSegmentBefore(es, q) == p
    && es[p].uri == es[q].uri
    && RangeAt(es, p).Some?
    && TaggedRangeAt(es, q).Some? && TaggedRangeAt(es, q).value.offset.None?
  }

  lemma {:induction false} RangesFit(es: Events, i: nat)
    requires i < |es| && IsSegment(es, i) && AllInRange(es) && RangeAt(es, i).Some?
    ensures var range := RangeAt(es, i).value;
            0 < range.length <= U64_MAX && (range.offset.Some? ==> range.offset.value <= U64_MAX)
  {
  }

  /**
   * Two such ranges meet, with no gap and no overlap, exactly when the end of the first fits in 64 bits:
   * the parser adds offset and length without checking the sum.
   */
  lemma FollowingRangesMeet(es: Events, p: nat, q: nat)
    requires AllInRange(es) && Follows(es, p, q)
    ensures RangeAt(es, q).Some? && RangeAt(es, p).value.length > 0 && RangeAt(es, q).value.length > 0
    ensures var a, b := Interval(RangeAt(es, p).value), Interval(RangeAt(es, q).value);
            b.0 == a.1 + 1 <==> a.0 + RangeAt(es, p).value.length <= U64_MAX
  {
  }

  lemma TrimKeeps(s: string)
    requires s != "" && !IsWhitespace(s[0]) && !IsWhitespace(s[|s| - 1])
    ensures Trim(s) == s
  {
  }

  const RANGE_TAG := "#EXT-X-BYTERANGE:"

  lemma RangeLineReads(range: ByteRange, clock: Clock)
    requires InRange(Range(range))
    ensures var line := RANGE_TAG + PrintByteRange(range);
            ReadLine(line, clock) == Ok(Range(range)) && '\n' !in line
  {
    hide Trim, SplitOnce, ParseByteRange, PrintByteRange, IsWhitespace, ReadTag, Value;
    var line, name, value := RANGE_TAG + PrintByteRange(range), "EXT-X-BYTERANGE", PrintByteRange(range);
    RangeStandsClean(range);
    TrimKeeps(line);
    assert line[1..] == name + [':'] + value by { assert RANGE_TAG[1..] == name + [':']; }
    SplitOnceFinds(name, ':', value);
    ByteRangeRoundTrip(range);
    RangeTagReads(value, clock);
  }

  lemma RangeStandsClean(range: ByteRange)
    ensures var line := RANGE_TAG + PrintByteRange(range);
            line[0] == '#' && !IsWhitespace(line[0]) && !IsWhitespace(line[|line| - 1]) && '\n' !in line
  {
    hide Print;
    var line, number := RANGE_TAG + PrintByteRange(range), Print(if range.offset.Some? then range.offset.value else range.length);
    assert line[|line| - 1] == number[|number| - 1];
  }

  lemma RangeTagReads(value: string, clock: Clock)
    ensures ReadTag("EXT-X-BYTERANGE", Some(value), clock) == ReadRange(Some(value))
  {
    hide ReadRange;
  }

  /** What a playlist may have as a URI on a line. */
  predicate IsUri(uri: string) {
    && uri != "" && !IsWhitespace(uri[0]) && !IsWhitespace(uri[|uri| - 1]) && '\n' !in uri
    && uri[0] != '#' && !("data:" <= uri)
  }

  lemma UriLineReads(uri: string, clock: Clock)
    requires IsUri(uri)
    ensures ReadLine(uri, clock) == Ok(Resource(uri))
  {
    hide Trim, SplitOnce, ReadTag, IsWhitespace;
    TrimKeeps(uri);
  }

  lemma HeaderReads(clock: Clock)
    ensures Trim("#EXTM3U") == "#EXTM3U" && ReadLine("#EXTM3U", clock) == Ok(Ignored)
  {
    hide Trim, ReadTag, IsWhitespace;
    assert !IsWhitespace('#') && !IsWhitespace('U') by { MarksAreNotWhite(); }
    TrimKeeps("#EXTM3U");
    assert "#EXTM3U"[1..] == "EXTM3U" && ':' !in "EXTM3U";
    HeaderIsNoTag(clock);
  }

  lemma MarksAreNotWhite()
    ensures !IsWhitespace('#') && !IsWhitespace('U')
  {
  }

  lemma HeaderIsNoTag(clock: Clock)
    ensures ReadTag("EXTM3U", None, clock) == Ok(Ignored)
  {
    hide ReadStreamInf, ReadIFrame, ReadRendition, ReadDuration, ReadRange, ReadKey, ReadMap, Number;
  }

  /** A playlist of one URI twice: one byte range of it, and a second one that goes on from there. */
  function TwoRangesText(uri: string, first: ByteRange, length: nat): (text: string) {
    Join(TwoRangesLines(uri, first, length), '\n')
  }

  function TwoRangesLines(uri: string, first: ByteRange, length: nat): (lines: seq<string>)
    ensures lines != []
  {
    ["#EXTM3U", RANGE_TAG + PrintByteRange(first), uri, RANGE_TAG + PrintByteRange(ByteRange(length, None)), uri]
  }

  /** Whatever the numbers, the second range starts at the sum of the first one's, without what does not fit 64 bits. */
  lemma SecondRangeWraps(uri: string, first: ByteRange, length: nat, clock: Clock)
    requires IsUri(uri) && InRange(Range(first)) && first.offset.Some? && 0 < length <= U64_MAX
    ensures var r := Parsed(TwoRangesText(uri, first, length), clock);
            && r.Ok? && r.value.Media? && |r.value.media.segments| == 2
            && r.value.media.segments[0].resource == ResourceRef(uri, Some(first))
            && r.value.media.segments[1].resource
               == ResourceRef(uri, Some(ByteRange(length, Some((first.offset.value + first.length) % (U64_MAX + 1)))))
  {
    hide Trim, ReadLine, Join, Split, PrintByteRange, IsUri, Apply;
    var lines, next := TwoRangesLines(uri, first, length), ByteRange(length, None);
    RangeLineReads(first, clock);
    RangeLineReads(next, clock);
    UriLineReads(uri, clock);
    HeaderReads(clock);
    LinesSplit(uri, first, length);
    var es := [Ignored, Range(first), Resource(uri), Range(next), Resource(uri)];
    AfterIsRun(lines, clock, es, 5);
    TwoRangesRun(uri, first, next, es);
  }

  lemma LinesSplit(uri: string, first: ByteRange, length: nat)
    requires IsUri(uri) && '\n' !in RANGE_TAG + PrintByteRange(first)
    requires '\n' !in RANGE_TAG + PrintByteRange(ByteRange(length, None))
    ensures Lines(TwoRangesText(uri, first, length)) == TwoRangesLines(uri, first, length)
  {
    hide Split, PrintByteRange, SplitOnce;
    var lines := TwoRangesLines(uri, first, length);
    SplitJoin(lines, '\n');
    assert Join(lines, '\n')[0] == '#';
  }

  lemma TwoRangesRun(uri: string, first: ByteRange, next: ByteRange, es: Events)
    requires first.offset.Some? && next.offset.None?
    requires es == [Ignored, Range(first), Resource(uri), Range(next), Resource(uri)]
    ensures Run(es, 5).Ok?
    ensures var s := Run(es, 5).value;
            && s.pendingInf.None? && !s.sawMaster && s.sawMedia && |s.media.segments| == 2
            && s.media.segments[0].resource == ResourceRef(uri, Some(first))
            && s.media.segments[1].resource
               == ResourceRef(uri, Some(ByteRange(next.length, Some((first.offset.value + first.length) % (U64_MAX + 1)))))
  {
    hide Min;
    var s1 := HlsPlaylists.START;
    assert Run(es, 1) == Apply(s1, Ignored) == Ok(s1);
    var s2 := Apply(s1, Range(first)).value;
    assert Run(es, 2) == Ok(s2);
    var s3 := Apply(s2, Resource(uri)).value;
    assert Run(es, 3) == Ok(s3) && |s3.media.segments| == 1;
    var s4 := Apply(s3, Range(next)).value;
    assert Run(es, 4) == Ok(s4);
    assert Run(es, 5) == Apply(s4, Resource(uri));
  }

  const OVERLAPPING := ["#EXTM3U", "#EXT-X-BYTERANGE:2@18446744073709551615", "a", "#EXT-X-BYTERANGE:9", "a"]

  /** One input where they overlap: a range ending past 2^64 sends the next one back to byte 1. */
  lemma RangesCanOverlap(clock: Clock)
    ensures var r := Parsed(Join(OVERLAPPING, '\n'), clock);
            && r.Ok? && r.value.Media? && |r.value.media.segments| == 2
            && r.value.media.segments[0].resource == ResourceRef("a", Some(ByteRange(2, Some(U64_MAX))))
            && r.value.media.segments[1].resource == ResourceRef("a", Some(ByteRange(9, Some(1))))
  {
    hide Parsed, Join, TwoRangesLines, IsWhitespace;
    assert IsUri("a") by { LetterIsUri(); }
    SecondRangeWraps("a", ByteRange(2, Some(U64_MAX)), 9, clock);
    OverlapLines();
  }

  lemma LetterIsUri()
    ensures IsUri("a")
  {
  }

  lemma OverlapLines()
    ensures TwoRangesLines("a", ByteRange(2, Some(U64_MAX)), 9) == OVERLAPPING
  {
    hide PrintByteRange;
    LongLine();
    ShortLine();
  }

  lemma LongLine()
    ensures RANGE_TAG + PrintByteRange(ByteRange(2, Some(U64_MAX))) == "#EXT-X-BYTERANGE:2@18446744073709551615"
  {
    hide Print;
    SmallNumbers();
    LargestNumber();
    assert RANGE_TAG + "2" + "@" == "#EXT-X-BYTERANGE:2@";
    assert RANGE_TAG + ("2" + ("@" + Print(U64_MAX))) == RANGE_TAG + "2" + "@" + Print(U64_MAX);
  }

  lemma ShortLine()
    ensures RANGE_TAG + PrintByteRange(ByteRange(9, None)) == "#EXT-X-BYTERANGE:9"
  {
    hide Print;
    SmallNumbers();
    assert PrintByteRange(ByteRange(9, None)) == "9";
  }

  lemma SmallNumbers()
    ensures Print(2) == "2" && Print(9) == "9"
  {
  }

  lemma LargestNumber()
    ensures Print(U64_MAX) == "18446744073709551615"
  {
    hide Print;
    FirstDigits();
    var n0: nat := 1844;
    FourMoreDigits(n0, "6744", 6, 7, 4, 4);
    var n1 := 10000 * n0 + 6744;
    FourMoreDigits(n1, "0737", 0, 7, 3, 7);
    var n2 := 10000 * n1 + 737;
    FourMoreDigits(n2, "0955", 0, 9, 5, 5);
    var n3 := 10000 * n2 + 955;
    FourMoreDigits(n3, "1615", 1, 6, 1, 5);
    assert "1844" + "6744" + "0737" + "0955" + "1615" == "18446744073709551615";
  }

  lemma FirstDigits()
    ensures Print(1844) == "1844"
  {
    assert Print(18) == "18";
    assert Print(184) == "184";
  }

  lemma FourMoreDigits(n: nat, digits: string, a: nat, b: nat, c: nat, d: nat)
    requires 0 < n && a < 10 && b < 10 && c < 10 && d < 10 && |digits| == 4
    requires digits[0] as int == '0' as int + a && digits[1] as int == '0' as int + b
    requires digits[2] as int == '0' as int + c && digits[3] as int == '0' as int + d
    ensures Print(10000 * n + 1000 * a + 100 * b + 10 * c + d) == Print(n) + digits
  {
    hide Print;
    OneMoreDigit(n, digits[0], a);
    OneMoreDigit(10 * n + a, digits[1], b);
    OneMoreDigit(10 * (10 * n + a) + b, digits[2], c);
    OneMoreDigit(10 * (10 * (10 * n + a) + b) + c, digits[3], d);
    assert Print(n) + [digits[0]] + [digits[1]] + [digits[2]] + [digits[3]] == Print(n) + digits;
  }

  lemma OneMoreDigit(n: nat, digit: char, d: nat)
    requires 0 < n && d < 10 && digit as int == '0' as int + d
    ensures Print(10 * n + d) == Print(n) + [digit]
  {
    assert (10 * n + d) / 10 == n && (10 * n + d) % 10 == d;
  }

  /** How many bytes the segments at positions `ps` ask for. */
  function Asked(es: Events, ps: seq<nat>): (n: nat)
    requires forall k :: 0 <= k < |ps| ==> ps[k] < |es| && IsSegment(es, ps[k]) && RangeAt(es, ps[k]).Some?
  {
    if ps == [] then 0 else Asked(es, ps[..|ps| - 1]) + RangeAt(es, ps[|ps| - 1]).value.length
  }

  ghost predicate Chain(es: Events, ps: seq<nat>) {
    && (forall k :: 0 <= k < |ps| ==> ps[k] < |es| && IsSegment(es, ps[k]) && RangeAt(es, ps[k]).Some?)
    && forall k :: 0 < k < |ps| ==> Follows(es, ps[k - 1], ps[k])
  }

  /** A whole run of such ranges tiles: each starts where the lengths before it add up to. */
  lemma {:induction false} ChainTiles(es: Events, ps: seq<nat>)
    requires AllInRange(es) && Chain(es, ps) && ps != []
    requires RangeAt(es, ps[0]).value.length > 0 && RangeAt(es, ps[|ps| - 1]).value.length > 0
    requires Interval(RangeAt(es, ps[0]).value).0 + Asked(es, ps[..|ps| - 1]) <= U64_MAX
    ensures Interval(RangeAt(es, ps[|ps| - 1]).value).0
            == Interval(RangeAt(es, ps[0]).value).0 + Asked(es, ps[..|ps| - 1])
  {
    hide RangeAt, IsSegment;
    if |ps| > 1 {
      var q := ps[..|ps| - 1];
      RangesFit(es, q[|q| - 1]);
      ChainTiles(es, q);
      FollowingRangesMeet(es, q[|q| - 1], ps[|ps| - 1]);
    }
  }
}
