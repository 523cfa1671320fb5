// Expanding a DASH segment timeline (crates/gunda-stream/src/dash.rs), ISO/IEC 23009-1 section 5.3.9.6.
module DashTimeline {
  import opened Basics
  import opened Manifests

  /** One S element: where it starts, how long each segment is, and how often it repeats. */
  datatype Entry = Entry(time: Option<nat>, duration: nat, repeat: int)

  /** The segment start times so far, and where the last segment ends. */
  datatype Expansion = Expansion(times: seq<nat>, end: Option<nat>)

  // ---- What a timeline means ----

  function Max(a: nat, b: nat): nat {
    if a <= b then b else a
  }

  /** How many segments an entry starting at `start` stands for. */
  function Count(e: Entry, start: nat, periodEnd: Option<nat>): (r: Result<nat, ManifestError>)
    requires e.duration > 0
    ensures r.Ok? ==> r.value > 0
  {
    if e.repeat >= 0 then Ok(e.repeat + 1)
    else if e.repeat != -1 then Err(Malformed)
    else if periodEnd.None? then Err(IncompletePresentation)
    else if periodEnd.value <= start then Err(Malformed)
    else Ok(Max(1, (periodEnd.value - start) / e.duration))
  }

  /** `count` segments of length `duration`, one after the other from `start`. */
  function Steps(start: nat, duration: nat, count: nat): (times: seq<nat>)
    ensures |times| == count
    ensures forall k :: 0 <= k < count ==> times[k] == start + k * duration
  {
    seq(count, k requires 0 <= k < count => start + k * duration)
  }

  /** One entry's segments put after those before it; the first segment that does not fit decides the error. */
  function WithEntry(before: Expansion, e: Entry, periodEnd: Option<nat>): (r: Result<Expansion, ManifestError>)
    requires |before.times| <= MAX_SEGMENTS
    ensures r.Ok? ==> |r.value.times| <= MAX_SEGMENTS
  {
    var from := if e.time.Some? then e.time else before.end;
    if e.duration == 0 || from.None? then Err(Malformed)
    else
      match Count(e, from.value, periodEnd)
      case Err(error) => Err(error)
      case Ok(count) =>
        var room := MAX_SEGMENTS - |before.times|;
        if from.value + Min(count, room) * e.duration > U64_MAX then Err(InvalidNumber)
        else if count > room then Err(Malformed)
        else
          Ok(Expansion(
               before.times + Steps(from.value, e.duration, count),
               Some(from.value + count * e.duration)))
  }

  /** The first `n` entries expanded. */
  function Expanded(entries: seq<Entry>, periodEnd: Option<nat>, n: nat): (r: Result<Expansion, ManifestError>)
    requires n <= |entries|
    ensures r.Ok? ==> |r.value.times| <= MAX_SEGMENTS
  {
    if n == 0 then Ok(Expansion([], None))
    else
      match Expanded(entries, periodEnd, n - 1)
      case Err(error) => Err(error)
      case Ok(before) => WithEntry(before, entries[n - 1], periodEnd)
  }

  lemma {:induction false} Stops(entries: seq<Entry>, periodEnd: Option<nat>, n: nat)
    requires n <= |entries| && Expanded(entries, periodEnd, n).Err?
    ensures Expanded(entries, periodEnd, |entries|) == Expanded(entries, periodEnd, n)
    decreases |entries| - n
  {
    hide WithEntry;
    if n < |entries| {
      Stops(entries, periodEnd, n + 1);
    }
  }

  lemma StepsGrow(start: nat, duration: nat, k: nat)
    ensures Steps(start, duration, k + 1) == Steps(start, duration, k) + [start + k * duration]
    ensures start + (k + 1) * duration == start + k * duration + duration
  {
  }

  lemma TimesGrow(m: nat, n: nat, duration: nat)
    requires m <= n
    ensures m * duration <= n * duration
  {
  }

  // ---- The two loops ----

  method ExpandTimeline(entries: seq<Entry>, periodEnd: Option<nat>)
    returns (r: Result<seq<nat>, ManifestError>, ghost work: nat)
    requires periodEnd.Some? ==> periodEnd.value <= U64_MAX
    requires forall i :: 0 <= i < |entries| && entries[i].time.Some? ==> entries[i].time.value <= U64_MAX
    ensures var whole := Expanded(entries, periodEnd, |entries|);
            r == if whole.Err? then Err(whole.error) else Ok(whole.value.times)
    ensures work <= MAX_SEGMENTS + 1
  {
    hide Expanded, Steps, Count;
    assert Expanded(entries, periodEnd, 0) == Ok(Expansion([], None)) by { NothingExpanded(entries, periodEnd); }
    work := 0;
    var times: seq<nat> := [];
    var current: Option<nat> := None;
    for i := 0 to |entries|
      invariant Expanded(entries, periodEnd, i) == Ok(Expansion(times, current))
      invariant current.Some? ==> current.value <= U64_MAX
      invariant work == |times|
    {
      var entry := entries[i];
      ghost var before := Expansion(times, current);
      assert Expanded(entries, periodEnd, i + 1) == WithEntry(before, entry, periodEnd) by { NextExpanded(entries, periodEnd, i); }
      if entry.duration == 0 {
        Stops(entries, periodEnd, i + 1);
        return Err(Malformed), work;
      }
      var from := if entry.time.Some? then entry.time else current;
      if from.None? {
        Stops(entries, periodEnd, i + 1);
        return Err(Malformed), work;
      }
      var repeat := RepeatOf(entry, from.value, periodEnd);
      if repeat.Err? {
        Stops(entries, periodEnd, i + 1);
        return Err(repeat.error), work;
      }
      var failure;
      times, current, failure, work := Repeat(times, from.value, entry.duration, repeat.value);
      if failure.Some? {
        Stops(entries, periodEnd, i + 1);
        return Err(failure.value), work;
      }
    }
    r := Ok(times);
  }

  method RepeatOf(entry: Entry, start: nat, periodEnd: Option<nat>) returns (repeat: Result<nat, ManifestError>)
    requires entry.duration > 0
    ensures match Count(entry, start, periodEnd)
            case Ok(count) => repeat == Ok(count - 1)
            case Err(error) => repeat == Err(error)
  {
    if entry.repeat >= 0 {
      return Ok(entry.repeat);
    }
    if entry.repeat != -1 {
      return Err(Malformed);
    }
    if periodEnd.None? {
      return Err(IncompletePresentation);
    }
    if periodEnd.value <= start {
      return Err(Malformed);
    }
    var whole := (periodEnd.value - start) / entry.duration;
    repeat := Ok(if whole == 0 then 0 else whole - 1);
  }

  lemma NothingExpanded(entries: seq<Entry>, periodEnd: Option<nat>)
    ensures Expanded(entries, periodEnd, 0) == Ok(Expansion([], None))
  {
  }

  lemma NextExpanded(entries: seq<Entry>, periodEnd: Option<nat>, i: nat)
    requires i < |entries| && Expanded(entries, periodEnd, i).Ok?
    ensures Expanded(entries, periodEnd, i + 1) == WithEntry(Expanded(entries, periodEnd, i).value, entries[i], periodEnd)
  {
  }

  /** The inner loop: it stops at the first segment that does not fit, however large `repeat` is. */
  method Repeat(before: seq<nat>, start: nat, duration: nat, repeat: nat)
    returns (times: seq<nat>, end: Option<nat>, failure: Option<ManifestError>, ghost work: nat)
    requires |before| <= MAX_SEGMENTS && start <= U64_MAX && duration > 0
    ensures var room := MAX_SEGMENTS - |before|;
            failure == if start + Min(repeat + 1, room) * duration > U64_MAX then Some(InvalidNumber)
                       else if repeat + 1 > room then Some(Malformed)
                       else None
    ensures failure.None? ==>
              && times == before + Steps(start, duration, repeat + 1)
              && end == Some(start + (repeat + 1) * duration)
              && end.value <= U64_MAX
              && work == |times|
    ensures work <= MAX_SEGMENTS + 1
  {
    hide Steps;
    ghost var room := MAX_SEGMENTS - |before|;
    times, end, work := before, None, |before|;
    var time := start;
    for k := 0 to repeat + 1
      invariant |times| == |before| + k && k <= room
      invariant times == before + Steps(start, duration, k)
      invariant time == start + k * duration && time <= U64_MAX
      invariant work == |times|
    {
      work := work + 1;
      if |times| >= MAX_SEGMENTS {
        return times, end, Some(Malformed), work;
      }
      StepsGrow(start, duration, k);
      times := times + [time];
      if time + duration > U64_MAX {
        TimesGrow(k + 1, Min(repeat + 1, room), duration);
        return times, end, Some(InvalidNumber), work;
      }
      time := time + duration;
    }
    end := Some(time);
    failure := None;
  }

  // ---- The closed form ----

  /** Where each entry starts and how many segments it stands for. */
  datatype Layout = Layout(starts: seq<nat>, counts: seq<nat>)

  /** `r = -1` fills the period: as many whole segments as end by its end, and at least one. */
  ghost predicate Repeats(e: Entry, start: nat, count: nat, periodEnd: Option<nat>) {
    if e.repeat == -1 then
      && periodEnd.Some? && start < periodEnd.value && count > 0
      && (count > 1 ==> start + count * e.duration <= periodEnd.value)
      && start + (count + 1) * e.duration > periodEnd.value
    else
      e.repeat >= 0 && count == e.repeat + 1
  }

  ghost predicate Starts(entries: seq<Entry>, layout: Layout, i: nat)
    requires i < |entries| == |layout.starts| == |layout.counts|
  {
    match entries[i].time
    case Some(time) => layout.starts[i] == time
    case None => i > 0 && layout.starts[i] == layout.starts[i - 1] + layout.counts[i - 1] * entries[i - 1].duration
  }

  function Total(counts: seq<nat>, n: nat): nat
    requires n <= |counts|
  {
    if n == 0 then 0 else Total(counts, n - 1) + counts[n - 1]
  }

  /** The first `n` entries are laid out as the standard says, within the limits of this program. */
  ghost predicate LaidOut(entries: seq<Entry>, periodEnd: Option<nat>, n: nat, layout: Layout) {
    && n <= |entries| == |layout.starts| == |layout.counts|
    && (forall i :: 0 <= i < n ==>
                      && entries[i].duration > 0
                      && Starts(entries, layout, i)
                      && Repeats(entries[i], layout.starts[i], layout.counts[i], periodEnd)
                      && layout.starts[i] + layout.counts[i] * entries[i].duration <= U64_MAX)
    && Total(layout.counts, n) <= MAX_SEGMENTS
  }

  /** The times of a layout: segment `k` of entry `i` is at its start plus `k` durations. */
  ghost predicate AreTimesOf(times: seq<nat>, entries: seq<Entry>, n: nat, layout: Layout)
    requires n <= |entries| == |layout.starts| == |layout.counts|
  {
    && |times| == Total(layout.counts, n)
    && forall i, k :: 0 <= i < n && 0 <= k < layout.counts[i] ==>
                        TimeAt(times, layout, i, k) == Some(layout.starts[i] + k * entries[i].duration)
  }

  function TimeAt(times: seq<nat>, layout: Layout, i: nat, k: nat): Option<nat>
    requires i < |layout.counts|
  {
    var at := Total(layout.counts, i) + k;
    if at < |times| then Some(times[at]) else None
  }

  lemma CountRepeats(e: Entry, start: nat, periodEnd: Option<nat>, count: nat)
    requires e.duration > 0
    ensures Count(e, start, periodEnd) == Ok(count) <==> Repeats(e, start, count, periodEnd)
  {
    if e.repeat == -1 && periodEnd.Some? && start < periodEnd.value {
      var span, d := periodEnd.value - start, e.duration;
      assert (span / d) * d <= span < (span / d + 1) * d;
      if Repeats(e, start, count, periodEnd) && count != Max(1, span / d) {
        if count < span / d { TimesGrow(count + 1, span / d, d); } else { TimesGrow(span / d + 1, count, d); }
      }
    }
  }

  /** One more entry's times after the others'. */
  lemma TimesExtend(times: seq<nat>, entries: seq<Entry>, n: nat, layout: Layout)
    requires n < |entries| == |layout.starts| == |layout.counts| && AreTimesOf(times, entries, n, layout)
    ensures AreTimesOf(times + Steps(layout.starts[n], entries[n].duration, layout.counts[n]), entries, n + 1, layout)
  {
    hide Steps;
    var all := times + Steps(layout.starts[n], entries[n].duration, layout.counts[n]);
    forall i, k | 0 <= i < n + 1 && 0 <= k < layout.counts[i]
      ensures TimeAt(all, layout, i, k) == Some(layout.starts[i] + k * entries[i].duration)
    {
      if i < n {
        assert TimeAt(all, layout, i, k) == TimeAt(times, layout, i, k);
      }
    }
  }

  lemma TimesAreTotal(times: seq<nat>, entries: seq<Entry>, n: nat, layout: Layout)
    requires n <= |entries| == |layout.starts| == |layout.counts| && AreTimesOf(times, entries, n, layout)
    ensures |times| == Total(layout.counts, n)
  {
  }

  /** Any layout within the limits is what the loops compute. */
  lemma {:induction false} LayoutExpands(entries: seq<Entry>, periodEnd: Option<nat>, n: nat, layout: Layout)
    requires LaidOut(entries, periodEnd, n, layout)
    ensures Expanded(entries, periodEnd, n).Ok?
    ensures AreTimesOf(Expanded(entries, periodEnd, n).value.times, entries, n, layout)
    ensures n > 0 ==> Expanded(entries, periodEnd, n).value.end
                      == Some(layout.starts[n - 1] + layout.counts[n - 1] * entries[n - 1].duration)
  {
    hide Steps, Repeats, Count;
    if n > 0 {
      LayoutExpands(entries, periodEnd, n - 1, layout);
      hide AreTimesOf;
      var before, e, count := Expanded(entries, periodEnd, n - 1).value, entries[n - 1], layout.counts[n - 1];
      CountRepeats(e, layout.starts[n - 1], periodEnd, count);
      TimesAreTotal(before.times, entries, n - 1, layout);
      assert Starts(entries, layout, n - 1);
      assert Expanded(entries, periodEnd, n) == WithEntry(before, e, periodEnd);
      TimesExtend(before.times, entries, n - 1, layout);
    }
  }

  lemma {:induction false} TotalFrame(a: seq<nat>, b: seq<nat>, n: nat)
    requires n <= |a| && n <= |b| && a[..n] == b[..n]
    ensures Total(a, n) == Total(b, n)
  {
    if n > 0 {
      assert a[n - 1] == a[..n][n - 1] == b[n - 1];
      assert a[..n - 1] == a[..n][..n - 1] == b[..n - 1];
      TotalFrame(a, b, n - 1);
    }
  }

  /** A layout of one entry more. */
  lemma LayoutExtends(entries: seq<Entry>, periodEnd: Option<nat>, n: nat, prior: Layout, start: nat, count: nat)
    requires n < |entries| && LaidOut(entries, periodEnd, n, prior)
    requires entries[n].duration > 0 && Repeats(entries[n], start, count, periodEnd)
    requires start + count * entries[n].duration <= U64_MAX && Total(prior.counts, n) + count <= MAX_SEGMENTS
    requires match entries[n].time
             case Some(time) => start == time
             case None => n > 0 && start == prior.starts[n - 1] + prior.counts[n - 1] * entries[n - 1].duration
    ensures LaidOut(entries, periodEnd, n + 1, Layout(prior.starts[n := start], prior.counts[n := count]))
  {
    hide Repeats;
    var layout := Layout(prior.starts[n := start], prior.counts[n := count]);
    TotalFrame(layout.counts, prior.counts, n);
    forall i | 0 <= i < n ensures Starts(entries, layout, i) {
      assert Starts(entries, prior, i);
    }
  }

  /** And what the loops compute is a layout within the limits. */
  lemma {:induction false} ExpansionIsLaidOut(entries: seq<Entry>, periodEnd: Option<nat>, n: nat)
    returns (layout: Layout)
    requires n <= |entries| && Expanded(entries, periodEnd, n).Ok?
    ensures LaidOut(entries, periodEnd, n, layout)
  {
    hide Steps, Repeats, Count, AreTimesOf;
    if n == 0 {
      layout := Layout(seq(|entries|, _ => 0), seq(|entries|, _ => 0));
    } else {
      var prior := ExpansionIsLaidOut(entries, periodEnd, n - 1);
      LayoutExpands(entries, periodEnd, n - 1, prior);
      var before, e := Expanded(entries, periodEnd, n - 1).value, entries[n - 1];
      TimesAreTotal(before.times, entries, n - 1, prior);
      hide LaidOut;
      var start := if e.time.Some? then e.time.value else before.end.value;
      var count := Count(e, start, periodEnd).value;
      CountRepeats(e, start, periodEnd, count);
      LayoutExtends(entries, periodEnd, n - 1, prior, start, count);
      layout := Layout(prior.starts[n - 1 := start], prior.counts[n - 1 := count]);
    }
  }

  /**
   * A timeline expands exactly when its entries can be laid out one after the other, every segment ending
   * within 64 bits and all of them within the limit; and then segment `k` of entry `i` starts at the entry's
   * own start plus `k` durations.
   */
  lemma ExpandsExactlyWhenLaidOut(entries: seq<Entry>, periodEnd: Option<nat>)
    ensures Expanded(entries, periodEnd, |entries|).Ok?
            <==> exists layout :: LaidOut(entries, periodEnd, |entries|, layout)
    ensures forall layout :: LaidOut(entries, periodEnd, |entries|, layout) ==>
                               Expanded(entries, periodEnd, |entries|).Ok?
                               && AreTimesOf(Expanded(entries, periodEnd, |entries|).value.times, entries, |entries|, layout)
  {
    hide AreTimesOf, Expanded, Starts, Repeats;
    if Expanded(entries, periodEnd, |entries|).Ok? {
      var layout := ExpansionIsLaidOut(entries, periodEnd, |entries|);
      assert LaidOut(entries, periodEnd, |entries|, layout);
    }
    forall layout | LaidOut(entries, periodEnd, |entries|, layout)
      ensures Expanded(entries, periodEnd, |entries|).Ok?
      ensures AreTimesOf(Expanded(entries, periodEnd, |entries|).value.times, entries, |entries|, layout)
    {
      LayoutExpands(entries, periodEnd, |entries|, layout);
    }
  }
}
