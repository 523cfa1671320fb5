// The Content-Range response header (crates/gunda-http/src/range.rs), RFC 9110 section 14.4.
module HttpRange {
  import opened Basics
  import opened Text

  datatype ContentRange = ContentRange(start: nat, end: nat, total: nat) {

    ghost predicate Valid() {
      start <= end < total <= U64_MAX
    }

    function BodyLength(): (length: nat)
      requires Valid()
      ensures 1 <= length <= U64_MAX && start + length <= total
    {
      end - start + 1
    }

    /** The interval a resumed transfer asked for: from `from` to the end of `whole` bytes. */
    predicate IsTail(from: nat, whole: nat) {
      start == from && total == whole && end == whole - 1
    }
  }

  function ParseDecimal(value: string): (r: Option<nat>)
    ensures r.Some? <==> value != "" && AllDigits(value) && Value(value) <= U64_MAX
    ensures r.Some? ==> r.value == Value(value)
  {
    if value == "" || !AllDigits(value) then None else ParseUnsigned(value, U64_MAX)
  }

  /** Reads `bytes first-last/total`; an interval outside its own total is refused. */
  function Parse(value: string): (r: Option<ContentRange>)
    ensures r.Some? ==> r.value.Valid()
  {
    var unit :- SplitOnce(value, ' ');
    if EqualsIgnoringCase(unit.0, "bytes") then ParseInterval(unit.1) else None
  }

  function ParseInterval(value: string): (r: Option<ContentRange>)
    ensures r.Some? ==> r.value.Valid()
  {
    var interval :- SplitOnce(value, '/');
    var bounds :- SplitOnce(interval.0, '-');
    var start :- ParseDecimal(bounds.0);
    var end :- ParseDecimal(bounds.1);
    var total :- ParseDecimal(interval.1);
    if start > end || end >= total then None else Some(ContentRange(start, end, total))
  }

  function FormatInterval(range: ContentRange): string {
    Print(range.start) + ['-'] + Print(range.end) + ['/'] + Print(range.total)
  }

  /** Every interval a server can announce is read back as announced; any other triple is refused. */
  lemma ParseFormat(range: ContentRange)
    ensures Parse("bytes" + [' '] + FormatInterval(range)) == if range.Valid() then Some(range) else None
  {
    hide Print, Value, SplitOnce, ParseInterval, FormatInterval;
    SplitOnceFinds("bytes", ' ', FormatInterval(range));
    ParseFormatInterval(range);
  }

  lemma ParseFormatInterval(range: ContentRange)
    ensures ParseInterval(FormatInterval(range)) == if range.Valid() then Some(range) else None
  {
    hide Print, Value, SplitOnce;
    SplitOnceFinds(Print(range.start) + ['-'] + Print(range.end), '/', Print(range.total));
    SplitOnceFinds(Print(range.start), '-', Print(range.end));
    ParseDecimalPrint(range.start);
    ParseDecimalPrint(range.end);
    ParseDecimalPrint(range.total);
  }

  lemma ParseDecimalPrint(n: nat)
    ensures ParseDecimal(Print(n)) == if n <= U64_MAX then Some(n) else None
  {
    ValueOfPrint(n);
  }
}
