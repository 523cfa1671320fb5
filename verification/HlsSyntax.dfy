// The pieces of an HLS playlist line (crates/gunda-stream/src/hls.rs), RFC 8216 section 4.2.
module HlsSyntax {
  import opened Basics
  import opened Text
  import opened Manifests

  datatype Attribute = Attribute(name: string, value: string)

  predicate HasWhitespace(s: string) {
    exists i :: 0 <= i < |s| && IsWhitespace(s[i])
  }

  /** A value and what follows its comma. A quoted value runs to its closing quote, any other to the comma. */
  function ParseValue(tail: string): (r: Option<(string, string)>)
    ensures r.Some? ==> |r.value.1| <= |tail|
  {
    if tail != "" && tail[0] == '"' then
      var quoted :- SplitOnce(tail[1..], '"');
      var after := TrimStart(quoted.1);
      if after == "" then Some((quoted.0, ""))
      else if after[0] == ',' then Some((quoted.0, TrimStart(after[1..])))
      else None
    else
      match SplitOnce(tail, ',')
      case Some((value, next)) => Some((value, TrimStart(next)))
      case None => Some((tail, ""))
  }

  /** One attribute off the front of a list, and the rest of the list after its comma. */
  function ParseOne(list: string): (r: Option<(Attribute, string)>)
    ensures r.Some? ==> r.value.0.name != "" && !HasWhitespace(r.value.0.name)
    ensures r.Some? ==> |r.value.1| < |list|
  {
    var split :- SplitOnce(list, '=');
    var name := Trim(split.0);
    if name == "" || HasWhitespace(name) then None
    else
      var parsed :- ParseValue(split.1);
      Some((Attribute(name, parsed.0), parsed.1))
  }

  function ParseList(list: string): (r: Option<seq<Attribute>>)
    decreases |list|
  {
    if list == "" then Some([])
    else
      var one :- ParseOne(list);
      var rest :- ParseList(one.1);
      Some([one.0] + rest)
  }

  /** The parser's loop; every turn leaves strictly less to read. */
  method ParseAttributes(input: string) returns (r: Option<seq<Attribute>>)
    ensures r == ParseList(input)
  {
    hide ParseOne;
    var pairs: seq<Attribute> := [];
    var rest := input;
    ghost var all := ParseList(input);
    assert all.Some? ==> pairs + all.value == all.value;
    while rest != ""
      invariant ParseList(input) ==
                match ParseList(rest)
                case None => None
                case Some(remaining) => Some(pairs + remaining)
      decreases |rest|
    {
      var one := ParseOne(rest);
      if one.None? {
        return None;
      }
      ghost var remaining := ParseList(one.value.1);
      assert remaining.Some? ==> pairs + ([one.value.0] + remaining.value) == pairs + [one.value.0] + remaining.value;
      pairs := pairs + [one.value.0];
      rest := one.value.1;
    }
    assert pairs + [] == pairs;
    r := Some(pairs);
  }

  // ---- Printing a list ----

  /** An attribute and how its value is to be written. */
  datatype Written = Written(attribute: Attribute, quoted: bool) {

    ghost predicate Printable() {
      && attribute.name != "" && !HasWhitespace(attribute.name) && '=' !in attribute.name
      && if quoted then '"' !in attribute.value
         else ',' !in attribute.value && (attribute.value != "" ==> attribute.value[0] != '"')
    }

    function Print(): string {
      attribute.name + "=" + if quoted then "\"" + attribute.value + "\"" else attribute.value
    }
  }

  function PrintList(list: seq<Written>): string {
    if list == [] then ""
    else if |list| == 1 then list[0].Print()
    else list[0].Print() + "," + PrintList(list[1..])
  }

  function AttributesOf(list: seq<Written>): seq<Attribute> {
    seq(|list|, i requires 0 <= i < |list| => list[i].attribute)
  }

  lemma TrimIsIdentity(s: string)
    requires !HasWhitespace(s)
    ensures Trim(s) == s && TrimStart(s) == s
  {
  }

  /** What may follow a value: nothing, or a comma and the next attribute. */
  ghost predicate Follows(after: string, next: string) {
    || (after == "" && next == "")
    || (after == [','] + next && (next == "" || !IsWhitespace(next[0])))
  }

  lemma QuotedValueReads(value: string, after: string, next: string)
    requires '"' !in value
    requires Follows(after, next)
    ensures ParseValue(['"'] + value + ['"'] + after) == Some((value, next))
  {
    var tail := ['"'] + value + ['"'] + after;
    assert tail[1..] == value + ['"'] + after;
    SplitOnceFinds(value, '"', after);
    if after != "" {
      assert !IsWhitespace(after[0]) && after[1..] == next;
    }
  }

  lemma PlainValueReads(value: string, after: string, next: string)
    requires ',' !in value && (value != "" ==> value[0] != '"')
    requires Follows(after, next)
    ensures ParseValue(value + after) == Some((value, next))
  {
    if after == "" {
      assert value + after == value;
    } else {
      assert value + after == value + [','] + next;
      SplitOnceFinds(value, ',', next);
    }
  }

  /** One printed attribute is read back, whether a comma follows it or nothing does. */
  lemma ParseOnePrinted(w: Written, after: string, next: string)
    requires w.Printable()
    requires Follows(after, next)
    ensures ParseOne(w.Print() + after) == Some((w.attribute, next))
  {
    hide HasWhitespace, ParseValue, SplitOnce;
    var name, value := w.attribute.name, w.attribute.value;
    var tail := (if w.quoted then ['"'] + value + ['"'] else value) + after;
    assert w.Print() + after == name + ['='] + tail;
    SplitOnceFinds(name, '=', tail);
    TrimIsIdentity(name);
    if w.quoted {
      QuotedValueReads(value, after, next);
    } else {
      PlainValueReads(value, after, next);
    }
  }

  /** Printing any list and parsing it gives the same attributes in the same order. */
  lemma {:induction false} ParsePrintedList(list: seq<Written>)
    requires forall i :: 0 <= i < |list| ==> list[i].Printable()
    ensures ParseList(PrintList(list)) == Some(AttributesOf(list))
  {
    hide ParseOne, HasWhitespace;
    if list == [] {
    } else if |list| == 1 {
      ParseOnePrinted(list[0], "", "");
      assert list[0].Print() + "" == list[0].Print();
      assert AttributesOf(list) == [list[0].attribute] + [];
    } else {
      var next := PrintList(list[1..]);
      PrintedStartsClean(list[1..]);
      ParseOnePrinted(list[0], [','] + next, next);
      assert list[0].Print() + ([','] + next) == PrintList(list);
      ParsePrintedList(list[1..]);
      assert AttributesOf(list) == [list[0].attribute] + AttributesOf(list[1..]);
    }
  }

  lemma PrintedStartsClean(list: seq<Written>)
    requires list != [] && list[0].Printable()
    ensures PrintList(list) != "" && !IsWhitespace(PrintList(list)[0])
  {
  }

  // ---- Looking an attribute up ----

  /** The first value under a name, in any letter case. */
  function Get(attributes: seq<Attribute>, name: string): (r: Option<string>) {
    if attributes == [] then None
    else if EqualsIgnoringCase(attributes[0].name, name) then Some(attributes[0].value)
    else Get(attributes[1..], name)
  }

  // ---- Byte ranges ----

  /** `length[@offset]`, RFC 8216 section 4.3.2.2; an empty range is refused. */
  function ParseByteRange(value: string): (r: Result<ByteRange, ManifestError>)
    ensures r.Ok? ==> 0 < r.value.length <= U64_MAX && (r.value.offset.Some? ==> r.value.offset.value <= U64_MAX)
  {
    var split := SplitOnce(value, '@');
    var length := ParseUnsigned(Trim(if split.Some? then split.value.0 else value), U64_MAX);
    if length.None? || length.value == 0 then Err(InvalidByteRange)
    else if split.None? then Ok(ByteRange(length.value, None))
    else
      var offset := ParseUnsigned(Trim(split.value.1), U64_MAX);
      if offset.None? then Err(InvalidByteRange) else Ok(ByteRange(length.value, offset))
  }

  /** A range as a playlist writes it. */
  function PrintByteRange(range: ByteRange): string {
    Print(range.length) + if range.offset.Some? then "@" + Print(range.offset.value) else ""
  }

  lemma DigitIsNotWhite(c: char)
    requires IsDigit(c)
    ensures !IsWhitespace(c)
  {
  }

  lemma DigitsTrim(n: nat)
    ensures Trim(Print(n)) == Print(n) && '@' !in Print(n)
  {
    hide Print, Trim, IsWhitespace;
    var s := Print(n);
    forall i | 0 <= i < |s| ensures s[i] != '@' && !IsWhitespace(s[i]) {
      assert IsDigit(s[i]);
      DigitIsNotWhite(s[i]);
    }
    TrimIsIdentity(s);
  }

  /** A range written in a playlist is read as itself if its numbers fit and it is not empty, and is refused otherwise. */
  lemma ByteRangeRoundTrip(range: ByteRange)
    ensures ParseByteRange(PrintByteRange(range))
            == if 0 < range.length <= U64_MAX && (range.offset.Some? ==> range.offset.value <= U64_MAX) then Ok(range)
               else Err(InvalidByteRange)
  {
    hide Print, ParseUnsigned, Trim, SplitOnce;
    var length := Print(range.length);
    DigitsTrim(range.length);
    ParsePrint(range.length, U64_MAX);
    if range.offset.Some? {
      var offset := Print(range.offset.value);
      DigitsTrim(range.offset.value);
      ParsePrint(range.offset.value, U64_MAX);
      assert PrintByteRange(range) == length + ['@'] + offset;
      SplitOnceFinds(length, '@', offset);
    } else {
      assert PrintByteRange(range) == length;
    }
  }
}
