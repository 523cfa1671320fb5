// A filename made from the title of a page (crates/gunda-http/src/destination.rs).
module Titles {
  import opened Basics
  import opened Text
  import opened FileNames
  import Utf8

  const STEM_BYTES: nat := 160

  const SITES := [
    " - youtube music", " | youtube music", " - youtube", " | youtube", " - google drive", " | google drive"]

  /** A count of notifications in front, such as `(12)`. */
  function WithoutCount(title: string): (r: string) {
    if title == "" || title[0] != '(' then title
    else
      match SplitOnce(title[1..], ')')
      case None => title
      case Some((digits, rest)) => if |digits| <= 3 && AllDigits(digits) then TrimStart(rest) else title
  }

  /** The first site suffix the title ends with, if any. */
  function SiteSuffix(lower: string, from: nat): (n: nat)
    requires from <= |SITES|
    ensures n <= |lower|
    decreases |SITES| - from
  {
    if from == |SITES| then 0
    else if EndsWith(lower, SITES[from]) then |SITES[from]|
    else SiteSuffix(lower, from + 1)
  }

  function WithoutSite(title: string): (r: string) {
    var n := SiteSuffix(Lowercase(title), 0);
    if n == 0 then title else TrimEnd(title[..|title| - n])
  }

  function Stripped(title: string): (r: string) {
    WithoutSite(WithoutCount(title))
  }

  // ---- Cleaning ----

  /** A character unfit for a filename is a space. */
  function Mapped(c: char): (r: char) {
    if IsUnsafe(c) then ' ' else c
  }

  predicate EndsInSpace(text: string) {
    text != "" && IsWhitespace(Mapped(text[|text| - 1]))
  }

  /** Runs of spaces become one space. */
  function Collapsed(text: string): (r: string) {
    if text == "" then ""
    else
      var before, c := text[..|text| - 1], Mapped(text[|text| - 1]);
      if !IsWhitespace(c) then Collapsed(before) + [c]
      else if EndsInSpace(before) then Collapsed(before)
      else Collapsed(before) + " "
  }

  predicate IsEdge(c: char) {
    c == ' ' || c == '.'
  }

  function TrimEdgeStart(s: string): (r: string)
    ensures r == "" || !IsEdge(r[0])
    ensures |r| <= |s| && r == s[|s| - |r|..]
    ensures r == "" <==> forall i :: 0 <= i < |s| ==> IsEdge(s[i])
  {
    if s != "" && IsEdge(s[0]) then TrimEdgeStart(s[1..]) else s
  }

  function TrimEdgeEnd(s: string): (r: string)
    ensures r == "" || !IsEdge(r[|r| - 1])
    ensures r <= s
    ensures r == "" <==> forall i :: 0 <= i < |s| ==> IsEdge(s[i])
  {
    if s != "" && IsEdge(s[|s| - 1]) then TrimEdgeEnd(s[..|s| - 1]) else s
  }

  function TrimEdges(s: string): (r: string) {
    TrimEdgeEnd(TrimEdgeStart(s))
  }

  /** The longest front of whole characters that takes at most `limit` bytes. */
  function Front(s: string, limit: nat): (r: string)
    ensures r <= s && Utf8.Length(r) <= limit
    ensures s != "" && limit >= 4 ==> r != ""
  {
    if s == "" || Utf8.Width(s[0]) > limit then ""
    else
      assert s[..1] + s[1..] == s;
      [s[0]] + Front(s[1..], limit - Utf8.Width(s[0]))
  }

  function Stem(title: string): (r: string) {
    TrimEdges(Front(TrimEdges(Collapsed(Stripped(Trim(title)))), STEM_BYTES))
  }

  // ---- The name ----

  function Usable(extension: Option<string>): (r: Option<string>)
    ensures r.Some? ==> r == extension && 0 < |r.value| <= 10 && forall i :: 0 <= i < |r.value| ==> IsAlphanumeric(r.value[i])
  {
    if extension.Some? && 0 < |extension.value| <= 10 && (forall i :: 0 <= i < |extension.value| ==> IsAlphanumeric(extension.value[i]))
    then extension
    else None
  }

  function WithExtension(stem: string, extension: Option<string>): (r: string) {
    match extension
    case Some(ext) => stem + "." + ext
    case None => stem
  }

  function TitleName(title: string, extension: Option<string>): (r: Option<string>) {
    var stem, ext := Stem(title), Usable(extension);
    if stem == "" then None
    else if IsValidName(WithExtension(stem, ext)) then Some(WithExtension(stem, ext))
    else
      var fallback := WithExtension("download " + stem, ext);
      if IsValidName(fallback) then Some(fallback) else None
  }

  // ---- The loops ----

  method Clean(title: string) returns (stem: string)
    ensures stem == Collapsed(title)
  {
    hide IsWhitespace, IsUnsafe;
    stem := "";
    var previousSpace := false;
    for i := 0 to |title|
      invariant stem == Collapsed(title[..i])
      invariant previousSpace == EndsInSpace(title[..i])
    {
      assert title[..i + 1][..i] == title[..i];
      var c := Mapped(title[i]);
      if IsWhitespace(c) {
        if !previousSpace {
          stem := stem + " ";
        }
        previousSpace := true;
      } else {
        stem := stem + [c];
        previousSpace := false;
      }
    }
    assert title[..|title|] == title;
  }

  /** How many characters take exactly `end` bytes, if `end` is between two characters. */
  function CharsIn(s: string, end: nat): (r: Option<nat>)
    ensures r.Some? ==> r.value <= |s| && Utf8.Length(s[..r.value]) == end
  {
    if end == 0 then Some(0)
    else if s == "" || Utf8.Width(s[0]) > end then None
    else
      var n :- CharsIn(s[1..], end - Utf8.Width(s[0]));
      assert s[..n + 1] == [s[0]] + s[1..][..n];
      Some(n + 1)
  }

  /** Stepping back to the boundary of a character finds the longest front that fits. */
  method CutAt(s: string, limit: nat) returns (r: string)
    ensures r == Front(s, limit)
  {
    if Utf8.Length(s) <= limit {
      FrontOfAll(s, limit);
      FrontOfAll(s, Utf8.Length(s));
    }
    var end: int := Min(Utf8.Length(s), limit);
    while end > 0 && CharsIn(s, end).None?
      invariant 0 <= end <= limit && Front(s, end) == Front(s, limit)
    {
      NotABoundary(s, end);
      end := end - 1;
    }
    BoundaryIsFront(s, end);
    r := s[..CharsIn(s, end).value];
  }

  lemma {:induction false} FrontOfAll(s: string, limit: nat)
    requires Utf8.Length(s) <= limit
    ensures Front(s, limit) == s
  {
    if s != "" {
      FrontOfAll(s[1..], limit - Utf8.Width(s[0]));
    }
  }

  lemma {:induction false} NotABoundary(s: string, end: nat)
    requires end > 0 && CharsIn(s, end).None?
    ensures Front(s, end - 1) == Front(s, end)
  {
    if s != "" && Utf8.Width(s[0]) <= end {
      NotABoundary(s[1..], end - Utf8.Width(s[0]));
    }
  }

  lemma {:induction false} BoundaryIsFront(s: string, end: nat)
    requires CharsIn(s, end).Some?
    ensures Front(s, end) == s[..CharsIn(s, end).value]
  {
    if end > 0 {
      BoundaryIsFront(s[1..], end - Utf8.Width(s[0]));
    }
  }

  // ---- Exactly when a title gives a name ----

  /** A character that can stand in a filename and is more than a space or a dot. */
  predicate IsText(c: char) {
    !IsUnsafe(c) && !IsWhitespace(c) && c != '.'
  }

  predicate HasText(title: string) {
    exists i :: 0 <= i < |title| && IsText(title[i])
  }

  predicate HasSubstance(s: string) {
    exists i :: 0 <= i < |s| && !IsEdge(s[i])
  }

  lemma SubstanceSnoc(before: string, c: char)
    ensures HasSubstance(before + [c]) <==> HasSubstance(before) || !IsEdge(c)
  {
    hide IsEdge;
    var s := before + [c];
    if HasSubstance(before) {
      var i :| 0 <= i < |before| && !IsEdge(before[i]);
      assert !IsEdge(s[i]);
    }
    if !IsEdge(c) {
      assert !IsEdge(s[|before|]);
    }
  }

  lemma MappedIsFit(c: char)
    ensures IsText(c) <==> !IsWhitespace(Mapped(c)) && !IsEdge(Mapped(c))
    ensures !IsUnsafe(Mapped(c)) && IsEdge(' ') && !IsUnsafe(' ')
  {
  }

  /** Cleaning leaves only fit characters, and something besides spaces and dots just when there was text. */
  lemma {:induction false} CollapsedIsClean(text: string)
    ensures AllFit(Collapsed(text))
    ensures HasSubstance(Collapsed(text)) <==> HasText(text)
  {
    hide IsWhitespace, IsUnsafe, Mapped, IsEdge, HasSubstance, HasText, IsText;
    if text == "" {
      NothingInNothing();
    } else {
      var before, c := text[..|text| - 1], text[|text| - 1];
      CollapsedIsClean(before);
      assert text == before + [c];
      HasTextSnoc(before, c);
      MappedIsFit(c);
      SubstanceSnoc(Collapsed(before), Mapped(c));
      SubstanceSnoc(Collapsed(before), ' ');
    }
  }

  lemma NothingInNothing()
    ensures !HasSubstance("") && !HasText("")
  {
  }

  lemma HasTextSnoc(before: string, c: char)
    ensures HasText(before + [c]) <==> HasText(before) || IsText(c)
  {
    hide IsText;
    var text := before + [c];
    if HasText(before) {
      var i :| 0 <= i < |before| && IsText(before[i]);
      assert IsText(text[i]);
    }
    if IsText(c) {
      assert IsText(text[|before|]);
    }
  }

  lemma TrimEdgesFacts(s: string)
    ensures var r := TrimEdges(s);
            && (r == "" <==> !HasSubstance(s))
            && (r != "" ==> !IsEdge(r[0]) && !IsEdge(r[|r| - 1]))
  {
  }

  lemma TrimEdgesKeeps(s: string)
    ensures AllFit(s) ==> AllFit(TrimEdges(s))
    ensures Utf8.Length(TrimEdges(s)) <= Utf8.Length(s)
  {
    hide IsUnsafe, IsEdge, TrimEdgeStart, TrimEdgeEnd, Utf8.Length;
    var front := TrimEdgeStart(s);
    SubLength(s, front);
    TrimmedLength(front);
    assert forall i :: 0 <= i < |front| ==> front[i] == s[|s| - |front| + i];
  }

  /** What survives trimming still has something in it after it is cut short. */
  lemma StemIsClean(title: string)
    ensures var stem := Stem(title);
            && (stem == "" <==> !HasText(Stripped(Trim(title))))
            && Utf8.Length(stem) <= STEM_BYTES
            && (stem != "" ==> !IsEdge(stem[0]) && !IsEdge(stem[|stem| - 1]))
            && AllFit(stem)
  {
    hide IsUnsafe, IsEdge, HasText, Stripped, Trim, Collapsed, TrimEdges, HasSubstance;
    var text := Stripped(Trim(title));
    CollapsedIsClean(text);
    TrimEdgesFacts(Collapsed(text));
    TrimEdgesKeeps(Collapsed(text));
    var edges := TrimEdges(Collapsed(text));
    var front := Front(edges, STEM_BYTES);
    TrimEdgesFacts(front);
    TrimEdgesKeeps(front);
    FrontIsFit(edges, front);
    if front != "" {
      FirstIsSubstance(front);
    } else {
      NothingInNothing();
    }
  }

  lemma FrontIsFit(s: string, front: string)
    requires AllFit(s) && front <= s
    ensures AllFit(front)
  {
  }

  lemma FirstIsSubstance(s: string)
    requires s != "" && !IsEdge(s[0])
    ensures HasSubstance(s)
  {
    assert !IsEdge(s[0]);
  }

  lemma TrimmedLength(s: string)
    ensures Utf8.Length(TrimEdgeEnd(s)) <= Utf8.Length(s)
  {
    var r := TrimEdgeEnd(s);
    assert s == r + s[|r|..];
    Utf8.LengthConcat(r, s[|r|..]);
  }

  lemma SubLength(s: string, tail: string)
    requires |tail| <= |s| && tail == s[|s| - |tail|..]
    ensures Utf8.Length(tail) <= Utf8.Length(s)
  {
  }

  lemma {:induction false} AsciiExtension(extension: string)
    requires forall i :: 0 <= i < |extension| ==> IsAlphanumeric(extension[i])
    ensures Utf8.Length(extension) == |extension|
    ensures AllFit(extension) && forall i :: 0 <= i < |extension| ==> !IsEdge(extension[i])
  {
    AsciiLength(extension);
  }

  /** A clean stem with an extension breaks at most the rule on device names. */
  lemma NameIsClean(stem: string, extension: Option<string>)
    requires stem != "" && !IsEdge(stem[0]) && !IsEdge(stem[|stem| - 1])
    requires AllFit(stem)
    ensures var name := WithExtension(stem, Usable(extension));
            && Utf8.Length(name) <= Utf8.Length(stem) + 11
            && (!IsDevice(Base(name)) ==> KeepsRules(name))
  {
    hide IsUnsafe, AllFit, IsDevice, Base, Usable;
    var ext := Usable(extension);
    var name := WithExtension(stem, ext);
    if ext.Some? {
      AsciiExtension(ext.value);
      Utf8.LengthConcat(stem + ".", ext.value);
      Utf8.LengthConcat(stem, ".");
      AsciiLength(".");
      DotIsFit();
      FitConcat(stem, ".");
      FitConcat(stem + ".", ext.value);
      assert name[|name| - 1] == ext.value[|ext.value| - 1];
    }
    NoDotNoStaging(name);
  }

  lemma NoDotNoStaging(name: string)
    requires name != "" && name[0] != '.'
    ensures !IsStaging(name)
  {
    assert Uppercase(name)[0] != '.';
  }

  lemma DotIsFit()
    ensures AllFit(".")
  {
  }

  lemma FallbackIsNoDevice(stem: string, extension: Option<string>)
    ensures !IsDevice(Base(WithExtension("download " + stem, extension)))
  {
    var name := WithExtension("download " + stem, extension);
    assert name[0] == 'd';
    var upper := Uppercase(name);
    assert upper[0] == 'D';
    var split := SplitOnce(upper, '.');
    TrimKeepsFirst(if split.Some? then split.value.0 else upper);
    NoDeviceStartsLikeThat(Base(name));
  }

  lemma NoDeviceStartsLikeThat(base: string)
    requires base != "" && base[0] == 'D'
    ensures !IsDevice(base)
  {
  }

  lemma {:induction false} TrimKeepsFirst(s: string)
    requires s != "" && s[0] != ' '
    ensures TrimSpacesEnd(s) != "" && TrimSpacesEnd(s)[0] == s[0]
  {
    if s[|s| - 1] == ' ' {
      TrimKeepsFirst(s[..|s| - 1]);
    }
  }

  /**
   * A title gives a name exactly when, stripped of its annotations, it has some text in it; and the name
   * obeys every rule and takes at most 180 bytes.
   */
  lemma TitleNameExactly(title: string, extension: Option<string>)
    ensures TitleName(title, extension).Some? <==> HasText(Stripped(Trim(title)))
    ensures TitleName(title, extension).Some? ==>
              && IsValidName(TitleName(title, extension).value)
              && Utf8.Length(TitleName(title, extension).value) <= 180
  {
    hide Stem, Stripped, Trim, HasText, AllFit, IsDevice, Base, KeepsRules, Usable, WithExtension;
    StemIsClean(title);
    var stem := Stem(title);
    if stem != "" {
      NameIsClean(stem, extension);
      FallbackIsValid(stem, extension);
    }
  }

  lemma FallbackIsValid(stem: string, extension: Option<string>)
    requires stem != "" && !IsEdge(stem[|stem| - 1]) && AllFit(stem) && Utf8.Length(stem) <= STEM_BYTES
    ensures var fallback := WithExtension("download " + stem, Usable(extension));
            KeepsRules(fallback) && Utf8.Length(fallback) <= 180
  {
    hide AllFit, IsDevice, Base, KeepsRules, Usable, WithExtension, Utf8.Length;
    var front := "download ";
    DownloadIsFit();
    FallbackIsNoDevice(stem, Usable(extension));
    FitConcat(front, stem);
    Utf8.LengthConcat(front, stem);
    var fallback := front + stem;
    assert fallback[0] == 'd' && fallback[|fallback| - 1] == stem[|stem| - 1];
    NameIsClean(fallback, extension);
  }

  lemma DownloadIsFit()
    ensures AllFit("download ") && Utf8.Length("download ") == 9
  {
    AsciiLength("download ");
  }

  method TitleFilename(title: string, extension: Option<string>) returns (r: Option<string>)
    ensures r == TitleName(title, extension)
  {
    hide IsValidName, Collapsed, Front, TrimEdgeStart, TrimEdgeEnd, Stripped, Trim, Usable;
    var cleaned := Clean(Stripped(Trim(title)));
    var stem := TrimEdges(cleaned);
    if stem == "" {
      TrimmedAwayStaysAway(title);
      return None;
    }
    var front := CutAt(stem, STEM_BYTES);
    stem := TrimEdges(front);
    if stem == "" {
      return None;
    }
    var ext := Usable(extension);
    var name := WithExtension(stem, ext);
    if IsValidName(name) {
      return Some(name);
    }
    name := WithExtension("download " + stem, ext);
    r := if IsValidName(name) then Some(name) else None;
  }

  lemma TrimmedAwayStaysAway(title: string)
    requires TrimEdges(Collapsed(Stripped(Trim(title)))) == ""
    ensures Stem(title) == ""
  {
  }
}
