// Names a finished download may be published under (crates/gunda-http/src/finalize.rs).
module FileNames {
  import opened Basics
  import opened Text
  import Utf8

  const MAX_LENGTH: nat := 200
  const RESERVED := ["CON", "PRN", "AUX", "NUL", "CONIN$", "CONOUT$"]
  const PORTS := ["1", "2", "3", "4", "5", "6", "7", "8", "9", "\U{b9}", "\U{b2}", "\U{b3}"]

  predicate IsControl(c: char) {
    c < ' ' || '\U{7f}' <= c <= '\U{9f}'
  }

  predicate IsUnsafe(c: char) {
    || IsControl(c) || c == '<' || c == '>' || c == ':' || c == '\"' || c == '/' || c == '\\' || c == '|'
    || c == '?' || c == '*' || c == '~'
  }

  predicate AllFit(s: string) {
    forall i :: 0 <= i < |s| ==> !IsUnsafe(s[i])
  }

  lemma FitConcat(a: string, b: string)
    requires AllFit(a) && AllFit(b)
    ensures AllFit(a + b)
  {
  }

  function ToUpper(c: char): char {
    if 'a' <= c <= 'z' then (c as int - 32) as char else c
  }

  function Uppercase(s: string): (r: string)
    ensures |r| == |s|
  {
    seq(|s|, i requires 0 <= i < |s| => ToUpper(s[i]))
  }

  function TrimSpacesEnd(s: string): (r: string)
    ensures r <= s && (r == "" || r[|r| - 1] != ' ')
  {
    if s != "" && s[|s| - 1] == ' ' then TrimSpacesEnd(s[..|s| - 1]) else s
  }

  /** The names reserved for staging files. */
  predicate IsStaging(name: string) {
    ".GUNDA-" <= Uppercase(name)
  }

  /** What a device name is looked for in: up to the first dot, without trailing spaces. */
  function Base(name: string): (base: string) {
    var split := SplitOnce(Uppercase(name), '.');
    TrimSpacesEnd(if split.Some? then split.value.0 else Uppercase(name))
  }

  predicate IsDevice(base: string) {
    base in RESERVED || (|base| >= 3 && (base[..3] == "COM" || base[..3] == "LPT") && base[3..] in PORTS)
  }

  /** Every rule but the one on length. */
  predicate KeepsRules(name: string) {
    && name != "" && name[|name| - 1] != ' ' && name[|name| - 1] != '.'
    && AllFit(name)
    && !IsStaging(name)
    && !IsDevice(Base(name))
  }

  predicate IsValidName(name: string) {
    KeepsRules(name) && Utf8.Length(name) <= MAX_LENGTH
  }

  // ---- Candidates ----

  /** Splits at the last dot. */
  function SplitExtension(name: string): (r: Option<(string, string)>)
    ensures r.None? <==> '.' !in name
    ensures r.Some? ==> name == r.value.0 + "." + r.value.1 && '.' !in r.value.1
  {
    if name == "" then None
    else if name[|name| - 1] == '.' then Some((name[..|name| - 1], ""))
    else
      match SplitExtension(name[..|name| - 1])
      case None => None
      case Some((stem, extension)) => Some((stem, extension + [name[|name| - 1]]))
  }

  /** The part of a name before the number and the part after it. */
  function Around(name: string): (r: (string, string))
    ensures r.0 + r.1 == name
    ensures name != "" ==> r.0 != ""
    ensures '.' !in r.0 ==> r.1 == "" || r.1[0] == '.'
  {
    var split := SplitExtension(name);
    if split.Some? && split.value.0 != "" then
      assert split.value.0 + ("." + split.value.1) == name;
      (split.value.0, "." + split.value.1)
    else (name, "")
  }

  function CandidateName(name: string, attempt: nat): (candidate: string) {
    if attempt == 0 then name
    else
      var split := SplitExtension(name);
      if split.Some? && split.value.0 != "" then split.value.0 + " (" + Print(attempt) + ")." + split.value.1
      else name + " (" + Print(attempt) + ")"
  }

  lemma CandidateParts(name: string, attempt: nat)
    requires attempt > 0
    ensures CandidateName(name, attempt) == Around(name).0 + (" (" + Print(attempt) + ")") + Around(name).1
  {
    hide Print;
    var split := SplitExtension(name);
    if split.Some? && split.value.0 != "" {
      var (stem, extension, number) := (split.value.0, split.value.1, Print(attempt));
      assert stem + " (" + number + ")." + extension == stem + (" (" + number + ")") + ("." + extension);
    } else {
      var number := Print(attempt);
      assert name + " (" + number + ")" == name + (" (" + number + ")") + "";
    }
  }

  /** No two attempts try the same name. */
  lemma CandidatesAreDistinct(name: string, a: nat, b: nat)
    requires CandidateName(name, a) == CandidateName(name, b)
    ensures a == b
  {
    hide Print, SplitExtension;
    if a > 0 && b > 0 {
      CandidateParts(name, a);
      CandidateParts(name, b);
      MiddleIsSame(Around(name).0, Print(a), Print(b), Around(name).1);
      PrintIsInjective(a, b);
    } else if a > 0 {
      CandidateParts(name, a);
    } else if b > 0 {
      CandidateParts(name, b);
    }
  }

  lemma MiddleIsSame(before: string, m: string, n: string, after: string)
    requires before + (" (" + m + ")") + after == before + (" (" + n + ")") + after
    ensures m == n
  {
    var s, t := before + (" (" + m + ")") + after, before + (" (" + n + ")") + after;
    assert |m| == |n|;
    assert s[|before| + 2..|before| + 2 + |m|] == m;
    assert t[|before| + 2..|before| + 2 + |n|] == n;
  }

  /** A number costs three bytes and its digits. */
  lemma CandidateLength(name: string, attempt: nat)
    requires 0 < attempt < 1000
    ensures Utf8.Length(CandidateName(name, attempt)) <= Utf8.Length(name) + 6
  {
    hide Print, SplitExtension;
    var number := " (" + Print(attempt) + ")";
    CandidateParts(name, attempt);
    Utf8.LengthConcat(Around(name).0 + number, Around(name).1);
    Utf8.LengthConcat(Around(name).0, number);
    Utf8.LengthConcat(Around(name).0, Around(name).1);
    NumberLength(attempt);
  }

  lemma NumberLength(attempt: nat)
    requires attempt < 1000
    ensures Utf8.Length(" (" + Print(attempt) + ")") <= 6
  {
    assert Pow10(3) == 1000;
    PrintLength(attempt, 3);
    AsciiLength(" (" + Print(attempt) + ")");
  }

  lemma {:induction false} AsciiLength(text: string)
    requires forall i :: 0 <= i < |text| ==> text[i] as int < 128
    ensures Utf8.Length(text) == |text|
  {
    if text != "" {
      AsciiLength(text[1..]);
    }
  }

  // ---- Candidates keep the rules ----

  /** A numbered name: `before` and `after` make up the name, the number goes in between. */
  function Numbered(before: string, attempt: nat, after: string): (name: string) {
    before + (" (" + Print(attempt) + ")") + after
  }

  lemma NumberIsPlain(attempt: nat)
    ensures var number := " (" + Print(attempt) + ")";
            forall i :: 0 <= i < |number| ==> !IsUnsafe(number[i]) && number[i] != '.' && ToUpper(number[i]) == number[i]
  {
  }

  lemma UppercaseConcat(a: string, b: string)
    ensures Uppercase(a + b) == Uppercase(a) + Uppercase(b)
  {
  }

  lemma NumberedIsNotStaging(before: string, attempt: nat, after: string)
    requires before != "" && !IsStaging(before + after)
    ensures !IsStaging(Numbered(before, attempt, after))
  {
    hide Print;
    var candidate, name := Numbered(before, attempt, after), before + after;
    assert |before| < 7 ==> candidate[|before|] == ' ' && ".GUNDA-"[|before|] != ' ';
    assert |before| >= 7 ==> Uppercase(candidate)[..7] == Uppercase(name)[..7];
  }

  lemma NeverADevice(base: string)
    requires base != "" && base[|base| - 1] == ')'
    ensures !IsDevice(base)
  {
  }

  /** The first dot of a text that has one. */
  lemma FirstDot(text: string) returns (k: nat)
    requires '.' in text
    ensures k < |text| && text[k] == '.' && '.' !in text[..k]
  {
    k := 0;
    while text[k] != '.'
      invariant k < |text| && '.' !in text[..k] && '.' in text[k..]
      decreases |text| - k
    {
      assert text[..k + 1] == text[..k] + [text[k]];
      assert text[k..] == [text[k]] + text[k + 1..];
      k := k + 1;
    }
  }

  lemma BaseOf(head: string, rest: string)
    requires '.' !in head
    ensures Base(head + "." + rest) == TrimSpacesEnd(Uppercase(head))
  {
    UppercaseConcat(head, "." + rest);
    UppercaseConcat(".", rest);
    assert head + "." + rest == head + ("." + rest);
    assert Uppercase(head + "." + rest) == Uppercase(head) + ['.'] + Uppercase(rest);
    SplitOnceFinds(Uppercase(head), '.', Uppercase(rest));
  }

  lemma BaseOfPlain(head: string)
    requires '.' !in head
    ensures Base(head) == TrimSpacesEnd(Uppercase(head))
  {
  }

  lemma NumberedIsNotADevice(before: string, attempt: nat, after: string)
    requires before != "" && !IsDevice(Base(before + after))
    requires '.' !in before ==> after == "" || after[0] == '.'
    ensures !IsDevice(Base(Numbered(before, attempt, after)))
  {
    hide Print, IsDevice, Base, IsUnsafe;
    var number := " (" + Print(attempt) + ")";
    var candidate := Numbered(before, attempt, after);
    if '.' in before {
      var k := FirstDot(before);
      var head := before[..k];
      assert before + after == head + "." + (before[k + 1..] + after);
      assert candidate == head + "." + (before[k + 1..] + number + after);
      BaseOf(head, before[k + 1..] + after);
      BaseOf(head, before[k + 1..] + number + after);
    } else {
      NumberIsPlain(attempt);
      var head := before + number;
      assert head[|head| - 1] == ')' && Uppercase(head)[|head| - 1] == ')';
      NeverADevice(Uppercase(head));
      if after == "" {
        assert candidate == head;
        BaseOfPlain(head);
      } else {
        assert candidate == head + "." + after[1..];
        BaseOf(head, after[1..]);
      }
    }
  }

  /** A numbered name keeps every rule its name keeps, but for the length. */
  lemma CandidateKeepsRules(name: string, attempt: nat)
    requires KeepsRules(name)
    ensures KeepsRules(CandidateName(name, attempt))
  {
    hide Print, SplitExtension, IsDevice, Base, IsStaging, IsUnsafe;
    if attempt > 0 {
      var (before, after) := Around(name);
      CandidateParts(name, attempt);
      NumberIsPlain(attempt);
      NumberedIsNotStaging(before, attempt, after);
      NumberedIsNotADevice(before, attempt, after);
      var candidate := Numbered(before, attempt, after);
      assert after != "" ==> candidate[|candidate| - 1] == after[|after| - 1] == name[|name| - 1];
      forall i | 0 <= i < |candidate| ensures !IsUnsafe(candidate[i]) {
        var number := " (" + Print(attempt) + ")";
        assert candidate == before + number + after;
        assert i < |before| ==> candidate[i] == name[i];
        assert |before| <= i < |before| + |number| ==> candidate[i] == number[i - |before|];
        assert |before| + |number| <= i ==> candidate[i] == name[i - |number|];
      }
    }
  }

  /** The name a partial download is staged under. */
  function PartialName(id: nat): (name: string) {
    ".gunda-" + Print(id) + ".part"
  }

  /** Nothing that keeps the rules is a staging name. */
  lemma NeverAStagingName(name: string, id: nat)
    requires KeepsRules(name)
    ensures name != PartialName(id)
  {
  }
}
