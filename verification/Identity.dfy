// What the fingerprint of a plan tells apart, and exactly what it does not (crates/gunda-stream/src/resume.rs).
module Identities {
  import opened Basics
  import opened Text
  import opened Urls
  import opened Manifests
  import opened Fingerprints
  import Sorting
  import Utf8

  // ---- Where a URL is ----

  /** A text whose end could be taken for a port. */
  predicate EndsLikePort(text: string) {
    exists i :: 0 <= i < |text| - 1 && text[i] == ':' && AllDigits(text[i + 1..])
  }

  /** What a parser of web addresses makes sure of: no part before the query holds the mark that ends it. */
  predicate WebAddress(url: Url) {
    && ':' !in url.scheme && '?' !in url.scheme
    && '/' !in url.Host() && '?' !in url.Host() && !EndsLikePort(url.Host())
    && url.path != "" && url.path[0] == '/' && '?' !in url.path
  }

  lemma AuthorityDetermines(a: Url, b: Url)
    requires !EndsLikePort(a.Host()) && !EndsLikePort(b.Host()) && Authority(a) == Authority(b)
    ensures a.Host() == b.Host() && a.port == b.port
  {
    hide Print, EndsLikePort;
    if a.port.Some? {
      PortShows(a.Host(), Print(a.port.value));
    }
    if b.port.Some? {
      PortShows(b.Host(), Print(b.port.value));
    }
    if a.port.Some? && b.port.Some? {
      PortSplits(a.Host(), Print(a.port.value), b.Host(), Print(b.port.value));
      PrintIsInjective(a.port.value, b.port.value);
    }
  }

  lemma PortSplits(host: string, digits: string, other: string, more: string)
    requires AllDigits(digits) && AllDigits(more) && host + ":" + digits == other + ":" + more
    ensures host == other && digits == more
  {
    LastColon(host, digits, other, more);
    LastColon(other, more, host, digits);
    assert host == (host + ":" + digits)[..|host|] && other == (other + ":" + more)[..|other|];
    assert digits == (host + ":" + digits)[|host| + 1..] && more == (other + ":" + more)[|other| + 1..];
  }

  lemma PortShows(host: string, digits: string)
    requires digits != "" && AllDigits(digits)
    ensures EndsLikePort(host + ":" + digits)
  {
    var text := host + ":" + digits;
    assert text[|host| + 1..] == digits && text[|host|] == ':';
  }

  lemma LastColon(host: string, digits: string, other: string, more: string)
    requires AllDigits(digits) && host + ":" + digits == other + ":" + more
    ensures |other| <= |host|
  {
    var text := host + ":" + digits;
    assert (other + ":" + more)[|other|] == ':';
    forall j | |host| < j < |text| ensures text[j] != ':' {
      assert text[j] == digits[j - |host| - 1];
    }
  }

  lemma PlaceDetermines(a: Url, b: Url)
    requires WebAddress(a) && WebAddress(b) && Place(a) == Place(b)
    ensures a.scheme == b.scheme && a.Host() == b.Host() && a.port == b.port && a.path == b.path
  {
    hide EndsLikePort, Print, SplitOnce;
    PlaceSplits(a);
    PlaceSplits(b);
    AuthorityDetermines(a, b);
    assert a.path == "/" + a.path[1..] && b.path == "/" + b.path[1..];
  }

  lemma PlaceSplits(a: Url)
    requires WebAddress(a)
    ensures SplitOnce(Place(a), ':') == Some((a.scheme, "//" + Authority(a) + a.path))
    ensures SplitOnce(Authority(a) + a.path, '/') == Some((Authority(a), a.path[1..]))
    ensures ("//" + Authority(a) + a.path)[2..] == Authority(a) + a.path
  {
    hide SplitOnce, EndsLikePort, Print;
    assert Place(a) == a.scheme + [':'] + ("//" + Authority(a) + a.path);
    SplitOnceFinds(a.scheme, ':', "//" + Authority(a) + a.path);
    assert Authority(a) + a.path == Authority(a) + ['/'] + a.path[1..];
    if a.port.Some? {
      DigitsOnly(a.port.value);
    }
    SplitOnceFinds(Authority(a), '/', a.path[1..]);
  }

  lemma DigitsOnly(port: nat)
    ensures '/' !in Print(port) && '?' !in Print(port)
  {
  }

  lemma PlaceHasNoMark(a: Url)
    requires WebAddress(a)
    ensures '?' !in Place(a)
  {
    hide EndsLikePort;
    if a.port.Some? {
      DigitsOnly(a.port.value);
    }
  }

  // ---- What its query reads as ----

  /** The parameters in the order they are hashed. */
  function Read(url: Url): (pairs: seq<Pair>) {
    Sorting.Sorted(Kept(url.query), Sorting.PairBelow)
  }

  lemma {:induction false} KeptAreUnsigned(query: seq<Pair>)
    ensures forall pair :: pair in Kept(query) ==> !IsSigning(pair.0)
  {
    hide IsSigning;
    if query != [] {
      KeptAreUnsigned(query[1..]);
    }
  }

  lemma ReadFacts(url: Url)
    ensures |Read(url)| == |Kept(url.query)|
    ensures forall pair :: pair in Read(url) <==> pair in Kept(url.query)
    ensures forall pair :: pair in Read(url) ==> !IsSigning(pair.0)
    ensures Sorting.Ascending(Read(url), Sorting.PairBelow)
  {
    hide Kept, IsSigning, Sorting.Sorted;
    Sorting.PairsAreOrdered();
    Sorting.SortedKeeps(Kept(url.query), Sorting.PairBelow);
    KeptAreUnsigned(url.query);
    assert |multiset(Read(url))| == |Read(url)| && |multiset(Kept(url.query))| == |Kept(url.query)|;
    forall pair ensures pair in Read(url) <==> pair in Kept(url.query) {
      assert pair in Read(url) <==> pair in multiset(Read(url));
      assert pair in Kept(url.query) <==> pair in multiset(Kept(url.query));
    }
  }

  lemma FrontMark(x: string, p: string, y: string, q: string)
    requires '?' !in x && '?' !in y && (p == "" || p[0] == '?') && (q == "" || q[0] == '?') && x + p == y + q
    ensures x == y && p == q
  {
    NotPastMark(x, p, y, q);
    NotPastMark(y, q, x, p);
    assert x == (x + p)[..|x|] && y == (y + q)[..|y|];
    assert p == (x + p)[|x|..] && q == (y + q)[|y|..];
  }

  lemma NotPastMark(x: string, p: string, y: string, q: string)
    requires '?' !in y && (p == "" || p[0] == '?') && x + p == y + q
    ensures |y| <= |x|
  {
    if p != "" {
      assert (x + p)[|x|] == '?';
      forall j | 0 <= j < |y| ensures (y + q)[j] != '?' {
        assert (y + q)[j] == y[j];
      }
    } else {
      assert |x + p| == |x|;
    }
  }

  /** A query is its first parameter and the rest of it. */
  lemma {:induction false} QueryFront(query: seq<Pair>)
    requires query != []
    ensures QueryText(query) == "?" + (Item(query[0]) + QueryText(query[1..]))
  {
    hide Item;
    var init, last := query[..|query| - 1], Item(query[|query| - 1]);
    if |query| == 1 {
      assert init == [] && query[1..] == [];
      assert QueryText(query) == "" + "?" + last;
    } else {
      QueryFront(init);
      assert init[1..] == query[1..][..|query[1..]| - 1];
      assert QueryText(query) == QueryText(init) + "?" + last;
      assert QueryText(query[1..]) == QueryText(init[1..]) + "?" + last;
    }
  }

  lemma QueryStart(query: seq<Pair>)
    ensures QueryText(query) == "" <==> query == []
    ensures QueryText(query) == "" || QueryText(query)[0] == '?'
  {
    if query != [] {
      QueryFront(query);
    }
  }

  /** On web addresses the hashed text is the place and, apart from it, the query read in order. */
  lemma TextSplits(a: Url, b: Url)
    requires WebAddress(a) && WebAddress(b)
    ensures UrlText(a) == UrlText(b) <==> Place(a) == Place(b) && QueryText(Read(a)) == QueryText(Read(b))
    ensures SameResource(a, b) <==> Place(a) == Place(b) && Read(a) == Read(b)
  {
    hide WebAddress, Place, Kept, Sorting.Sorted, QueryText, Sorting.PairBelow;
    PlaceHasNoMark(a);
    PlaceHasNoMark(b);
    QueryStart(Read(a));
    QueryStart(Read(b));
    if UrlText(a) == UrlText(b) {
      FrontMark(Place(a), QueryText(Read(a)), Place(b), QueryText(Read(b)));
    }
    if Place(a) == Place(b) {
      PlaceDetermines(a, b);
    }
    SamePartsSamePlace(a, b);
    Sorting.PairsAreOrdered();
    Sorting.SortedIsCanonical(Kept(a.query), Kept(b.query), Sorting.PairBelow);
  }

  lemma SamePartsSamePlace(a: Url, b: Url)
    ensures a.scheme == b.scheme && a.Host() == b.Host() && a.port == b.port && a.path == b.path ==> Place(a) == Place(b)
  {
  }

  // ---- Second readings ----

  /** All parameters taken for one whose value goes on to the end. */
  function Merged(query: seq<Pair>): Pair
    requires query != []
  {
    (query[0].0, query[0].1 + QueryText(query[1..]))
  }

  lemma MergedReads(query: seq<Pair>)
    requires query != []
    ensures QueryText(query) == "?" + Item(Merged(query)) == QueryText([Merged(query)])
  {
    hide QueryText;
    QueryFront(query);
    QueryFront([Merged(query)]);
    NothingRead();
    var tail := QueryText(query[1..]);
    assert [Merged(query)][1..] == [];
    assert Item(query[0]) + tail == Item(Merged(query));
    assert Item(Merged(query)) + "" == Item(Merged(query));
  }

  lemma NothingRead()
    ensures QueryText([]) == ""
  {
  }

  predicate Lacks(text: string, c: char) {
    forall i :: 0 <= i < |text| ==> text[i] != c
  }

  lemma SigningLacksEquals(k: nat)
    requires k < |SIGNING|
    ensures Lacks(SIGNING[k], '=')
  {
    if k < 5 {
    } else if k < 10 {
    } else if k < 15 {
    } else {
    }
  }

  lemma EqualsIsNotSigning(name: string)
    requires '=' in name
    ensures !IsSigning(name)
  {
    var i :| 0 <= i < |name| && name[i] == '=';
    assert Lowercase(name)[i] == '=' by { assert ToLower('=') == '='; }
    hide Lowercase;
    if IsSigning(name) {
      var k :| 0 <= k < |SIGNING| && SIGNING[k] == Lowercase(name);
      SigningLacksEquals(k);
      assert false;
    }
  }

  /** Can one parameter's text be cut at another `=`, into a name that is not a signing one? */
  predicate CutsElsewhere(pair: Pair) {
    || '=' in pair.1
    || ('=' in pair.0 &&
        var cut := SplitOnce(pair.0, '=').value;
        '=' in cut.1 || !IsSigning(cut.0))
  }

  lemma OtherCut(pair: Pair) returns (other: Pair)
    requires CutsElsewhere(pair)
    ensures other != pair && !IsSigning(other.0) && Item(other) == Item(pair)
  {
    hide IsSigning, SplitOnce;
    var (name, value) := pair;
    if '=' in value {
      var (front, back) := SplitOnce(value, '=').value;
      other := (name + "=" + front, back);
      EqualsIsNotSigning(other.0);
      assert Item(other) == Item(pair);
      assert |other.0| != |name|;
    } else {
      var (front, back) := SplitOnce(name, '=').value;
      if '=' in back {
        var (middle, rest) := SplitOnce(back, '=').value;
        other := (front + "=" + middle, rest + "=" + value);
        EqualsIsNotSigning(other.0);
        assert Item(other) == Item(pair);
      } else {
        other := (front, back + "=" + value);
        assert Item(other) == Item(pair);
      }
      assert |other.0| != |name|;
    }
  }

  /** With one `=` there is one cut. */
  lemma OnlyCut(name: string, value: string, other: string, rest: string)
    requires '=' !in name && '=' !in value && name + "=" + value == other + "=" + rest
    ensures name == other && value == rest
  {
    hide SplitOnce;
    SplitOnceFinds(name, '=', value);
    if '=' in other {
      var (front, back) := SplitOnce(other, '=').value;
      assert other + "=" + rest == front + ['='] + (back + "=" + rest);
      EqualsBetween(back, rest);
      SplitOnceFinds(front, '=', back + "=" + rest);
    } else {
      SplitOnceFinds(other, '=', rest);
    }
  }

  lemma EqualsBetween(a: string, b: string)
    ensures '=' in a + "=" + b
  {
    assert (a + "=" + b)[|a|] == '=';
  }

  lemma OnlyPair(pair: Pair, other: Pair)
    requires !CutsElsewhere(pair) && !IsSigning(other.0) && Item(other) == Item(pair)
    ensures other == pair
  {
    hide IsSigning, SplitOnce;
    var (name, value) := pair;
    if '=' in name {
      var (front, back) := SplitOnce(name, '=').value;
      assert Item(pair) == front + ['='] + (back + "=" + value);
      SplitOnceFinds(front, '=', back + "=" + value);
      if '=' in other.0 {
        var (start, middle) := SplitOnce(other.0, '=').value;
        assert Item(other) == start + ['='] + (middle + "=" + other.1);
        SplitOnceFinds(start, '=', middle + "=" + other.1);
        OnlyCut(back, value, middle, other.1);
        assert other.0 == start + ['='] + middle && name == front + ['='] + back;
      } else {
        SplitOnceFinds(other.0, '=', other.1);
        assert false;
      }
    } else {
      OnlyCut(name, value, other.0, other.1);
    }
  }

  /** One parameter that cannot be cut elsewhere has no other reading. */
  lemma OnlyReading(pair: Pair, query: seq<Pair>)
    requires !CutsElsewhere(pair) && QueryText(query) == QueryText([pair])
    requires forall p :: p in query ==> !IsSigning(p.0)
    ensures query == [pair]
  {
    hide QueryText, IsSigning, CutsElsewhere;
    QueryStart(query);
    QueryStart([pair]);
    MergedReads(query);
    MergedReads([pair]);
    NothingRead();
    assert [pair][1..] == [] && pair.1 + "" == pair.1;
    assert Merged([pair]) == (pair.0, pair.1) == pair;
    assert Item(Merged(query)) == QueryText(query)[1..] == Item(pair);
    OnlyPair(pair, Merged(query));
    OneEquals(pair);
    if |query| > 1 {
      ValueGoesOn(query);
      assert false;
    }
    assert query[1..] == [] && query[0].1 + "" == query[0].1;
    assert Merged(query) == query[0];
  }

  lemma OneEquals(pair: Pair)
    requires !CutsElsewhere(pair)
    ensures '=' !in pair.1
  {
  }

  lemma ValueGoesOn(query: seq<Pair>)
    requires |query| > 1
    ensures '=' in Merged(query).1
  {
    hide QueryText;
    QueryFront(query[1..]);
    EqualsInside(query[0].1, query[1].0, query[1].1 + QueryText(query[1..][1..]));
    assert Item(query[1]) + QueryText(query[1..][1..]) == query[1].0 + "=" + (query[1].1 + QueryText(query[1..][1..]));
  }

  lemma EqualsInside(a: string, b: string, c: string)
    ensures '=' in a + ("?" + (b + "=" + c))
  {
    var text := a + ("?" + (b + "=" + c));
    assert text[|a| + 1 + |b|] == '=';
  }

  // ---- Exactly which resources share their text ----

  /** Another resource is hashed as the same text. */
  ghost predicate HasTwin(url: Url) {
    exists other :: IsTwin(url, other)
  }

  ghost predicate IsTwin(url: Url, other: Url) {
    WebAddress(other) && UrlText(other) == UrlText(url) && !SameResource(url, other)
  }

  /** Two parameters can always be taken for one, and one for another when its text can be cut at another `=`. */
  predicate Ambiguous(query: seq<Pair>) {
    var kept := Kept(query);
    |kept| > 1 || (|kept| == 1 && CutsElsewhere(kept[0]))
  }

  lemma {:induction false} AllKept(query: seq<Pair>)
    requires forall pair :: pair in query ==> !IsSigning(pair.0)
    ensures Kept(query) == query
  {
    hide IsSigning;
    if query != [] {
      assert query[0] in query;
      AllKept(query[1..]);
    }
  }

  lemma TwinWith(url: Url, query: seq<Pair>) returns (other: Url)
    requires WebAddress(url) && QueryText(query) == QueryText(Read(url)) && query != Read(url)
    requires Sorting.Ascending(query, Sorting.PairBelow) && forall pair :: pair in query ==> !IsSigning(pair.0)
    ensures other == url.(query := query) && Kept(other.query) == query && IsTwin(url, other)
  {
    hide QueryText, IsSigning, EndsLikePort, Kept, Sorting.Sorted, Sorting.PairBelow, SameResource, UrlText;
    other := url.(query := query);
    AllKept(query);
    Sorting.PairsAreOrdered();
    Sorting.SortedKeeps(query, Sorting.PairBelow);
    Sorting.AscendingIsUnique(Sorting.Sorted(query, Sorting.PairBelow), query, Sorting.PairBelow);
    SamePartsSamePlace(url, other);
    TextSplits(url, other);
  }

  /** A resource has a twin exactly when its query is ambiguous. */
  lemma TwinExactly(url: Url)
    requires WebAddress(url)
    ensures HasTwin(url) <==> Ambiguous(url.query)
  {
    hide QueryText, IsSigning, CutsElsewhere, WebAddress, Kept, Read;
    ReadFacts(url);
    var pairs := Read(url);
    if |pairs| > 1 {
      MergedReads(pairs);
      var other := TwinWith(url, [Merged(pairs)]);
      assert IsTwin(url, other);
    } else if |pairs| == 1 {
      assert pairs[0] in Kept(url.query);
      assert Kept(url.query) == pairs == [pairs[0]];
      if CutsElsewhere(pairs[0]) {
        var pair := OtherCut(pairs[0]);
        SameItemSameText(pair, pairs[0]);
        assert [pair][0] != pairs[0];
        var other := TwinWith(url, [pair]);
        assert IsTwin(url, other);
      } else {
        forall other | WebAddress(other) && UrlText(other) == UrlText(url) ensures SameResource(url, other) {
          TextSplits(url, other);
          ReadFacts(other);
          OnlyReading(pairs[0], Read(other));
        }
      }
    } else {
      forall other | WebAddress(other) && UrlText(other) == UrlText(url) ensures SameResource(url, other) {
        TextSplits(url, other);
        QueryStart(Read(other));
        QueryStart(pairs);
      }
    }
  }

  lemma SameItemSameText(p: Pair, q: Pair)
    requires Item(p) == Item(q)
    ensures QueryText([p]) == QueryText([q])
  {
    assert [p][..0] == [] && [q][..0] == [];
  }

  // ---- URLs with plain names ----

  /** The names that are kept hold neither mark, as those of a URL that was not percent-encoded in them. */
  predicate CleanNames(query: seq<Pair>) {
    forall pair :: pair in Kept(query) ==> '=' !in pair.0 && '?' !in pair.0
  }

  /** Can the value be cut at a `?` into a value and another parameter that may stand after it? */
  predicate SplitsAt(pair: Pair, i: nat)
    requires i < |pair.1|
  {
    pair.1[i] == '?' &&
    match SplitOnce(pair.1[i + 1..], '=')
    case None => false
    case Some((name, value)) =>
      '?' !in name && !IsSigning(name) && Sorting.PairBelow((pair.0, pair.1[..i]), (name, value))
  }

  predicate Splits(pair: Pair) {
    exists i :: 0 <= i < |pair.1| && SplitsAt(pair, i)
  }

  /** A parameter whose name is plain and whose value cannot be taken for a value and another parameter. */
  predicate Settled(pair: Pair) {
    '=' !in pair.0 && '?' !in pair.0 && !Splits(pair)
  }

  predicate Plain(url: Url) {
    WebAddress(url) && forall pair :: pair in Kept(url.query) ==> Settled(pair)
  }

  lemma {:induction false} PrefixIsBelow(a: string, b: string)
    ensures Sorting.TextBelow(a, a + b)
  {
    if a != "" {
      PrefixIsBelow(a[1..], b);
      assert (a + b)[1..] == a[1..] + b;
    }
  }

  /** A value that runs past `front` into another parameter is cut there. */
  lemma RunsInto(front: string, next: Pair, rest: string, value: string, after: string)
    requires '?' !in next.0 && (after == "" || after[0] == '?') && |front| < |value|
    requires front + ("?" + (Item(next) + rest)) == value + after
    ensures |front| + |next.0| + 2 <= |value|
    ensures value == front + "?" + next.0 + "=" + value[|front| + |next.0| + 2..]
    ensures value[|front| + |next.0| + 2..] + after == next.1 + rest
  {
    var text := value + after;
    var k := |front| + |next.0| + 1;
    assert text == front + "?" + next.0 + "=" + (next.1 + rest);
    assert text[k] == '=' && text[k + 1..] == next.1 + rest;
    forall j | |front| < j <= k ensures text[j] != '?' {
      assert j < k ==> text[j] == next.0[j - |front| - 1];
    }
    assert |value| < |text| ==> text[|value|] == after[0];
    assert k < |value|;
    assert value == text[..|value|] && after == text[|value|..];
    assert value[..k + 1] == text[..k + 1] == front + "?" + next.0 + "=";
    assert value == value[..k + 1] + value[k + 1..];
  }

  lemma CutThere(pair: Pair, front: string, name: string, value: string)
    requires pair.1 == front + "?" + name + "=" + value && '=' !in name && '?' !in name && !IsSigning(name)
    requires Sorting.PairBelow((pair.0, front), (name, value))
    ensures Splits(pair)
  {
    hide IsSigning, Sorting.PairBelow, SplitOnce;
    var i := |front|;
    assert pair.1[i] == '?' && pair.1[..i] == front && pair.1[i + 1..] == name + ['='] + value;
    SplitOnceFinds(name, '=', value);
    assert SplitsAt(pair, i);
  }

  /** One list of parameters, as it is hashed. */
  ghost predicate IsList(query: seq<Pair>) {
    && Sorting.Ascending(query, Sorting.PairBelow)
    && forall pair :: pair in query ==> !IsSigning(pair.0) && Settled(pair)
  }

  lemma RestIsList(query: seq<Pair>)
    requires query != [] && IsList(query)
    ensures IsList(query[1..]) && !IsSigning(query[0].0) && Settled(query[0])
    ensures |query| > 1 ==> Sorting.PairBelow(query[0], query[1])
  {
    hide IsSigning, Settled, Sorting.PairBelow;
    assert forall pair :: pair in query[1..] ==> pair in query;
  }

  /**
   While two lists are read side by side, `long` at a value and `rest` after the tail `tail` of a value `before`, the
   longer value would have to be cut where the shorter ends, or the next one of the other list where it ends.
   */
  lemma {:induction false} NeverRunsOn(long: seq<Pair>, before: string, tail: string, rest: seq<Pair>)
    requires long != [] && |tail| < |long[0].1| && long[0].1 + QueryText(long[1..]) == tail + QueryText(rest)
    requires IsList(long) && IsList(rest) && Sorting.TextBelow(tail, before)
    requires rest != [] ==> Sorting.PairBelow((long[0].0, before), rest[0])
    ensures false
    decreases |long| + |rest|
  {
    hide QueryText, IsSigning, Sorting.TextBelow, Splits, IsList, Item;
    var (name, value) := long[0];
    QueryStart(rest);
    QueryStart(long[1..]);
    assert rest != [] by {
      assert |value + QueryText(long[1..])| >= |value|;
    }
    QueryFront(rest);
    RestIsList(long);
    RestIsList(rest);
    var next := rest[0];
    RunsInto(tail, next, QueryText(rest[1..]), value, QueryText(long[1..]));
    var after := value[|tail| + |next.0| + 2..];
    if Sorting.PairBelow((name, tail), (next.0, after)) {
      CutThere(long[0], tail, next.0, after);
      assert false;
    }
    assert next.0 == name;
    Later(tail, before, next.1, QueryText(rest[1..]), after, QueryText(long[1..]));
    assert value == tail + ("?" + next.0 + "=" + after);
    TailIsBelow(tail, "?" + next.0 + "=" + after, after);
    assert long[1..] != [] ==> long[1..][0] == long[1];
    NeverRunsOn(rest, value, after, long[1..]);
  }

  lemma Transitive(a: string, b: string, c: string)
    requires Sorting.TextBelow(a, b) && Sorting.TextBelow(b, c)
    ensures Sorting.TextBelow(a, c)
  {
    hide Sorting.TextBelow;
    Sorting.TextOrder(a, b, c);
  }

  lemma Total(a: string, b: string)
    ensures Sorting.TextBelow(a, b) || Sorting.TextBelow(b, a)
  {
    hide Sorting.TextBelow;
    Sorting.TextOrder(a, b, a);
  }

  lemma Later(tail: string, before: string, value: string, more: string, after: string, rest: string)
    requires Sorting.TextBelow(tail, before) && Sorting.TextBelow(before, value) && !Sorting.TextBelow(tail, after)
    requires value + more == after + rest
    ensures |after| < |value| && Sorting.TextBelow(after, tail)
  {
    hide Sorting.TextBelow;
    Transitive(tail, before, value);
    Total(tail, after);
    if |value| <= |after| {
      Starts(value, more, after, rest);
      Transitive(tail, value, after);
    }
  }

  lemma Starts(a: string, more: string, b: string, rest: string)
    requires a + more == b + rest && |a| <= |b|
    ensures Sorting.TextBelow(a, b)
  {
    hide Sorting.TextBelow;
    assert (a + more)[..|a|] == (b + rest)[..|a|];
    assert b == a + b[|a|..];
    PrefixIsBelow(a, b[|a|..]);
  }

  lemma TailIsBelow(tail: string, more: string, after: string)
    requires Sorting.TextBelow(after, tail)
    ensures Sorting.TextBelow(after, tail + more)
  {
    hide Sorting.TextBelow;
    PrefixIsBelow(tail, more);
    Transitive(after, tail, tail + more);
  }

  /** Lists of settled parameters are told apart by their text. */
  lemma {:induction false} ListsDiffer(a: seq<Pair>, b: seq<Pair>)
    requires IsList(a) && IsList(b) && QueryText(a) == QueryText(b)
    ensures a == b
  {
    hide QueryText, IsSigning, Splits, IsList, Item;
    QueryStart(a);
    QueryStart(b);
    if a != [] {
      QueryFront(a);
      QueryFront(b);
      RestIsList(a);
      RestIsList(b);
      SameName(a[0], QueryText(a[1..]), b[0], QueryText(b[1..]));
      NotLonger(a, b);
      NotLonger(b, a);
      var (s, t) := (a[0].1 + QueryText(a[1..]), b[0].1 + QueryText(b[1..]));
      assert a[0].1 == s[..|a[0].1|] && b[0].1 == t[..|a[0].1|];
      assert QueryText(a[1..]) == s[|a[0].1|..] && QueryText(b[1..]) == t[|a[0].1|..];
      ListsDiffer(a[1..], b[1..]);
      assert a == [a[0]] + a[1..] && b == [b[0]] + b[1..];
    }
  }

  lemma SameName(p: Pair, x: string, q: Pair, y: string)
    requires '=' !in p.0 && '=' !in q.0 && "?" + (Item(p) + x) == "?" + (Item(q) + y)
    ensures p.0 == q.0 && p.1 + x == q.1 + y
  {
    hide SplitOnce;
    assert ("?" + (Item(p) + x))[1..] == Item(p) + x && ("?" + (Item(q) + y))[1..] == Item(q) + y;
    assert Item(p) + x == p.0 + ['='] + (p.1 + x);
    assert Item(q) + y == q.0 + ['='] + (q.1 + y);
    SplitOnceFinds(p.0, '=', p.1 + x);
    SplitOnceFinds(q.0, '=', q.1 + y);
  }

  lemma NotLonger(a: seq<Pair>, b: seq<Pair>)
    requires a != [] && b != [] && IsList(a) && IsList(b) && a[0].0 == b[0].0
    requires a[0].1 + QueryText(a[1..]) == b[0].1 + QueryText(b[1..])
    ensures |a[0].1| <= |b[0].1|
  {
    hide QueryText, IsList, Sorting.TextBelow;
    RestIsList(b);
    PrefixIsBelow(b[0].1, "");
    assert b[0].1 + "" == b[0].1;
    if |a[0].1| > |b[0].1| {
      assert b[1..] != [] ==> b[1..][0] == b[1];
      NeverRunsOn(a, b[0].1, b[0].1, b[1..]);
    }
  }

  lemma ReadIsList(url: Url)
    requires Plain(url)
    ensures IsList(Read(url))
  {
    hide IsSigning, Settled, Sorting.PairBelow, WebAddress, Kept, Read;
    ReadFacts(url);
  }

  /** On plain URLs the hashed text is the same exactly for the same resource. */
  lemma TextDeterminesResource(a: Url, b: Url)
    requires Plain(a) && Plain(b)
    ensures UrlText(a) == UrlText(b) <==> SameResource(a, b)
  {
    hide Settled, WebAddress, Kept, Read, UrlText, SameResource, IsList, QueryText;
    TextSplits(a, b);
    ReadIsList(a);
    ReadIsList(b);
    if UrlText(a) == UrlText(b) {
      ListsDiffer(Read(a), Read(b));
    }
  }

  // ---- Exactly which of them share their text with another one ----

  ghost predicate HasCleanTwin(url: Url) {
    exists other :: IsTwin(url, other) && CleanNames(other.query)
  }

  /** Among URLs with plain names: two parameters or more, or a value that splits. */
  predicate CanSplit(query: seq<Pair>) {
    var kept := Kept(query);
    |kept| > 1 || (|kept| == 1 && Splits(kept[0]))
  }

  /** Taken apart where it splits, a parameter is two that are hashed as it is. */
  lemma SplitReads(pair: Pair) returns (one: Pair, two: Pair)
    requires Splits(pair)
    ensures one.0 == pair.0 && '=' !in two.0 && '?' !in two.0 && !IsSigning(two.0) && Sorting.PairBelow(one, two)
    ensures QueryText([one, two]) == QueryText([pair])
  {
    hide IsSigning, Sorting.PairBelow, SplitOnce, QueryText;
    var i :| 0 <= i < |pair.1| && SplitsAt(pair, i);
    var (name, value) := SplitOnce(pair.1[i + 1..], '=').value;
    one, two := (pair.0, pair.1[..i]), (name, value);
    assert pair.1 == one.1 + "?" + (name + "=" + value);
    assert [one, two][1..] == [two] && [two][1..] == [] && two.1 + "" == two.1;
    NothingRead();
    MergedReads([two]);
    MergedReads([one, two]);
    MergedReads([pair]);
    assert [pair][1..] == [] && pair.1 + "" == pair.1;
    assert Merged([one, two]).1 == one.1 + ("?" + (name + "=" + value)) == pair.1;
  }

  /** A list that starts with a parameter and goes on is one parameter that splits. */
  lemma ListSplits(pair: Pair, list: seq<Pair>)
    requires |list| > 1 && QueryText(list) == QueryText([pair]) && Sorting.Ascending(list, Sorting.PairBelow)
    requires '=' !in pair.0 && forall p :: p in list ==> '=' !in p.0 && '?' !in p.0 && !IsSigning(p.0)
    ensures Splits(pair)
  {
    hide IsSigning, Sorting.PairBelow, QueryText, Splits, Item;
    var one, rest := list[0], list[1..];
    QueryFront(list);
    QueryFront([pair]);
    NothingRead();
    assert [pair][1..] == [];
    SameName(pair, "", one, QueryText(rest));
    MergedReads(rest);
    var two := Merged(rest);
    assert rest[0] == list[1] && rest[0] in list && two.0 == rest[0].0;
    assert pair.1 == pair.1 + "" == one.1 + QueryText(rest) == one.1 + ("?" + Item(two));
    assert Sorting.PairBelow(one, rest[0]);
    GrownIsBelow(one, rest[0], QueryText(rest[1..]));
    JoinItem(one.1, two);
    CutThere(pair, one.1, two.0, two.1);
  }

  lemma OneCleanReading(pair: Pair, list: seq<Pair>)
    requires '=' !in pair.0 && !Splits(pair)
    requires QueryText(list) == QueryText([pair]) && Sorting.Ascending(list, Sorting.PairBelow)
    requires forall p :: p in list ==> '=' !in p.0 && '?' !in p.0 && !IsSigning(p.0)
    ensures list == [pair]
  {
    hide IsSigning, Sorting.PairBelow, QueryText, Splits, Item;
    QueryStart(list);
    QueryStart([pair]);
    if |list| > 1 {
      ListSplits(pair, list);
      assert false;
    }
    QueryFront(list);
    QueryFront([pair]);
    NothingRead();
    assert [pair][1..] == [] && list[1..] == [] && list[0] in list;
    assert pair.1 + "" == pair.1 && list[0].1 + "" == list[0].1;
    SameName(pair, "", list[0], "");
  }

  lemma JoinItem(front: string, pair: Pair)
    ensures front + ("?" + Item(pair)) == front + "?" + pair.0 + "=" + pair.1
  {
  }

  lemma GrownIsBelow(one: Pair, two: Pair, more: string)
    requires Sorting.PairBelow(one, two)
    ensures Sorting.PairBelow(one, (two.0, two.1 + more))
  {
    hide Sorting.TextBelow;
    if one.0 == two.0 {
      TailIsBelow(two.1, more, one.1);
    }
  }

  /** With plain names a resource has a twin with plain names exactly when its query can split. */
  lemma CleanTwinExactly(url: Url)
    requires WebAddress(url) && CleanNames(url.query)
    ensures HasCleanTwin(url) <==> CanSplit(url.query)
  {
    hide QueryText, IsSigning, Splits, WebAddress, Kept, Read, Sorting.PairBelow;
    ReadFacts(url);
    var pairs := Read(url);
    if |pairs| > 1 {
      MergedReads(pairs);
      var other := TwinWith(url, [Merged(pairs)]);
      assert pairs[0] in Kept(url.query);
      assert IsTwin(url, other) && CleanNames(other.query);
    } else if |pairs| == 1 {
      assert pairs[0] in Kept(url.query);
      assert Kept(url.query) == pairs == [pairs[0]];
      if Splits(pairs[0]) {
        var one, two := SplitReads(pairs[0]);
        assert [one, two][0] == one && [one, two][1] == two;
        var other := TwinWith(url, [one, two]);
        assert IsTwin(url, other) && CleanNames(other.query);
      } else {
        forall other | IsTwin(url, other) && CleanNames(other.query) ensures false {
          TextSplits(url, other);
          ReadFacts(other);
          OneCleanReading(pairs[0], Read(other));
        }
      }
    } else {
      forall other | IsTwin(url, other) ensures false {
        TextSplits(url, other);
        QueryStart(Read(other));
        QueryStart(pairs);
      }
    }
  }

  /** Without that it does not: these two URLs name different resources and hash alike. */
  lemma DecodedValuesCanCollide(url: Url) returns (a: Url, b: Url)
    ensures a == url.(query := [("a", "1?b=2")]) && b == url.(query := [("a", "1"), ("b", "2")])
    ensures UrlText(a) == UrlText(b) && !SameResource(a, b)
  {
    hide Place, Kept, Sorting.Sorted, QueryText;
    var p, q := ("a", "1"), ("b", "2");
    a, b := url.(query := [("a", "1?b=2")]), url.(query := [p, q]);
    NothingSigned(a.query, b.query);
    SortedAlready(a.query);
    SortedAlready(b.query);
    Collision(("a", "1?b=2"), p, q);
    assert multiset([p, q])[p] == 1 && multiset(a.query)[p] == 0;
    assert Place(a) == Place(b) by { PlaceOf(url, a.query); PlaceOf(url, b.query); }
  }

  lemma PlaceOf(url: Url, query: seq<Pair>)
    ensures Place(url.(query := query)) == Place(url)
  {
  }

  lemma NothingSigned(one: seq<Pair>, two: seq<Pair>)
    requires |one| == 1 && one[0].0 == "a" && |two| == 2 && two[0].0 == "a" && two[1].0 == "b"
    ensures Kept(one) == one && Kept(two) == two
  {
    hide IsSigning;
    PlainNames();
    assert Kept(two[1..]) == two[1..];
  }

  lemma SortedAlready(query: seq<Pair>)
    requires |query| == 1 || (|query| == 2 && query[0].0 == "a" && query[1].0 == "b")
    ensures Sorting.Sorted(query, Sorting.PairBelow) == query
  {
  }

  lemma Collision(whole: Pair, p: Pair, q: Pair)
    requires Item(whole) == Item(p) + "?" + Item(q)
    ensures QueryText([whole]) == QueryText([p, q])
  {
  }

  lemma PlainNames()
    ensures !IsSigning("a") && !IsSigning("b") && !IsSigning("z")
  {
  }

  /**
   A value that holds a parameter out of order is plain, and shares its text only with a URL that has an `=` in a name;
   a value with a `?` and no `=` shares it with none.
   */
  lemma OutOfOrderIsPlain(url: Url)
    requires WebAddress(url)
    ensures Plain(url.(query := [("z", "1?b=2")])) && HasTwin(url.(query := [("z", "1?b=2")]))
    ensures Plain(url.(query := [("z", "1?2")])) && !HasTwin(url.(query := [("z", "1?2")]))
  {
    hide WebAddress, IsSigning, Splits, Kept, CutsElsewhere;
    var one, other := ("z", "1?b=2"), ("z", "1?2");
    LaterNameSettles();
    PlainNames();
    AllKept([one]);
    AllKept([other]);
    SameAddress(url, [one]);
    SameAddress(url, [other]);
    TwinExactly(url.(query := [one]));
    TwinExactly(url.(query := [other]));
    assert CutsElsewhere(one) && !CutsElsewhere(other) by { CutsInValue(); }
  }

  lemma SameAddress(url: Url, query: seq<Pair>)
    requires WebAddress(url)
    ensures WebAddress(url.(query := query))
  {
  }

  lemma CutsInValue()
    ensures CutsElsewhere(("z", "1?b=2")) && !CutsElsewhere(("z", "1?2"))
  {
    assert "1?b=2"[3] == '=';
  }

  lemma LaterNameSettles()
    ensures !Splits(("z", "1?b=2")) && !Splits(("z", "1?2"))
  {
    hide IsSigning, SplitOnce;
    forall i | 0 <= i < 5 && "1?b=2"[i] == '?' ensures !SplitsAt(("z", "1?b=2"), i) {
      assert "1?b=2"[i + 1..] == "b" + ['='] + "2";
      SplitOnceFinds("b", '=', "2");
    }
    forall i | 0 <= i < 3 && "1?2"[i] == '?' ensures !SplitsAt(("z", "1?2"), i) {
      assert "1?2"[i + 1..] == "2";
    }
  }

  // ---- Whole plans ----

  /** A URL in which neither of the two characters is left, once decoded, that mark the places between a plan's parts. */
  predicate Unmarked(url: Url) {
    WebAddress(url) && forall i :: 0 <= i < |UrlText(url)| ==> UrlText(url)[i] as int >= 2
  }

  predicate Fits(resource: Resource) {
    && Unmarked(resource.url)
    && (resource.range.Some? ==>
          && resource.range.value.length <= U64_MAX
          && (resource.range.value.offset.Some? ==> resource.range.value.offset.value <= U64_MAX))
  }

  /** A plan and its manifest, all in such URLs and 64-bit numbers. */
  predicate PlanFits(plan: Plan, manifest: Url) {
    && Unmarked(manifest) && |plan.resources| <= U64_MAX
    && forall i :: 0 <= i < |plan.resources| ==> Fits(plan.resources[i])
  }

  ghost predicate NoMarks(bytes: Bytes) {
    forall i :: 0 <= i < |bytes| ==> bytes[i] as nat >= 2
  }

  predicate IsMark(byte: bv8) {
    byte as nat < 2
  }

  lemma MarkIsNotInside(a: Bytes, p: bv8, x: Bytes, b: Bytes, q: bv8, y: Bytes)
    requires NoMarks(b) && IsMark(p) && a + [p] + x == b + [q] + y
    ensures |b| <= |a|
  {
    var t := b + [q] + y;
    assert (a + [p] + x)[|a|] == p;
    forall j | 0 <= j < |b| ensures !IsMark(t[j]) {
      assert t[j] == b[j];
    }
  }

  /** What comes before the first mark, the mark, and what comes after it. */
  lemma FirstMark(a: Bytes, p: bv8, x: Bytes, b: Bytes, q: bv8, y: Bytes)
    requires NoMarks(a) && NoMarks(b) && IsMark(p) && IsMark(q)
    requires a + [p] + x == b + [q] + y
    ensures a == b && p == q && x == y
  {
    var s, t := a + [p] + x, b + [q] + y;
    assert s[|a|] == p && t[|b|] == q;
    MarkIsNotInside(a, p, x, b, q, y);
    MarkIsNotInside(b, q, y, a, p, x);
    assert a == s[..|a|] && b == t[..|a|];
    assert x == s[|a| + 1..] && y == t[|a| + 1..];
  }

  function FromLittleEndian(bytes: Bytes): (n: nat) {
    if bytes == [] then 0 else bytes[0] as nat + 256 * FromLittleEndian(bytes[1..])
  }

  lemma {:induction false} LittleEndianReads(n: nat, width: nat)
    requires n < Power256(width)
    ensures FromLittleEndian(LittleEndian(n, width)) == n
  {
    hide Byte;
    if width > 0 {
      LittleEndianReads(n / 256, width - 1);
      assert LittleEndian(n, width)[1..] == LittleEndian(n / 256, width - 1);
    }
  }

  lemma CountReads(m: nat, n: nat)
    requires m <= U64_MAX && n <= U64_MAX && LittleEndian(m, 8) == LittleEndian(n, 8)
    ensures m == n
  {
    assert Power256(4) == 0x1_0000_0000;
    assert Power256(8) == 0x1_0000_0000_0000_0000;
    LittleEndianReads(m, 8);
    LittleEndianReads(n, 8);
  }

  lemma EncodedUrlHasNoMarks(url: Url)
    requires Unmarked(url)
    ensures NoMarks(Utf8.Encode(UrlText(url)))
  {
    hide UrlText, WebAddress, Utf8.Encode;
    Utf8.EncodeHasNoMarks(UrlText(url));
  }

  /** The resource at the front, and those after it. */
  lemma {:induction false} ResourcesFront(resources: seq<Resource>)
    requires resources != []
    ensures ResourcesBytes(resources) == ResourceBytes(resources[0]) + ResourcesBytes(resources[1..])
  {
    hide ResourceBytes;
    var init := resources[..|resources| - 1];
    if |resources| == 1 {
      assert init == [] && resources[1..] == [];
    } else {
      ResourcesFront(init);
      assert init[1..] == resources[1..][..|resources[1..]| - 1];
    }
  }

  function MarkOf(range: Option<ByteRange>): bv8 {
    if range.None? then 0 else 1
  }

  function Numbers(range: Option<ByteRange>): (bytes: Bytes) {
    if range.None? then []
    else
      LittleEndian(range.value.length, 8)
      + LittleEndian(if range.value.offset.None? then 0 else range.value.offset.value, 8)
  }

  lemma ResourceParts(r: Resource, rest: Bytes)
    ensures ResourceBytes(r) + rest
            == [0, r.track] + (Utf8.Encode(UrlText(r.url)) + [MarkOf(r.range)] + (Numbers(r.range) + rest))
  {
    hide Utf8.Encode, UrlText, LittleEndian;
    var url := Utf8.Encode(UrlText(r.url));
    assert RangeBytes(r.range) == [MarkOf(r.range)] + Numbers(r.range);
  }

  lemma SameNumbers(a: Option<ByteRange>, x: Bytes, b: Option<ByteRange>, y: Bytes)
    requires a.Some? == b.Some? && Numbers(a) + x == Numbers(b) + y
    requires a.Some? ==> a.value.length <= U64_MAX && (a.value.offset.Some? ==> a.value.offset.value <= U64_MAX)
    requires b.Some? ==> b.value.length <= U64_MAX && (b.value.offset.Some? ==> b.value.offset.value <= U64_MAX)
    ensures x == y && SameRange(a, b)
  {
    hide LittleEndian;
    var s, t := Numbers(a) + x, Numbers(b) + y;
    if a.Some? {
      var m, n := if a.value.offset.None? then 0 else a.value.offset.value, if b.value.offset.None? then 0 else b.value.offset.value;
      assert s[..8] == LittleEndian(a.value.length, 8) && t[..8] == LittleEndian(b.value.length, 8);
      assert s[8..16] == LittleEndian(m, 8) && t[8..16] == LittleEndian(n, 8);
      assert s[16..] == x && t[16..] == y;
      CountReads(a.value.length, b.value.length);
      CountReads(m, n);
    } else {
      assert s == x && t == y;
    }
  }

  lemma FirstEntry(r: Resource, x: Bytes, s: Resource, y: Bytes)
    requires Fits(r) && Fits(s) && ResourceBytes(r) + x == ResourceBytes(s) + y
    ensures SameWriting(r, s) && x == y
  {
    hide Utf8.Encode, UrlText, LittleEndian, Numbers, Unmarked, SameRange, ResourceBytes, NoMarks;
    var a, b := Utf8.Encode(UrlText(r.url)), Utf8.Encode(UrlText(s.url));
    var after, behind := a + [MarkOf(r.range)] + (Numbers(r.range) + x), b + [MarkOf(s.range)] + (Numbers(s.range) + y);
    ResourceParts(r, x);
    ResourceParts(s, y);
    assert ([0, r.track] + after)[1] == r.track && ([0, s.track] + behind)[1] == s.track;
    assert ([0, r.track] + after)[2..] == after && ([0, s.track] + behind)[2..] == behind;
    EncodedUrlHasNoMarks(r.url);
    EncodedUrlHasNoMarks(s.url);
    assert IsMark(MarkOf(r.range)) && IsMark(MarkOf(s.range));
    FirstMark(a, MarkOf(r.range), Numbers(r.range) + x, b, MarkOf(s.range), Numbers(s.range) + y);
    Utf8.EncodeIsInjective(UrlText(r.url), UrlText(s.url));
    SameNumbers(r.range, x, s.range, y);
  }

  lemma {:induction false} ResourcesDetermine(a: seq<Resource>, b: seq<Resource>)
    requires |a| == |b| && ResourcesBytes(a) == ResourcesBytes(b)
    requires forall r :: r in a || r in b ==> Fits(r)
    ensures forall i :: 0 <= i < |a| ==> SameWriting(a[i], b[i])
  {
    hide ResourceBytes, ResourcesBytes, SameWriting, Fits;
    if a != [] {
      ResourcesFront(a);
      ResourcesFront(b);
      FirstEntry(a[0], ResourcesBytes(a[1..]), b[0], ResourcesBytes(b[1..]));
      ResourcesDetermine(a[1..], b[1..]);
      forall i | 0 <= i < |a| ensures SameWriting(a[i], b[i]) {
        if i > 0 {
          assert a[i] == a[1..][i - 1] && b[i] == b[1..][i - 1];
        }
      }
    }
  }

  lemma KindDetermines(a: Kind, b: Kind)
    requires Utf8.Encode(KindText(a)) == Utf8.Encode(KindText(b))
    ensures a == b
  {
    Utf8.EncodeIsInjective(KindText(a), KindText(b));
  }

  lemma KindHasNoMarks(kind: Kind)
    ensures NoMarks(Utf8.Encode(KindText(kind)))
  {
    hide Utf8.Encode;
    Utf8.EncodeHasNoMarks(KindText(kind));
  }

  lemma HeaderDetermines(p: Plan, m: Url, q: Plan, n: Url)
    requires Unmarked(m) && Unmarked(n) && |p.resources| <= U64_MAX && |q.resources| <= U64_MAX
    requires PlanBytes(p, m) == PlanBytes(q, n)
    ensures p.kind == q.kind && UrlText(m) == UrlText(n) && |p.resources| == |q.resources|
    ensures ResourcesBytes(p.resources) == ResourcesBytes(q.resources)
  {
    hide Utf8.Encode, UrlText, LittleEndian, ResourcesBytes, Unmarked, NoMarks, KindText;
    var (k, l) := (Utf8.Encode(KindText(p.kind)), Utf8.Encode(KindText(q.kind)));
    var (a, b) := (Utf8.Encode(UrlText(m)), Utf8.Encode(UrlText(n)));
    var (c, d) := (LittleEndian(|p.resources|, 8), LittleEndian(|q.resources|, 8));
    var (x, y) := (ResourcesBytes(p.resources), ResourcesBytes(q.resources));
    assert PlanBytes(p, m) == k + [0] + (a + [0] + (c + x));
    assert PlanBytes(q, n) == l + [0] + (b + [0] + (d + y));
    KindHasNoMarks(p.kind);
    KindHasNoMarks(q.kind);
    EncodedUrlHasNoMarks(m);
    EncodedUrlHasNoMarks(n);
    assert IsMark(0);
    FirstMark(k, 0, a + [0] + (c + x), l, 0, b + [0] + (d + y));
    FirstMark(a, 0, c + x, b, 0, d + y);
    KindDetermines(p.kind, q.kind);
    Utf8.EncodeIsInjective(UrlText(m), UrlText(n));
    assert (c + x)[..8] == c && (d + y)[..8] == d && (c + x)[8..] == x && (d + y)[8..] == y;
    CountReads(|p.resources|, |q.resources|);
  }

  /** The bytes tell how a plan is written: kind, text of the manifest, and track, text and range of each resource. */
  lemma PlanBytesTellTheWriting(p: Plan, m: Url, q: Plan, n: Url)
    requires PlanFits(p, m) && PlanFits(q, n)
    ensures PlanBytes(p, m) == PlanBytes(q, n) <==> WrittenAlike(p, m, q, n)
  {
    hide SameWriting, Fits, Unmarked, UrlText;
    if WrittenAlike(p, m, q, n) {
      SameWritingSameBytes(p.resources, q.resources);
    }
    if PlanBytes(p, m) == PlanBytes(q, n) {
      HeaderDetermines(p, m, q, n);
      ResourcesDetermine(p.resources, q.resources);
    }
  }

  /** On URLs that are plain too, the bytes are equal exactly for the same kind, manifest and, one by one, resources. */
  lemma PlanBytesDetermine(p: Plan, m: Url, q: Plan, n: Url)
    requires PlanFits(p, m) && PlanFits(q, n) && Plain(m) && Plain(n)
    requires forall r :: r in p.resources || r in q.resources ==> Plain(r.url)
    ensures PlanBytes(p, m) == PlanBytes(q, n) <==> SamePlan(p, q) && SameResource(m, n)
  {
    hide PlanFits, Plain, SameResource, UrlText, SameRange, PlanBytes;
    PlanBytesTellTheWriting(p, m, q, n);
    if SamePlan(p, q) && SameResource(m, n) {
      SamePlanWrittenAlike(p, q, m, n);
    }
    if WrittenAlike(p, m, q, n) {
      TextDeterminesResource(m, n);
      forall i | 0 <= i < |p.resources| ensures SameEntry(p.resources[i], q.resources[i]) {
        assert SameWriting(p.resources[i], q.resources[i]);
        TextDeterminesResource(p.resources[i].url, q.resources[i].url);
      }
    }
  }

  // ---- Exactly which plans share their bytes ----

  ghost predicate IsPlanTwin(p: Plan, m: Url, q: Plan, n: Url) {
    PlanFits(q, n) && PlanBytes(q, n) == PlanBytes(p, m) && !(SamePlan(p, q) && SameResource(m, n))
  }

  ghost predicate HasPlanTwin(plan: Plan, manifest: Url) {
    exists q, n :: IsPlanTwin(plan, manifest, q, n)
  }

  predicate AmbiguousPlan(plan: Plan, manifest: Url) {
    Ambiguous(manifest.query) || exists i :: 0 <= i < |plan.resources| && Ambiguous(plan.resources[i].url.query)
  }

  lemma TwinIsUnmarked(url: Url, other: Url)
    requires Unmarked(url) && IsTwin(url, other)
    ensures Unmarked(other)
  {
  }

  /** A twin of one URL makes a twin of the plan. */
  lemma OneAmbiguousIsEnough(p: Plan, m: Url)
    requires PlanFits(p, m) && AmbiguousPlan(p, m)
    ensures HasPlanTwin(p, m)
  {
    hide Unmarked, Ambiguous, UrlText, SameResource, PlanBytes;
    if Ambiguous(m.query) {
      var other := SomeTwin(m);
      WritingIsBytes(p, m, p, other);
      assert IsPlanTwin(p, m, p, other);
    } else {
      var i :| 0 <= i < |p.resources| && Ambiguous(p.resources[i].url.query);
      var r := p.resources[i];
      assert Fits(r);
      var other := SomeTwin(r.url);
      var q := p.(resources := p.resources[i := r.(url := other)]);
      WritingIsBytes(p, m, q, m);
      assert !SameEntry(p.resources[i], q.resources[i]);
      assert IsPlanTwin(p, m, q, m);
    }
  }

  lemma SomeTwin(url: Url) returns (other: Url)
    requires Unmarked(url) && Ambiguous(url.query)
    ensures Unmarked(other) && UrlText(other) == UrlText(url) && !SameResource(url, other)
  {
    hide WebAddress, UrlText, SameResource, Ambiguous;
    TwinExactly(url);
    other :| IsTwin(url, other);
    TwinIsUnmarked(url, other);
  }

  lemma WritingIsBytes(p: Plan, m: Url, q: Plan, n: Url)
    requires WrittenAlike(p, m, q, n)
    ensures PlanBytes(p, m) == PlanBytes(q, n)
  {
    hide SameWriting, UrlText;
    SameWritingSameBytes(p.resources, q.resources);
  }

  lemma OnlyResource(url: Url, other: Url)
    requires Unmarked(url) && Unmarked(other) && UrlText(url) == UrlText(other) && !Ambiguous(url.query)
    ensures SameResource(url, other)
  {
    hide WebAddress, UrlText, SameResource, Ambiguous;
    TwinExactly(url);
    assert SameResource(url, other) || IsTwin(url, other);
  }

  /** A plan shares its bytes with one of other resources exactly when the URL of its manifest or of a resource is ambiguous. */
  lemma PlanTwinExactly(p: Plan, m: Url)
    requires PlanFits(p, m)
    ensures HasPlanTwin(p, m) <==> AmbiguousPlan(p, m)
  {
    if AmbiguousPlan(p, m) {
      OneAmbiguousIsEnough(p, m);
    } else {
      hide Unmarked, Ambiguous, UrlText, SameResource, SameRange, PlanBytes;
      forall q, n | PlanFits(q, n) && PlanBytes(q, n) == PlanBytes(p, m) ensures SamePlan(p, q) && SameResource(m, n) {
        PlanBytesTellTheWriting(p, m, q, n);
        OnlyResource(m, n);
        forall i | 0 <= i < |p.resources| ensures SameEntry(p.resources[i], q.resources[i]) {
          assert SameWriting(p.resources[i], q.resources[i]) && Fits(p.resources[i]) && Fits(q.resources[i]);
          OnlyResource(p.resources[i].url, q.resources[i].url);
        }
      }
    }
  }

  // ---- Why the marks must be left out ----

  /** What stands between the texts of two resources of track 0 with no range, as characters. */
  const BETWEEN := ['\U{0}', '\U{0}', '\U{0}']

  /** Plans of two such resources: the first text, what is between, and the second. */
  function Pairing(kind: Kind, first: Url, second: Url): Plan {
    Plan(kind, [Resource(0, first, None), Resource(0, second, None)])
  }

  lemma PairingBytes(kind: Kind, first: Url, second: Url)
    ensures ResourcesBytes(Pairing(kind, first, second).resources)
            == [0, 0] + Utf8.Encode(UrlText(first) + BETWEEN + UrlText(second)) + [0]
  {
    hide Utf8.Encode, UrlText, ResourceBytes;
    var (x, y) := (UrlText(first), UrlText(second));
    var resources := Pairing(kind, first, second).resources;
    TwoResources(resources);
    PlainBytes(first);
    PlainBytes(second);
    Utf8.EncodeConcat(x + BETWEEN, y);
    Utf8.EncodeConcat(x, BETWEEN);
    BetweenIsMarks();
    var (a, b) := (Utf8.Encode(x), Utf8.Encode(y));
    assert [0, 0] + a + [0] + ([0, 0] + b + [0]) == [0, 0] + (a + [0, 0, 0] + b) + [0];
  }

  lemma TwoResources(resources: seq<Resource>)
    requires |resources| == 2
    ensures ResourcesBytes(resources) == ResourceBytes(resources[0]) + ResourceBytes(resources[1])
  {
    hide ResourceBytes;
    ResourcesFront(resources);
    ResourcesFront(resources[1..]);
    assert resources[1..][1..] == [] && ResourcesBytes([]) == [];
  }

  lemma PlainBytes(url: Url)
    ensures ResourceBytes(Resource(0, url, None)) == [0, 0] + Utf8.Encode(UrlText(url)) + [0]
  {
    hide Utf8.Encode, UrlText;
  }

  lemma BetweenIsMarks()
    ensures Utf8.Encode(BETWEEN) == [0, 0, 0]
  {
    assert BETWEEN[1..] == ['\U{0}', '\U{0}'] && BETWEEN[1..][1..] == ['\U{0}'] && BETWEEN[1..][1..][1..] == [];
    assert Utf8.EncodeChar('\U{0}') == [0];
  }

  /**
   Where a decoded value holds those characters, it can hold the end of one resource and the start of the next: these
   two plans are all of plain URLs, are of different resources, and have the same bytes whatever the manifest.
   */
  lemma MarksCanCollide(kind: Kind, url: Url, other: Url, manifest: Url) returns (p: Plan, q: Plan)
    requires WebAddress(url) && WebAddress(other)
    ensures p == Pairing(kind, url.(query := [("b", "1")]),
                         url.(query := [("a", "2" + BETWEEN + Place(other))]))
    ensures q == Pairing(kind, url.(query := [("b", "1" + BETWEEN + Place(url) + "?a=2")]), other.(query := []))
    ensures forall r :: r in p.resources || r in q.resources ==> Plain(r.url)
    ensures PlanBytes(p, manifest) == PlanBytes(q, manifest) && !SamePlan(p, q)
  {
    hide Place, WebAddress, Kept, Sorting.Sorted, QueryText, UrlText, Utf8.Encode, ResourcesBytes, Settled, Sorting.PairBelow;
    var (one, two) := (("b", "1"), ("a", "2" + BETWEEN + Place(other)));
    var three := ("b", "1" + BETWEEN + Place(url) + "?a=2");
    p := Pairing(kind, url.(query := [one]), url.(query := [two]));
    q := Pairing(kind, url.(query := [three]), other.(query := []));
    OneParameter(url, one);
    OneParameter(url, two);
    OneParameter(url, three);
    NoParameter(other);
    PlaceHasNoMark(other);
    PlaceHasNoMark(url);
    NoMarkSettles(one);
    NoMarkSettles(two);
    EarlierNameSettles("1" + BETWEEN + Place(url));
    SameTwoTexts(Place(url), Place(other));
    PairingBytes(kind, url.(query := [one]), url.(query := [two]));
    PairingBytes(kind, url.(query := [three]), other.(query := []));
    assert one.1 != three.1 by { assert |three.1| > 1; }
    OtherParameter(url, one, three);
    assert !SameEntry(p.resources[0], q.resources[0]);
  }

  lemma SameTwoTexts(place: string, other: string)
    ensures (place + ("?" + ("b" + "=" + "1"))) + BETWEEN + (place + ("?" + ("a" + "=" + ("2" + BETWEEN + other))))
            == (place + ("?" + ("b" + "=" + ("1" + BETWEEN + place + "?a=2")))) + BETWEEN + other
  {
    assert "?" + ("b" + "=" + ("1" + BETWEEN + place + "?a=2")) == "?b=1" + BETWEEN + place + "?a=2";
    assert "?" + ("a" + "=" + ("2" + BETWEEN + other)) == "?a=2" + BETWEEN + other;
  }

  lemma OneParameter(url: Url, pair: Pair)
    requires WebAddress(url) && (pair.0 == "a" || pair.0 == "b")
    ensures var one := url.(query := [pair]);
            && WebAddress(one) && Kept(one.query) == [pair]
            && UrlText(one) == Place(url) + ("?" + (pair.0 + "=" + pair.1))
  {
    hide WebAddress, IsSigning, Place, Sorting.PairBelow;
    PlainNames();
    OneKept(pair);
    hide Kept;
    OneSorted(pair);
    SameAddress(url, [pair]);
    OneText(pair);
    hide QueryText, Sorting.Sorted;
    PlaceOf(url, [pair]);
  }

  lemma OneKept(pair: Pair)
    requires !IsSigning(pair.0)
    ensures Kept([pair]) == [pair]
  {
    hide IsSigning;
    assert [pair][1..] == [];
  }

  lemma OneSorted(pair: Pair)
    ensures Sorting.Sorted([pair], Sorting.PairBelow) == [pair]
  {
    hide Sorting.PairBelow;
    assert [pair][1..] == [] && Sorting.Sorted([], Sorting.PairBelow) == [];
  }

  lemma OneText(pair: Pair)
    ensures QueryText([pair]) == "?" + (pair.0 + "=" + pair.1)
  {
    assert [pair][..0] == [] && QueryText([]) == "";
  }

  lemma NoParameter(url: Url)
    requires WebAddress(url)
    ensures Plain(url.(query := [])) && UrlText(url.(query := [])) == Place(url)
  {
    hide WebAddress;
    SameAddress(url, []);
    PlaceOf(url, []);
  }

  lemma NoMarkSettles(pair: Pair)
    requires '?' !in pair.1 && (pair.0 == "a" || pair.0 == "b")
    ensures Settled(pair)
  {
  }

  /** A parameter named before `b` may not stand after it. */
  lemma EarlierNameSettles(front: string)
    requires '?' !in front
    ensures Settled(("b", front + "?a=2"))
  {
    hide IsSigning, SplitOnce;
    var value := front + "?a=2";
    forall i | 0 <= i < |value| && i != |front| ensures value[i] != '?' {
      if i < |front| {
        assert value[i] == front[i];
      } else {
        assert value[i] == "?a=2"[i - |front|];
      }
    }
    forall i | 0 <= i < |value| && value[i] == '?' ensures !SplitsAt(("b", value), i) {
      assert value[i + 1..] == "a" + ['='] + "2";
      SplitOnceFinds("a", '=', "2");
    }
  }

  lemma OtherParameter(url: Url, p: Pair, q: Pair)
    requires Kept([p]) == [p] && Kept([q]) == [q] && p != q
    ensures !SameResource(url.(query := [p]), url.(query := [q]))
  {
    hide Kept;
    assert multiset([p])[p] == 1 && multiset([q])[p] == 0;
  }
}
