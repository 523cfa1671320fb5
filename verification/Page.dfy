// Which captured candidates belong to a page, and which one speaks for it (crates/gunda-capture/src/server.rs).
module Pages {
  import opened Basics
  import opened Text
  import opened Urls
  import opened Catalogs
  import Sorting

  predicate Contains(s: string, part: string) {
    part <= s || (s != "" && Contains(s[1..], part))
  }

  predicate IsSite(host: string, site: string) {
    host == site || EndsWith(host, "." + site)
  }

  /** The port a URL connects to, written or not. */
  function KnownPort(url: Url): Option<nat> {
    if url.port.Some? then url.port
    else if url.scheme == "http" || url.scheme == "ws" then Some(80)
    else if url.scheme == "https" || url.scheme == "wss" then Some(443)
    else if url.scheme == "ftp" then Some(21)
    else None
  }

  /** Parameters that say where a visitor came from, not what is shown. */
  predicate IsTracking(name: string) {
    var lower := Lowercase(name);
    lower in ["t", "si", "feature", "fbclid", "gclid", "igsh", "igshid", "rdid"] || "utm_" <= lower
  }

  function Telling(query: seq<Pair>): (parts: seq<string>) {
    if query == [] then []
    else if IsTracking(query[0].0) then Telling(query[1..])
    else [query[0].0 + "=" + query[0].1] + Telling(query[1..])
  }

  /** The value of the first parameter called `v`. */
  function Video(query: seq<Pair>): (value: string) {
    if query == [] then ""
    else if query[0].0 == "v" then query[0].1
    else Video(query[1..])
  }

  function QueryKey(url: Url): (key: string) {
    var host := Lowercase(url.Host());
    if IsSite(host, "youtube.com") then Video(url.query)
    else if IsSite(host, "instagram.com") then ""
    else if IsSite(host, "facebook.com") then Video(url.query)
    else
      var parts := Sorting.Sorted(Telling(url.query), Sorting.TextBelow);
      if parts == [] then "" else Join(parts, '&')
  }

  predicate SamePage(a: Url, b: Url) {
    && a.scheme == b.scheme && a.host == b.host && KnownPort(a) == KnownPort(b) && a.path == b.path
    && QueryKey(a) == QueryKey(b)
  }

  lemma {:induction false} VideoSkipsTracking(before: seq<Pair>, pair: Pair, after: seq<Pair>)
    requires IsTracking(pair.0)
    ensures Video(before + [pair] + after) == Video(before + after)
  {
    hide IsTracking;
    if before == [] {
      VideoIsNotTracking();
      assert before + [pair] + after == [pair] + after && before + after == after;
    } else {
      VideoSkipsTracking(before[1..], pair, after);
      assert (before + [pair] + after)[1..] == before[1..] + [pair] + after;
      assert (before + after)[1..] == before[1..] + after;
    }
  }

  lemma VideoIsNotTracking()
    ensures !IsTracking("v")
  {
    assert Lowercase("v") == "v";
  }

  lemma {:induction false} TellingSkipsTracking(before: seq<Pair>, pair: Pair, after: seq<Pair>)
    requires IsTracking(pair.0)
    ensures Telling(before + [pair] + after) == Telling(before + after)
  {
    hide IsTracking;
    if before == [] {
      assert before + [pair] + after == [pair] + after && before + after == after;
    } else {
      TellingSkipsTracking(before[1..], pair, after);
      assert (before + [pair] + after)[1..] == before[1..] + [pair] + after;
      assert (before + after)[1..] == before[1..] + after;
    }
  }

  /** A tracking parameter anywhere in a page's URL leaves it the same page, on every site. */
  lemma TrackingKeepsPage(url: Url, i: nat, pair: Pair)
    requires i <= |url.query| && IsTracking(pair.0)
    ensures SamePage(url, url.(query := url.query[..i] + [pair] + url.query[i..]))
  {
    hide IsTracking, Video, Telling, Sorting.Sorted;
    assert url.query == url.query[..i] + url.query[i..];
    VideoSkipsTracking(url.query[..i], pair, url.query[i..]);
    TellingSkipsTracking(url.query[..i], pair, url.query[i..]);
  }

  // ---- The candidate that speaks for a page ----

  function Rank(c: Candidate): (nat, nat) {
    var url := Lowercase(c.report.url);
    (if |c.report.variants| > 1 then 1 else 0,
     if Contains(url, "hls_variant") || Contains(url, "/master") then 4
     else if c.report.kind.Hls? || c.report.kind.Dash? then 3
     else 1)
  }

  /** Candidates are compared by rank and then by age. */
  predicate Outranks(a: Candidate, b: Candidate) {
    var (m, n) := (Rank(a), Rank(b));
    m.0 > n.0 || (m.0 == n.0 && (m.1 > n.1 || (m.1 == n.1 && a.id > b.id)))
  }

  /** The best candidate for a page; of two that compare equal, the later one. */
  function Best(candidates: seq<Candidate>, page: Url): (r: Option<Candidate>) {
    if candidates == [] then None
    else
      var last := candidates[|candidates| - 1];
      var best := Best(candidates[..|candidates| - 1], page);
      if !SamePage(last.report.pageUrl, page) then best
      else if best.Some? && Outranks(best.value, last) then best
      else Some(last)
  }

  /** It is on the page and nothing else on the page outranks it; there is one unless the page has none. */
  lemma {:induction false} BestIsBest(candidates: seq<Candidate>, page: Url)
    ensures match Best(candidates, page)
            case Some(c) =>
              && c in candidates && SamePage(c.report.pageUrl, page)
              && forall other :: other in candidates && SamePage(other.report.pageUrl, page) ==> !Outranks(other, c)
            case None => forall other :: other in candidates ==> !SamePage(other.report.pageUrl, page)
  {
    hide SamePage, Rank;
    if candidates != [] {
      var init, last := candidates[..|candidates| - 1], candidates[|candidates| - 1];
      BestIsBest(init, page);
      assert candidates == init + [last];
    }
  }
}
