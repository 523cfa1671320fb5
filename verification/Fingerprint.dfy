// The identity of a plan that a resume checkpoint is filed under (crates/gunda-stream/src/resume.rs).
module Fingerprints {
  import opened Basics
  import opened Text
  import opened Urls
  import opened Manifests
  import Sorting
  import Utf8

  // ---- The hash ----

  datatype State = State(first: bv64, second: bv64)

  const START := State(0xcbf2_9ce4_8422_2325, 0x9ce4_8422_2325_cbf2)
  const PRIME: bv64 := 0x0000_0100_0000_01b3

  /** The 64-bit FNV-1a step; the product wraps. */
  function Absorb(word: bv64, byte: bv8): bv64 {
    (word ^ (byte as bv64)) * PRIME
  }

  /** The second word is also rotated. */
  function Mix(s: State, byte: bv8): State {
    State(Absorb(s.first, byte), Absorb(s.second, byte).RotateLeft(23))
  }

  function Digest(s: State, bytes: Bytes): State
    decreases |bytes|
  {
    if bytes == [] then s else Mix(Digest(s, bytes[..|bytes| - 1]), bytes[|bytes| - 1])
  }

  lemma {:induction false} DigestConcat(s: State, a: Bytes, b: Bytes)
    ensures Digest(s, a + b) == Digest(Digest(s, a), b)
    decreases |b|
  {
    hide Mix;
    if b == [] {
      assert a + b == a;
    } else {
      DigestConcat(s, a, b[..|b| - 1]);
      assert (a + b)[..|a + b| - 1] == a + b[..|b| - 1];
    }
  }

  function LittleEndian(n: nat, width: nat): (bytes: Bytes)
    ensures |bytes| == width
  {
    if width == 0 then [] else [Byte(n % 256)] + LittleEndian(n / 256, width - 1)
  }

  function Finish(s: State): (fingerprint: Bytes)
    ensures |fingerprint| == 16
  {
    LittleEndian(s.first as nat, 8) + LittleEndian(s.second as nat, 8)
  }

  class Fnv128 {
    var first: bv64
    var second: bv64
    /** Everything written so far. */
    ghost var input: Bytes

    function Value(): State
      reads this
    {
      State(first, second)
    }

    ghost predicate Valid()
      reads this
    {
      Value() == Digest(START, input)
    }

    constructor ()
      ensures Valid() && input == []
    {
      first, second, input := START.first, START.second, [];
    }

    method WriteByte(byte: bv8)
      modifies this`first, this`second
      ensures Value() == Mix(old(Value()), byte)
    {
      hide Absorb;
      first := Absorb(first, byte);
      second := Absorb(second, byte).RotateLeft(23);
    }

    /** Whatever the pieces, only the bytes written one after the other count. */
    method Write(bytes: Bytes)
      requires Valid()
      modifies this
      ensures Valid() && input == old(input) + bytes
    {
      hide Mix;
      for i := 0 to |bytes|
        invariant input == old(input)
        invariant Value() == Digest(old(Value()), bytes[..i])
      {
        assert bytes[..i + 1][..i] == bytes[..i];
        WriteByte(bytes[i]);
      }
      assert bytes[..|bytes|] == bytes;
      DigestConcat(START, input, bytes);
      input := input + bytes;
    }

    method Fingerprint() returns (fingerprint: Bytes)
      requires Valid()
      ensures fingerprint == Finish(Digest(START, input))
    {
      hide Finish, Digest;
      fingerprint := Finish(Value());
    }
  }

  // ---- Query parameters ----

  const SIGNING := [
    "token", "sig", "signature", "expires", "expiry", "auth", "authorization", "hdnts", "policy", "jwt", "key-pair-id",
    "x-amz-signature", "x-amz-credential", "x-amz-date", "x-amz-expires", "x-amz-security-token",
    "x-goog-signature", "x-goog-credential", "x-goog-date", "x-goog-expires"]

  /** Parameters that change from one signed URL to the next. */
  predicate IsSigning(name: string) {
    Lowercase(name) in SIGNING
  }

  /** The parameters that are part of the identity. */
  function Kept(query: seq<Pair>): (kept: seq<Pair>) {
    if query == [] then []
    else if IsSigning(query[0].0) then Kept(query[1..])
    else [query[0]] + Kept(query[1..])
  }

  lemma {:induction false} KeptCounts(query: seq<Pair>, pair: Pair)
    ensures multiset(Kept(query))[pair] == if IsSigning(pair.0) then 0 else multiset(query)[pair]
  {
    hide IsSigning;
    if query != [] {
      assert query == [query[0]] + query[1..];
      KeptCounts(query[1..], pair);
    }
  }

  // ---- What is hashed ----

  function Item(pair: Pair): string {
    pair.0 + "=" + pair.1
  }

  function QueryText(query: seq<Pair>): (text: string) {
    if query == [] then "" else QueryText(query[..|query| - 1]) + "?" + Item(query[|query| - 1])
  }

  function Place(url: Url): string {
    url.scheme + "://" + Authority(url) + url.path
  }

  function Authority(url: Url): string {
    if url.port.Some? then url.Host() + ":" + Print(url.port.value) else url.Host()
  }

  /** The text of a URL with its signing parameters gone and the others in order. */
  function UrlText(url: Url): (text: string) {
    Place(url) + QueryText(Sorting.Sorted(Kept(url.query), Sorting.PairBelow))
  }

  /** Writes one more piece of a text whose first part, `before`, follows `start`. */
  method WriteText(hash: Fnv128, text: string, ghost start: Bytes, ghost before: string)
    returns (ghost written: string)
    requires hash.Valid() && hash.input == start + Utf8.Encode(before)
    modifies hash
    ensures written == before + text
    ensures hash.Valid() && hash.input == start + Utf8.Encode(written)
  {
    hide Utf8.Encode, Fnv128.Valid;
    hash.Write(Utf8.Encode(text));
    Utf8.EncodeConcat(before, text);
    written := before + text;
  }

  method HashPlace(hash: Fnv128, url: Url, ghost start: Bytes) returns (ghost written: string)
    requires hash.Valid() && hash.input == start
    modifies hash
    ensures written == Place(url)
    ensures hash.Valid() && hash.input == start + Utf8.Encode(written)
  {
    hide Print, Fnv128.Valid, Utf8.Encode;
    assert Utf8.Encode("") == [] by { Utf8.EncodeNothing(); }
    written := "";
    written := WriteText(hash, url.scheme, start, written);
    written := WriteText(hash, "://", start, written);
    written := WriteText(hash, url.Host(), start, written);
    if url.port.Some? {
      written := WriteText(hash, ":", start, written);
      written := WriteText(hash, Print(url.port.value), start, written);
    }
    written := WriteText(hash, url.path, start, written);
  }

  method HashUrl(hash: Fnv128, url: Url)
    requires hash.Valid()
    modifies hash
    ensures hash.Valid() && hash.input == old(hash.input) + Utf8.Encode(UrlText(url))
  {
    hide Utf8.Encode, Kept, Sorting.Sorted, Place, Fnv128.Valid;
    ghost var start := hash.input;
    ghost var written := HashPlace(hash, url, start);
    var query := Sorting.Sorted(Kept(url.query), Sorting.PairBelow);
    for i := 0 to |query|
      invariant hash.Valid() && hash.input == start + Utf8.Encode(written)
      invariant written == Place(url) + QueryText(query[..i])
    {
      written := WriteText(hash, "?", start, written);
      written := WriteText(hash, query[i].0, start, written);
      written := WriteText(hash, "=", start, written);
      written := WriteText(hash, query[i].1, start, written);
      assert query[..i + 1][..i] == query[..i];
    }
    assert query[..|query|] == query;
  }

  // ---- Plans ----

  datatype Kind = Hls | Dash

  datatype Resource = Resource(track: bv8, url: Url, range: Option<ByteRange>)

  datatype Plan = Plan(kind: Kind, resources: seq<Resource>)

  function KindText(kind: Kind): string {
    match kind
    case Hls => "hls"
    case Dash => "dash"
  }

  function RangeBytes(range: Option<ByteRange>): (bytes: Bytes) {
    if range.None? then [0]
    else
      [1] + LittleEndian(range.value.length, 8)
      + LittleEndian(if range.value.offset.None? then 0 else range.value.offset.value, 8)
  }

  function ResourceBytes(resource: Resource): (bytes: Bytes) {
    [0] + [resource.track] + Utf8.Encode(UrlText(resource.url)) + RangeBytes(resource.range)
  }

  function ResourcesBytes(resources: seq<Resource>): (bytes: Bytes) {
    if resources == [] then []
    else ResourcesBytes(resources[..|resources| - 1]) + ResourceBytes(resources[|resources| - 1])
  }

  function HeaderBytes(plan: Plan, manifest: Url): (bytes: Bytes) {
    Utf8.Encode(KindText(plan.kind)) + [0] + Utf8.Encode(UrlText(manifest)) + [0] + LittleEndian(|plan.resources|, 8)
  }

  function PlanBytes(plan: Plan, manifest: Url): (bytes: Bytes) {
    HeaderBytes(plan, manifest) + ResourcesBytes(plan.resources)
  }

  /** The fingerprint is the hash of the plan's bytes. */
  method Of(plan: Plan, manifest: Url) returns (fingerprint: Bytes)
    ensures fingerprint == Finish(Digest(START, PlanBytes(plan, manifest)))
  {
    hide Digest, Finish, HeaderBytes, ResourceBytes, Fnv128.Valid;
    var hash := new Fnv128();
    HashHeader(hash, plan, manifest);
    for i := 0 to |plan.resources|
      invariant hash.Valid() && hash.input == HeaderBytes(plan, manifest) + ResourcesBytes(plan.resources[..i])
    {
      HashResource(hash, plan.resources[i]);
      assert plan.resources[..i + 1][..i] == plan.resources[..i];
    }
    assert plan.resources[..|plan.resources|] == plan.resources;
    fingerprint := hash.Fingerprint();
  }

  method HashHeader(hash: Fnv128, plan: Plan, manifest: Url)
    requires hash.Valid() && hash.input == []
    modifies hash
    ensures hash.Valid() && hash.input == HeaderBytes(plan, manifest)
  {
    hide Utf8.Encode, UrlText, LittleEndian, Fnv128.Valid;
    hash.Write(Utf8.Encode(KindText(plan.kind)));
    hash.Write([0]);
    HashUrl(hash, manifest);
    hash.Write([0]);
    hash.Write(LittleEndian(|plan.resources|, 8));
  }

  method HashResource(hash: Fnv128, resource: Resource)
    requires hash.Valid()
    modifies hash
    ensures hash.Valid() && hash.input == old(hash.input) + ResourceBytes(resource)
  {
    hide Utf8.Encode, UrlText, LittleEndian, Fnv128.Valid;
    hash.Write([0]);
    hash.Write([resource.track]);
    HashUrl(hash, resource.url);
    match resource.range {
      case Some(range) =>
        hash.Write([1]);
        hash.Write(LittleEndian(range.length, 8));
        hash.Write(LittleEndian(if range.offset.None? then 0 else range.offset.value, 8));
      case None =>
        hash.Write([0]);
    }
  }

  // ---- What the fingerprint does not see ----

  /** The same resource: only signing parameters and the order of parameters may differ. */
  ghost predicate SameResource(a: Url, b: Url) {
    && a.scheme == b.scheme && a.Host() == b.Host() && a.port == b.port && a.path == b.path
    && multiset(Kept(a.query)) == multiset(Kept(b.query))
  }

  lemma SameResourceSameText(a: Url, b: Url)
    requires SameResource(a, b)
    ensures UrlText(a) == UrlText(b)
  {
    hide Sorting.Sorted, Kept, QueryText;
    Sorting.PairsAreOrdered();
    Sorting.SortedIsCanonical(Kept(a.query), Kept(b.query), Sorting.PairBelow);
  }

  ghost predicate SamePlan(p: Plan, q: Plan) {
    && p.kind == q.kind && |p.resources| == |q.resources|
    && forall i :: 0 <= i < |p.resources| ==> SameEntry(p.resources[i], q.resources[i])
  }

  ghost predicate SameEntry(a: Resource, b: Resource) {
    a.track == b.track && SameResource(a.url, b.url) && SameRange(a.range, b.range)
  }

  /** Of the two ways of leaving an offset at the start, the bytes show neither. */
  predicate SameRange(a: Option<ByteRange>, b: Option<ByteRange>) {
    && a.Some? == b.Some?
    && (a.Some? ==>
          && a.value.length == b.value.length
          && (if a.value.offset.None? then 0 else a.value.offset.value)
             == if b.value.offset.None? then 0 else b.value.offset.value)
  }

  /** Entries, and plans, that are written alike. */
  predicate SameWriting(a: Resource, b: Resource) {
    a.track == b.track && UrlText(a.url) == UrlText(b.url) && SameRange(a.range, b.range)
  }

  ghost predicate WrittenAlike(p: Plan, m: Url, q: Plan, n: Url) {
    && p.kind == q.kind && UrlText(m) == UrlText(n) && |p.resources| == |q.resources|
    && forall i :: 0 <= i < |p.resources| ==> SameWriting(p.resources[i], q.resources[i])
  }

  lemma {:induction false} SameWritingSameBytes(a: seq<Resource>, b: seq<Resource>)
    requires |a| == |b| && forall i :: 0 <= i < |a| ==> SameWriting(a[i], b[i])
    ensures ResourcesBytes(a) == ResourcesBytes(b)
  {
    hide Utf8.Encode, UrlText, LittleEndian;
    if a != [] {
      SameWritingSameBytes(a[..|a| - 1], b[..|b| - 1]);
      assert SameWriting(a[|a| - 1], b[|a| - 1]);
    }
  }

  lemma SamePlanWrittenAlike(p: Plan, q: Plan, m: Url, n: Url)
    requires SamePlan(p, q) && SameResource(m, n)
    ensures WrittenAlike(p, m, q, n)
  {
    hide UrlText, SameResource, SameRange;
    SameResourceSameText(m, n);
    forall i | 0 <= i < |p.resources| ensures SameWriting(p.resources[i], q.resources[i]) {
      assert SameEntry(p.resources[i], q.resources[i]);
      SameResourceSameText(p.resources[i].url, q.resources[i].url);
    }
  }

  /** Fresh signatures and reordered parameters, in the manifest's URL and in any resource's, change no byte. */
  lemma FingerprintIgnoresSigning(p: Plan, q: Plan, m: Url, n: Url)
    requires SamePlan(p, q) && SameResource(m, n)
    ensures PlanBytes(p, m) == PlanBytes(q, n)
  {
    hide UrlText, SameResource, SameRange;
    SamePlanWrittenAlike(p, q, m, n);
    SameWritingSameBytes(p.resources, q.resources);
  }

  /** Parameters in another order are the same parameters. */
  lemma PermutingKeepsIdentity(url: Url, query: seq<Pair>)
    requires multiset(query) == multiset(url.query)
    ensures SameResource(url, url.(query := query))
  {
    forall pair ensures multiset(Kept(query))[pair] == multiset(Kept(url.query))[pair] {
      KeptCounts(query, pair);
      KeptCounts(url.query, pair);
    }
  }

  /** A signing parameter anywhere, however its letters are cased and whatever its value. */
  lemma SigningKeepsIdentity(url: Url, i: nat, name: string, value: string)
    requires i <= |url.query| && IsSigning(name)
    ensures SameResource(url, url.(query := url.query[..i] + [(name, value)] + url.query[i..]))
  {
    var query := url.query[..i] + [(name, value)] + url.query[i..];
    assert url.query == url.query[..i] + url.query[i..];
    forall pair ensures multiset(Kept(query))[pair] == multiset(Kept(url.query))[pair] {
      KeptCounts(query, pair);
      KeptCounts(url.query, pair);
    }
  }
}
