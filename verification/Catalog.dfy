// The bounded list of captured candidates (crates/gunda-capture/src/candidate.rs).
module Catalogs {
  import opened Basics
  import opened Text
  import opened Urls

  datatype ResourceKind = File | Hls | Dash

  datatype Variant = Variant(url: string, size: Option<nat>)

  /** A validated report; what `Report::new` checks happens before. */
  datatype Report = Report(
    url: string,
    kind: ResourceKind,
    contentType: Option<string>,
    sizeBytes: Option<nat>,
    pageUrl: Url,
    pageTitle: Option<string>,
    filename: Option<string>,
    variants: seq<Variant>)

  datatype Candidate = Candidate(id: nat, report: Report, seen: nat)

  datatype Recorded = Recorded(id: nat, duplicate: bool)

  /** The candidates, newest first, and the number the next one gets. */
  datatype Listing = Listing(candidates: seq<Candidate>, nextId: nat)

  const EMPTY := Listing([], 0)

  /** How many 64-bit numbers there are to give. */
  const NUMBERS: nat := U64_MAX + 1

  // ---- What the operations do ----

  /** Where the candidate for `url` is. */
  function Find(candidates: seq<Candidate>, url: string): (r: Option<nat>)
    ensures r.Some? ==> r.value < |candidates| && candidates[r.value].report.url == url
    ensures r.None? ==> forall i :: 0 <= i < |candidates| ==> candidates[i].report.url != url
    ensures r.Some? ==> forall i :: 0 <= i < r.value ==> candidates[i].report.url != url
  {
    if candidates == [] then None
    else if candidates[0].report.url == url then Some(0)
    else
      var i :- Find(candidates[1..], url);
      Some(i + 1)
  }

  /** A later report may know more than the first one did. */
  function Refreshed(c: Candidate, report: Report): (r: Candidate)
    ensures r.id == c.id && r.report.url == c.report.url && r.report.pageUrl == c.report.pageUrl
  {
    Candidate(
      c.id,
      c.report.(
        contentType := if report.contentType.Some? then report.contentType else c.report.contentType,
        filename := if report.filename.Some? then report.filename else c.report.filename,
        sizeBytes := if report.sizeBytes.Some? then report.sizeBytes else c.report.sizeBytes,
        variants := if report.variants != [] then report.variants else c.report.variants),
      Min(c.seen + 1, U32_MAX))
  }

  function AfterRecord(s: Listing, capacity: nat, report: Report): (r: (Listing, Recorded)) {
    match Find(s.candidates, report.url)
    case Some(i) =>
      var existing := s.candidates[i];
      (s.(candidates := s.candidates[i := Refreshed(existing, report)]), Recorded(existing.id, true))
    case None =>
      var all := [Candidate(s.nextId, report, 1)] + s.candidates;
      (Listing(all[..Min(|all|, capacity)], Min(s.nextId + 1, U64_MAX)), Recorded(s.nextId, false))
  }

  function Without(candidates: seq<Candidate>, id: nat): (r: seq<Candidate>) {
    if candidates == [] then []
    else if candidates[0].id == id then Without(candidates[1..], id)
    else [candidates[0]] + Without(candidates[1..], id)
  }

  function Get(candidates: seq<Candidate>, id: nat): (r: Option<Candidate>)
    ensures r.Some? ==> r.value in candidates && r.value.id == id
    ensures r.None? ==> forall i :: 0 <= i < |candidates| ==> candidates[i].id != id
  {
    if candidates == [] then None
    else if candidates[0].id == id then Some(candidates[0])
    else Get(candidates[1..], id)
  }

  // ---- The catalog ----

  class Catalog {
    var candidates: seq<Candidate>
    var nextId: nat
    const capacity: nat

    function Value(): Listing
      reads this
    {
      Listing(candidates, nextId)
    }

    constructor (atMost: nat)
      ensures Value() == EMPTY && capacity == if atMost == 0 then 1 else atMost
    {
      candidates, nextId := [], 0;
      capacity := if atMost == 0 then 1 else atMost;
    }

    method Record(report: Report) returns (recorded: Recorded)
      modifies this
      ensures (Value(), recorded) == AfterRecord(old(Value()), capacity, report)
    {
      var found := Find(candidates, report.url);
      if found.Some? {
        var existing := candidates[found.value];
        candidates := candidates[found.value := Refreshed(existing, report)];
        return Recorded(existing.id, true);
      }
      var id := nextId;
      nextId := Min(nextId + 1, U64_MAX);
      candidates := [Candidate(id, report, 1)] + candidates;
      assert candidates[..|candidates|] == candidates;
      if |candidates| > capacity {
        candidates := candidates[..capacity];
      }
      recorded := Recorded(id, false);
    }

    method Remove(id: nat) returns (removed: bool)
      modifies this
      ensures Value() == old(Value()).(candidates := Without(old(candidates), id))
      ensures removed <==> Get(old(candidates), id).Some?
    {
      var before := |candidates|;
      WithoutIsShorter(candidates, id);
      candidates := Without(candidates, id);
      removed := |candidates| != before;
    }

    method Clear()
      modifies this
      ensures Value() == old(Value()).(candidates := [])
    {
      candidates := [];
    }
  }

  lemma {:induction false} WithoutIsShorter(candidates: seq<Candidate>, id: nat)
    ensures |Without(candidates, id)| <= |candidates|
    ensures |Without(candidates, id)| < |candidates| <==> Get(candidates, id).Some?
  {
    if candidates != [] {
      WithoutIsShorter(candidates[1..], id);
    }
  }

  // ---- Any sequence of operations ----

  datatype Op = Record(report: Report) | Remove(id: nat) | Clear

  function Apply(s: Listing, capacity: nat, op: Op): (r: Listing) {
    match op
    case Record(report) => AfterRecord(s, capacity, report).0
    case Remove(id) => s.(candidates := Without(s.candidates, id))
    case Clear => s.(candidates := [])
  }

  /** The listing after the first `n` operations on a new catalog. */
  function After(ops: seq<Op>, capacity: nat, n: nat): (r: Listing)
    requires n <= |ops|
  {
    if n == 0 then EMPTY else Apply(After(ops, capacity, n - 1), capacity, ops[n - 1])
  }

  /** The URLs in the order they were first given a number: number `i` was given to `Issued[i]`. */
  function Issue(s: Listing, issued: seq<string>, op: Op): (r: seq<string>) {
    if op.Record? && Find(s.candidates, op.report.url).None? then issued + [op.report.url] else issued
  }

  function Issued(ops: seq<Op>, capacity: nat, n: nat): (r: seq<string>)
    requires n <= |ops|
  {
    if n == 0 then [] else Issue(After(ops, capacity, n - 1), Issued(ops, capacity, n - 1), ops[n - 1])
  }

  ghost predicate NewestFirst(candidates: seq<Candidate>) {
    forall i, j :: 0 <= i < j < |candidates| ==> candidates[i].id > candidates[j].id
  }

  ghost predicate DistinctUrls(candidates: seq<Candidate>) {
    forall i, j :: 0 <= i < j < |candidates| ==> candidates[i].report.url != candidates[j].report.url
  }

  ghost predicate AsIssued(candidates: seq<Candidate>, issued: seq<string>) {
    forall i :: 0 <= i < |candidates| ==>
                  candidates[i].id < |issued| && issued[candidates[i].id] == candidates[i].report.url
  }

  /** Newest first, no URL twice, none too many, and every number belongs to the URL it was issued to. */
  ghost predicate WellKept(s: Listing, capacity: nat, issued: seq<string>) {
    && |s.candidates| <= capacity && s.nextId == Min(|issued|, U64_MAX)
    && NewestFirst(s.candidates) && DistinctUrls(s.candidates) && AsIssued(s.candidates, issued)
  }

  lemma {:induction false} WithoutKeeps(candidates: seq<Candidate>, id: nat)
    ensures forall i :: 0 <= i < |Without(candidates, id)| ==>
                          Without(candidates, id)[i] in candidates && Without(candidates, id)[i].id != id
    ensures forall i :: 0 <= i < |candidates| && candidates[i].id != id ==> candidates[i] in Without(candidates, id)
  {
    if candidates != [] {
      WithoutKeeps(candidates[1..], id);
      assert candidates == [candidates[0]] + candidates[1..];
    }
  }

  lemma Prepend(c: Candidate, rest: seq<Candidate>)
    ensures NewestFirst(rest) && (forall i :: 0 <= i < |rest| ==> c.id > rest[i].id) ==> NewestFirst([c] + rest)
    ensures DistinctUrls(rest) && (forall i :: 0 <= i < |rest| ==> c.report.url != rest[i].report.url) ==> DistinctUrls([c] + rest)
  {
  }

  lemma {:induction false} WithoutIsOrdered(candidates: seq<Candidate>, id: nat)
    ensures NewestFirst(candidates) ==> NewestFirst(Without(candidates, id))
    ensures DistinctUrls(candidates) ==> DistinctUrls(Without(candidates, id))
  {
    if candidates != [] {
      var rest := candidates[1..];
      WithoutIsOrdered(rest, id);
      WithoutKeeps(rest, id);
      Prepend(candidates[0], Without(rest, id));
    }
  }

  lemma WithoutIsAsIssued(candidates: seq<Candidate>, issued: seq<string>, id: nat)
    requires AsIssued(candidates, issued)
    ensures AsIssued(Without(candidates, id), issued)
  {
  }

  lemma FrontIsOrdered(all: seq<Candidate>, n: nat)
    requires n <= |all|
    ensures NewestFirst(all) ==> NewestFirst(all[..n])
    ensures DistinctUrls(all) ==> DistinctUrls(all[..n])
  {
  }

  lemma RecordKeeps(s: Listing, capacity: nat, issued: seq<string>, report: Report)
    requires capacity > 0 && WellKept(s, capacity, issued) && |Issue(s, issued, Record(report))| <= NUMBERS
    ensures WellKept(Apply(s, capacity, Record(report)), capacity, Issue(s, issued, Record(report)))
  {
    hide NewestFirst, DistinctUrls, Refreshed;
    match Find(s.candidates, report.url)
    case Some(i) =>
      RefreshKeeps(s.candidates, i, report);
    case None =>
      var c := Candidate(s.nextId, report, 1);
      Prepend(c, s.candidates);
      FrontIsOrdered([c] + s.candidates, Min(|s.candidates| + 1, capacity));
  }

  lemma RefreshKeeps(candidates: seq<Candidate>, i: nat, report: Report)
    requires i < |candidates| && NewestFirst(candidates) && DistinctUrls(candidates)
    ensures NewestFirst(candidates[i := Refreshed(candidates[i], report)])
    ensures DistinctUrls(candidates[i := Refreshed(candidates[i], report)])
  {
  }

  /** As long as there are numbers to give, every operation keeps the catalog well kept. */
  lemma OperationKeeps(s: Listing, capacity: nat, issued: seq<string>, op: Op)
    requires capacity > 0 && WellKept(s, capacity, issued) && |Issue(s, issued, op)| <= NUMBERS
    ensures WellKept(Apply(s, capacity, op), capacity, Issue(s, issued, op))
  {
    hide NewestFirst, DistinctUrls, AsIssued, AfterRecord, Without;
    match op
    case Record(report) => RecordKeeps(s, capacity, issued, report);
    case Remove(id) =>
      WithoutIsOrdered(s.candidates, id);
      WithoutIsAsIssued(s.candidates, issued, id);
      WithoutIsShorter(s.candidates, id);
    case Clear => NothingListed(issued);
  }

  lemma NothingListed(issued: seq<string>)
    ensures NewestFirst([]) && DistinctUrls([]) && AsIssued([], issued)
  {
  }

  lemma {:induction false} EveryHistoryIsWellKept(ops: seq<Op>, capacity: nat, n: nat)
    requires capacity > 0 && n <= |ops| && |Issued(ops, capacity, n)| <= NUMBERS
    ensures WellKept(After(ops, capacity, n), capacity, Issued(ops, capacity, n))
  {
    hide WellKept, Issue, Apply;
    if n > 0 {
      IssueGrows(After(ops, capacity, n - 1), Issued(ops, capacity, n - 1), ops[n - 1]);
      EveryHistoryIsWellKept(ops, capacity, n - 1);
      OperationKeeps(After(ops, capacity, n - 1), capacity, Issued(ops, capacity, n - 1), ops[n - 1]);
    } else {
      EmptyIsWellKept(capacity);
    }
  }

  lemma EmptyIsWellKept(capacity: nat)
    ensures WellKept(EMPTY, capacity, [])
  {
  }

  lemma IssueGrows(s: Listing, issued: seq<string>, op: Op)
    ensures issued <= Issue(s, issued, op)
  {
  }

  lemma {:induction false} IssuedGrows(ops: seq<Op>, capacity: nat, m: nat, n: nat)
    requires m <= n <= |ops|
    ensures Issued(ops, capacity, m) <= Issued(ops, capacity, n)
    decreases n
  {
    hide Issue;
    if m < n {
      IssuedGrows(ops, capacity, m, n - 1);
      IssueGrows(After(ops, capacity, n - 1), Issued(ops, capacity, n - 1), ops[n - 1]);
    }
  }

  /** A number never comes to mean another URL, at whatever two moments one looks. */
  lemma NumbersAreNeverReused(ops: seq<Op>, capacity: nat, m: nat, n: nat, a: Candidate, b: Candidate)
    requires capacity > 0 && m <= n <= |ops| && |Issued(ops, capacity, n)| <= NUMBERS
    requires a in After(ops, capacity, m).candidates && b in After(ops, capacity, n).candidates && a.id == b.id
    ensures a.report.url == b.report.url
  {
    hide After, Issued;
    IssuedGrows(ops, capacity, m, n);
    EveryHistoryIsWellKept(ops, capacity, m);
    EveryHistoryIsWellKept(ops, capacity, n);
  }

  /** A repeated report answers with the number the URL has, and moves nothing. */
  lemma RepeatKeepsNumberAndPlace(s: Listing, capacity: nat, report: Report, i: nat)
    requires i < |s.candidates| && s.candidates[i].report.url == report.url
    requires DistinctUrls(s.candidates)
    ensures var (after, recorded) := AfterRecord(s, capacity, report);
            && recorded == Recorded(s.candidates[i].id, true)
            && after.nextId == s.nextId && |after.candidates| == |s.candidates|
            && after.candidates[i] == Refreshed(s.candidates[i], report)
            && forall j :: 0 <= j < |s.candidates| && j != i ==> after.candidates[j] == s.candidates[j]
  {
  }

  // ---- When the numbers run out ----

  /** The number the next candidate gets is how many were given, and never above the largest. */
  lemma {:induction false} NextNumberCounts(ops: seq<Op>, capacity: nat, n: nat)
    requires n <= |ops|
    ensures After(ops, capacity, n).nextId == Min(|Issued(ops, capacity, n)|, U64_MAX)
  {
    if n > 0 {
      NextNumberCounts(ops, capacity, n - 1);
    }
  }

  /** Does this operation give a new number? */
  predicate Gives(ops: seq<Op>, capacity: nat, k: nat) {
    k < |ops| && ops[k].Record? && Find(After(ops, capacity, k).candidates, ops[k].report.url).None?
  }

  function NumberGiven(ops: seq<Op>, capacity: nat, k: nat): (id: nat)
    requires Gives(ops, capacity, k)
  {
    AfterRecord(After(ops, capacity, k), capacity, ops[k].report).1.id
  }

  /** Two new candidates share a number exactly when the first of them came after 2^64 - 1 others. */
  lemma SharedExactly(ops: seq<Op>, capacity: nat, j: nat, k: nat)
    requires j < k && Gives(ops, capacity, j) && Gives(ops, capacity, k)
    ensures NumberGiven(ops, capacity, j) == NumberGiven(ops, capacity, k) <==> |Issued(ops, capacity, j)| >= U64_MAX
  {
    hide After, Find;
    NextNumberCounts(ops, capacity, j);
    NextNumberCounts(ops, capacity, k);
    IssuedGrows(ops, capacity, j + 1, k);
  }

  /** The operation that gave number `i` away, or would have, had there been that many. */
  lemma {:induction false} GiverOf(ops: seq<Op>, capacity: nat, n: nat, i: nat) returns (k: nat)
    requires n <= |ops| && i < |Issued(ops, capacity, n)|
    ensures k < n && Gives(ops, capacity, k) && |Issued(ops, capacity, k)| == i
  {
    hide After, Find;
    if i < |Issued(ops, capacity, n - 1)| {
      k := GiverOf(ops, capacity, n - 1, i);
    } else {
      k := n - 1;
    }
  }

  ghost predicate NeverShared(ops: seq<Op>, capacity: nat) {
    forall j, k :: j < k && Gives(ops, capacity, j) && Gives(ops, capacity, k) ==>
                     NumberGiven(ops, capacity, j) != NumberGiven(ops, capacity, k)
  }

  /** No number is given twice exactly as long as no more than 2^64 are given. */
  lemma NumbersRunOutExactly(ops: seq<Op>, capacity: nat)
    ensures NeverShared(ops, capacity) <==> |Issued(ops, capacity, |ops|)| <= NUMBERS
  {
    hide After, Issued, NumberGiven, Gives;
    if |Issued(ops, capacity, |ops|)| <= NUMBERS {
      forall j, k | j < k && Gives(ops, capacity, j) && Gives(ops, capacity, k)
        ensures NumberGiven(ops, capacity, j) != NumberGiven(ops, capacity, k)
      {
        SharedExactly(ops, capacity, j, k);
        GivenInOrder(ops, capacity, j, k);
      }
    } else {
      var j := GiverOf(ops, capacity, |ops|, U64_MAX);
      var k := GiverOf(ops, capacity, |ops|, U64_MAX + 1);
      if k < j {
        GivenInOrder(ops, capacity, k, j);
        assert false;
      }
      SharedExactly(ops, capacity, j, k);
    }
  }

  lemma GivenInOrder(ops: seq<Op>, capacity: nat, j: nat, k: nat)
    requires j < k && Gives(ops, capacity, j) && Gives(ops, capacity, k)
    ensures |Issued(ops, capacity, j)| < |Issued(ops, capacity, k)| < |Issued(ops, capacity, |ops|)|
  {
    hide After, Find;
    IssuedGrows(ops, capacity, j + 1, k);
    IssuedGrows(ops, capacity, k + 1, |ops|);
  }

  /** The first `n` reports of a page that goes on reporting new URLs. */
  function NewReports(report: Report, n: nat): (ops: seq<Op>) {
    seq(n, i requires 0 <= i < n => Record(report.(url := Print(i))))
  }

  /** Whatever is listed was given a number once. */
  lemma {:induction false} ListedWereIssued(ops: seq<Op>, capacity: nat, n: nat)
    requires n <= |ops|
    ensures forall c :: c in After(ops, capacity, n).candidates ==> c.report.url in Issued(ops, capacity, n)
  {
    hide Apply, Find;
    if n > 0 {
      ListedWereIssued(ops, capacity, n - 1);
      var before, op := After(ops, capacity, n - 1), ops[n - 1];
      forall c | c in Apply(before, capacity, op).candidates ensures c.report.url in Issued(ops, capacity, n) {
        AppliedUrls(before, capacity, op, c);
      }
    }
  }

  /** Whatever an operation lists was listed before, under some candidate of the same URL, or is what it records. */
  lemma AppliedUrls(s: Listing, capacity: nat, op: Op, c: Candidate)
    requires c in Apply(s, capacity, op).candidates
    ensures || (exists b :: b in s.candidates && b.report.url == c.report.url)
            || (op.Record? && c.report.url == op.report.url && Find(s.candidates, op.report.url).None?)
  {
    hide Refreshed;
    if op.Remove? {
      WithoutKeeps(s.candidates, op.id);
    }
  }

  /** Each of them is given a number. */
  lemma {:induction false} EachIsNew(report: Report, capacity: nat, n: nat, k: nat)
    requires k <= n
    ensures var issued := Issued(NewReports(report, n), capacity, k);
            |issued| == k && forall i :: 0 <= i < k ==> issued[i] == Print(i)
  {
    hide Print, After, NewReports;
    if k > 0 {
      var ops := NewReports(report, n);
      EachIsNew(report, capacity, n, k - 1);
      NewReport(report, n, k - 1);
      ListedWereIssued(ops, capacity, k - 1);
      NotPrintedBefore(Issued(ops, capacity, k - 1));
    }
  }

  lemma NewReport(report: Report, n: nat, i: nat)
    requires i < n
    ensures |NewReports(report, n)| == n && NewReports(report, n)[i] == Record(report.(url := Print(i)))
  {
  }

  lemma NotPrintedBefore(issued: seq<string>)
    requires forall i :: 0 <= i < |issued| ==> issued[i] == Print(i)
    ensures Print(|issued|) !in issued
  {
    hide Print;
    if Print(|issued|) in issued {
      var i :| 0 <= i < |issued| && issued[i] == Print(|issued|);
      PrintIsInjective(i, |issued|);
    }
  }

  /** And the 2^64-th and the one after it share theirs: both are listed, one before the other, under one number. */
  lemma SaturatedNumbersRepeat(report: Report, capacity: nat) returns (ops: seq<Op>)
    requires capacity >= 2
    ensures ops == NewReports(report, NUMBERS + 1)
    ensures var listed := After(ops, capacity, |ops|).candidates;
            |listed| >= 2 && listed[0].id == listed[1].id == U64_MAX && listed[0].report.url != listed[1].report.url
  {
    ops := NewReports(report, NUMBERS + 1);
    NewestIsListed(report, capacity, NUMBERS + 1, NUMBERS);
    NewestIsListed(report, capacity, NUMBERS + 1, NUMBERS + 1);
    if Print(NUMBERS) == Print(U64_MAX) {
      PrintIsInjective(NUMBERS, U64_MAX);
    }
  }

  lemma NewestIsListed(report: Report, capacity: nat, n: nat, k: nat)
    requires 0 < k <= n && capacity >= 2
    ensures var ops := NewReports(report, n);
            var before, listed := After(ops, capacity, k - 1).candidates, After(ops, capacity, k).candidates;
            && listed != [] && listed[0].id == Min(k - 1, U64_MAX) && listed[0].report.url == Print(k - 1)
            && (before != [] ==> |listed| >= 2 && listed[1] == before[0])
  {
    hide Print, NewReports, Issued;
    var ops := NewReports(report, n);
    EachIsNew(report, capacity, n, k - 1);
    NewReport(report, n, k - 1);
    ListedWereIssued(ops, capacity, k - 1);
    NotPrintedBefore(Issued(ops, capacity, k - 1));
    NextNumberCounts(ops, capacity, k - 1);
  }
}
