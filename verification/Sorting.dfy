// Sorting by a total order: the result depends only on what is sorted, not on the order it came in.
module Sorting {

  ghost predicate TotalOrder<T(!new)>(below: (T, T) -> bool) {
    && (forall a :: below(a, a))
    && (forall a, b :: below(a, b) || below(b, a))
    && (forall a, b :: below(a, b) && below(b, a) ==> a == b)
    && (forall a, b, c :: below(a, b) && below(b, c) ==> below(a, c))
  }

  predicate Ascending<T>(s: seq<T>, below: (T, T) -> bool) {
    forall i, j :: 0 <= i < j < |s| ==> below(s[i], s[j])
  }

  function Insert<T>(x: T, s: seq<T>, below: (T, T) -> bool): (r: seq<T>) {
    if s == [] || below(x, s[0]) then [x] + s else [s[0]] + Insert(x, s[1..], below)
  }

  function Sorted<T>(s: seq<T>, below: (T, T) -> bool): (r: seq<T>) {
    if s == [] then [] else Insert(s[0], Sorted(s[1..], below), below)
  }

  lemma FrontBelow<T(!new)>(x: T, s: seq<T>, below: (T, T) -> bool)
    requires Ascending(s, below) && forall j :: 0 <= j < |s| ==> below(x, s[j])
    ensures Ascending([x] + s, below)
  {
  }

  lemma {:induction false} InsertKeeps<T(!new)>(x: T, s: seq<T>, below: (T, T) -> bool)
    requires TotalOrder(below) && Ascending(s, below)
    ensures Ascending(Insert(x, s, below), below)
    ensures multiset(Insert(x, s, below)) == multiset{x} + multiset(s)
  {
    if s == [] || below(x, s[0]) {
    } else {
      var rest := Insert(x, s[1..], below);
      InsertKeeps(x, s[1..], below);
      assert s == [s[0]] + s[1..];
      forall j | 0 <= j < |rest| ensures below(s[0], rest[j]) {
        assert rest[j] in multiset(rest);
        assert rest[j] == x || rest[j] in s[1..];
      }
      FrontBelow(s[0], rest, below);
    }
  }

  lemma {:induction false} SortedKeeps<T(!new)>(s: seq<T>, below: (T, T) -> bool)
    requires TotalOrder(below)
    ensures Ascending(Sorted(s, below), below) && multiset(Sorted(s, below)) == multiset(s)
  {
    if s != [] {
      SortedKeeps(s[1..], below);
      InsertKeeps(s[0], Sorted(s[1..], below), below);
      assert s == [s[0]] + s[1..];
    }
  }

  /** The first of an ascending sequence is below everything in it. */
  lemma LeastComesFirst<T(!new)>(s: seq<T>, x: T, below: (T, T) -> bool)
    requires TotalOrder(below) && Ascending(s, below) && x in multiset(s)
    ensures s != [] && below(s[0], x)
  {
  }

  lemma RestIsSame<T>(s: seq<T>, t: seq<T>)
    requires s != [] && t != [] && s[0] == t[0] && multiset(s) == multiset(t)
    ensures multiset(s[1..]) == multiset(t[1..])
  {
    assert s == [s[0]] + s[1..] && t == [t[0]] + t[1..];
    assert multiset(s[1..]) == multiset(s) - multiset{s[0]};
    assert multiset(t[1..]) == multiset(t) - multiset{t[0]};
  }

  lemma {:induction false} AscendingIsUnique<T(!new)>(s: seq<T>, t: seq<T>, below: (T, T) -> bool)
    requires TotalOrder(below) && Ascending(s, below) && Ascending(t, below) && multiset(s) == multiset(t)
    ensures s == t
  {
    assert |multiset(s)| == |s| && |multiset(t)| == |t|;
    if s != [] {
      assert s[0] in multiset(s) && t[0] in multiset(t);
      LeastComesFirst(s, t[0], below);
      LeastComesFirst(t, s[0], below);
      assert s[0] == t[0];
      RestIsSame(s, t);
      hide TotalOrder;
      AscendingIsUnique(s[1..], t[1..], below);
      assert s == [s[0]] + s[1..] && t == [t[0]] + t[1..];
    }
  }

  /** Two sequences sort alike exactly when one is a permutation of the other. */
  lemma SortedIsCanonical<T(!new)>(s: seq<T>, t: seq<T>, below: (T, T) -> bool)
    requires TotalOrder(below)
    ensures Sorted(s, below) == Sorted(t, below) <==> multiset(s) == multiset(t)
  {
    SortedKeeps(s, below);
    SortedKeeps(t, below);
    if multiset(s) == multiset(t) {
      AscendingIsUnique(Sorted(s, below), Sorted(t, below), below);
    }
  }

  // ---- The order of texts ----

  /** Character by character, which is also the order of their UTF-8 bytes. */
  predicate TextBelow(a: string, b: string) {
    a == "" || (b != "" && (a[0] < b[0] || (a[0] == b[0] && TextBelow(a[1..], b[1..]))))
  }

  predicate PairBelow(a: (string, string), b: (string, string)) {
    if a.0 == b.0 then TextBelow(a.1, b.1) else TextBelow(a.0, b.0)
  }

  lemma {:induction false} TextOrder(a: string, b: string, c: string)
    ensures TextBelow(a, a)
    ensures TextBelow(a, b) || TextBelow(b, a)
    ensures TextBelow(a, b) && TextBelow(b, a) ==> a == b
    ensures TextBelow(a, b) && TextBelow(b, c) ==> TextBelow(a, c)
    decreases |a| + |b| + |c|
  {
    if a != "" {
      TextOrder(a[1..], if b == "" then "" else b[1..], if c == "" then "" else c[1..]);
      if b != "" && a[0] == b[0] && a[1..] == b[1..] {
        assert a == [a[0]] + a[1..] == b;
      }
    }
  }

  lemma TextsAreOrdered()
    ensures TotalOrder(TextBelow)
  {
    forall a, b, c
      ensures TextBelow(a, a)
      ensures TextBelow(a, b) || TextBelow(b, a)
      ensures TextBelow(a, b) && TextBelow(b, a) ==> a == b
      ensures TextBelow(a, b) && TextBelow(b, c) ==> TextBelow(a, c)
    {
      TextOrder(a, b, c);
    }
  }

  lemma PairsAreOrdered()
    ensures TotalOrder(PairBelow)
  {
    TextsAreOrdered();
  }
}
