/** Python's `sorted(...)` on a set of strings: the elements in ascending order
    of `<` on `str`, which compares code point by code point. */
module Sorting {

  /** Python's `a < b` on strings. */
  predicate Below(a: string, b: string) {
    if a == [] then b != []
    else b != [] && (a[0] < b[0] || (a[0] == b[0] && Below(a[1..], b[1..])))
  }

  lemma {:induction false} BelowIrreflexive(a: string)
    ensures !Below(a, a)
  {
    if a != [] {
      BelowIrreflexive(a[1..]);
    }
  }

  lemma {:induction false} BelowTransitive(a: string, b: string, c: string)
    requires Below(a, b) && Below(b, c)
    ensures Below(a, c)
  {
    if a != [] && a[0] == b[0] && b[0] == c[0] {
      BelowTransitive(a[1..], b[1..], c[1..]);
    }
  }

  lemma {:induction false} BelowTotal(a: string, b: string)
    requires a != b
    ensures Below(a, b) || Below(b, a)
  {
    if a != [] && b != [] && a[0] == b[0] {
      assert a == [a[0]] + a[1..] && b == [b[0]] + b[1..];
      BelowTotal(a[1..], b[1..]);
    }
  }

  lemma BelowAsymmetric(a: string, b: string)
    requires Below(a, b)
    ensures !Below(b, a)
  {
    if Below(b, a) {
      BelowTransitive(a, b, a);
      BelowIrreflexive(a);
    }
  }

  predicate StrictlySorted(xs: seq<string>) {
    forall i, j :: 0 <= i < j < |xs| ==> Below(xs[i], xs[j])
  }

  /** `xs` is `sorted(s)`: the elements of `s`, ascending, each once. */
  ghost predicate IsSortedListing(xs: seq<string>, s: set<string>) {
    StrictlySorted(xs) && forall x :: x in xs <==> x in s
  }

  /** A strictly sorted sequence holds no element twice. */
  lemma SortedDistinct(xs: seq<string>, i: int, j: int)
    requires StrictlySorted(xs) && 0 <= i < |xs| && 0 <= j < |xs| && i != j
    ensures xs[i] != xs[j]
  {
    if i < j {
      BelowIrreflexive(xs[i]);
    } else {
      BelowIrreflexive(xs[j]);
    }
  }

  /** Insertion of `x` into its place in a sorted sequence. */
  function Insert(xs: seq<string>, x: string): seq<string> {
    if xs == [] then [x]
    else if Below(x, xs[0]) then [x] + xs
    else [xs[0]] + Insert(xs[1..], x)
  }

  lemma {:induction false} InsertSorted(xs: seq<string>, x: string)
    requires StrictlySorted(xs) && x !in xs
    ensures StrictlySorted(Insert(xs, x))
    ensures forall y :: y in Insert(xs, x) <==> y in xs || y == x
  {
    if xs == [] {
    } else if Below(x, xs[0]) {
      forall j | 0 <= j < |xs|
        ensures Below(x, xs[j])
      {
        if j > 0 {
          BelowTransitive(x, xs[0], xs[j]);
        }
      }
    } else {
      BelowTotal(x, xs[0]);
      InsertSorted(xs[1..], x);
      var r := Insert(xs, x);
      assert r == [xs[0]] + Insert(xs[1..], x);
      forall i, j | 0 <= i < j < |r|
        ensures Below(r[i], r[j])
      {
        if i == 0 {
          assert r[j] in Insert(xs[1..], x);
          if r[j] != x {
            var k :| 0 <= k < |xs[1..]| && xs[1..][k] == r[j];
            assert xs[k + 1] == r[j];
          }
        }
      }
    }
  }

  /** Every finite set of strings has a sorted listing. */
  lemma {:induction false} SortedListingExists(s: set<string>)
    ensures exists xs :: IsSortedListing(xs, s)
    decreases |s|
  {
    if s == {} {
      assert IsSortedListing([], s);
    } else {
      var x :| x in s;
      SortedListingExists(s - {x});
      var xs :| IsSortedListing(xs, s - {x});
      InsertSorted(xs, x);
      assert IsSortedListing(Insert(xs, x), s);
    }
  }

  lemma ListingEmpty(xs: seq<string>, s: set<string>)
    requires forall x :: x in xs <==> x in s
    ensures xs == [] <==> s == {}
  {
    if xs != [] {
      assert xs[0] in s;
    }
    if s != {} {
      var x :| x in s;
      assert x in xs;
    }
  }

  /** A set has only one sorted listing. */
  lemma {:induction false} SortedListingUnique(xs: seq<string>, ys: seq<string>, s: set<string>)
    requires IsSortedListing(xs, s) && IsSortedListing(ys, s)
    ensures xs == ys
    decreases |xs|
  {
    ListingEmpty(xs, s);
    ListingEmpty(ys, s);
    if xs != [] {
      if xs[0] != ys[0] {
        assert xs[0] in ys;
        var j :| 0 <= j < |ys| && ys[j] == xs[0];
        assert ys[0] in xs;
        var i :| 0 <= i < |xs| && xs[i] == ys[0];
        assert Below(ys[0], xs[0]) && Below(xs[0], ys[0]);
        BelowAsymmetric(ys[0], xs[0]);
      }
      var rest := s - {xs[0]};
      forall x
        ensures x in xs[1..] <==> x in rest
      {
        if x in xs[1..] {
          var k :| 0 <= k < |xs[1..]| && xs[1..][k] == x;
          SortedDistinct(xs, 0, k + 1);
        }
      }
      forall x
        ensures x in ys[1..] <==> x in rest
      {
        if x in ys[1..] {
          var k :| 0 <= k < |ys[1..]| && ys[1..][k] == x;
          SortedDistinct(ys, 0, k + 1);
        }
      }
      SortedListingUnique(xs[1..], ys[1..], rest);
    }
  }

  /** A sorted listing has one entry per element of the set. */
  lemma {:induction false} SortedListingSize(xs: seq<string>, s: set<string>)
    requires IsSortedListing(xs, s)
    ensures |xs| == |s|
    decreases |xs|
  {
    ListingEmpty(xs, s);
    if xs != [] {
      var rest := s - {xs[0]};
      forall x
        ensures x in xs[1..] <==> x in rest
      {
        if x in xs[1..] {
          var k :| 0 <= k < |xs[1..]| && xs[1..][k] == x;
          SortedDistinct(xs, 0, k + 1);
        }
      }
      SortedListingSize(xs[1..], rest);
    }
  }

  /** `sorted(s)`. */
  ghost function SortedListing(s: set<string>): (xs: seq<string>)
    ensures IsSortedListing(xs, s)
  {
    SortedListingExists(s);
    var xs :| IsSortedListing(xs, s);
    xs
  }

  /** Computes `sorted(s)` by inserting the elements one at a time. */
  method SortStrings(s: set<string>) returns (xs: seq<string>)
    ensures xs == SortedListing(s)
  {
    var rest := s;
    xs := [];
    while rest != {}
      invariant rest <= s
      invariant IsSortedListing(xs, s - rest)
      decreases |rest|
    {
      var x :| x in rest;
      InsertSorted(xs, x);
      xs := Insert(xs, x);
      rest := rest - {x};
    }
    SortedListingUnique(xs, SortedListing(s), s);
  }
}
