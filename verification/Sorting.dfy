/** Sorting a sequence by a strict order on its elements, and the order of strings. */
module Sorting {
  function Insert<T>(x: T, xs: seq<T>, less: (T, T) -> bool): seq<T> {
    if xs == [] || less(x, xs[0]) then [x] + xs else [xs[0]] + Insert(x, xs[1..], less)
  }

  function Sort<T>(xs: seq<T>, less: (T, T) -> bool): (r: seq<T>)
    ensures |r| == |xs|
  {
    if xs == [] then [] else InsertSize(xs[0], Sort(xs[1..], less), less); Insert(xs[0], Sort(xs[1..], less), less)
  }

  lemma {:induction false} InsertSize<T>(x: T, xs: seq<T>, less: (T, T) -> bool)
    ensures |Insert(x, xs, less)| == |xs| + 1
  {
    if xs != [] { InsertSize(x, xs[1..], less); }
  }

  ghost predicate Ascending<T(!new)>(xs: seq<T>, less: (T, T) -> bool) {
    forall i, j :: 0 <= i < j < |xs| ==> less(xs[i], xs[j])
  }

  /** Any two elements are ordered one way or the other. */
  ghost predicate Comparable<T(!new)>(xs: seq<T>, less: (T, T) -> bool) {
    forall i, j :: 0 <= i < j < |xs| ==> less(xs[i], xs[j]) || less(xs[j], xs[i])
  }

  ghost predicate StrictOrder<T(!new)>(less: (T, T) -> bool) {
    && (forall x, y :: less(x, y) ==> !less(y, x))
    && (forall x, y, z :: less(x, y) && less(y, z) ==> less(x, z))
  }

  lemma {:induction false} InsertKeeps<T>(x: T, xs: seq<T>, less: (T, T) -> bool)
    ensures multiset(Insert(x, xs, less)) == multiset(xs) + multiset{x}
  {
    if xs != [] {
      assert xs == [xs[0]] + xs[1..];
      InsertKeeps(x, xs[1..], less);
    }
  }

  /** Sorting rearranges. */
  lemma {:induction false} SortKeeps<T>(xs: seq<T>, less: (T, T) -> bool)
    ensures multiset(Sort(xs, less)) == multiset(xs)
  {
    if xs != [] {
      assert xs == [xs[0]] + xs[1..];
      SortKeeps(xs[1..], less);
      InsertKeeps(xs[0], Sort(xs[1..], less), less);
    }
  }

  lemma SortMembers<T>(xs: seq<T>, less: (T, T) -> bool)
    ensures forall x :: x in Sort(xs, less) <==> x in xs
  {
    SortKeeps(xs, less);
    assert forall x :: x in xs <==> x in multiset(xs);
    assert forall x :: x in Sort(xs, less) <==> x in multiset(Sort(xs, less));
  }

  lemma {:induction false} InsertAscends<T(!new)>(x: T, xs: seq<T>, less: (T, T) -> bool)
    requires StrictOrder(less) && Ascending(xs, less)
    requires forall y :: y in xs ==> less(x, y) || less(y, x)
    ensures Ascending(Insert(x, xs, less), less)
  {
    var r := Insert(x, xs, less);
    if xs == [] {
    } else if less(x, xs[0]) {
      forall j | 1 <= j < |r| ensures less(r[0], r[j]) {
        if j > 1 { assert less(xs[0], xs[j - 1]); }
      }
    } else {
      assert xs[0] in xs;
      InsertAscends(x, xs[1..], less);
      InsertKeeps(x, xs[1..], less);
      var rest := Insert(x, xs[1..], less);
      forall j | 1 <= j < |r| ensures less(r[0], r[j]) {
        assert r[j] == rest[j - 1] && rest[j - 1] in multiset(rest);
        if rest[j - 1] != x {
          var k :| 0 <= k < |xs[1..]| && xs[1..][k] == rest[j - 1];
          assert less(xs[0], xs[k + 1]);
        }
      }
    }
  }

  /** Sorting puts comparable elements in order. */
  lemma {:induction false} SortAscends<T(!new)>(xs: seq<T>, less: (T, T) -> bool)
    requires StrictOrder(less) && Comparable(xs, less)
    ensures Ascending(Sort(xs, less), less)
  {
    if xs != [] {
      var rest := xs[1..];
      SortAscends(rest, less);
      SortMembers(rest, less);
      forall y | y in Sort(rest, less) ensures less(xs[0], y) || less(y, xs[0]) {
        var k :| 0 <= k < |rest| && rest[k] == y;
        assert xs[k + 1] == y;
      }
      InsertAscends(xs[0], Sort(rest, less), less);
    }
  }

  /** No later element is less than an earlier one. */
  ghost predicate Ordered<T(!new)>(xs: seq<T>, less: (T, T) -> bool) {
    forall i, j :: 0 <= i < j < |xs| ==> !less(xs[j], xs[i])
  }

  /** A strict order in which being unordered is transitive, such as the order of a key. */
  ghost predicate WeakOrder<T(!new)>(less: (T, T) -> bool) {
    && (forall x, y :: less(x, y) ==> !less(y, x))
    && (forall x, y, z :: !less(y, x) && !less(z, y) ==> !less(z, x))
  }

  lemma {:induction false} InsertOrdered<T(!new)>(x: T, xs: seq<T>, less: (T, T) -> bool)
    requires WeakOrder(less) && Ordered(xs, less)
    ensures Ordered(Insert(x, xs, less), less)
  {
    var r := Insert(x, xs, less);
    if xs == [] {
    } else if less(x, xs[0]) {
      forall j | 1 <= j < |r| ensures !less(r[j], r[0]) {
        if j > 1 { assert !less(xs[j - 1], xs[0]); }
      }
    } else {
      InsertOrdered(x, xs[1..], less);
      InsertKeeps(x, xs[1..], less);
      var rest := Insert(x, xs[1..], less);
      forall j | 1 <= j < |r| ensures !less(r[j], r[0]) {
        assert r[j] == rest[j - 1] && rest[j - 1] in multiset(rest);
        if rest[j - 1] != x {
          var k :| 0 <= k < |xs[1..]| && xs[1..][k] == rest[j - 1];
          assert !less(xs[k + 1], xs[0]);
        }
      }
    }
  }

  /** Sorting by a key leaves nothing out of order. */
  lemma {:induction false} SortOrdered<T(!new)>(xs: seq<T>, less: (T, T) -> bool)
    requires WeakOrder(less)
    ensures Ordered(Sort(xs, less), less)
  {
    if xs != [] {
      SortOrdered(xs[1..], less);
      InsertOrdered(xs[0], Sort(xs[1..], less), less);
    }
  }

  /** Sorting a sequence without repetitions gives one without. */
  lemma SortDistinct<T(!new)>(xs: seq<T>, less: (T, T) -> bool)
    requires forall i, j :: 0 <= i < j < |xs| ==> xs[i] != xs[j]
    ensures var r := Sort(xs, less); forall i, j :: 0 <= i < j < |r| ==> r[i] != r[j]
  {
    var r := Sort(xs, less);
    SortKeeps(xs, less);
    forall i, j | 0 <= i < j < |r| ensures r[i] != r[j] {
      OnceOnly(xs, r[i]);
      TwiceCounted(r, i, j);
    }
  }

  lemma OnceOnly<T>(xs: seq<T>, x: T)
    requires forall i, j :: 0 <= i < j < |xs| ==> xs[i] != xs[j]
    ensures multiset(xs)[x] <= 1
  {
    if x in xs {
      var k :| 0 <= k < |xs| && xs[k] == x;
      assert xs == xs[..k] + [x] + xs[k + 1..];
      assert x !in xs[..k] && x !in xs[k + 1..];
    }
  }

  lemma TwiceCounted<T>(xs: seq<T>, i: nat, j: nat)
    requires i < j < |xs|
    ensures xs[i] == xs[j] ==> 2 <= multiset(xs)[xs[i]]
  {
    assert xs == xs[..i] + [xs[i]] + xs[i + 1..j] + [xs[j]] + xs[j + 1..];
  }

  /** An ascending arrangement is determined by what it arranges. */
  lemma {:induction false} OneArrangement<T(!new)>(a: seq<T>, b: seq<T>, less: (T, T) -> bool)
    requires StrictOrder(less) && Ascending(a, less) && Ascending(b, less) && multiset(a) == multiset(b)
    ensures a == b
    decreases |a|
  {
    assert |a| == |multiset(a)| == |multiset(b)| == |b|;
    if a != [] {
      SameFirst(a, b, less);
      Rest(a, b);
      OneArrangement(a[1..], b[1..], less);
      assert a == [a[0]] + a[1..] && b == [b[0]] + b[1..];
    }
  }

  lemma Rest<T>(a: seq<T>, b: seq<T>)
    requires 0 < |a| && 0 < |b| && a[0] == b[0] && multiset(a) == multiset(b)
    ensures multiset(a[1..]) == multiset(b[1..])
  {
    assert a == [a[0]] + a[1..] && b == [b[0]] + b[1..];
    assert multiset(a[1..]) == multiset(a) - multiset{a[0]};
  }

  lemma FirstLeast<T(!new)>(xs: seq<T>, x: T, less: (T, T) -> bool)
    requires Ascending(xs, less) && x in xs
    ensures x == xs[0] || less(xs[0], x)
  {
    var k :| 0 <= k < |xs| && xs[k] == x;
  }

  lemma SameFirst<T(!new)>(a: seq<T>, b: seq<T>, less: (T, T) -> bool)
    requires StrictOrder(less) && Ascending(a, less) && Ascending(b, less) && multiset(a) == multiset(b)
    requires 0 < |a| == |b|
    ensures a[0] == b[0]
  {
    assert a[0] in multiset(b) && b[0] in multiset(a);
    FirstLeast(a, b[0], less);
    FirstLeast(b, a[0], less);
  }

  /** So is an ordered one, when what the order does not tell apart is the same. */
  lemma {:induction false} OneOrdering<T(!new)>(a: seq<T>, b: seq<T>, less: (T, T) -> bool)
    requires Ordered(a, less) && Ordered(b, less) && multiset(a) == multiset(b)
    requires forall x, y :: x in a && y in a && !less(x, y) && !less(y, x) ==> x == y
    ensures a == b
    decreases |a|
  {
    assert |a| == |multiset(a)| == |multiset(b)| == |b|;
    if a != [] {
      assert a[0] in multiset(b) && b[0] in multiset(a);
      var j :| 0 <= j < |a| && a[j] == b[0];
      var k :| 0 <= k < |b| && b[k] == a[0];
      assert !less(b[0], a[0]) || j == 0;
      assert !less(a[0], b[0]) || k == 0;
      Rest(a, b);
      OneOrdering(a[1..], b[1..], less);
      assert a == [a[0]] + a[1..] && b == [b[0]] + b[1..];
    }
  }

  /** Sorting forgets the order in which things were given. */
  lemma SortCanonical<T(!new)>(xs: seq<T>, ys: seq<T>, less: (T, T) -> bool)
    requires WeakOrder(less) && multiset(xs) == multiset(ys)
    requires forall x, y :: x in xs && y in xs && !less(x, y) && !less(y, x) ==> x == y
    ensures Sort(xs, less) == Sort(ys, less)
  {
    SortKeeps(xs, less);
    SortKeeps(ys, less);
    SortOrdered(xs, less);
    SortOrdered(ys, less);
    SortMembers(xs, less);
    OneOrdering(Sort(xs, less), Sort(ys, less), less);
  }

  /** What is related element by element stays so when the relation keeps the order. */
  ghost predicate Pairwise<T(!new)>(rel: (T, T) -> bool, a: seq<T>, b: seq<T>) {
    |a| == |b| && forall i :: 0 <= i < |a| ==> rel(a[i], b[i])
  }

  ghost predicate KeepsOrder<T(!new)>(rel: (T, T) -> bool, less: (T, T) -> bool) {
    forall x, y, x', y' :: rel(x, y) && rel(x', y') ==> less(x, x') == less(y, y')
  }

  lemma {:induction false} InsertPairwise<T(!new)>(
      rel: (T, T) -> bool, x: T, a: seq<T>, y: T, b: seq<T>, less: (T, T) -> bool)
    requires KeepsOrder(rel, less) && rel(x, y) && Pairwise(rel, a, b)
    ensures Pairwise(rel, Insert(x, a, less), Insert(y, b, less))
  {
    if a != [] {
      assert rel(a[0], b[0]);
      InsertPairwise(rel, x, a[1..], y, b[1..], less);
    }
  }

  lemma {:induction false} SortPairwise<T(!new)>(rel: (T, T) -> bool, a: seq<T>, b: seq<T>, less: (T, T) -> bool)
    requires KeepsOrder(rel, less) && Pairwise(rel, a, b)
    ensures Pairwise(rel, Sort(a, less), Sort(b, less))
  {
    if a != [] {
      SortPairwise(rel, a[1..], b[1..], less);
      InsertPairwise(rel, a[0], Sort(a[1..], less), b[0], Sort(b[1..], less), less);
    }
  }

  // ---------- strings ----------

  /** Lexicographic order. */
  predicate Less(a: string, b: string) {
    b != "" && (a == "" || a[0] < b[0] || (a[0] == b[0] && Less(a[1..], b[1..])))
  }

  lemma {:induction false} LessTotal(a: string, b: string)
    ensures Less(a, b) || Less(b, a) || a == b
    ensures !(Less(a, b) && Less(b, a)) && !Less(a, a)
    decreases |a| + |b|
  {
    if a != "" && b != "" && a[0] == b[0] {
      LessTotal(a[1..], b[1..]);
      assert a == [a[0]] + a[1..] && b == [b[0]] + b[1..];
    }
    if a != "" { LessIrreflexive(a); }
  }

  lemma {:induction false} LessIrreflexive(a: string)
    ensures !Less(a, a)
  {
    if a != "" { LessIrreflexive(a[1..]); }
  }

  lemma {:induction false} LessTransitive(a: string, b: string, c: string)
    requires Less(a, b) && Less(b, c)
    ensures Less(a, c)
  {
    if a != "" && a[0] == b[0] && b[0] == c[0] {
      LessTransitive(a[1..], b[1..], c[1..]);
    }
  }

  /** Texts are ordered by the first character in which they differ, and a part comes before the whole. */
  lemma {:induction false} LessExactly(a: string, b: string, k: nat)
    requires k <= |a| && k <= |b| && a[..k] == b[..k]
    requires k == |a| || k == |b| || a[k] != b[k]
    ensures Less(a, b) <==> k < |b| && (k == |a| || a[k] < b[k])
  {
    if k > 0 {
      assert a[0] == a[..k][0] == b[0];
      assert a[1..][..k - 1] == a[..k][1..] && b[1..][..k - 1] == b[..k][1..];
      LessExactly(a[1..], b[1..], k - 1);
    }
  }
}
