/** Swift's `Set` and `sorted()` on a set of integers or of strings. A set is
    kept as the sequence of its elements, each once; the order of that
    sequence is the set's (unspecified) iteration order, which `sorted()`
    does not let through. */
module Sorting {
  import opened Text
  import opened StableSort

  /** No element occurs twice. */
  predicate NoDuplicates<T(==)>(xs: seq<T>)
  {
    forall x :: x in xs ==> multiset(xs)[x] == 1
  }

  /** Without duplicates, different positions hold different elements. */
  lemma NoDuplicatesDistinct<T>(xs: seq<T>)
    requires NoDuplicates(xs)
    ensures forall i, j :: 0 <= i < j < |xs| ==> xs[i] != xs[j]
  {
    forall i, j | 0 <= i < j < |xs| ensures xs[i] != xs[j] {
      assert xs == xs[..j] + xs[j..];
      assert xs[i] in xs[..j] && xs[j] in xs[j..];
      assert multiset(xs)[xs[j]] == multiset(xs[..j])[xs[j]] + multiset(xs[j..])[xs[j]];
    }
  }

  /** `set.insert(x)` of a new element keeps the set free of duplicates. */
  lemma NoDuplicatesAppend<T>(xs: seq<T>, x: T)
    requires NoDuplicates(xs) && x !in xs
    ensures NoDuplicates(xs + [x])
  {
    assert multiset(xs + [x]) == multiset(xs) + multiset{x};
    assert multiset(xs)[x] == 0;
  }

  /** A prefix of a sequence without duplicates has none either. */
  lemma NoDuplicatesPrefix<T>(xs: seq<T>, n: nat)
    requires NoDuplicates(xs) && n <= |xs|
    ensures NoDuplicates(xs[..n])
  {
    assert xs == xs[..n] + xs[n..];
    forall x | x in xs[..n] ensures multiset(xs[..n])[x] == 1 {
      assert multiset(xs)[x] == multiset(xs[..n])[x] + multiset(xs[n..])[x];
    }
  }

  /** The elements of a sequence, as a set. */
  ghost function Elements<T>(xs: seq<T>): set<T>
  {
    set x | x in xs
  }

  /** Without duplicates, a sequence is as long as its set of elements is
      large. */
  lemma {:induction false} NoDuplicatesCard<T>(xs: seq<T>)
    requires NoDuplicates(xs)
    ensures |Elements(xs)| == |xs|
    decreases |xs|
  {
    if |xs| > 0 {
      var init, last := xs[..|xs| - 1], xs[|xs| - 1];
      assert xs == init + [last];
      NoDuplicatesPrefix(xs, |xs| - 1);
      NoDuplicatesCard(init);
      assert multiset(xs) == multiset(init) + multiset{last};
      assert last !in init by {
        assert multiset(xs)[last] == 1;
      }
      assert Elements(xs) == Elements(init) + {last};
    }
  }

  /** A rearrangement of a sequence without duplicates has none either. */
  lemma NoDuplicatesPermutation<T>(xs: seq<T>, ys: seq<T>)
    requires NoDuplicates(xs) && multiset(xs) == multiset(ys)
    ensures NoDuplicates(ys)
  {
    forall y | y in ys ensures multiset(ys)[y] == 1 {
      assert y in multiset(ys);
    }
  }

  /** The elements of `xs` with repeats dropped, in the order they first
      occur: the contents of a set after inserting `xs` one by one. */
  function Distinct<T(==)>(xs: seq<T>): (r: seq<T>)
    ensures NoDuplicates(r)
    ensures |r| <= |xs|
  {
    if |xs| == 0 then []
    else
      var prev := Distinct(xs[..|xs| - 1]);
      var x := xs[|xs| - 1];
      if x in prev then prev
      else
        NoDuplicatesAppend(prev, x);
        prev + [x]
  }

  /** Every element is kept, and nothing else is. */
  lemma {:induction false} DistinctMembers<T>(xs: seq<T>)
    ensures forall k :: 0 <= k < |xs| ==> xs[k] in Distinct(xs)
    ensures forall x :: x in Distinct(xs) ==> x in xs
  {
    if |xs| > 0 {
      var init := xs[..|xs| - 1];
      DistinctMembers(init);
      forall k | 0 <= k < |xs| - 1 ensures xs[k] == init[k] { }
      forall x | x in init ensures x in xs {
        var k :| 0 <= k < |init| && init[k] == x;
        assert xs[k] == x;
      }
    }
  }

  /** Later elements only add to what earlier ones contributed. */
  lemma {:induction false} DistinctPrefix<T>(xs: seq<T>, i: nat)
    requires i <= |xs|
    ensures Distinct(xs[..i]) <= Distinct(xs)
    decreases |xs|
  {
    if i < |xs| {
      var init := xs[..|xs| - 1];
      assert xs[..i] == init[..i];
      DistinctPrefix(init, i);
    } else {
      assert xs[..i] == xs;
    }
  }

  /** One more element is added when it is new, and changes nothing
      otherwise. */
  lemma DistinctStep<T>(xs: seq<T>, i: nat)
    requires i < |xs|
    ensures var prev := Distinct(xs[..i]);
      Distinct(xs[..i + 1]) == if xs[i] in prev then prev else prev + [xs[i]]
  {
    assert xs[..i + 1][..i] == xs[..i];
  }

  /** What `f` makes of the numbers `1...hi`. */
  ghost function RangeImage<U>(f: int -> U, hi: int): set<U>
  {
    set v | 1 <= v <= hi :: f(v)
  }

  lemma SubsetCard<U>(a: set<U>, b: set<U>)
    requires a <= b
    ensures |a| <= |b|
  {
    assert b == a + (b - a);
  }

  /** `1...hi` has at most `hi` images. */
  lemma {:induction false} RangeImageCount<U>(f: int -> U, hi: int)
    ensures |RangeImage(f, hi)| <= if hi > 0 then hi else 0
    decreases if hi > 0 then hi else 0
  {
    if hi <= 0 {
      assert RangeImage(f, hi) == {};
    } else {
      RangeImageCount(f, hi - 1);
      var prev := RangeImage(f, hi - 1);
      forall u | u in RangeImage(f, hi) ensures u in prev + {f(hi)} {
        var v :| 1 <= v <= hi && f(v) == u;
        if v < hi { assert u in prev; }
      }
      SubsetCard(RangeImage(f, hi), prev + {f(hi)});
    }
  }

  /** Pigeonhole: elements that are all images of `1...hi` have at most `hi`
      distinct values. */
  lemma DistinctWithin<U>(xs: seq<U>, f: int -> U, hi: int)
    requires forall k :: 0 <= k < |xs| ==> xs[k] in RangeImage(f, hi)
    ensures |Distinct(xs)| <= if hi > 0 then hi else 0
  {
    var d := Distinct(xs);
    DistinctMembers(xs);
    forall u | u in Elements(d) ensures u in RangeImage(f, hi) {
      var k :| 0 <= k < |xs| && xs[k] == u;
    }
    SubsetCard(Elements(d), RangeImage(f, hi));
    NoDuplicatesCard(d);
    RangeImageCount(f, hi);
  }

  /** A sorted sequence without duplicates, under a total order, is strictly
      ascending. */
  lemma StrictlyAscending<T(!new)>(r: seq<T>, lt: (T, T) -> bool)
    requires SortedBy(r, lt) && NoDuplicates(r)
    requires forall a, b :: a == b || lt(a, b) || lt(b, a)
    ensures forall i, j :: 0 <= i < j < |r| ==> lt(r[i], r[j])
  {
    NoDuplicatesDistinct(r);
  }

  predicate IntLess(a: int, b: int) { a < b }

  lemma IntLessOrder()
    ensures IsStrictWeakOrder(IntLess)
    ensures forall a, b :: a == b || IntLess(a, b) || IntLess(b, a)
  {
  }

  /** String order is a strict weak order, and total. */
  lemma StrLessOrder()
    ensures IsStrictWeakOrder(StrLess)
    ensures forall a, b :: a == b || StrLess(a, b) || StrLess(b, a)
    ensures forall a :: !StrLess(a, a)
  {
    forall a: string, b: string ensures a == b || StrLess(a, b) || StrLess(b, a) {
      StrLessTotal(a, b);
    }
    forall a: string ensures !StrLess(a, a) {
      StrLessIrreflexive(a);
    }
    forall a: string, b: string | StrLess(a, b) ensures !StrLess(b, a) {
      StrLessAsymmetric(a, b);
    }
    forall a: string, b: string, c: string | !StrLess(a, b) && !StrLess(b, c)
      ensures !StrLess(a, c)
    {
      StrLessTotal(a, b);
      StrLessTotal(b, c);
      StrLessIrreflexive(a);
      if a != b && b != c {
        StrLessTransitive(c, b, a);
        StrLessAsymmetric(c, a);
      }
    }
  }

  /** `sorted()` on a set of integers: its elements in strictly ascending
      order. */
  function SortedInts(s: seq<int>): (r: seq<int>)
    requires NoDuplicates(s)
    ensures multiset(r) == multiset(s)
    ensures forall i, j :: 0 <= i < j < |r| ==> r[i] < r[j]
  {
    IntLessOrder();
    var r := SortBy(s, IntLess);
    NoDuplicatesPermutation(s, r);
    StrictlyAscending(r, IntLess);
    r
  }

  /** `sorted()` on a set of strings: its elements in strictly ascending
      lexicographic order. */
  function SortedStrings(s: seq<string>): (r: seq<string>)
    requires NoDuplicates(s)
    ensures multiset(r) == multiset(s)
    ensures forall i, j :: 0 <= i < j < |r| ==> StrLess(r[i], r[j])
  {
    StrLessOrder();
    var r := SortBy(s, StrLess);
    NoDuplicatesPermutation(s, r);
    StrictlyAscending(r, StrLess);
    r
  }

  /** `sorted()` does not depend on the iteration order of the set. */
  lemma SortedStringsOrderFree(s: seq<string>, t: seq<string>)
    requires NoDuplicates(s) && multiset(s) == multiset(t)
    ensures NoDuplicates(t) && SortedStrings(s) == SortedStrings(t)
  {
    NoDuplicatesPermutation(s, t);
    StrLessOrder();
    var a, b := SortedStrings(s), SortedStrings(t);
    assert multiset(a) == multiset(b);
    assert SortedBy(a, StrLess) && SortedBy(b, StrLess);
    SortedUnique(a, b, StrLess);
  }
}
