/** `sort(by:)` on a sequence, with a caller-supplied "comes before" relation. */
module StableSort {

  // ------------------------------------------------- sort(by:) on sequences

  /** What `sort(by:)` needs of its relation: it is a strict weak order
      (asymmetric, and "not before" is transitive). */
  ghost predicate IsStrictWeakOrder<T(!new)>(lt: (T, T) -> bool)
  {
    && (forall a, b :: lt(a, b) ==> !lt(b, a))
    && (forall a, b, c :: !lt(a, b) && !lt(b, c) ==> !lt(a, c))
  }

  /** No element comes strictly before an earlier one. */
  predicate SortedBy<T>(xs: seq<T>, lt: (T, T) -> bool)
  {
    forall i, j :: 0 <= i < j < |xs| ==> !lt(xs[j], xs[i])
  }

  lemma SortedDrop<T>(xs: seq<T>, lt: (T, T) -> bool)
    requires SortedBy(xs, lt) && |xs| > 0
    ensures SortedBy(xs[1..], lt)
  {
    var t := xs[1..];
    forall i, j | 0 <= i < j < |t| ensures !lt(t[j], t[i]) {
      assert t[j] == xs[j + 1] && t[i] == xs[i + 1];
    }
  }

  function Insert<T(!new)>(x: T, xs: seq<T>, lt: (T, T) -> bool): (r: seq<T>)
    requires IsStrictWeakOrder(lt) && SortedBy(xs, lt)
    ensures SortedBy(r, lt)
    ensures multiset(r) == multiset(xs) + multiset{x}
  {
    if |xs| == 0 then [x]
    else if !lt(xs[0], x) then
      InsertFront(x, xs, lt);
      [x] + xs
    else
      SortedDrop(xs, lt);
      var rest := Insert(x, xs[1..], lt);
      InsertBehind(x, xs, rest, lt);
      [xs[0]] + rest
  }

  /** `x` goes first when the head of a sorted `xs` does not come before it. */
  lemma InsertFront<T(!new)>(x: T, xs: seq<T>, lt: (T, T) -> bool)
    requires IsStrictWeakOrder(lt) && SortedBy(xs, lt) && |xs| > 0
    requires !lt(xs[0], x)
    ensures SortedBy([x] + xs, lt)
  {
    var r := [x] + xs;
    forall i, j | 0 <= i < j < |r| ensures !lt(r[j], r[i]) {
      if i == 0 && j > 1 { assert !lt(xs[j - 1], xs[0]); }
    }
  }

  /** Putting the head of `xs` back in front of `x` inserted into its tail. */
  lemma InsertBehind<T(!new)>(x: T, xs: seq<T>, rest: seq<T>, lt: (T, T) -> bool)
    requires IsStrictWeakOrder(lt) && SortedBy(xs, lt) && |xs| > 0
    requires lt(xs[0], x)
    requires SortedBy(rest, lt) && multiset(rest) == multiset(xs[1..]) + multiset{x}
    ensures SortedBy([xs[0]] + rest, lt)
    ensures multiset([xs[0]] + rest) == multiset(xs) + multiset{x}
  {
    forall j | 0 <= j < |rest| ensures !lt(rest[j], xs[0]) {
      assert rest[j] in multiset(rest);
      if rest[j] != x {
        assert rest[j] in multiset(xs[1..]);
        var k :| 0 <= k < |xs[1..]| && xs[1..][k] == rest[j];
        assert xs[k + 1] == rest[j];
      }
    }
    var r := [xs[0]] + rest;
    forall i, j | 0 <= i < j < |r| ensures !lt(r[j], r[i]) {
      if i > 0 { assert r[i] == rest[i - 1] && r[j] == rest[j - 1]; }
    }
    assert xs == [xs[0]] + xs[1..];
  }

  /** `sort(by: lt)` of a sequence: a permutation of the input that `lt` considers
      sorted. Swift's sort is not stable; this one keeps tied elements in
      their input order, which is one of the orders Swift may produce. */
  function SortBy<T(!new)>(xs: seq<T>, lt: (T, T) -> bool): (r: seq<T>)
    requires IsStrictWeakOrder(lt)
    ensures SortedBy(r, lt)
    ensures multiset(r) == multiset(xs)
  {
    if |xs| == 0 then []
    else
      assert xs == [xs[0]] + xs[1..];
      Insert(xs[0], SortBy(xs[1..], lt), lt)
  }

  /** The first element of a sorted sequence comes after none of the
      others. */
  lemma SortedHeadFirst<T>(ys: seq<T>, lt: (T, T) -> bool, a: T)
    requires SortedBy(ys, lt) && |ys| > 0
    requires a in multiset(ys) && !lt(a, a)
    ensures !lt(a, ys[0])
  {
    var k :| 0 <= k < |ys| && ys[k] == a;
  }

  /** Removing the equal heads of two sorted arrangements of one multiset
      leaves two sorted arrangements of one multiset. */
  lemma SortedTails<T>(xs: seq<T>, ys: seq<T>, lt: (T, T) -> bool)
    requires SortedBy(xs, lt) && SortedBy(ys, lt) && |xs| > 0 && |ys| > 0
    requires multiset(xs) == multiset(ys) && xs[0] == ys[0]
    ensures SortedBy(xs[1..], lt) && SortedBy(ys[1..], lt)
    ensures multiset(xs[1..]) == multiset(ys[1..])
    ensures forall a :: a in xs[1..] ==> a in xs
  {
    assert xs == [xs[0]] + xs[1..];
    assert ys == [ys[0]] + ys[1..];
    assert multiset(xs) == multiset{xs[0]} + multiset(xs[1..]);
    assert multiset(ys) == multiset{ys[0]} + multiset(ys[1..]);
    assert multiset(xs[1..]) == multiset(xs) - multiset{xs[0]};
    assert multiset(ys[1..]) == multiset(ys) - multiset{ys[0]};
    SortedDrop(xs, lt);
    SortedDrop(ys, lt);
    forall a | a in xs[1..] ensures a in xs {
      var k :| 0 <= k < |xs[1..]| && xs[1..][k] == a;
      assert xs[k + 1] == a;
    }
  }

  /** Two sorted arrangements of one multiset start with the same element
      when `lt` ties no two distinct elements. */
  lemma SortedHeadsEqual<T(!new)>(xs: seq<T>, ys: seq<T>, lt: (T, T) -> bool)
    requires forall a :: !lt(a, a)
    requires SortedBy(xs, lt) && SortedBy(ys, lt) && |xs| > 0 && |ys| > 0
    requires multiset(xs) == multiset(ys)
    requires forall a, b :: a in xs && b in xs && !lt(a, b) && !lt(b, a) ==> a == b
    ensures xs[0] == ys[0]
  {
    assert xs[0] in multiset(ys) && ys[0] in multiset(xs);
    SortedHeadFirst(ys, lt, xs[0]);
    SortedHeadFirst(xs, lt, ys[0]);
    assert ys[0] in xs;
  }

  /** When `lt` ties no two distinct elements of the sequences, there is only
      one sorted arrangement of a multiset. */
  lemma {:induction false} SortedUnique<T(!new)>(xs: seq<T>, ys: seq<T>, lt: (T, T) -> bool)
    requires forall a :: !lt(a, a)
    requires SortedBy(xs, lt) && SortedBy(ys, lt)
    requires multiset(xs) == multiset(ys)
    requires forall a, b :: a in xs && b in xs && !lt(a, b) && !lt(b, a) ==> a == b
    ensures xs == ys
    decreases |xs|
  {
    assert |xs| == |multiset(xs)| == |ys|;
    if |xs| > 0 {
      SortedHeadsEqual(xs, ys, lt);
      SortedTails(xs, ys, lt);
      var xt, yt := xs[1..], ys[1..];
      SortedUnique(xt, yt, lt);
      assert xs == [xs[0]] + xt && ys == [ys[0]] + yt;
    }
  }
}
