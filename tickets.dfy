/** Ticket generation, `randomLottoNumberGenerator(total:maxNumber:)`: draw
    distinct numbers by rejection, write each as two digits (100 as `"00"`),
    sort the text and move `"00"` to the end.

    The random source is a sequence of draws, each in `1...maxNumber`; the
    source loops until it has `total` distinct numbers, which the model
    reports as `None` when the draws run out first. */
module Tickets {
  import opened Wrappers
  import opened Decimal
  import opened Text
  import opened StableSort
  import opened Sorting

  /** The text a drawn number gets: `"00"` for 100, otherwise `%02d`. */
  function Render(d: int): (r: string)
  {
    if d == 100 then "00"
    else if d < 0 then IntToString(d)
    else Pad2(d)
  }

  const ZeroZero: string := "00"

  // -------------------------------------------------------------- rendering

  /** Of the numbers the generator can draw, only 100 is written `"00"`. */
  lemma RenderZeroZero(d: int)
    requires d >= 1
    ensures Render(d) == ZeroZero <==> d == 100
  {
    if d != 100 {
      assert DigitsValue(Pad2(d)) == d;
      assert DigitsValue(ZeroZero) == 0 by {
        assert ZeroZero[..1] == "0";
      }
    }
  }

  /** Different drawable numbers are written differently. */
  lemma RenderInjective(a: int, b: int)
    requires a >= 1 && b >= 1 && Render(a) == Render(b)
    ensures a == b
  {
    RenderZeroZero(a);
    RenderZeroZero(b);
    if a != 100 && b != 100 {
      Pad2Injective(a, b);
    }
  }

  /** Below 100, the text order of renderings is the numeric order. */
  lemma RenderOrder(a: int, b: int)
    requires 1 <= a < 100 && 1 <= b < 100
    ensures StrLess(Render(a), Render(b)) <==> a < b
  {
    StrLessPad2(a, b);
  }

  // ------------------------------------------------------- collecting draws

  /** The rendering of each draw, in draw order. */
  function Renders(ds: seq<int>): (r: seq<string>)
    ensures |r| == |ds|
    ensures forall k :: 0 <= k < |ds| ==> r[k] == Render(ds[k])
  {
    seq(|ds|, k requires 0 <= k < |ds| => Render(ds[k]))
  }

  lemma RendersPrefix(ds: seq<int>, i: nat)
    requires i <= |ds|
    ensures Renders(ds[..i]) == Renders(ds)[..i]
  {
  }

  /** The renderings of the draws with repeats dropped, in the order they
      first occur: the contents of `result` after those draws. */
  function DistinctRenders(ds: seq<int>): (r: seq<string>)
    ensures NoDuplicates(r)
    ensures |r| <= |ds|
  {
    Distinct(Renders(ds))
  }

  /** Every rendering of a draw is collected, and nothing else is. */
  lemma DistinctRendersMembers(ds: seq<int>)
    ensures forall k :: 0 <= k < |ds| ==> Render(ds[k]) in DistinctRenders(ds)
    ensures forall s :: s in DistinctRenders(ds) ==> exists k :: 0 <= k < |ds| && Render(ds[k]) == s
  {
    var rs := Renders(ds);
    DistinctMembers(rs);
    forall s | s in DistinctRenders(ds) ensures exists k :: 0 <= k < |ds| && Render(ds[k]) == s {
      var k :| 0 <= k < |rs| && rs[k] == s;
    }
  }

  /** Later draws only add to what earlier draws collected. */
  lemma DistinctRendersPrefix(ds: seq<int>, i: nat)
    requires i <= |ds|
    ensures DistinctRenders(ds[..i]) <= DistinctRenders(ds)
  {
    RendersPrefix(ds, i);
    DistinctPrefix(Renders(ds), i);
  }

  /** One more draw adds its rendering when it is new, and nothing otherwise. */
  lemma DistinctRendersStep(ds: seq<int>, i: nat)
    requires i < |ds|
    ensures var prev := DistinctRenders(ds[..i]);
      DistinctRenders(ds[..i + 1]) ==
        if Render(ds[i]) in prev then prev else prev + [Render(ds[i])]
  {
    RendersPrefix(ds, i);
    RendersPrefix(ds, i + 1);
    DistinctStep(Renders(ds), i);
  }

  /** How many distinct numbers the loop collects: `total`, or none when
      `total` is not positive. */
  function Wanted(total: int): (r: nat)
  {
    if total > 0 then total else 0
  }

  // ---------------------------------------------------------------- arranging

  /** `sorted()` on the set, then `"00"` removed from where it sorted to and
      appended. */
  function Arrange(xs: seq<string>): (r: seq<string>)
    requires NoDuplicates(xs)
  {
    MoveToEnd(SortedStrings(xs), ZeroZero)
  }

  /** `if let i = ys.firstIndex(of: x) { ys.append(ys.remove(at: i)) }`. */
  function MoveToEnd<T(==)>(ys: seq<T>, x: T): (r: seq<T>)
    ensures multiset(r) == multiset(ys)
  {
    var i := FirstIndex(ys, x);
    if i == |ys| then ys
    else
      assert ys == ys[..i] + [ys[i]] + ys[i + 1..];
      ys[..i] + ys[i + 1..] + [ys[i]]
  }

  /** `firstIndex(of:)`, with `|ys|` standing for `nil`. */
  function FirstIndex<T(==)>(ys: seq<T>, x: T): (i: nat)
    ensures i <= |ys|
    ensures i < |ys| ==> ys[i] == x
    ensures x !in ys[..i]
  {
    if |ys| == 0 then 0
    else if ys[0] == x then 0
    else
      var j := FirstIndex(ys[1..], x);
      assert ys[..j + 1] == [ys[0]] + ys[1..][..j];
      j + 1
  }

  /** Moving a present `x` of a strictly ascending sequence without
      duplicates to the end leaves the rest strictly ascending and free of
      `x`. */
  lemma MoveToEndShape<T(!new)>(ys: seq<T>, x: T, lt: (T, T) -> bool)
    requires forall a, b :: 0 <= a < b < |ys| ==> lt(ys[a], ys[b])
    requires forall a, b :: 0 <= a < b < |ys| ==> ys[a] != ys[b]
    requires x in ys
    ensures var r := MoveToEnd(ys, x);
      && |r| == |ys|
      && r[|r| - 1] == x
      && x !in r[..|r| - 1]
      && forall a, b :: 0 <= a < b < |r| - 1 ==> lt(r[a], r[b])
  {
    var i := FirstIndex(ys, x);
    var rest := ys[..i] + ys[i + 1..];
    assert MoveToEnd(ys, x) == rest + [x];
    assert (rest + [x])[..|rest|] == rest;
    forall k | 0 <= k < |rest| ensures rest[k] == ys[if k < i then k else k + 1] {
      if k < i { assert rest[k] == ys[..i][k]; } else { assert rest[k] == ys[i + 1..][k - i]; }
    }
  }

  /** The arrangement holds the same strings, once each. */
  lemma ArrangePermutation(xs: seq<string>)
    requires NoDuplicates(xs)
    ensures multiset(Arrange(xs)) == multiset(xs)
    ensures |Arrange(xs)| == |xs|
    ensures NoDuplicates(Arrange(xs))
  {
    var r := Arrange(xs);
    assert |r| == |multiset(r)| == |multiset(xs)| == |xs|;
    NoDuplicatesPermutation(xs, r);
  }

  /** `"00"`, when drawn, ends the ticket; everything before it is strictly
      ascending and is not `"00"`. */
  lemma ArrangeZeroZeroLast(xs: seq<string>)
    requires NoDuplicates(xs) && ZeroZero in xs
    ensures var r := Arrange(xs);
      && |r| == |xs|
      && r[|r| - 1] == ZeroZero
      && ZeroZero !in r[..|r| - 1]
      && forall a, b :: 0 <= a < b < |r| - 1 ==> StrLess(r[a], r[b])
  {
    var s := SortedStrings(xs);
    NoDuplicatesPermutation(xs, s);
    NoDuplicatesDistinct(s);
    assert ZeroZero in multiset(s);
    MoveToEndShape(s, ZeroZero, StrLess);
    assert |s| == |multiset(s)| == |xs|;
  }

  /** Without `"00"` the ticket is the sorted set, strictly ascending. */
  lemma ArrangeNoZeroZero(xs: seq<string>)
    requires NoDuplicates(xs) && ZeroZero !in xs
    ensures Arrange(xs) == SortedStrings(xs)
    ensures forall a, b :: 0 <= a < b < |Arrange(xs)| ==> StrLess(Arrange(xs)[a], Arrange(xs)[b])
  {
    var s := SortedStrings(xs);
    assert ZeroZero !in multiset(s);
  }

  // ----------------------------------------------------------------- ticket

  /** The ticket the generator hands out for these draws: `None` when the
      draws hold fewer than `total` distinct numbers. */
  function Ticket(total: int, draws: seq<int>): (r: Option<seq<string>>)
  {
    var collected := DistinctRenders(draws);
    if |collected| < Wanted(total) then None
    else
      NoDuplicatesPrefix(collected, Wanted(total));
      Some(Arrange(collected[..Wanted(total)]))
  }

  /** When the loop stops with `total` numbers after `i` draws, it has the
      first `total` distinct renderings of all the draws. */
  lemma CollectedAll(total: int, draws: seq<int>, i: nat)
    requires i <= |draws|
    requires |DistinctRenders(draws[..i])| == Wanted(total)
    ensures |DistinctRenders(draws)| >= Wanted(total)
    ensures DistinctRenders(draws[..i]) == DistinctRenders(draws)[..Wanted(total)]
  {
    DistinctRendersPrefix(draws, i);
  }

  lemma TicketOfCollected(total: int, draws: seq<int>, collected: seq<string>)
    requires |DistinctRenders(draws)| >= Wanted(total)
    requires collected == DistinctRenders(draws)[..Wanted(total)]
    ensures NoDuplicates(collected)
    ensures Ticket(total, draws) == Some(Arrange(collected))
  {
    NoDuplicatesPrefix(DistinctRenders(draws), Wanted(total));
  }

  /** `randomLottoNumberGenerator(total:maxNumber:)`, with the random source's
      draws passed in. */
  method RandomLottoNumberGenerator(total: int, maxNumber: int, draws: seq<int>)
    returns (r: Option<seq<string>>)
    requires total <= 0 || maxNumber >= 1
    requires forall k :: 0 <= k < |draws| ==> 1 <= draws[k] <= maxNumber
    ensures r == Ticket(total, draws)
  {
    var numbers := total;
    var result: seq<string> := [];
    var i := 0;
    while numbers > 0
      invariant 0 <= i <= |draws|
      invariant result == DistinctRenders(draws[..i])
      invariant |result| + numbers == total
      invariant numbers == total || numbers >= 0
      decreases |draws| - i
    {
      if i == |draws| {
        assert draws[..i] == draws;
        return None;
      }
      var generated := draws[i];
      var numberToAdd := Render(generated);
      DistinctRendersStep(draws, i);
      var inserted := numberToAdd !in result;
      if inserted {
        result := result + [numberToAdd];
        numbers := numbers - 1;
      }
      i := i + 1;
    }
    CollectedAll(total, draws, i);
    TicketOfCollected(total, draws, result);
    var sortedResult := SortedStrings(result);
    sortedResult := MoveLast(sortedResult, ZeroZero);
    return Some(sortedResult);
  }

  /** The reordering step: find `x`, remove it and append it. */
  method MoveLast<T(==)>(ys: seq<T>, x: T) returns (r: seq<T>)
    ensures r == MoveToEnd(ys, x)
  {
    r := ys;
    var index := FirstIndexOf(r, x);
    if index.Some? {
      var moved := r[index.value];
      r := r[..index.value] + r[index.value + 1..];
      r := r + [moved];
    }
  }

  /** `firstIndex(of:)` as the loop that computes it. */
  method FirstIndexOf<T(==)>(ys: seq<T>, x: T) returns (index: Option<nat>)
    ensures index.None? <==> FirstIndex(ys, x) == |ys|
    ensures index.Some? ==> index.value == FirstIndex(ys, x)
  {
    var k := 0;
    while k < |ys|
      invariant 0 <= k <= |ys|
      invariant x !in ys[..k]
    {
      if ys[k] == x {
        FirstIndexIsFirst(ys, x, k);
        return Some(k);
      }
      assert ys[..k + 1] == ys[..k] + [ys[k]];
      k := k + 1;
    }
    assert ys[..k] == ys;
    FirstIndexIsFirst(ys, x, k);
    return None;
  }

  /** The first index is the one before which `x` does not occur. */
  lemma FirstIndexIsFirst<T>(ys: seq<T>, x: T, k: nat)
    requires k <= |ys| && x !in ys[..k] && (k < |ys| ==> ys[k] == x)
    ensures FirstIndex(ys, x) == k
  {
    var i := FirstIndex(ys, x);
    assert forall j :: 0 <= j < k ==> ys[..k][j] == ys[j];
    assert forall j :: 0 <= j < i ==> ys[..i][j] == ys[j];
  }

  // ------------------------------------------------------ what a ticket is

  /** The arranged ticket: `"00"` at most once and then last, every number
      before it in strictly ascending order. */
  lemma ArrangeShape(xs: seq<string>)
    requires NoDuplicates(xs)
    ensures var r := Arrange(xs);
      && (ZeroZero in r ==> r[|r| - 1] == ZeroZero && ZeroZero !in r[..|r| - 1])
      && (forall a, b :: 0 <= a < b < |r| && r[b] != ZeroZero ==> StrLess(r[a], r[b]))
  {
    var r := Arrange(xs);
    ArrangePermutation(xs);
    if ZeroZero in xs {
      ArrangeZeroZeroLast(xs);
      forall a, b | 0 <= a < b < |r| && r[b] != ZeroZero ensures StrLess(r[a], r[b]) {
        assert b < |r| - 1;
      }
    } else {
      ArrangeNoZeroZero(xs);
      assert ZeroZero !in multiset(r);
    }
  }

  /** Every number on the ticket is the rendering of one of the draws. */
  lemma TicketMembers(total: int, draws: seq<int>)
    requires Ticket(total, draws).Some?
    ensures var r := Ticket(total, draws).value;
      forall i :: 0 <= i < |r| ==> exists k :: 0 <= k < |draws| && Render(draws[k]) == r[i]
  {
    var all := DistinctRenders(draws);
    var c := all[..Wanted(total)];
    TicketOfCollected(total, draws, c);
    var r := Arrange(c);
    ArrangePermutation(c);
    DistinctRendersMembers(draws);
    forall i | 0 <= i < |r| ensures exists k :: 0 <= k < |draws| && Render(draws[k]) == r[i] {
      assert r[i] in multiset(c);
      assert r[i] in all;
    }
  }

  /** What every generated ticket looks like: `total` different numbers
      (none when `total` is not positive), each the rendering of one of the
      draws; `"00"` at most once and then last; every number before it
      strictly ascending; and no `"00"` at all when `maxNumber < 100`. */
  lemma TicketShape(total: int, maxNumber: int, draws: seq<int>)
    requires forall k :: 0 <= k < |draws| ==> 1 <= draws[k] <= maxNumber
    requires Ticket(total, draws).Some?
    ensures var r := Ticket(total, draws).value;
      && |r| == Wanted(total)
      && NoDuplicates(r)
      && (forall i :: 0 <= i < |r| ==> exists k :: 0 <= k < |draws| && Render(draws[k]) == r[i])
      && (ZeroZero in r ==> r[|r| - 1] == ZeroZero && ZeroZero !in r[..|r| - 1])
      && (forall a, b :: 0 <= a < b < |r| && r[b] != ZeroZero ==> StrLess(r[a], r[b]))
      && (maxNumber < 100 ==> ZeroZero !in r)
  {
    var c := DistinctRenders(draws)[..Wanted(total)];
    var r := Ticket(total, draws).value;
    assert r == Arrange(c) && NoDuplicates(c) by {
      TicketOfCollected(total, draws, c);
    }
    assert |r| == Wanted(total) && NoDuplicates(r) by {
      ArrangePermutation(c);
    }
    ArrangeShape(c);
    TicketMembers(total, draws);
    forall i | 0 <= i < |r| && maxNumber < 100 ensures r[i] != ZeroZero {
      var k :| 0 <= k < |draws| && Render(draws[k]) == r[i];
      RenderZeroZero(draws[k]);
    }
  }

  /** Before a trailing `"00"`, text order is number order, as long as no
      number is above 100. */
  lemma TicketNumericOrder(total: int, maxNumber: int, draws: seq<int>, r: seq<string>, a: nat, b: nat, va: int, vb: int)
    requires forall k :: 0 <= k < |draws| ==> 1 <= draws[k] <= maxNumber
    requires maxNumber <= 100
    requires Ticket(total, draws) == Some(r)
    requires a < b < |r|
    requires 1 <= va <= maxNumber && 1 <= vb <= maxNumber && vb != 100
    requires r[a] == Render(va) && r[b] == Render(vb)
    ensures va < vb
  {
    assert StrLess(r[a], r[b]) && r[a] != ZeroZero by {
      TicketShape(total, maxNumber, draws);
      RenderZeroZero(vb);
      assert r[..|r| - 1][a] == r[a];
    }
    RenderZeroZero(va);
    RenderOrder(va, vb);
  }

  /** There is no bound check: with fewer than `total` numbers to choose from,
      the loop never collects `total` of them. */
  lemma TicketNeedsEnoughNumbers(total: int, maxNumber: int, draws: seq<int>)
    requires forall k :: 0 <= k < |draws| ==> 1 <= draws[k] <= maxNumber
    requires total > 0 && total > maxNumber
    ensures Ticket(total, draws).None?
  {
    var rs := Renders(draws);
    forall k | 0 <= k < |rs| ensures rs[k] in RangeImage(Render, maxNumber) {
      assert 1 <= draws[k] <= maxNumber;
    }
    DistinctWithin(rs, Render, maxNumber);
  }
}
