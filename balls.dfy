/** The ball rows (`BallsRowView`, `InlineBallsRowView`): a numbers text split
    on a separator, each piece trimmed, and the pieces that read as integers
    kept in order; one ball image per number. */
module Balls {
  import opened Wrappers
  import opened Decimal
  import opened Text
  import ContentView

  /** `compactMap { Int($0) }`: the pieces that parse, as integers, in order. */
  function KeepInts(parts: seq<string>): (r: seq<int>)
    ensures |r| <= |parts|
  {
    if |parts| == 0 then []
    else
      var more := match ParseInt(parts[|parts| - 1]) case Some(v) => [v] case None => [];
      KeepInts(parts[..|parts| - 1]) + more
  }

  /** Keeping splits over concatenation, so the kept numbers stay in order. */
  lemma {:induction false} KeepIntsAppend(a: seq<string>, b: seq<string>)
    ensures KeepInts(a + b) == KeepInts(a) + KeepInts(b)
    decreases |b|
  {
    if |b| == 0 {
      assert a + b == a;
    } else {
      assert (a + b)[..|a + b| - 1] == a + b[..|b| - 1];
      assert (a + b)[|a + b| - 1] == b[|b| - 1];
      KeepIntsAppend(a, b[..|b| - 1]);
    }
  }

  /** Every kept number is what some piece parses to, and every piece that
      parses contributes its number. */
  lemma {:induction false} KeepIntsMembers(parts: seq<string>)
    ensures forall v :: v in KeepInts(parts) ==> exists k :: 0 <= k < |parts| && ParseInt(parts[k]) == Some(v)
    ensures forall k :: 0 <= k < |parts| && ParseInt(parts[k]).Some? ==> ParseInt(parts[k]).value in KeepInts(parts)
  {
    if |parts| > 0 {
      var init := parts[..|parts| - 1];
      KeepIntsMembers(init);
      forall v | v in KeepInts(init) ensures exists k :: 0 <= k < |parts| && ParseInt(parts[k]) == Some(v) {
        var k :| 0 <= k < |init| && ParseInt(init[k]) == Some(v);
        assert parts[k] == init[k];
      }
      forall k | 0 <= k < |parts| - 1 && ParseInt(parts[k]).Some? ensures ParseInt(parts[k]).value in KeepInts(parts) {
        assert parts[k] == init[k];
      }
    }
  }

  /** When every piece parses, the pieces' values are kept, all of them. */
  lemma {:induction false} KeepIntsAll(parts: seq<string>, vs: seq<int>)
    requires |vs| == |parts|
    requires forall k :: 0 <= k < |parts| ==> ParseInt(parts[k]) == Some(vs[k])
    ensures KeepInts(parts) == vs
  {
    if |parts| > 0 {
      KeepIntsAll(parts[..|parts| - 1], vs[..|vs| - 1]);
      assert vs == vs[..|vs| - 1] + [vs[|vs| - 1]];
    }
  }

  /** `init(numbersString:separator:)` of both row views. */
  function ParseNumbers(numbersString: string, separator: char): (r: seq<int>)
  {
    KeepInts(TrimEach(Split(numbersString, separator), WhitespacesAndNewlines))
  }

  /** The parse returns at most one number per piece, each the value of a
      piece between separators once trimmed. */
  lemma ParseNumbersSpec(numbersString: string, separator: char)
    ensures var pieces := TrimEach(Split(numbersString, separator), WhitespacesAndNewlines);
      && |ParseNumbers(numbersString, separator)| <= |Split(numbersString, separator)|
      && forall v :: v in ParseNumbers(numbersString, separator) ==>
           exists k :: 0 <= k < |pieces| && ParseInt(pieces[k]) == Some(v)
  {
    KeepIntsMembers(TrimEach(Split(numbersString, separator), WhitespacesAndNewlines));
  }

  /** A digit or a minus sign is no blank. */
  lemma SignOrDigitNotBlank(c: char)
    requires IsDigit(c) || c == '-'
    ensures !InClass(c, WhitespacesAndNewlines) && c != Clover
  {
  }

  /** Runs of digits joined by `" 🍀 "` parse back to the numbers they
      denote, in order; leading zeros are accepted, so `"07"` gives 7 and
      `"00"` gives 0. */
  lemma ParseDigitParts(parts: seq<string>)
    requires |parts| >= 1
    requires forall k :: 0 <= k < |parts| ==> |parts[k]| >= 1 && AllDigits(parts[k]) && DigitsValue(parts[k]) <= Int64Max
    ensures ParseNumbers(Join(parts, CloverSeparator), Clover) ==
      seq(|parts|, k requires 0 <= k < |parts| => DigitsValue(parts[k]))
  {
    forall k | 0 <= k < |parts| ensures Clover !in parts[k] && Trimmed(parts[k], WhitespacesAndNewlines) {
      var p := parts[k];
      SignOrDigitNotBlank(p[0]);
      SignOrDigitNotBlank(p[|p| - 1]);
      assert forall i :: 0 <= i < |p| ==> IsDigit(p[i]);
    }
    SplitTrimJoin(parts, Clover, WhitespacesAndNewlines);
    assert CloverSeparator == [' ', Clover, ' '];
    var vs := seq(|parts|, k requires 0 <= k < |parts| => DigitsValue(parts[k]));
    forall k | 0 <= k < |parts| ensures ParseInt(parts[k]) == Some(vs[k]) {
      ParseDigits(parts[k]);
    }
    KeepIntsAll(parts, vs);
  }

  /** 64-bit integers joined by `" 🍀 "`, as `setToString` writes them,
      parse back to themselves, in order. */
  lemma ParseDecimals(xs: seq<int>)
    requires |xs| >= 1
    requires forall k :: 0 <= k < |xs| ==> IsInt64(xs[k])
    ensures ParseNumbers(Join(ContentView.Decimals(xs), CloverSeparator), Clover) == xs
  {
    var parts := ContentView.Decimals(xs);
    forall k | 0 <= k < |parts| ensures Clover !in parts[k] && Trimmed(parts[k], WhitespacesAndNewlines) {
      var p := parts[k];
      ContentView.DecimalNoClover(xs[k]);
      IntToStringAlphabet(xs[k]);
      if |p| > 0 {
        SignOrDigitNotBlank(p[0]);
        SignOrDigitNotBlank(p[|p| - 1]);
      }
    }
    SplitTrimJoin(parts, Clover, WhitespacesAndNewlines);
    assert CloverSeparator == [' ', Clover, ' '];
    forall k | 0 <= k < |parts| ensures ParseInt(parts[k]) == Some(xs[k]) {
      ParseIntToString(xs[k]);
    }
    KeepIntsAll(parts, xs);
  }

  /** The preview's `"12 🍀 7 🍀 33 🍀 1"` reads as `[12, 7, 33, 1]`. */
  lemma PreviewExample()
    ensures ParseNumbers("12 🍀 7 🍀 33 🍀 1", Clover) == [12, 7, 33, 1]
  {
    var parts := ["12", "7", "33", "1"];
    PreviewJoin();
    PreviewDigits();
    ParseDigitParts(parts);
    var vs := seq(|parts|, k requires 0 <= k < |parts| => DigitsValue(parts[k]));
    assert vs == [12, 7, 33, 1];
  }

  lemma PreviewJoin()
    ensures Join(["12", "7", "33", "1"], CloverSeparator) == "12 🍀 7 🍀 33 🍀 1"
  {
    assert Join(["33", "1"], CloverSeparator) == "33 🍀 1";
    assert Join(["7", "33", "1"], CloverSeparator) == "7 🍀 33 🍀 1";
  }

  lemma PreviewDigits()
    ensures var parts := ["12", "7", "33", "1"];
      forall k :: 0 <= k < |parts| ==> |parts[k]| >= 1 && AllDigits(parts[k]) && DigitsValue(parts[k]) <= Int64Max
    ensures DigitsValue("12") == 12 && DigitsValue("7") == 7 && DigitsValue("33") == 33 && DigitsValue("1") == 1
  {
    assert "12"[..1] == "1" && "33"[..1] == "3";
  }

  /** `BallImage.imageName` and `InlineBallImage`'s image. */
  function BallImageName(number: int): (r: string)
  {
    "ball_" + IntToString(number)
  }

  /** Different numbers have different images. */
  lemma BallImageNameInjective(a: int, b: int)
    ensures BallImageName(a) == BallImageName(b) <==> a == b
  {
    if BallImageName(a) == BallImageName(b) {
      PrefixCancel("ball_", IntToString(a), IntToString(b));
      IntToStringInjective(a, b);
    }
  }

  const SmallSetThreshold: nat := 8

  /** How `InlineBallsRowView` lays out its balls. */
  datatype RowLayout = SingleRow | Grid

  function InlineLayout(numbers: seq<int>): (r: RowLayout)
  {
    if |numbers| <= SmallSetThreshold then SingleRow else Grid
  }

  /** A history card's dezenas, joined as it joins them, show as one row
      exactly when there are at most eight of them. */
  lemma DezenasLayout(dezenas: seq<string>)
    requires |dezenas| >= 1
    requires forall k :: 0 <= k < |dezenas| ==> |dezenas[k]| >= 1 && AllDigits(dezenas[k]) && DigitsValue(dezenas[k]) <= Int64Max
    ensures |ParseNumbers(Join(dezenas, CloverSeparator), Clover)| == |dezenas|
    ensures InlineLayout(ParseNumbers(Join(dezenas, CloverSeparator), Clover)) == SingleRow <==> |dezenas| <= 8
  {
    ParseDigitParts(dezenas);
  }
}
