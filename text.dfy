/** String rules shared by the app: `joined(separator:)`,
    `components(separatedBy:)`, `trimmingCharacters(in:)`, ASCII case
    mapping, substring search and the lexicographic `<` on strings. */
module Text {
  import opened Wrappers
  import opened Decimal

  /** The four-leaf clover that separates numbers on screen. */
  const Clover: char := '🍀'
  /** `" 🍀 "`, the separator every joined ticket uses. */
  const CloverSeparator: string := [' ', Clover, ' ']

  // --------------------------------------------------------------- trimming

  /** The two character sets the app trims with: `.whitespaces` and
      `.whitespacesAndNewlines`. */
  datatype CharClass = Whitespaces | WhitespacesAndNewlines

  predicate IsSpace(c: char) {
    c == ' ' || c == '\t' || c == '\U{00A0}' || c == '\U{3000}'
  }

  predicate IsNewline(c: char) {
    c == '\n' || c == '\r' || c == '\U{000B}' || c == '\U{000C}' ||
    c == '\U{0085}' || c == '\U{2028}' || c == '\U{2029}'
  }

  predicate InClass(c: char, cls: CharClass) {
    IsSpace(c) || (cls == WhitespacesAndNewlines && IsNewline(c))
  }

  predicate AllInClass(s: string, cls: CharClass) {
    forall i :: 0 <= i < |s| ==> InClass(s[i], cls)
  }

  function TrimStart(s: string, cls: CharClass): (r: string)
    ensures |r| <= |s| && r == s[|s| - |r|..]
    ensures AllInClass(s[..|s| - |r|], cls)
    ensures |r| > 0 ==> !InClass(r[0], cls)
  {
    if |s| > 0 && InClass(s[0], cls) then
      var r := TrimStart(s[1..], cls);
      var n := |s| - |r|;
      assert s[1..][n - 1..] == s[n..];
      assert forall i :: 1 <= i < n ==> s[..n][i] == s[1..][..n - 1][i - 1];
      r
    else s
  }

  function TrimEnd(s: string, cls: CharClass): (r: string)
    ensures |r| <= |s| && r == s[..|r|]
    ensures AllInClass(s[|r|..], cls)
    ensures |r| > 0 ==> !InClass(r[|r| - 1], cls)
  {
    if |s| > 0 && InClass(s[|s| - 1], cls) then
      var r := TrimEnd(s[..|s| - 1], cls);
      assert s[..|s| - 1][..|r|] == s[..|r|];
      assert forall i :: |r| <= i < |s| - 1 ==> s[i] == s[..|s| - 1][i];
      r
    else s
  }

  /** `trimmingCharacters(in:)`: cuts every character of the class off both
      ends, so that what is left neither starts nor ends with one (the rest
      of its meaning is `TrimInfix`). */
  function Trim(s: string, cls: CharClass): (r: string)
    ensures |r| <= |s|
    ensures |r| > 0 ==> !InClass(r[0], cls) && !InClass(r[|r| - 1], cls)
  {
    TrimEnd(TrimStart(s, cls), cls)
  }

  /** How many characters `Trim` cuts off the front of `s`. */
  function TrimOffset(s: string, cls: CharClass): (r: nat)
  {
    |s| - |TrimStart(s, cls)|
  }

  /** `r` is the infix of `s` at `i`, and everything around it belongs to
      the class. */
  predicate TrimmedAt(s: string, cls: CharClass, i: nat, r: string)
  {
    && i + |r| <= |s|
    && r == s[i..i + |r|]
    && AllInClass(s[..i], cls)
    && AllInClass(s[i + |r|..], cls)
  }

  /** `Trim(s)` is what is left of `s` once the class is cut off its front
      (`TrimOffset(s)` characters) and off its back. */
  lemma TrimInfix(s: string, cls: CharClass)
    ensures TrimmedAt(s, cls, TrimOffset(s, cls), Trim(s, cls))
  {
    var t := TrimStart(s, cls);
    var r := TrimEnd(t, cls);
    var i := |s| - |t|;
    SuffixTrimmed(s, i, t, r, cls);
  }

  lemma SuffixTrimmed(s: string, i: nat, t: string, r: string, cls: CharClass)
    requires i <= |s| && t == s[i..] && AllInClass(s[..i], cls)
    requires |r| <= |t| && r == t[..|r|] && AllInClass(t[|r|..], cls)
    ensures TrimmedAt(s, cls, i, r)
  {
    assert s[i..i + |r|] == t[..|r|];
    assert s[i + |r|..] == t[|r|..];
  }

  lemma {:induction false} TrimStartPrefix(lead: string, p: string, cls: CharClass)
    requires AllInClass(lead, cls)
    requires |p| > 0 ==> !InClass(p[0], cls)
    ensures TrimStart(lead + p, cls) == p
    decreases |lead|
  {
    if |lead| == 0 {
      assert lead + p == p;
    } else {
      assert (lead + p)[0] == lead[0];
      assert (lead + p)[1..] == lead[1..] + p;
      assert AllInClass(lead[1..], cls) by {
        forall k | 0 <= k < |lead| - 1 ensures InClass(lead[1..][k], cls) {
          assert lead[1..][k] == lead[k + 1];
        }
      }
      TrimStartPrefix(lead[1..], p, cls);
    }
  }

  lemma {:induction false} TrimEndSuffix(p: string, trail: string, cls: CharClass)
    requires AllInClass(trail, cls)
    requires |p| > 0 ==> !InClass(p[|p| - 1], cls)
    ensures TrimEnd(p + trail, cls) == p
    decreases |trail|
  {
    if |trail| == 0 {
      assert p + trail == p;
    } else {
      var q := trail[..|trail| - 1];
      assert (p + trail)[|p + trail| - 1] == trail[|trail| - 1];
      assert (p + trail)[..|p + trail| - 1] == p + q;
      assert AllInClass(q, cls) by {
        forall k | 0 <= k < |q| ensures InClass(q[k], cls) {
          assert q[k] == trail[k];
        }
      }
      TrimEndSuffix(p, q, cls);
    }
  }

  /** Trimming undoes any padding made of class characters around a string
      that does not itself start or end with one. */
  lemma {:induction false} TrimPadded(lead: string, p: string, trail: string, cls: CharClass)
    requires AllInClass(lead, cls) && AllInClass(trail, cls)
    requires |p| > 0 ==> !InClass(p[0], cls) && !InClass(p[|p| - 1], cls)
    ensures Trim(lead + p + trail, cls) == p
  {
    assert lead + p + trail == lead + (p + trail);
    if |p| > 0 {
      assert (p + trail)[0] == p[0];
      TrimStartPrefix(lead, p + trail, cls);
    } else {
      assert AllInClass(lead + p + trail, cls);
      TrimStartAll(lead + p + trail, cls);
    }
    TrimEndSuffix(p, trail, cls);
  }

  lemma {:induction false} TrimStartAll(s: string, cls: CharClass)
    requires AllInClass(s, cls)
    ensures TrimStart(s, cls) == ""
    decreases |s|
  {
    if |s| > 0 {
      assert InClass(s[0], cls);
      assert AllInClass(s[1..], cls) by {
        forall k | 0 <= k < |s| - 1 ensures InClass(s[1..][k], cls) {
          assert s[1..][k] == s[k + 1];
        }
      }
      TrimStartAll(s[1..], cls);
    }
  }

  // ------------------------------------------------------- joining, splitting

  /** `parts.joined(separator: sep)`. */
  function Join(parts: seq<string>, sep: string): (r: string)
  {
    if |parts| == 0 then ""
    else if |parts| == 1 then parts[0]
    else parts[0] + sep + Join(parts[1..], sep)
  }

  /** `s.components(separatedBy: String(c))`: the pieces between the
      occurrences of `c`, always at least one (`""` gives `[""]`). */
  function Split(s: string, c: char): (r: seq<string>)
    ensures |r| >= 1
    ensures forall k :: 0 <= k < |r| ==> c !in r[k]
  {
    if |s| == 0 then [""]
    else
      var rest := Split(s[1..], c);
      if s[0] == c then [""] + rest
      else [[s[0]] + rest[0]] + rest[1..]
  }

  lemma SplitNoSeparator(p: string, c: char)
    requires c !in p
    ensures Split(p, c) == [p]
  {
    if |p| > 0 {
      assert p[0] in p;
      assert c !in p[1..] by {
        forall k | 0 <= k < |p| - 1 ensures p[1..][k] != c {
          assert p[1..][k] == p[k + 1];
        }
      }
      SplitNoSeparator(p[1..], c);
      assert [p[0]] + p[1..] == p;
    }
  }

  lemma {:induction false} SplitAfterPiece(p: string, c: char, rest: string)
    requires c !in p
    ensures Split(p + [c] + rest, c) == [p] + Split(rest, c)
  {
    var s := p + [c] + rest;
    if |p| == 0 {
      assert s[1..] == rest;
    } else {
      assert s[1..] == p[1..] + [c] + rest;
      assert p[0] in p;
      assert c !in p[1..] by {
        forall k | 0 <= k < |p| - 1 ensures p[1..][k] != c {
          assert p[1..][k] == p[k + 1];
        }
      }
      SplitAfterPiece(p[1..], c, rest);
      assert [p[0]] + p[1..] == p;
    }
  }

  lemma PrefixCancel(p: string, a: string, b: string)
    requires p + a == p + b
    ensures a == b
  {
    assert a == (p + a)[|p|..];
    assert b == (p + b)[|p|..];
  }

  /** A string made of a `c`-free head, `c` and a tail determines both: the
      head ends at the first `c`. */
  lemma SplitAtFirst(a1: string, b1: string, a2: string, b2: string, c: char)
    requires c !in a1 && c !in a2
    requires a1 + [c] + b1 == a2 + [c] + b2
    ensures a1 == a2 && b1 == b2
  {
    SplitAfterPiece(a1, c, b1);
    SplitAfterPiece(a2, c, b2);
    var s := a1 + [c] + b1;
    assert a1 == Split(s, c)[0] == a2;
    assert b1 == s[|a1| + 1..];
    assert b2 == s[|a2| + 1..];
  }

  /** The pieces of `lead + Join(parts, " c ")` split at `c`: each part keeps
      the spaces that surrounded the separators next to it. */
  lemma {:induction false} SplitSpacedJoin(lead: string, parts: seq<string>, c: char)
    requires |parts| >= 1 && c != ' '
    requires c !in lead
    requires forall k :: 0 <= k < |parts| ==> c !in parts[k]
    decreases |parts|
    ensures var r := Split(lead + Join(parts, [' ', c, ' ']), c);
            |r| == |parts| &&
            forall k :: 0 <= k < |parts| ==>
              r[k] == (if k == 0 then lead else " ") + parts[k] + (if k < |parts| - 1 then " " else "")
  {
    var sep := [' ', c, ' '];
    if |parts| == 1 {
      assert c !in lead + parts[0];
      SplitNoSeparator(lead + parts[0], c);
      assert lead + parts[0] + "" == lead + parts[0];
    } else {
      var tail := Join(parts[1..], sep);
      var piece := lead + parts[0] + " ";
      assert lead + Join(parts, sep) == piece + [c] + (" " + tail);
      assert c !in piece;
      SplitAfterPiece(piece, c, " " + tail);
      SplitSpacedJoin(" ", parts[1..], c);
      var r := Split(lead + Join(parts, sep), c);
      var r' := Split(" " + tail, c);
      assert r == [piece] + r';
      forall k | 0 <= k < |parts|
        ensures r[k] == (if k == 0 then lead else " ") + parts[k] + (if k < |parts| - 1 then " " else "")
      {
        if k > 0 {
          assert r[k] == r'[k - 1];
          assert parts[1..][k - 1] == parts[k];
        }
      }
    }
  }

  /** Every piece trimmed, as `map { $0.trimmingCharacters(in: cls) }`. */
  function TrimEach(pieces: seq<string>, cls: CharClass): (r: seq<string>)
    ensures |r| == |pieces|
    ensures forall k :: 0 <= k < |r| ==> r[k] == Trim(pieces[k], cls)
  {
    seq(|pieces|, k requires 0 <= k < |pieces| => Trim(pieces[k], cls))
  }

  /** Nothing to trim at either end. */
  predicate Trimmed(p: string, cls: CharClass)
  {
    |p| > 0 ==> !InClass(p[0], cls) && !InClass(p[|p| - 1], cls)
  }

  /** Splitting a `" c "`-joined list and trimming the pieces gives the list
      back, when no item holds `c` or has anything to trim. */
  lemma SplitTrimJoin(parts: seq<string>, c: char, cls: CharClass)
    requires |parts| >= 1 && c != ' '
    requires forall k :: 0 <= k < |parts| ==> c !in parts[k] && Trimmed(parts[k], cls)
    ensures TrimEach(Split(Join(parts, [' ', c, ' ']), c), cls) == parts
  {
    var joined := Join(parts, [' ', c, ' ']);
    assert "" + joined == joined;
    SplitSpacedJoin("", parts, c);
    TrimEachSpaced(Split(joined, c), parts, cls);
  }

  /** Trimming pieces that are the items with a space on each inner side. */
  lemma TrimEachSpaced(pieces: seq<string>, parts: seq<string>, cls: CharClass)
    requires |pieces| == |parts|
    requires forall k :: 0 <= k < |parts| ==>
      pieces[k] == (if k == 0 then "" else " ") + parts[k] + (if k < |parts| - 1 then " " else "")
    requires forall k :: 0 <= k < |parts| ==> Trimmed(parts[k], cls)
    ensures TrimEach(pieces, cls) == parts
  {
    var r := TrimEach(pieces, cls);
    forall k | 0 <= k < |parts| ensures r[k] == parts[k] {
      TrimSpaced(parts[k], k == 0, k == |parts| - 1, cls);
    }
  }

  lemma TrimSpaced(p: string, first: bool, last: bool, cls: CharClass)
    requires Trimmed(p, cls)
    ensures Trim((if first then "" else " ") + p + (if last then "" else " "), cls) == p
  {
    var lead := if first then "" else " ";
    var trail := if last then "" else " ";
    assert AllInClass(lead, cls) && AllInClass(trail, cls);
    TrimPadded(lead, p, trail, cls);
  }

  /** A string with nothing to trim is left as it is. */
  lemma TrimTrimmed(p: string, cls: CharClass)
    requires Trimmed(p, cls)
    ensures Trim(p, cls) == p
  {
    assert "" + p + "" == p;
    TrimPadded("", p, "", cls);
  }

  /** How many times `c` occurs in `s`. */
  function CountChar(s: string, c: char): (r: nat)
  {
    if |s| == 0 then 0 else (if s[0] == c then 1 else 0) + CountChar(s[1..], c)
  }

  /** The separator holds exactly one clover. */
  lemma CloverSeparatorCount()
    ensures CountChar(CloverSeparator, Clover) == 1
  {
    var s := CloverSeparator;
    assert s[1..] == [Clover, ' '] && s[1..][1..] == [' '] && s[1..][1..][1..] == [];
    assert CountChar(s[1..][1..], Clover) == 0;
  }

  lemma {:induction false} CountCharConcat(a: string, b: string, c: char)
    ensures CountChar(a + b, c) == CountChar(a, c) + CountChar(b, c)
  {
    if |a| > 0 {
      assert (a + b)[1..] == a[1..] + b;
      CountCharConcat(a[1..], b, c);
    } else {
      assert a + b == b;
    }
  }

  lemma {:induction false} CountCharAbsent(s: string, c: char)
    requires c !in s
    ensures CountChar(s, c) == 0
  {
    if |s| > 0 {
      assert s[0] in s;
      assert c !in s[1..] by {
        forall k | 0 <= k < |s| - 1 ensures s[1..][k] != c {
          assert s[1..][k] == s[k + 1];
        }
      }
      CountCharAbsent(s[1..], c);
    }
  }

  /** Joining `n >= 1` parts free of the separator character with a separator
      that holds it once puts exactly `n - 1` of it in the result. */
  lemma {:induction false} JoinSeparatorCount(parts: seq<string>, sep: string, c: char)
    requires CountChar(sep, c) == 1
    requires forall k :: 0 <= k < |parts| ==> c !in parts[k]
    ensures CountChar(Join(parts, sep), c) == if |parts| == 0 then 0 else |parts| - 1
  {
    if |parts| == 1 {
      CountCharAbsent(parts[0], c);
    } else if |parts| > 1 {
      JoinSeparatorCount(parts[1..], sep, c);
      CountCharConcat(parts[0] + sep, Join(parts[1..], sep), c);
      CountCharConcat(parts[0], sep, c);
      CountCharAbsent(parts[0], c);
    }
  }

  // ------------------------------------------------------------- ASCII case

  function UpperChar(c: char): (r: char)
  {
    if 'a' <= c <= 'z' then (c as int - 32) as char else c
  }

  function LowerChar(c: char): (r: char)
  {
    if 'A' <= c <= 'Z' then (c as int + 32) as char else c
  }

  /** `uppercased()`, restricted to the ASCII letters. */
  function Upper(s: string): (r: string)
    ensures |r| == |s|
    ensures forall i :: 0 <= i < |s| ==> r[i] == UpperChar(s[i])
  {
    seq(|s|, i requires 0 <= i < |s| => UpperChar(s[i]))
  }

  /** `lowercased()`, restricted to the ASCII letters. */
  function Lower(s: string): (r: string)
    ensures |r| == |s|
    ensures forall i :: 0 <= i < |s| ==> r[i] == LowerChar(s[i])
  {
    seq(|s|, i requires 0 <= i < |s| => LowerChar(s[i]))
  }

  /** After `uppercased()` no ASCII lower-case letter is left, so doing it
      again changes nothing. */
  lemma UpperIsUpper(s: string)
    ensures forall i :: 0 <= i < |Upper(s)| ==> !('a' <= Upper(s)[i] <= 'z')
    ensures Upper(Upper(s)) == Upper(s)
  {
    var u := Upper(s);
    forall i | 0 <= i < |u|
      ensures !('a' <= u[i] <= 'z') && UpperChar(u[i]) == u[i]
    {
      assert u[i] == UpperChar(s[i]);
    }
    assert Upper(u) == u;
  }

  /** After `lowercased()` no ASCII upper-case letter is left, so doing it
      again changes nothing. */
  lemma LowerIsLower(s: string)
    ensures forall i :: 0 <= i < |Lower(s)| ==> !('A' <= Lower(s)[i] <= 'Z')
    ensures Lower(Lower(s)) == Lower(s)
  {
    var l := Lower(s);
    forall i | 0 <= i < |l|
      ensures !('A' <= l[i] <= 'Z') && LowerChar(l[i]) == l[i]
    {
      assert l[i] == LowerChar(s[i]);
    }
    assert Lower(l) == l;
  }

  /** Case changes touch only letters: a text with no ASCII letter is left
      as it is by both. */
  lemma CaseKeepsNonLetters(s: string)
    requires forall i :: 0 <= i < |s| ==> !('a' <= s[i] <= 'z') && !('A' <= s[i] <= 'Z')
    ensures Upper(s) == s && Lower(s) == s
  {
  }

  // ---------------------------------------------------------- substring test

  /** `s.contains(t)`: `t` occurs in `s` as a contiguous block. */
  function Contains(s: string, t: string): (r: bool)
  {
    t <= s || (|s| > 0 && Contains(s[1..], t))
  }

  /** `t` occurs in `s` starting at position `i`. */
  predicate OccursAt(s: string, t: string, i: int)
  {
    0 <= i <= |s| - |t| && s[i..i + |t|] == t
  }

  lemma OccursShift(s: string, t: string, i: int)
    requires |s| > 0 && i >= 1
    ensures OccursAt(s, t, i) <==> OccursAt(s[1..], t, i - 1)
  {
    if i + |t| <= |s| {
      assert s[1..][i - 1..i - 1 + |t|] == s[i..i + |t|];
    }
  }

  lemma OccursAtStart(s: string, t: string)
    ensures OccursAt(s, t, 0) <==> t <= s
  {
    if |t| <= |s| {
      assert s[0..|t|] == s[..|t|];
    }
  }

  /** `Contains` agrees with the positional definition of a substring. */
  lemma {:induction false} ContainsAt(s: string, t: string)
    ensures Contains(s, t) <==> exists i :: OccursAt(s, t, i)
    decreases |s|
  {
    OccursAtStart(s, t);
    if |s| > 0 && !(t <= s) {
      ContainsAt(s[1..], t);
      if Contains(s[1..], t) {
        var j :| OccursAt(s[1..], t, j);
        OccursShift(s, t, j + 1);
      }
      if exists i :: OccursAt(s, t, i) {
        var i :| OccursAt(s, t, i);
        OccursShift(s, t, i);
      }
    }
  }

  // ------------------------------------------------------ lexicographic order

  /** Swift's `<` on strings, as lexicographic order of characters. */
  predicate StrLess(a: string, b: string)
  {
    if |a| == 0 then |b| > 0
    else if |b| == 0 then false
    else a[0] < b[0] || (a[0] == b[0] && StrLess(a[1..], b[1..]))
  }

  lemma StrLessIrreflexive(a: string)
    ensures !StrLess(a, a)
  {
  }

  lemma {:induction false} StrLessTransitive(a: string, b: string, c: string)
    requires StrLess(a, b) && StrLess(b, c)
    ensures StrLess(a, c)
  {
    if |a| > 0 && |b| > 0 && |c| > 0 && a[0] == b[0] == c[0] {
      StrLessTransitive(a[1..], b[1..], c[1..]);
    }
  }

  lemma {:induction false} StrLessTotal(a: string, b: string)
    ensures a == b || StrLess(a, b) || StrLess(b, a)
  {
    if |a| > 0 && |b| > 0 && a[0] == b[0] {
      StrLessTotal(a[1..], b[1..]);
      if a[1..] == b[1..] {
        assert a == [a[0]] + a[1..] && b == [b[0]] + b[1..];
      }
    }
  }

  lemma {:induction false} StrLessAsymmetric(a: string, b: string)
    requires StrLess(a, b)
    ensures !StrLess(b, a)
  {
    if |a| > 0 && |b| > 0 && a[0] == b[0] {
      StrLessAsymmetric(a[1..], b[1..]);
    }
  }

  /** Two-character strings compare on their first character, then on their
      second. */
  lemma StrLessPair(x: string, y: string)
    requires |x| == 2 && |y| == 2
    ensures StrLess(x, y) <==> x[0] < y[0] || (x[0] == y[0] && x[1] < y[1])
  {
    var x', y' := x[1..], y[1..];
    assert x'[1..] == [] && y'[1..] == [];
    assert !StrLess(x'[1..], y'[1..]);
    assert x'[0] == x[1] && y'[0] == y[1];
    assert StrLess(x', y') <==> x[1] < y[1];
  }

  /** Numbers below 100 compare on their tens digit, then on their units. */
  lemma TwoDigitOrder(a: nat, b: nat)
    requires a < 100 && b < 100
    ensures a < b <==> a / 10 < b / 10 || (a / 10 == b / 10 && a % 10 < b % 10)
  {
    assert a == 10 * (a / 10) + a % 10;
    assert b == 10 * (b / 10) + b % 10;
  }

  /** On `%02d` renderings of numbers below 100, string order is numeric
      order. */
  lemma StrLessPad2(a: nat, b: nat)
    requires a < 100 && b < 100
    ensures StrLess(Pad2(a), Pad2(b)) <==> a < b
  {
    StrLessPair(Pad2(a), Pad2(b));
    TwoDigitOrder(a, b);
  }
}
