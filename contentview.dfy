/** The first number-generating screen (`ContentView`): a `Set<Int>` of
    distinct numbers drawn at random, shown sorted and joined by clovers,
    and a share text for WhatsApp. */
module ContentView {
  import opened Wrappers
  import opened Decimal
  import opened Text
  import opened StableSort
  import opened Sorting
  import opened Games
  import Tickets

  // ------------------------------------------------------------ generating

  /** The set the generator returns for these draws: the first `total`
      distinct draws, or `None` when the draws hold fewer than that. */
  function DrawnSet(total: int, draws: seq<int>): (r: Option<seq<int>>)
    ensures r.Some? ==> NoDuplicates(r.value) && |r.value| == Tickets.Wanted(total)
  {
    var collected := Distinct(draws);
    if |collected| < Tickets.Wanted(total) then None
    else
      NoDuplicatesPrefix(collected, Tickets.Wanted(total));
      Some(collected[..Tickets.Wanted(total)])
  }

  /** `randomLottoNumberGenerator(total:maxNumber:) -> Set<Int>`, with the
      random source's draws passed in. */
  method RandomNumberSet(total: int, maxNumber: int, draws: seq<int>) returns (r: Option<seq<int>>)
    requires total <= 0 || maxNumber >= 1
    requires forall k :: 0 <= k < |draws| ==> 1 <= draws[k] <= maxNumber
    ensures r == DrawnSet(total, draws)
  {
    var numbers := total;
    var result: seq<int> := [];
    var i := 0;
    while numbers > 0
      invariant 0 <= i <= |draws|
      invariant result == Distinct(draws[..i])
      invariant |result| + numbers == total
      invariant numbers == total || numbers >= 0
      decreases |draws| - i
    {
      if i == |draws| {
        assert draws[..i] == draws;
        return None;
      }
      var generated := draws[i];
      DistinctStep(draws, i);
      var inserted := generated !in result;
      if inserted {
        result := result + [generated];
        numbers := numbers - 1;
      }
      i := i + 1;
    }
    DistinctPrefix(draws, i);
    assert |result| == Tickets.Wanted(total);
    assert result == Distinct(draws)[..Tickets.Wanted(total)];
    return Some(result);
  }

  /** The set holds `total` different numbers (none when `total` is not
      positive), each one of the draws and so in `1...maxNumber`. */
  lemma DrawnSetShape(total: int, maxNumber: int, draws: seq<int>, s: seq<int>)
    requires forall k :: 0 <= k < |draws| ==> 1 <= draws[k] <= maxNumber
    requires DrawnSet(total, draws) == Some(s)
    ensures |s| == Tickets.Wanted(total) && NoDuplicates(s)
    ensures forall i :: 0 <= i < |s| ==> s[i] in draws && 1 <= s[i] <= maxNumber
  {
    var all := Distinct(draws);
    DistinctMembers(draws);
    NoDuplicatesPrefix(all, Tickets.Wanted(total));
    forall i | 0 <= i < |s| ensures s[i] in draws && 1 <= s[i] <= maxNumber {
      assert s[i] == all[i];
    }
  }

  /** With fewer than `total` numbers to choose from, the loop never ends. */
  lemma DrawnSetNeedsEnoughNumbers(total: int, maxNumber: int, draws: seq<int>)
    requires forall k :: 0 <= k < |draws| ==> 1 <= draws[k] <= maxNumber
    requires total > 0 && total > maxNumber
    ensures DrawnSet(total, draws).None?
  {
    forall k | 0 <= k < |draws| ensures draws[k] in RangeImage(v => v, maxNumber) {
      var id: int -> int := v => v;
      assert id(draws[k]) == draws[k];
    }
    DistinctWithin(draws, v => v, maxNumber);
  }

  // ------------------------------------------------------------- rendering

  /** `String($0)` of each number. */
  function Decimals(xs: seq<int>): (r: seq<string>)
    ensures |r| == |xs|
    ensures forall k :: 0 <= k < |xs| ==> r[k] == IntToString(xs[k])
  {
    seq(|xs|, k requires 0 <= k < |xs| => IntToString(xs[k]))
  }

  /** `setToString(set:)`: the numbers in ascending order, unpadded, joined
      by `" 🍀 "`. */
  function SetToString(s: seq<int>): (r: string)
    requires NoDuplicates(s)
  {
    Join(Decimals(SortedInts(s)), CloverSeparator)
  }

  /** The text lists the set's numbers in ascending order, one piece per
      number between the separators. */
  lemma SetToStringPieces(s: seq<int>)
    requires NoDuplicates(s)
    ensures var sorted := SortedInts(s);
      && SetToString(s) == Join(Decimals(sorted), CloverSeparator)
      && |sorted| == |s|
      && multiset(sorted) == multiset(s)
      && (forall i, j :: 0 <= i < j < |sorted| ==> sorted[i] < sorted[j])
  {
    var sorted := SortedInts(s);
    assert |sorted| == |multiset(sorted)| == |multiset(s)| == |s|;
  }

  /** An n-element set gives n - 1 clovers; the empty set gives `""`. */
  lemma SetToStringSeparators(s: seq<int>)
    requires NoDuplicates(s)
    ensures CountChar(SetToString(s), Clover) == if |s| == 0 then 0 else |s| - 1
    ensures |s| == 0 <==> SetToString(s) == ""
  {
    var sorted := SortedInts(s);
    SetToStringPieces(s);
    var parts := Decimals(sorted);
    forall k | 0 <= k < |parts| ensures Clover !in parts[k] {
      DecimalNoClover(sorted[k]);
    }
    CloverSeparatorCount();
    JoinSeparatorCount(parts, CloverSeparator, Clover);
    if |s| > 0 {
      assert parts == [parts[0]] + parts[1..];
      assert |SetToString(s)| >= |parts[0]| >= 1;
    }
  }

  lemma DecimalNoClover(n: int)
    ensures Clover !in IntToString(n)
  {
    IntToStringAlphabet(n);
  }

  /** The text does not depend on the set's iteration order. */
  lemma SetToStringOrderFree(s: seq<int>, t: seq<int>)
    requires NoDuplicates(s) && multiset(s) == multiset(t)
    ensures NoDuplicates(t) && SetToString(s) == SetToString(t)
  {
    NoDuplicatesPermutation(s, t);
    IntLessOrder();
    var a, b := SortedInts(s), SortedInts(t);
    assert SortedBy(a, IntLess) && SortedBy(b, IntLess);
    SortedUnique(a, b, IntLess);
  }

  // ------------------------------------------------------------- sharing

  const WhatsAppPrefix: string := "whatsapp://send?text="

  /** `formattedMessage` in `shareViaWhatsApp(gameType:message:)`. */
  function ShareText(gameType: string, message: string): (r: string)
  {
    "Os números gerados para " + gameType + " foram: " + message
  }

  /** `urlWhats`, before percent-encoding. */
  function WhatsAppText(gameType: string, message: string): (r: string)
  {
    WhatsAppPrefix + ShareText(gameType, message)
  }

  /** The link starts with WhatsApp's send prefix and the share text, and
      ends with the message; for one game, different messages give
      different links. */
  lemma WhatsAppTextParts(gameType: string, message: string, other: string)
    ensures var u := WhatsAppText(gameType, message);
      && WhatsAppPrefix <= u
      && u[|WhatsAppPrefix|..] == ShareText(gameType, message)
      && |u| >= |message| && u[|u| - |message|..] == message
    ensures WhatsAppText(gameType, message) == WhatsAppText(gameType, other) ==> message == other
  {
    var head := WhatsAppPrefix + "Os números gerados para " + gameType + " foram: ";
    assert WhatsAppText(gameType, message) == head + message;
    assert WhatsAppText(gameType, other) == head + other;
    if WhatsAppText(gameType, message) == WhatsAppText(gameType, other) {
      PrefixCancel(head, message, other);
    }
  }

  // ---------------------------------------------------------- the screen

  /** The parameters each game image's tap handler passes to the generator,
      and the name it shows. */
  datatype TapParams = TapParams(total: int, maxNumber: int, name: string)

  function TapConfig(g: GameType): (r: TapParams)
  {
    match g
    case MegaSena => TapParams(6, 60, "Mega-Sena")
    case Lotofacil => TapParams(15, 25, "Lotofácil")
    case Quina => TapParams(5, 80, "Quina")
    case Lotomania => TapParams(50, 100, "Lotomania")
  }

  /** Every handler asks for no more numbers than there are, so its loop can
      end, and names the game as `GameType.displayName` does. */
  lemma TapConfigSound(g: GameType)
    ensures 0 < TapConfig(g).total <= TapConfig(g).maxNumber
    ensures TapConfig(g).name == DisplayName(g)
  {
  }

  /** A handler's call, when its draws hold enough distinct numbers, yields
      exactly the game's count of numbers in range. */
  lemma TapDrawsEnough(g: GameType, draws: seq<int>)
    requires forall k :: 0 <= k < |draws| ==> 1 <= draws[k] <= TapConfig(g).maxNumber
    requires |Distinct(draws)| >= TapConfig(g).total
    ensures DrawnSet(TapConfig(g).total, draws).Some?
    ensures var s := DrawnSet(TapConfig(g).total, draws).value;
      |s| == TapConfig(g).total && forall i :: 0 <= i < |s| ==> 1 <= s[i] <= TapConfig(g).maxNumber
  {
    var c := TapConfig(g);
    DrawnSetShape(c.total, c.maxNumber, draws, DrawnSet(c.total, draws).value);
  }

  /** The screen's `@State`. */
  class ContentViewState {
    var generateNumbers: bool
    var alertMessage: string
    var showAlert: bool
    var selectedGameType: string
    var isShareButtonEnabled: bool

    constructor()
      ensures !generateNumbers && alertMessage == "" && !showAlert
      ensures selectedGameType == "" && !isShareButtonEnabled
    {
      generateNumbers := false;
      alertMessage := "";
      showAlert := false;
      selectedGameType := "";
      isShareButtonEnabled := false;
    }

    /** A tap on a game's image. `completed` is false when the draws run out
        before the set is full: the handler would still be looping, and only
        the toggle has happened. */
    method Tap(g: GameType, draws: seq<int>) returns (completed: bool)
      requires forall k :: 0 <= k < |draws| ==> 1 <= draws[k] <= TapConfig(g).maxNumber
      modifies this
      ensures generateNumbers == !old(generateNumbers)
      ensures completed <==> DrawnSet(TapConfig(g).total, draws).Some?
      ensures completed ==>
        && alertMessage == SetToString(DrawnSet(TapConfig(g).total, draws).value)
        && selectedGameType == DisplayName(g)
        && isShareButtonEnabled && showAlert
      ensures !completed ==>
        && alertMessage == old(alertMessage) && selectedGameType == old(selectedGameType)
        && isShareButtonEnabled == old(isShareButtonEnabled) && showAlert == old(showAlert)
    {
      generateNumbers := !generateNumbers;
      var c := TapConfig(g);
      var generated := RandomNumberSet(c.total, c.maxNumber, draws);
      if generated.None? {
        return false;
      }
      alertMessage := SetToString(generated.value);
      selectedGameType := c.name;
      isShareButtonEnabled := true;
      showAlert := true;
      return true;
    }

    /** `shareViaWhatsApp(gameType:message:)`: when WhatsApp can open the
        link, it is opened and the share button is disabled; otherwise
        nothing changes. Returns the link handed to the system, if any. */
    method ShareViaWhatsApp(gameType: string, message: string, canOpen: bool) returns (link: Option<string>)
      modifies this
      ensures link == (if canOpen then Some(WhatsAppText(gameType, message)) else None)
      ensures isShareButtonEnabled == (old(isShareButtonEnabled) && !canOpen)
      ensures generateNumbers == old(generateNumbers) && alertMessage == old(alertMessage)
      ensures showAlert == old(showAlert) && selectedGameType == old(selectedGameType)
    {
      var urlWhats := WhatsAppText(gameType, message);
      if canOpen {
        isShareButtonEnabled := false;
        return Some(urlWhats);
      }
      return None;
    }
  }
}
