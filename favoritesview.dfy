/** The favourites screen (`FavoriteNumbersView`): the ball image of each
    saved number, the logo of each saved game name, and the confirmation
    before an entry is deleted. */
module FavoritesView {
  import opened Wrappers
  import opened Decimal
  import opened Text
  import opened Games
  import opened Favorites
  import Balls
  import Tickets

  // ------------------------------------------------------------ ball images

  /** `ballAssetName(for:)`. */
  function BallAssetName(number: string): (r: string)
  {
    var trimmed := Trim(number, WhitespacesAndNewlines);
    match ParseInt(trimmed)
    case Some(v) => "ball_" + IntToString(v)
    case None => "ball_" + trimmed
  }

  /** A number text is shown with the ball the row views use for its value,
      without leading zeros; any other text keeps its trimmed form. */
  lemma BallAssetNameSpec(number: string)
    ensures var trimmed := Trim(number, WhitespacesAndNewlines);
      && (ParseInt(trimmed).Some? ==> BallAssetName(number) == Balls.BallImageName(ParseInt(trimmed).value))
      && (ParseInt(trimmed).None? ==> BallAssetName(number) == "ball_" + trimmed)
  {
  }

  /** A ticket's numbers get the ball of their value: `"07"` gives
      `"ball_7"`, and the `"00"` that stands for 100 gives `"ball_0"`. */
  lemma BallAssetOfTicketNumber(v: int)
    requires 1 <= v <= 100
    ensures BallAssetName(Tickets.Render(v)) == Balls.BallImageName(if v == 100 then 0 else v)
  {
    var n: nat := if v == 100 then 0 else v;
    assert Tickets.Render(v) == Pad2(n);
    Pad2Trimmed(n);
    ParsePad2(n);
  }

  /** A `%02d` rendering has nothing to trim. */
  lemma Pad2Trimmed(n: nat)
    requires n < 100
    ensures Trim(Pad2(n), WhitespacesAndNewlines) == Pad2(n)
  {
    var p := Pad2(n);
    assert IsDigit(p[0]) && IsDigit(p[1]);
    TrimTrimmed(p, WhitespacesAndNewlines);
  }

  // ------------------------------------------------------------ game logos

  /** `normalized(_:)`: lower-cased and trimmed, then with diacritics
      folded away by `fold`. */
  function Normalized(text: string, fold: string -> string): (r: string)
  {
    fold(Trim(Lower(text), WhitespacesAndNewlines))
  }

  /** The `switch` in `gameLogoName(for:)`, on the normalized text. */
  function LogoFor(n: string): (r: Option<string>)
  {
    if n == "mega-sena" || n == "mega sena" || n == "megasena" then Some("mega-sena-button")
    else if n == "lotofacil" || n == "loto facil" || n == "lotofácil" then Some("lotofacil-button")
    else if n == "quina" then Some("quina-button")
    else if n == "lotomania" then Some("lotomania-button")
    else None
  }

  /** `gameLogoName(for:)`. */
  function GameLogoName(gameType: string, fold: string -> string): (r: Option<string>)
  {
    LogoFor(Normalized(gameType, fold))
  }

  /** Every logo is some game's `logoAssetName`, and a text outside the
      table gets none. */
  lemma LogoForSpec(n: string)
    ensures LogoFor(n).Some? ==> exists h: GameType :: LogoFor(n) == Some(LogoAssetName(h))
    ensures LogoFor(n).None? <==>
      n !in ["mega-sena", "mega sena", "megasena", "lotofacil", "loto facil", "lotofácil", "quina", "lotomania"]
  {
    if LogoFor(n).Some? {
      if LogoFor(n) == Some("mega-sena-button") {
        assert LogoFor(n) == Some(LogoAssetName(MegaSena));
      } else if LogoFor(n) == Some("lotofacil-button") {
        assert LogoFor(n) == Some(LogoAssetName(Lotofacil));
      } else if LogoFor(n) == Some("quina-button") {
        assert LogoFor(n) == Some(LogoAssetName(Quina));
      } else {
        assert LogoFor(n) == Some(LogoAssetName(Lotomania));
      }
    }
  }

  /** The raw value of a game gets that game's logo. */
  lemma LogoForRawValues(g: GameType)
    ensures LogoFor(RawValue(g)) == Some(LogoAssetName(g))
  {
  }

  /** Each display name, lower-cased. */
  function LowerName(g: GameType): (r: string)
  {
    match g
    case MegaSena => "mega-sena"
    case Quina => "quina"
    case Lotomania => "lotomania"
    case Lotofacil => "lotofácil"
  }

  lemma LowerEach(s: string, t: string)
    requires |s| == |t| && forall i :: 0 <= i < |s| ==> LowerChar(s[i]) == t[i]
    ensures Lower(s) == t
  {
  }

  lemma LowerDisplayName(g: GameType)
    ensures Lower(DisplayName(g)) == LowerName(g)
    ensures Trimmed(LowerName(g), WhitespacesAndNewlines)
  {
    LowerEach(DisplayName(g), LowerName(g));
  }

  /** With a folding that maps `"lotofácil"` to `"lotofacil"` and leaves
      the other names alone, each game's display name gets the game's logo. */
  lemma DisplayNameLogo(g: GameType, fold: string -> string)
    requires fold("mega-sena") == "mega-sena" && fold("quina") == "quina"
    requires fold("lotomania") == "lotomania" && fold("lotofácil") == "lotofacil"
    ensures GameLogoName(DisplayName(g), fold) == Some(LogoAssetName(g))
  {
    assert Normalized(DisplayName(g), fold) == fold(LowerName(g)) by {
      LowerDisplayName(g);
      TrimTrimmed(LowerName(g), WhitespacesAndNewlines);
    }
    assert fold(LowerName(g)) == FoldedName(g) by {
      match g
      case MegaSena =>
      case Quina =>
      case Lotomania =>
      case Lotofacil =>
    }
    LogoForFoldedNames(g);
  }

  /** Each display name, normalized. */
  function FoldedName(g: GameType): (r: string)
  {
    match g
    case MegaSena => "mega-sena"
    case Quina => "quina"
    case Lotomania => "lotomania"
    case Lotofacil => "lotofacil"
  }

  lemma LogoForFoldedNames(g: GameType)
    ensures LogoFor(FoldedName(g)) == Some(LogoAssetName(g))
  {
  }

  // -------------------------------------------------------- deleting a row

  /** The screen's `@State`: the entry waiting for confirmation. */
  class FavoriteNumbersScreen {
    var pendingDelete: Option<Entry>

    constructor()
      ensures pendingDelete == None
    {
      pendingDelete := None;
    }

    /** The alert is up exactly while an entry waits. */
    predicate AlertShown()
      reads this
    {
      pendingDelete.Some?
    }

    /** The swipe action on `entry`. */
    method Swipe(entry: Entry)
      modifies this
      ensures pendingDelete == Some(entry) && AlertShown()
    {
      pendingDelete := Some(entry);
    }

    /** "Cancelar", or the alert dismissed. */
    method Cancel()
      modifies this
      ensures pendingDelete == None && !AlertShown()
    {
      pendingDelete := None;
    }

    /** "Excluir": the waiting entry's game and numbers are removed from
        the service, and the alert closes. */
    method Confirm(service: FavoriteNumbersService)
      modifies this, service
      ensures pendingDelete == None && !AlertShown()
      ensures old(pendingDelete).None? ==> unchanged(service)
      ensures old(pendingDelete).Some? ==>
        var e := old(pendingDelete).value;
        && service.favorites == Removed(old(service.favorites), e.gameType, e.numbers)
        && !IsFavorited(service.favorites, e.gameType, e.numbers)
        && service.stored == Some(service.favorites)
        && service.isLoaded == old(service.isLoaded)
    {
      if pendingDelete.Some? {
        var entry := pendingDelete.value;
        service.RemoveFavorite(entry.gameType, entry.numbers);
        RemovedSpec(old(service.favorites), entry.gameType, entry.numbers);
      }
      pendingDelete := None;
    }
  }
}
