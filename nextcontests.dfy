/** The next-contests screen: `NextContestsViewModel` (one card per game,
    cache first), the coded form of `NextContestInfo`, and the card texts for
    missing values. */
module NextContests {
  import opened Wrappers
  import opened Decimal
  import opened StableSort
  import opened Games
  import opened Cache

  // ------------------------------------------------------ NextContestInfo

  /** `NextContestInfo`. The estimate is a `Double` that is only carried,
      never computed with. */
  datatype NextContestInfo = NextContestInfo(
    id: string,
    game: GameType,
    valorEstimadoProximoConcurso: Option<real>,
    numeroConcursoProximo: Option<int>,
    dataProximoConcurso: Option<string>)

  /** What the keyed container holds for one item: the game as its raw
      value, and an absent optional as an absent key. */
  datatype EncodedInfo = EncodedInfo(
    id: string,
    game: string,
    valorEstimadoProximoConcurso: Option<real>,
    numeroConcursoProximo: Option<int>,
    dataProximoConcurso: Option<string>)

  /** `encode(to:)`. */
  function Encode(info: NextContestInfo): (r: EncodedInfo)
  {
    EncodedInfo(info.id, RawValue(info.game), info.valorEstimadoProximoConcurso,
                info.numeroConcursoProximo, info.dataProximoConcurso)
  }

  /** `init(from:)`: fails when the game string is no raw value. */
  function Decode(e: EncodedInfo): (r: Option<NextContestInfo>)
  {
    match FromRawValue(e.game)
    case None => None
    case Some(g) =>
      Some(NextContestInfo(e.id, g, e.valorEstimadoProximoConcurso,
                           e.numeroConcursoProximo, e.dataProximoConcurso))
  }

  /** Decoding what was encoded gives the item back. */
  lemma DecodeEncode(info: NextContestInfo)
    ensures Decode(Encode(info)) == Some(info)
  {
    RawValueRoundTrip(info.game, RawValue(info.game));
  }

  /** Decoding fails exactly on game strings that are no game's raw value,
      and what decodes encodes back to the same container. */
  lemma DecodeSpec(e: EncodedInfo)
    ensures Decode(e).None? <==> forall h: GameType :: RawValue(h) != e.game
    ensures Decode(e).Some? ==> Encode(Decode(e).value) == e
  {
    RawValueRoundTrip(MegaSena, e.game);
  }

  // ------------------------------------------------------------- fetchNext

  /** The fields the service's answer decodes to (`NextContestDTO`). */
  datatype NextContestDTO = NextContestDTO(
    valorEstimadoProximoConcurso: Option<real>,
    numeroConcursoProximo: Option<int>,
    dataProximoConcurso: Option<string>)

  /** The request and its decoding: `None` when either throws. */
  type NextNetwork = string -> Option<NextContestDTO>

  /** The address `fetchNext(for:)` asks. */
  function NextUrl(g: GameType): (r: string)
  {
    BaseUrl + "/" + RawValue(g) + "/ultimo"
  }

  /** It is the history service's latest-draw address. */
  lemma NextUrlIsLatest(g: GameType)
    ensures NextUrl(g) == ResultUrl(g, LastContest)
  {
  }

  /** The card for a game whose request failed. */
  function Placeholder(g: GameType): (r: NextContestInfo)
  {
    NextContestInfo(RawValue(g), g, None, None, None)
  }

  /** `fetchNext(for:)`: never fails; an error gives the placeholder. */
  function FetchNext(net: NextNetwork, g: GameType): (r: NextContestInfo)
  {
    match net(NextUrl(g))
    case None => Placeholder(g)
    case Some(dto) =>
      NextContestInfo(RawValue(g), g, dto.valorEstimadoProximoConcurso,
                      dto.numeroConcursoProximo, dto.dataProximoConcurso)
  }

  /** Every card carries its game and the game's raw value as `id`; a failed
      request leaves all three values missing, a successful one carries the
      answer's values. */
  lemma FetchNextSpec(net: NextNetwork, g: GameType)
    ensures FetchNext(net, g).game == g && FetchNext(net, g).id == RawValue(g)
    ensures net(NextUrl(g)).None? ==>
      && FetchNext(net, g).valorEstimadoProximoConcurso.None?
      && FetchNext(net, g).numeroConcursoProximo.None?
      && FetchNext(net, g).dataProximoConcurso.None?
    ensures net(NextUrl(g)).Some? ==>
      var dto := net(NextUrl(g)).value;
      && FetchNext(net, g).valorEstimadoProximoConcurso == dto.valorEstimadoProximoConcurso
      && FetchNext(net, g).numeroConcursoProximo == dto.numeroConcursoProximo
      && FetchNext(net, g).dataProximoConcurso == dto.dataProximoConcurso
  {
  }

  // ------------------------------------------------------ completion order

  /** The items in the order the tasks completed. */
  function Completed(net: NextNetwork, order: seq<GameType>): (r: seq<NextContestInfo>)
  {
    if |order| == 0 then []
    else Completed(net, order[..|order| - 1]) + [FetchNext(net, order[|order| - 1])]
  }

  /** The order the screen shows: `allCases`. */
  function Canonical(net: NextNetwork): (r: seq<NextContestInfo>)
  {
    Completed(net, AllCases)
  }

  lemma CompletedStep(net: NextNetwork, order: seq<GameType>, i: nat)
    requires i < |order|
    ensures Completed(net, order[..i + 1]) == Completed(net, order[..i]) + [FetchNext(net, order[i])]
  {
    assert order[..i + 1][..i] == order[..i];
  }

  /** In a list of images `m` of `s` under a map `f` whose images give back
      their argument, a value occurs as often as the argument it is the
      image of, and not at all if it is no image. */
  lemma {:induction false} MappedCount<T, U>(s: seq<T>, m: seq<U>, f: T -> U, arg: U -> T, x: U)
    requires |m| == |s| && forall i :: 0 <= i < |s| ==> m[i] == f(s[i])
    requires forall t :: arg(f(t)) == t
    ensures multiset(m)[x] == if x == f(arg(x)) then multiset(s)[arg(x)] else 0
  {
    if |s| > 0 {
      var n := |s| - 1;
      MappedCount(s[..n], m[..n], f, arg, x);
      assert s == s[..n] + [s[n]];
      assert m == m[..n] + [m[n]];
      assert multiset(m) == multiset(m[..n]) + multiset{m[n]};
      assert multiset(s) == multiset(s[..n]) + multiset{s[n]};
      if m[n] != x && x == f(arg(x)) {
        assert s[n] != arg(x);
      }
    }
  }

  /** The game a card is for. */
  function CardGame(info: NextContestInfo): (r: GameType)
  {
    info.game
  }

  /** An item occurs as often as its game completed, if it is that game's
      card, and not at all otherwise. */
  lemma CompletedCount(net: NextNetwork, order: seq<GameType>, x: NextContestInfo)
    ensures multiset(Completed(net, order))[x] ==
      if x == FetchNext(net, x.game) then multiset(order)[x.game] else 0
  {
    var f := (g: GameType) => FetchNext(net, g);
    forall g: GameType ensures CardGame(f(g)) == g {
      FetchNextSpec(net, g);
    }
    CompletedAt(net, order);
    MappedCount(order, Completed(net, order), f, CardGame, x);
  }

  /** The completion order does not change which items there are. */
  lemma CompletedPermutation(net: NextNetwork, a: seq<GameType>, b: seq<GameType>)
    requires multiset(a) == multiset(b)
    ensures multiset(Completed(net, a)) == multiset(Completed(net, b))
  {
    forall x ensures multiset(Completed(net, a))[x] == multiset(Completed(net, b))[x] {
      CompletedCount(net, a, x);
      CompletedCount(net, b, x);
    }
  }

  /** The sort's "comes before": `allCases` position. */
  predicate GameBefore(a: NextContestInfo, b: NextContestInfo)
  {
    CaseIndex(a.game) < CaseIndex(b.game)
  }

  lemma GameBeforeOrder()
    ensures IsStrictWeakOrder(GameBefore)
  {
  }

  /** The `i`-th completed item is the card of the `i`-th completed game. */
  lemma {:induction false} CompletedAt(net: NextNetwork, order: seq<GameType>)
    ensures |Completed(net, order)| == |order|
    ensures forall i :: 0 <= i < |order| ==> Completed(net, order)[i] == FetchNext(net, order[i])
  {
    if |order| > 0 {
      CompletedAt(net, order[..|order| - 1]);
    }
  }

  /** The canonical list has one card per game, in `allCases` order. */
  lemma CanonicalShape(net: NextNetwork)
    ensures |Canonical(net)| == |AllCases|
    ensures forall i :: 0 <= i < |AllCases| ==> Canonical(net)[i] == FetchNext(net, AllCases[i])
    ensures SortedBy(Canonical(net), GameBefore)
  {
    var c := Canonical(net);
    CompletedAt(net, AllCases);
    AllCasesExactlyOnce();
    forall i | 0 <= i < |c| ensures CaseIndex(c[i].game) == i {
      FetchNextSpec(net, AllCases[i]);
      var k := CaseIndex(AllCases[i]);
      assert AllCases[k] == AllCases[i];
    }
  }

  /** `loadedItems.sort { … }`. */
  function SortByGame(xs: seq<NextContestInfo>): (r: seq<NextContestInfo>)
    ensures multiset(r) == multiset(xs)
    ensures SortedBy(r, GameBefore)
  {
    GameBeforeOrder();
    SortBy(xs, GameBefore)
  }

  /** Whatever order the tasks completed in, sorting gives the canonical
      list: one card per game, in `allCases` order. */
  lemma SortedCompletion(net: NextNetwork, order: seq<GameType>)
    requires multiset(order) == multiset(AllCases)
    ensures SortByGame(Completed(net, order)) == Canonical(net)
  {
    var r := SortByGame(Completed(net, order));
    var c := Canonical(net);
    CompletedPermutation(net, order, AllCases);
    CanonicalShape(net);
    forall a, b | a in r && b in r && !GameBefore(a, b) && !GameBefore(b, a) ensures a == b {
      assert a in multiset(Completed(net, order)) && b in multiset(Completed(net, order));
      CompletedCount(net, order, a);
      CompletedCount(net, order, b);
      assert AllCases[CaseIndex(a.game)] == a.game && AllCases[CaseIndex(b.game)] == b.game;
    }
    SortedUnique(r, c, GameBefore);
  }

  // ------------------------------------------------------------- card texts

  const Unavailable: string := "Indisponível"

  /** `textForConcurso(_:)`. */
  function ConcursoText(numero: Option<int>): (r: string)
  {
    match numero
    case Some(n) => IntToString(n)
    case None => Unavailable
  }

  /** A missing number reads "Indisponível", and no number reads so. */
  lemma ConcursoTextSpec(numero: Option<int>)
    ensures ConcursoText(numero) == Unavailable <==> numero.None?
    ensures numero.Some? ==> ConcursoText(numero) == IntToString(numero.value)
  {
    if numero.Some? {
      IntToStringAlphabet(numero.value);
      assert Unavailable[0] == 'I';
      if |IntToString(numero.value)| > 0 {
        assert IntToString(numero.value)[0] in "0123456789-";
      }
    }
  }

  /** `formatDate(_:)`; `reformat` stands for reading and writing the date
      with the `dd/MM/yyyy` formatter. */
  function FormatDate(date: Option<string>, reformat: string -> Option<string>): (r: string)
  {
    match date
    case None => Unavailable
    case Some(s) =>
      match reformat(s)
      case Some(t) => t
      case None => Unavailable
  }

  /** A missing date, or one the formatter cannot read, reads
      "Indisponível"; otherwise the formatter's text is shown. */
  lemma FormatDateSpec(date: Option<string>, reformat: string -> Option<string>)
    ensures date.None? ==> FormatDate(date, reformat) == Unavailable
    ensures date.Some? && reformat(date.value).None? ==> FormatDate(date, reformat) == Unavailable
    ensures date.Some? && reformat(date.value).Some? ==> FormatDate(date, reformat) == reformat(date.value).value
  {
  }

  // ------------------------------------------------------------ view model

  const CacheKey: string := "next_contests_items"

  /** The task group's `for await` loop over the items as they complete. */
  method CollectAll(net: NextNetwork, order: seq<GameType>) returns (loaded: seq<NextContestInfo>)
    ensures loaded == Completed(net, order)
  {
    loaded := [];
    var i := 0;
    while i < |order|
      invariant 0 <= i <= |order|
      invariant loaded == Completed(net, order[..i])
    {
      CompletedStep(net, order, i);
      var item := FetchNext(net, order[i]);
      loaded := loaded + [item];
      i := i + 1;
    }
    assert order[..i] == order;
  }

  class NextContestsViewModel {
    var items: seq<NextContestInfo>
    var isLoading: bool
    var isFetching: bool

    constructor()
      ensures items == [] && !isLoading && !isFetching
    {
      items := [];
      isLoading := false;
      isFetching := false;
    }

    /** `load()`, with the tasks completing in `order`: the staleness check
        reads the clock at `now`, and the save after the task group reads it
        again at `savedAt`. `fetched` says whether the network was used. */
    method Load(store: Defaults, decode: Bytes -> Option<seq<NextContestInfo>>,
                encode: seq<NextContestInfo> -> Option<Bytes>, net: NextNetwork,
                order: seq<GameType>, now: int, savedAt: int)
      returns (fetched: bool)
      requires multiset(order) == multiset(AllCases)
      requires now <= savedAt
      modifies this, store
      ensures old(isFetching) ==> !fetched && unchanged(this) && unchanged(store)
      ensures !old(isFetching) ==> !isFetching && !isLoading
      ensures !old(isFetching) ==>
        var cached := Lookup(old(store.entries), CacheKey, decode);
        if cached.Some? && !ShouldRefresh(cached.value.lastUpdated, now) then
          && !fetched && items == cached.value.data && store.entries == old(store.entries)
        else
          && fetched && items == Canonical(net)
          && store.entries == (match encode(Canonical(net))
                               case None => old(store.entries)
                               case Some(bytes) => Saved(old(store.entries), CacheKey, bytes, savedAt))
    {
      if isFetching {
        return false;
      }
      isFetching := true;
      var cached := store.Load(CacheKey, decode);
      if cached.Some? {
        items := cached.value.data;
        if !ShouldRefresh(cached.value.lastUpdated, now) {
          isLoading := false;
          isFetching := false;
          return false;
        }
      }
      isLoading := true;
      var loadedItems := CollectAll(net, order);
      loadedItems := SortByGame(loadedItems);
      SortedCompletion(net, order);
      items := loadedItems;
      store.Save(loadedItems, CacheKey, encode, savedAt);
      isLoading := false;
      isFetching := false;
      return true;
    }
  }
}
