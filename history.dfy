/** The history screen: `HistoryViewModel` (the latest five draws of every
    game, cache first, sorted and filtered) and the rules `HistoryCard` uses
    to show one draw. */
module History {
  import opened Wrappers
  import opened Decimal
  import opened Text
  import opened StableSort
  import opened Filtering
  import opened Games
  import opened Cache

  // ------------------------------------------------------------- game codes

  /** The game code the results service writes in `tipoJogo`. */
  function ServiceCode(g: GameType): (r: string)
  {
    match g
    case MegaSena => "MEGA_SENA"
    case Quina => "QUINA"
    case Lotomania => "LOTOMANIA"
    case Lotofacil => "LOTOFACIL"
  }

  /** `mapTipoJogo(_:)`, and the same table in `HistoryCard.gameType`. */
  function MapTipoJogo(raw: string): (r: Option<GameType>)
  {
    var code := Upper(raw);
    if code == "MEGA_SENA" then Some(MegaSena)
    else if code == "QUINA" then Some(Quina)
    else if code == "LOTOMANIA" then Some(Lotomania)
    else if code == "LOTOFACIL" then Some(Lotofacil)
    else None
  }

  /** A code names a game exactly when, upper-cased, it is that game's
      service code. */
  lemma MapTipoJogoIff(raw: string, g: GameType)
    ensures MapTipoJogo(raw) == Some(g) <==> Upper(raw) == ServiceCode(g)
    ensures MapTipoJogo(raw).None? <==> forall h: GameType :: Upper(raw) != ServiceCode(h)
  {
    if forall h: GameType :: Upper(raw) != ServiceCode(h) {
      assert Upper(raw) != ServiceCode(MegaSena) && Upper(raw) != ServiceCode(Quina);
      assert Upper(raw) != ServiceCode(Lotomania) && Upper(raw) != ServiceCode(Lotofacil);
    }
  }

  /** Upper-casing undoes lower-casing. */
  lemma UpperOfLower(s: string)
    ensures Upper(Lower(s)) == Upper(s)
  {
  }

  /** Upper-case text is its own upper case. */
  lemma UpperOfCode(g: GameType)
    ensures Upper(ServiceCode(g)) == ServiceCode(g)
  {
    var c := ServiceCode(g);
    forall i | 0 <= i < |c| ensures UpperChar(c[i]) == c[i] {
    }
  }

  /** The mapping ignores case: the codes in any mix of cases name their
      games. */
  lemma MapTipoJogoIgnoresCase(raw: string, g: GameType)
    ensures MapTipoJogo(Lower(raw)) == MapTipoJogo(raw)
    ensures Upper(raw) == ServiceCode(g) ==> MapTipoJogo(raw) == Some(g)
    ensures MapTipoJogo(ServiceCode(g)) == Some(g) && MapTipoJogo(Lower(ServiceCode(g))) == Some(g)
  {
    UpperOfLower(raw);
    UpperOfLower(ServiceCode(g));
    UpperOfCode(g);
    MapTipoJogoIff(raw, g);
    MapTipoJogoIff(ServiceCode(g), g);
    MapTipoJogoIff(Lower(ServiceCode(g)), g);
  }

  // ---------------------------------------------------------- HistoryCard

  /** The card title: the game's display name, or the raw code when it names
      no game. */
  function CardTitle(item: LotteryResult): (r: string)
  {
    match MapTipoJogo(item.tipoJogo)
    case Some(g) => DisplayName(g)
    case None => item.tipoJogo
  }

  lemma CardTitleSpec(item: LotteryResult, g: GameType)
    ensures Upper(item.tipoJogo) == ServiceCode(g) ==> CardTitle(item) == DisplayName(g)
    ensures (forall h: GameType :: Upper(item.tipoJogo) != ServiceCode(h)) ==> CardTitle(item) == item.tipoJogo
  {
    MapTipoJogoIff(item.tipoJogo, g);
  }

  const NoDezenasText: string := "Sem dezenas disponíveis"

  /** What the card shows for the drawn numbers. */
  datatype DezenasView = BallsRow(numbersString: string) | NoDezenas

  function ShowDezenas(item: LotteryResult): (r: DezenasView)
  {
    if item.listaDezenas.Some? && |item.listaDezenas.value| > 0
    then BallsRow(Join(item.listaDezenas.value, CloverSeparator))
    else NoDezenas
  }

  /** Balls are shown exactly when the draw lists numbers; what they are
      given is the list joined by clovers, one clover fewer than numbers. */
  lemma ShowDezenasSpec(item: LotteryResult)
    requires item.listaDezenas.Some? ==>
      forall k :: 0 <= k < |item.listaDezenas.value| ==> Clover !in item.listaDezenas.value[k]
    ensures ShowDezenas(item).BallsRow? <==> item.listaDezenas.Some? && item.listaDezenas.value != []
    ensures ShowDezenas(item).BallsRow? ==>
      CountChar(ShowDezenas(item).numbersString, Clover) == |item.listaDezenas.value| - 1
  {
    if ShowDezenas(item).BallsRow? {
      CloverSeparatorCount();
      JoinSeparatorCount(item.listaDezenas.value, CloverSeparator, Clover);
    }
  }

  function AcumuladoText(acumulado: bool): (t: string)
  {
    if acumulado then "Acumulou: Sim" else "Acumulou: Não"
  }

  /** The two texts differ, so the text tells whether the prize rolled over. */
  lemma AcumuladoTextDistinct(a: bool, b: bool)
    ensures AcumuladoText(a) == AcumuladoText(b) <==> a == b
  {
    if a != b {
      assert AcumuladoText(true)[|"Acumulou: "|] != AcumuladoText(false)[|"Acumulou: "|];
    }
  }

  // ------------------------------------------------------ which contests

  /** How many earlier contests are fetched after contest `n`. */
  function PredecessorCount(n: int): (r: nat)
  {
    if n - 1 >= 4 then 4 else if n - 1 > 0 then n - 1 else 0
  }

  /** The contest numbers the inner loop asks for after the latest
      contest `n`, in request order. */
  function Predecessors(n: int): (r: seq<int>)
  {
    seq(PredecessorCount(n), k requires 0 <= k < PredecessorCount(n) => n - 1 - k)
  }

  /** The `k`-th request is for contest `n - 1 - k`: the loop's counter
      steps down by one from `n`, and stops before 0 or after four steps. */
  lemma PredecessorAt(n: int, k: nat)
    ensures |Predecessors(n)| == PredecessorCount(n) <= 4
    ensures k < PredecessorCount(n) ==> Predecessors(n)[k] == n - 1 - k
    ensures k < 4 && n - 1 - k <= 0 ==> PredecessorCount(n) <= k
    ensures n - 1 - k > 0 && k < 4 ==> k < PredecessorCount(n)
  {
  }

  /** At most four, strictly decreasing, and exactly the positive numbers
      at most four below `n`. */
  lemma PredecessorsSpec(n: int)
    ensures |Predecessors(n)| <= 4
    ensures forall i, j :: 0 <= i < j < |Predecessors(n)| ==> Predecessors(n)[i] > Predecessors(n)[j]
    ensures forall m :: m in Predecessors(n) <==> 0 < m < n && n - m <= 4
  {
    var ps := Predecessors(n);
    forall m | 0 < m < n && n - m <= 4 ensures m in ps {
      assert ps[n - 1 - m] == m;
    }
  }

  // ------------------------------------------------------------- fetching

  /** The predecessors that were fetched, in order; a failed request is
      skipped. */
  function Fetched(net: Network, g: GameType, ps: seq<int>): (r: seq<LotteryResult>)
  {
    if |ps| == 0 then []
    else Fetched(net, g, ps[..|ps| - 1]) + FetchedOne(net, g, ps[|ps| - 1])
  }

  /** What one request for contest `n` adds: its draw, or nothing when it
      fails. */
  function FetchedOne(net: Network, g: GameType, n: int): (r: seq<LotteryResult>)
  {
    match FetchResult(net, g, IntToString(n))
    case Success(r) => [r]
    case Failure(_) => []
  }

  /** One game's part of the batch: its latest draw and the predecessors
      that could be fetched, or `None` when the latest draw cannot be. */
  function GameBatch(net: Network, g: GameType): (r: Option<seq<LotteryResult>>)
  {
    match FetchLast(net, g)
    case Failure(_) => None
    case Success(last) => Some([last] + Fetched(net, g, Predecessors(last.numero)))
  }

  /** The batch for the games in order, or `None` when any game's latest draw
      cannot be fetched. */
  function Combined(net: Network, games: seq<GameType>): (r: Option<seq<LotteryResult>>)
  {
    if |games| == 0 then Some([])
    else
      match Combined(net, games[..|games| - 1])
      case None => None
      case Some(acc) =>
        match GameBatch(net, games[|games| - 1])
        case None => None
        case Some(b) => Some(acc + b)
  }

  /** A failure anywhere abandons the whole batch. */
  lemma {:induction false} CombinedFailed(net: Network, games: seq<GameType>, i: nat)
    requires i <= |games| && Combined(net, games[..i]).None?
    ensures Combined(net, games).None?
    decreases |games| - i
  {
    if i < |games| {
      assert games[..i + 1][..i] == games[..i];
      CombinedFailed(net, games, i + 1);
    } else {
      assert games[..i] == games;
    }
  }

  lemma CombinedStep(net: Network, games: seq<GameType>, i: nat)
    requires i < |games|
    ensures Combined(net, games[..i + 1]) ==
      match Combined(net, games[..i])
      case None => None
      case Some(acc) =>
        match GameBatch(net, games[i])
        case None => None
        case Some(b) => Some(acc + b)
  {
    assert games[..i + 1][..i] == games[..i];
  }

  lemma FetchedStep(net: Network, g: GameType, ps: seq<int>, i: nat)
    requires i < |ps|
    ensures Fetched(net, g, ps[..i + 1]) == Fetched(net, g, ps[..i]) + FetchedOne(net, g, ps[i])
  {
    assert ps[..i + 1][..i] == ps[..i];
  }

  /** Every fetched predecessor is the service's answer for one of the
      requested contests of that game. */
  lemma {:induction false} FetchedMembers(net: Network, g: GameType, ps: seq<int>)
    ensures forall r :: r in Fetched(net, g, ps) ==>
      exists k :: 0 <= k < |ps| && FetchResult(net, g, IntToString(ps[k])) == Success(r)
    ensures |Fetched(net, g, ps)| <= |ps|
  {
    if |ps| > 0 {
      var init := ps[..|ps| - 1];
      FetchedMembers(net, g, init);
      forall r | r in Fetched(net, g, init)
        ensures exists k :: 0 <= k < |ps| && FetchResult(net, g, IntToString(ps[k])) == Success(r)
      {
        var k :| 0 <= k < |init| && FetchResult(net, g, IntToString(init[k])) == Success(r);
        assert ps[k] == init[k];
      }
    }
  }

  /** A game's part is the latest draw, then at most four more. */
  lemma GameBatchSize(net: Network, g: GameType)
    requires GameBatch(net, g).Some?
    ensures 1 <= |GameBatch(net, g).value| <= 5
    ensures GameBatch(net, g).value[0] == FetchLast(net, g).value
  {
    var last := FetchLast(net, g).value;
    FetchedMembers(net, g, Predecessors(last.numero));
    PredecessorsSpec(last.numero);
  }

  // --------------------------------------------------------------- sorting

  /** The sort's "comes before": by game code ascending, then by contest
      number descending. */
  predicate HistoryLess(a: LotteryResult, b: LotteryResult)
  {
    if a.tipoJogo == b.tipoJogo then a.numero > b.numero else StrLess(a.tipoJogo, b.tipoJogo)
  }

  lemma HistoryLessOrder()
    ensures IsStrictWeakOrder(HistoryLess)
  {
    forall a: LotteryResult, b: LotteryResult | HistoryLess(a, b) ensures !HistoryLess(b, a) {
      if a.tipoJogo != b.tipoJogo {
        StrLessAsymmetric(a.tipoJogo, b.tipoJogo);
      }
    }
    forall a: LotteryResult, b: LotteryResult, c: LotteryResult | !HistoryLess(a, b) && !HistoryLess(b, c)
      ensures !HistoryLess(a, c)
    {
      NotHistoryLess(a, b);
      NotHistoryLess(b, c);
      if a.tipoJogo != c.tipoJogo {
        if a.tipoJogo != b.tipoJogo && b.tipoJogo != c.tipoJogo {
          StrLessTransitive(c.tipoJogo, b.tipoJogo, a.tipoJogo);
        }
        StrLessAsymmetric(c.tipoJogo, a.tipoJogo);
      }
    }
  }

  /** Not before: a later game code, or the same code and a number no
      larger. */
  lemma NotHistoryLess(a: LotteryResult, b: LotteryResult)
    ensures !HistoryLess(a, b) <==>
      (a.tipoJogo == b.tipoJogo && a.numero <= b.numero) ||
      (a.tipoJogo != b.tipoJogo && StrLess(b.tipoJogo, a.tipoJogo))
  {
    StrLessTotal(a.tipoJogo, b.tipoJogo);
    if StrLess(b.tipoJogo, a.tipoJogo) {
      StrLessAsymmetric(b.tipoJogo, a.tipoJogo);
    }
  }

  /** `combined.sort { … }`. */
  function SortResults(xs: seq<LotteryResult>): (r: seq<LotteryResult>)
    ensures multiset(r) == multiset(xs)
  {
    HistoryLessOrder();
    SortBy(xs, HistoryLess)
  }

  /** After the sort, game codes ascend, and within one game the contest
      numbers descend. */
  lemma SortResultsOrder(xs: seq<LotteryResult>)
    ensures var r := SortResults(xs);
      forall i, j :: 0 <= i < j < |r| ==>
        StrLess(r[i].tipoJogo, r[j].tipoJogo) ||
        (r[i].tipoJogo == r[j].tipoJogo && r[i].numero >= r[j].numero)
  {
    var r := SortResults(xs);
    HistoryLessOrder();
    forall i, j | 0 <= i < j < |r|
      ensures StrLess(r[i].tipoJogo, r[j].tipoJogo) || (r[i].tipoJogo == r[j].tipoJogo && r[i].numero >= r[j].numero)
    {
      assert !HistoryLess(r[j], r[i]);
      NotHistoryLess(r[j], r[i]);
    }
  }

  // ------------------------------------------------------------- filtering

  /** `mapTipoJogo($0.tipoJogo) == game`. */
  function GameTest(g: GameType): (r: LotteryResult -> bool)
  {
    (r: LotteryResult) => MapTipoJogo(r.tipoJogo) == Some(g)
  }

  /** `"\($0.numero)".contains(query)`. */
  function QueryTest(q: string): (r: LotteryResult -> bool)
  {
    (r: LotteryResult) => Contains(IntToString(r.numero), q)
  }

  /** What `applyFilters()` makes of the list and the two filters. */
  function Filtered(all: seq<LotteryResult>, selected: Option<GameType>, contestQuery: string): (r: seq<LotteryResult>)
  {
    var byGame := if selected.Some? then Filter(all, GameTest(selected.value)) else all;
    var query := Trim(contestQuery, Whitespaces);
    if |query| > 0 then Filter(byGame, QueryTest(query)) else byGame
  }

  /** Whether one draw passes both filters. */
  predicate Passes(r: LotteryResult, selected: Option<GameType>, contestQuery: string)
  {
    && (selected.Some? ==> MapTipoJogo(r.tipoJogo) == selected)
    && (|Trim(contestQuery, Whitespaces)| > 0 ==> Contains(IntToString(r.numero), Trim(contestQuery, Whitespaces)))
  }

  /** The filter keeps exactly the draws that pass. */
  lemma FilteredMembers(all: seq<LotteryResult>, selected: Option<GameType>, contestQuery: string)
    ensures forall r :: r in Filtered(all, selected, contestQuery) <==> r in all && Passes(r, selected, contestQuery)
    ensures |Filtered(all, selected, contestQuery)| <= |all|
  {
    var byGame := if selected.Some? then Filter(all, GameTest(selected.value)) else all;
    if selected.Some? {
      FilterMembers(all, GameTest(selected.value));
    }
    var query := Trim(contestQuery, Whitespaces);
    if |query| > 0 {
      FilterMembers(byGame, QueryTest(query));
    }
  }

  /** The filter keeps the list's order: it splits over concatenation. */
  lemma FilteredAppend(a: seq<LotteryResult>, b: seq<LotteryResult>, selected: Option<GameType>, contestQuery: string)
    ensures Filtered(a + b, selected, contestQuery) == Filtered(a, selected, contestQuery) + Filtered(b, selected, contestQuery)
  {
    var query := Trim(contestQuery, Whitespaces);
    if selected.Some? {
      var p := GameTest(selected.value);
      FilterAppend(a, b, p);
      if |query| > 0 {
        FilterAppend(Filter(a, p), Filter(b, p), QueryTest(query));
      }
    } else if |query| > 0 {
      FilterAppend(a, b, QueryTest(query));
    }
  }

  /** No game and a blank query keep everything. */
  lemma FilteredNoFilters(all: seq<LotteryResult>, contestQuery: string)
    requires |Trim(contestQuery, Whitespaces)| == 0
    ensures Filtered(all, None, contestQuery) == all
  {
  }

  /** Filtering the filtered list again changes nothing. */
  lemma FilteredIdempotent(all: seq<LotteryResult>, selected: Option<GameType>, contestQuery: string)
    ensures Filtered(Filtered(all, selected, contestQuery), selected, contestQuery) == Filtered(all, selected, contestQuery)
  {
    var query := Trim(contestQuery, Whitespaces);
    if selected.Some? {
      var p := GameTest(selected.value);
      if |query| > 0 {
        var q := QueryTest(query);
        FilterIdempotent(Filter(all, p), q);
        FilterTwice(Filter(all, p), q, p);
        FilterTwice(all, p, q);
        FilterSwap(all, p, q);
      } else {
        FilterIdempotent(all, p);
      }
    } else if |query| > 0 {
      FilterIdempotent(all, QueryTest(query));
    }
  }

  /** The two filters can be applied in either order. */
  lemma FilterSwap(xs: seq<LotteryResult>, p: LotteryResult -> bool, q: LotteryResult -> bool)
    ensures Filter(Filter(Filter(xs, p), q), p) == Filter(Filter(xs, p), q)
  {
    var r := Filter(Filter(xs, p), q);
    FilterMembers(xs, p);
    FilterMembers(Filter(xs, p), q);
    forall i | 0 <= i < |r| ensures p(r[i]) {
      var x := r[i];
      assert x in Filter(Filter(xs, p), q);
      assert x in Filter(xs, p);
    }
    FilterAll(r, p);
  }

  // -------------------------------------------------------- the view model

  const CacheKey: string := "history_results_cache"

  /** One request in `loadInitial()`'s inner loop: a failure is skipped. */
  method FetchOne(net: Network, g: GameType, n: int) returns (more: seq<LotteryResult>)
    ensures more == FetchedOne(net, g, n)
  {
    var result := FetchResult(net, g, IntToString(n));
    if result.Success? {
      more := [result.value];
    } else {
      more := [];
    }
  }

  /** `loadInitial()`'s inner loop after the latest contest `n`. */
  method FetchPredecessors(net: Network, g: GameType, n: int) returns (fetched: seq<LotteryResult>)
    ensures fetched == Fetched(net, g, Predecessors(n))
  {
    ghost var ps := Predecessors(n);
    fetched := [];
    var currentNumber := n;
    var t := 1;
    while t < 5
      invariant 1 <= t <= 5 && currentNumber == n - (t - 1)
      invariant t - 1 <= |ps|
      invariant fetched == Fetched(net, g, ps[..t - 1])
    {
      currentNumber := currentNumber - 1;
      PredecessorAt(n, t - 1);
      if !(currentNumber > 0) {
        break;
      }
      FetchedStep(net, g, ps, t - 1);
      var more := FetchOne(net, g, currentNumber);
      fetched := fetched + more;
      t := t + 1;
    }
    PredecessorAt(n, t - 1);
    assert ps[..t - 1] == ps;
  }

  /** The requests for one game: the latest draw, then its predecessors. */
  method FetchGame(net: Network, g: GameType) returns (r: Option<seq<LotteryResult>>)
    ensures r == GameBatch(net, g)
  {
    var lastResult := FetchLast(net, g);
    if lastResult.Failure? {
      return None;
    }
    var last := lastResult.value;
    var fetched := FetchPredecessors(net, g, last.numero);
    return Some([last] + fetched);
  }

  /** The outer loop over the games. */
  method FetchAll(net: Network) returns (r: Option<seq<LotteryResult>>)
    ensures r == Combined(net, AllCases)
  {
    var games := AllCases;
    var combined: seq<LotteryResult> := [];
    var i := 0;
    while i < |games|
      invariant 0 <= i <= |games|
      invariant Combined(net, games[..i]) == Some(combined)
    {
      CombinedStep(net, games, i);
      var batch := FetchGame(net, games[i]);
      if batch.None? {
        CombinedFailed(net, games, i + 1);
        return None;
      }
      combined := combined + batch.value;
      i := i + 1;
    }
    assert games[..i] == games;
    return Some(combined);
  }

  class HistoryViewModel {
    var allResults: seq<LotteryResult>
    var filteredResults: seq<LotteryResult>
    var isLoading: bool
    var selectedGame: Option<GameType>
    var contestQuery: string
    var isFetching: bool

    constructor()
      ensures allResults == [] && filteredResults == [] && !isLoading
      ensures selectedGame == None && contestQuery == "" && !isFetching
    {
      allResults := [];
      filteredResults := [];
      isLoading := false;
      selectedGame := None;
      contestQuery := "";
      isFetching := false;
    }

    /** `loadInitial()`: the staleness check reads the clock at `now`, and
        the save after the fetches reads it again at `savedAt`. `fetched`
        says whether the network was used. */
    method LoadInitial(store: Defaults, decode: Bytes -> Option<seq<LotteryResult>>,
                       encode: seq<LotteryResult> -> Option<Bytes>, net: Network,
                       now: int, savedAt: int)
      returns (fetched: bool)
      requires now <= savedAt
      modifies this, store
      ensures old(isFetching) ==> !fetched && unchanged(this) && unchanged(store)
      ensures !old(isFetching) ==>
        && !isFetching && !isLoading
        && selectedGame == old(selectedGame) && contestQuery == old(contestQuery)
      ensures !old(isFetching) ==>
        var cached := Lookup(old(store.entries), CacheKey, decode);
        if cached.Some? && !ShouldRefresh(cached.value.lastUpdated, now) then
          && !fetched
          && allResults == cached.value.data && filteredResults == cached.value.data
          && store.entries == old(store.entries)
        else
          && fetched
          && match Combined(net, AllCases)
             case None =>
               && allResults == (if cached.Some? then cached.value.data else old(allResults))
               && filteredResults == (if cached.Some? then cached.value.data else old(filteredResults))
               && store.entries == old(store.entries)
             case Some(c) =>
               var sorted := SortResults(c);
               && allResults == sorted && filteredResults == sorted
               && store.entries == (match encode(sorted)
                                    case None => old(store.entries)
                                    case Some(bytes) => Saved(old(store.entries), CacheKey, bytes, savedAt))
    {
      if isFetching {
        return false;
      }
      isFetching := true;
      isLoading := true;
      var cached := store.Load(CacheKey, decode);
      if cached.Some? {
        allResults := cached.value.data;
        filteredResults := cached.value.data;
        if !ShouldRefresh(cached.value.lastUpdated, now) {
          isLoading := false;
          isFetching := false;
          return false;
        }
      }
      var combined := FetchAll(net);
      if combined.Some? {
        var sorted := SortResults(combined.value);
        allResults := sorted;
        filteredResults := sorted;
        store.Save(sorted, CacheKey, encode, savedAt);
      }
      isLoading := false;
      isFetching := false;
      return true;
    }

    /** `applyFilters()`. */
    method ApplyFilters()
      modifies this
      ensures filteredResults == Filtered(allResults, selectedGame, contestQuery)
      ensures allResults == old(allResults) && selectedGame == old(selectedGame)
      ensures contestQuery == old(contestQuery)
      ensures isLoading == old(isLoading) && isFetching == old(isFetching)
    {
      var results := allResults;
      if selectedGame.Some? {
        results := Filter(results, GameTest(selectedGame.value));
      }
      var query := Trim(contestQuery, Whitespaces);
      if |query| > 0 {
        results := Filter(results, QueryTest(query));
      }
      filteredResults := results;
    }

    /** `clearFilters()`: both filters off and the whole list shown, which is
        what `applyFilters()` would show. */
    method ClearFilters()
      modifies this
      ensures selectedGame == None && contestQuery == ""
      ensures filteredResults == allResults
      ensures filteredResults == Filtered(allResults, selectedGame, contestQuery)
      ensures allResults == old(allResults)
      ensures isLoading == old(isLoading) && isFetching == old(isFetching)
    {
      selectedGame := None;
      contestQuery := "";
      filteredResults := allResults;
      assert Trim("", Whitespaces) == "";
      FilteredNoFilters(allResults, "");
    }

    /** A choice in the game menu (`None` for "Todos"): the filters are
        applied again only when the choice changes it. */
    method SelectGame(choice: Option<GameType>)
      modifies this
      ensures selectedGame == choice
      ensures choice != old(selectedGame) ==> filteredResults == Filtered(allResults, choice, contestQuery)
      ensures choice == old(selectedGame) ==> filteredResults == old(filteredResults)
      ensures allResults == old(allResults) && contestQuery == old(contestQuery)
      ensures isLoading == old(isLoading) && isFetching == old(isFetching)
    {
      var changed := choice != selectedGame;
      selectedGame := choice;
      if changed {
        ApplyFilters();
      }
    }

    /** An edit of the contest field: the filters are applied again only
        when the text changes. */
    method SetQuery(text: string)
      modifies this
      ensures contestQuery == text
      ensures text != old(contestQuery) ==> filteredResults == Filtered(allResults, selectedGame, text)
      ensures text == old(contestQuery) ==> filteredResults == old(filteredResults)
      ensures allResults == old(allResults) && selectedGame == old(selectedGame)
      ensures isLoading == old(isLoading) && isFetching == old(isFetching)
    {
      var changed := text != contestQuery;
      contestQuery := text;
      if changed {
        ApplyFilters();
      }
    }
  }
}
