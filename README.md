# PlayTheLottery in Dafny

A model of the rules inside the PlayTheLottery iOS app. The app suggests
numbers for four Brazilian lotteries (Mega-Sena, Quina, Lotomania and
Lotofácil). It also shows recent and upcoming draws, keeps favourite
tickets, and unlocks premium hints for ten minutes after a rewarded ad.
The model has one Dafny module per component of the app:

- `Tickets` draws a ticket. It collects distinct two-digit numbers by
  rejection sampling, renders 100 as `"00"`, sorts the ticket and moves
  `"00"` to the end. `ContentView` is the older screen: it draws a
  `Set<Int>`, lists the set as unpadded numbers joined by `" 🍀 "`, and
  builds the WhatsApp share link. It also sets the generator parameters
  for each game's button.
- `Cache` is `SimpleCache`. It decides when cached data is stale (saved
  before today, or before 22:00 once it is past 22:00). It also saves and
  loads a value and its time stamp in a key-value store.
- `Favorites` is `FavoriteNumbersService`: a list of saved tickets. Adding
  and removing keep a list without a repeated (game, numbers) pair free of
  repeats.
- `FavoritesView` is the favourites screen: ball image names, the game
  logo table, and the confirm-before-delete flow.
- `Games` holds the `GameType` enum, the draw result record, and how the
  results service checks its response and builds its URL.
- `History` is the history screen. It reads game codes in any case. For
  each game it fetches the latest draw and up to four before it, sorts by
  game code and then by contest number descending, filters by game and by
  a contest-number substring, and goes to the cache first.
- `NextContests` is the next-contests screen. It goes to the cache first
  and fetches one card per game. A failed request becomes a placeholder
  card. The cards are put back in `allCases` order whatever order the
  requests finished in. The module also models the coded form of a card.
- `Balls` parses a `"12 🍀 7 🍀 33"` text into numbers and chooses the
  ball row layout.
- `MainMenu` holds the premium-hint countdown and the rules for disabling
  the two buttons.

The shared modules are:

- `Decimal`: `String(n)`, `%02d` and `Int(String)`.
- `Text`: trim, split, join, ASCII case and substring.
- `Sorting` and `StableSort`: sorting and its uniqueness.
- `Filtering`: `filter`.
- `Wrappers`: `Option` and `Result`.

Where the source changes state, the model does too:

- Generating a ticket, fetching and the history loops are methods with
  loops. Each method is proved equal to a specification function, and
  the properties are proved about that function.
- Screens and services are classes whose methods say what their new
  fields are.

Outside state is passed in as parameters:

- The random source is a sequence of draws.
- The clock is a time `now` in whole seconds.
- The network is a function from a URL to the answer it gets.
- The user-defaults store is a `Defaults` object holding a map of entries.
- The JSON coding is a pair of `encode`/`decode` functions.

The app has three copies of `SimpleCache`, in
`PlayTheLottery.xcodeproj/SimpleCache.swift`, `HistoryViewModel.swift` and
`NextContestsView.swift`. They are the same code, so they are modelled
once in `Cache`.

## Model

| member | source | states |
|---|---|---|
| Tickets.RandomLottoNumberGenerator | PlayTheLottery/GeneratingNumbers/View/LottoGameKit.swift:10-26 | The loop keeps `\|result\| + numbers == total`, and `result` holds the distinct renderings of the draws so far. It returns the `Ticket` of the draws, or `None` when the draws run out first (the real loop would not end). |
| Tickets.TicketShape | PlayTheLottery/GeneratingNumbers/View/LottoGameKit.swift:11-24 | A ticket has exactly `total` pairwise distinct strings. Each is the rendering of a drawn value in `[1, maxNumber]`. `"00"` occurs at most once and only last, the strings before it are strictly ascending, and with `maxNumber < 100` there is no `"00"`. |
| Tickets.TicketMembers | PlayTheLottery/GeneratingNumbers/View/LottoGameKit.swift:14-16 | Every string on the ticket is the rendering of one of the draws. |
| Tickets.TicketNumericOrder | PlayTheLottery/GeneratingNumbers/View/LottoGameKit.swift:21 | The text order before a trailing `"00"` is the numeric order of the drawn values. |
| Tickets.TicketNeedsEnoughNumbers | PlayTheLottery/GeneratingNumbers/View/LottoGameKit.swift:13-20 | There is no bound check: with `total > maxNumber` the loop never collects enough, whatever the draws. |
| Tickets.RenderZeroZero | PlayTheLottery/GeneratingNumbers/View/LottoGameKit.swift:15 | Among drawable values, exactly 100 renders as `"00"`. |
| Tickets.RenderInjective | PlayTheLottery/GeneratingNumbers/View/LottoGameKit.swift:15 | Different drawable values render differently, so a set of renderings is a set of values. |
| Tickets.RenderOrder | PlayTheLottery/GeneratingNumbers/View/LottoGameKit.swift:15 | Below 100, the text order of two renderings is their numeric order, in both directions. |
| Tickets.DistinctRenders | PlayTheLottery/GeneratingNumbers/View/LottoGameKit.swift:16-19 | What the set insertions collect: no duplicates and at most one per draw. |
| Tickets.DistinctRendersMembers | PlayTheLottery/GeneratingNumbers/View/LottoGameKit.swift:16 | Every draw's rendering is collected, and nothing else is. |
| Tickets.DistinctRendersStep | PlayTheLottery/GeneratingNumbers/View/LottoGameKit.swift:16-19 | A new draw appends its rendering exactly when the insertion reports it fresh, and changes nothing otherwise. |
| Tickets.DistinctRendersPrefix | PlayTheLottery/GeneratingNumbers/View/LottoGameKit.swift:13-20 | Later draws only add to what earlier draws collected. |
| Tickets.CollectedAll | PlayTheLottery/GeneratingNumbers/View/LottoGameKit.swift:13-20 | When the loop stops after `i` draws with `total` strings, it has the first `total` distinct renderings of the whole draw sequence. |
| Tickets.MoveLast | PlayTheLottery/GeneratingNumbers/View/LottoGameKit.swift:22-24 | `remove(at:)` then `append` at the first index of `x` gives `MoveToEnd`. |
| Tickets.FirstIndexOf | PlayTheLottery/GeneratingNumbers/View/LottoGameKit.swift:22 | `firstIndex(of:)` is `nil` exactly when `x` is absent; otherwise it is the first position holding `x`. |
| Tickets.MoveToEndShape | PlayTheLottery/GeneratingNumbers/View/LottoGameKit.swift:22-24 | Moving a present `x` out of a strictly ascending list to the end keeps the rest strictly ascending and free of `x`, with `x` last. |
| Tickets.ArrangePermutation | PlayTheLottery/GeneratingNumbers/View/LottoGameKit.swift:21-24 | Sorting and moving `"00"` keeps the same strings, each once. |
| Tickets.ArrangeZeroZeroLast | PlayTheLottery/GeneratingNumbers/View/LottoGameKit.swift:22-24 | A drawn `"00"` comes last; everything before it is strictly ascending and is not `"00"`. |
| Tickets.ArrangeNoZeroZero | PlayTheLottery/GeneratingNumbers/View/LottoGameKit.swift:21 | Without `"00"` the ticket is the sorted set, strictly ascending. |
| Tickets.ArrangeShape | PlayTheLottery/GeneratingNumbers/View/LottoGameKit.swift:21-24 | Every arrangement has `"00"` at most once and then last, and the strings before it are strictly ascending. |
| ContentView.RandomNumberSet | PlayTheLottery/ContentView.swift:22-35 | The loop keeps `\|result\| + numbers == total`, and `result` holds the distinct draws so far. It returns `DrawnSet`, or `None` when the draws run out. |
| ContentView.DrawnSet | PlayTheLottery/ContentView.swift:22-35 | A completed set has exactly `total` different numbers. |
| ContentView.DrawnSetShape | PlayTheLottery/ContentView.swift:22-35 | The set has `total` different numbers, each a draw in `[1, maxNumber]`. |
| ContentView.DrawnSetNeedsEnoughNumbers | PlayTheLottery/ContentView.swift:26-33 | With `total > maxNumber` the loop never ends. |
| ContentView.SetToStringPieces | PlayTheLottery/ContentView.swift:37-40 | The text is the ascending numbers as unpadded decimals, joined by `" 🍀 "`. |
| ContentView.SetToStringSeparators | PlayTheLottery/ContentView.swift:38 | An n-element set gives n - 1 clovers, and only the empty set gives `""`. |
| ContentView.DecimalNoClover | PlayTheLottery/ContentView.swift:38 | No decimal holds a clover, so the clovers are exactly the separators. |
| ContentView.SetToStringOrderFree | PlayTheLottery/ContentView.swift:37-40 | The text does not depend on the order the set is iterated in. |
| ContentView.WhatsAppTextParts | PlayTheLottery/ContentView.swift:43-44 | The link is `"whatsapp://send?text="`, then `"Os números gerados para "`, the game, `" foram: "` and the message. Two links for the same game agree only when their messages do. |
| ContentView.TapConfigSound | PlayTheLottery/ContentView.swift:67-119 | Each button asks for 6/60, 15/25, 5/80 or 50/100 numbers, so `0 < total <= maxNumber`, under the game's display name. |
| ContentView.TapDrawsEnough | PlayTheLottery/ContentView.swift:67-119 | When the draws hold `total` distinct numbers, a button's call ends with a set of `total` numbers in range. |
| ContentView.ContentViewState.constructor | PlayTheLottery/ContentView.swift:12-16 | The screen's initial `@State` values. |
| ContentView.ContentViewState.Tap | PlayTheLottery/ContentView.swift:67-74 | A tap flips `generateNumbers`. When the generator ends, it sets the message to the set's text, the game name, the share button and the alert; otherwise nothing else changes. |
| ContentView.ContentViewState.ShareViaWhatsApp | PlayTheLottery/ContentView.swift:42-53 | When WhatsApp can open the link, the link is opened and sharing is switched off; otherwise nothing changes. |
| Cache.ShouldRefreshPoint | PlayTheLottery.xcodeproj/SimpleCache.swift:20-37 | Data is stale exactly when it was saved before the latest refresh point, which is today's 22:00 once it has passed and today's midnight before that. |
| Cache.RefreshPreviousDay | PlayTheLottery.xcodeproj/SimpleCache.swift:22-23 | Anything saved before today is stale. |
| Cache.RefreshAfterTenPM | PlayTheLottery.xcodeproj/SimpleCache.swift:32-35 | From 22:00 on, anything saved before 22:00 today is stale. |
| Cache.FreshBeforeTenPM | PlayTheLottery/HistoryViewModel.swift:22-37 | Before 22:00, anything saved today is fresh. |
| Cache.FreshSinceTenPM | NextContestsView.swift:19-34 | Anything saved at or after today's 22:00 is fresh. |
| Cache.FreshWhenJustSaved | PlayTheLottery.xcodeproj/SimpleCache.swift:8 | A value stamped now is fresh now. |
| Cache.RefreshMonotonic | PlayTheLottery.xcodeproj/SimpleCache.swift:20-37 | An older save is at least as stale as a newer one. |
| Cache.DistantPastIsStale | PlayTheLottery.xcodeproj/SimpleCache.swift:16 | A value without a time stamp (`distantPast`) is stale at any time after the first day of year 1. |
| Cache.StartOfDay | PlayTheLottery.xcodeproj/SimpleCache.swift:22 | `startOfDay(for:)` is the midnight at or before `t`, less than a day earlier. |
| Cache.StartOfDayUnique | PlayTheLottery.xcodeproj/SimpleCache.swift:22 | That midnight is the only one in the day. |
| Cache.LastRefreshPoint | PlayTheLottery.xcodeproj/SimpleCache.swift:22-35 | The latest refresh point is never after `now`. |
| Cache.StampKey | PlayTheLottery.xcodeproj/SimpleCache.swift:8 | The time stamp key `key + ":lastUpdated"` differs from the data key. |
| Cache.Lookup | PlayTheLottery.xcodeproj/SimpleCache.swift:12-18 | `load` gives nothing without data or when decoding fails. Otherwise it gives the decoded value, with the stored date, or `distantPast` when there is none. |
| Cache.LookupSaved | PlayTheLottery.xcodeproj/SimpleCache.swift:4-18 | Loading what was just saved gives the value back, stamped now and so fresh. |
| Cache.SavedOtherKeys | PlayTheLottery.xcodeproj/SimpleCache.swift:7-8 | Saving writes only the key and its time stamp key. |
| Cache.Defaults.constructor | PlayTheLottery.xcodeproj/SimpleCache.swift:4-18 | An empty store. |
| Cache.Defaults.Save | PlayTheLottery.xcodeproj/SimpleCache.swift:4-10 | When encoding succeeds, the store gets the bytes under the key and `now` under the time stamp key; when it fails, nothing changes. |
| Cache.Defaults.Load | PlayTheLottery.xcodeproj/SimpleCache.swift:12-18 | It returns `Lookup` of the store. |
| Favorites.IsFavoritedIff | FavoriteNumbersService.swift:28-30 | `isFavorited` holds exactly when some entry has that game and those numbers. |
| Favorites.AddedSpec | FavoriteNumbersService.swift:32-37 | Adding a saved pair changes nothing. Adding a new pair appends exactly that entry and keeps the earlier entries. Either way the pair is then saved. |
| Favorites.AddedUnique | FavoriteNumbersService.swift:33 | Adding keeps every (game, numbers) pair at most once. |
| Favorites.RemovedSpec | FavoriteNumbersService.swift:39-42 | After removal the pair is not saved, and removing an absent pair changes nothing. |
| Favorites.RemovedMembers | FavoriteNumbersService.swift:40 | The entries kept are exactly the listed entries that do not match. |
| Favorites.RemovedAppend | FavoriteNumbersService.swift:40 | Removal splits over concatenation, so the kept entries stay in their order. |
| Favorites.RemovedNone | FavoriteNumbersService.swift:40 | A list without the pair is kept whole. |
| Favorites.RemovedUnique | FavoriteNumbersService.swift:40 | Removal keeps every pair at most once. |
| Favorites.FilterUnique | FavoriteNumbersService.swift:40 | Dropping entries cannot create a repeated pair. |
| Favorites.RemoveAll | FavoriteNumbersService.swift:40 | `removeAll(where:)` as a loop computes `Removed`. |
| Favorites.DisplayStringRoundTrip | FavoriteNumbersService.swift:11-13 | Splitting the display string on the clover and trimming gives the numbers back. |
| Favorites.FavoriteNumbersService.constructor | FavoriteNumbersService.swift:24-26 | `init()` loads once: the decoded list, or empty when nothing decodes. |
| Favorites.FavoriteNumbersService.Load | FavoriteNumbersService.swift:44-51 | Only the first call reads: it takes the decoded list, and a failed decode keeps the old list. Later calls change nothing. |
| Favorites.FavoriteNumbersService.AddFavorite | FavoriteNumbersService.swift:32-37 | The list becomes `Added`, and a new pair is written to the store. A list without repeated (game, numbers) pairs stays so. |
| Favorites.FavoriteNumbersService.RemoveFavorite | FavoriteNumbersService.swift:39-42 | The list becomes `Removed`, and it is written to the store. A list without repeated (game, numbers) pairs stays so. |
| Favorites.FavoriteNumbersService.Save | FavoriteNumbersService.swift:53-57 | The store holds the current list. |
| FavoritesView.BallAssetNameSpec | FavoriteNumbersView.swift:13-19 | A trimmed text that parses gives `"ball_"` and the number without leading zeros. Any other text gives `"ball_"` and the trimmed text. |
| FavoritesView.BallAssetOfTicketNumber | FavoriteNumbersView.swift:13-16 | A ticket's rendering of `v` gets the ball the row views use for `v`, for instance `"07"` gets `ball_7`. `"00"` gets `ball_0`. |
| FavoritesView.Pad2Trimmed | FavoriteNumbersView.swift:14 | A `%02d` rendering has nothing to trim. |
| FavoritesView.LogoForSpec | FavoriteNumbersView.swift:26-39 | Every logo found is some game's `logoAssetName`, and there is none exactly for texts outside the eight spellings. |
| FavoritesView.LogoForRawValues | FavoriteNumbersView.swift:26-39 | Each game's raw value gets that game's logo. |
| FavoritesView.LogoForFoldedNames | FavoriteNumbersView.swift:26-39 | Each display name, normalized, gets that game's logo. |
| FavoritesView.LowerDisplayName | FavoriteNumbersView.swift:22 | Lower-casing a display name gives its lower-case spelling, which has nothing to trim. |
| FavoritesView.DisplayNameLogo | FavoriteNumbersView.swift:21-39 | Under a folding that only strips the accent from `"lotofácil"`, every display name gets its own game's logo. |
| FavoritesView.FavoriteNumbersScreen.constructor | FavoriteNumbersView.swift:5 | Nothing is pending at first. |
| FavoritesView.FavoriteNumbersScreen.Swipe | FavoriteNumbersView.swift:111-117 | A swipe makes the entry pending and shows the alert. |
| FavoritesView.FavoriteNumbersScreen.Cancel | FavoriteNumbersView.swift:128-136 | Cancelling clears the pending entry and hides the alert. |
| FavoritesView.FavoriteNumbersScreen.Confirm | FavoriteNumbersView.swift:137-140 | "Excluir" removes the pending entry's game and numbers from the service, which then no longer holds the pair, and clears the pending entry. |
| Games.AllCasesExactlyOnce | PlayTheLottery/HistoryService.swift:19-24 | `allCases` has four games, each exactly once. |
| Games.CaseIndex | PlayTheLottery/HistoryService.swift:19-24 | Each game's position in `allCases`. |
| Games.FromRawValue | PlayTheLottery/HistoryService.swift:19-23 | `GameType(rawValue:)` only gives a game whose raw value is the text. |
| Games.RawValueRoundTrip | PlayTheLottery/HistoryService.swift:20-23 | A raw value gives its game back, and only raw values give a game. |
| Games.NamesDistinct | PlayTheLottery/HistoryService.swift:19-43 | Raw values, display names and logo names are each pairwise distinct. |
| Games.RawValueNoSlash | PlayTheLottery/HistoryService.swift:20-23 | Each raw value is a single path segment. |
| Games.IdInjective | PlayTheLottery/HistoryService.swift:4 | For game codes without a dash, the `id` determines the game code and the contest number. |
| Games.ResultUrlInjective | PlayTheLottery/HistoryService.swift:50 | The URL `base/rawValue/contest` determines the game and the contest. |
| Games.CheckResponse | PlayTheLottery/HistoryService.swift:51-56 | A 2xx answer that decodes gives the draw. A status outside `[200, 300)` is a bad server response, and transport errors pass through. |
| Games.FetchLastRequest | PlayTheLottery/HistoryService.swift:59-61 | `fetchLast` asks `base/rawValue/ultimo` and gets that answer, checked. |
| History.MapTipoJogoIff | PlayTheLottery/HistoryViewModel.swift:53-61 | A code names game `g` exactly when, upper-cased, it is `g`'s code, and it names none exactly when it is none of the four. |
| History.MapTipoJogoIgnoresCase | PlayTheLottery/HistoryViewModel.swift:54 | The mapping gives the same game for any mix of cases. |
| History.UpperOfLower | PlayTheLottery/HistoryViewModel.swift:54 | Upper-casing ignores an earlier lower-casing. |
| History.UpperOfCode | PlayTheLottery/HistoryViewModel.swift:55-58 | The four codes are upper case already. |
| History.CardTitleSpec | HistoryView.swift:105-133 | The card of a mapped code shows the game's display name. The card of an unmapped code shows the code itself. |
| History.ShowDezenasSpec | HistoryView.swift:138-145 | Balls show exactly when the draw lists at least one number, and otherwise "Sem dezenas disponíveis" shows. The text handed to the balls has one clover fewer than there are numbers. |
| History.AcumuladoTextDistinct | HistoryView.swift:151 | "Acumulou: Sim" and "Acumulou: Não" tell the two cases apart. |
| History.PredecessorAt | PlayTheLottery/HistoryViewModel.swift:82-92 | The inner loop's `k`-th request is for contest `n - 1 - k`. It stops at the first non-positive number, and there are at most four requests. |
| History.PredecessorsSpec | PlayTheLottery/HistoryViewModel.swift:82-92 | The requested predecessors are at most four and strictly decreasing. They are exactly the positive contests at most four below `n`. |
| History.FetchedMembers | PlayTheLottery/HistoryViewModel.swift:86-91 | Each kept predecessor is the service's answer for one requested contest, and failures are skipped. |
| History.FetchedStep | PlayTheLottery/HistoryViewModel.swift:86-91 | One more request adds its draw, or nothing when it fails. |
| History.GameBatchSize | PlayTheLottery/HistoryViewModel.swift:80-92 | A game's part starts with the latest draw and has one to five draws. |
| History.CombinedFailed | PlayTheLottery/HistoryViewModel.swift:77-80 | A failed `fetchLast` for any game abandons the whole batch. |
| History.CombinedStep | PlayTheLottery/HistoryViewModel.swift:79-93 | The outer loop adds one game's part at a time. |
| History.HistoryLessOrder | PlayTheLottery/HistoryViewModel.swift:94-99 | The sort's comparison is a strict weak order. |
| History.NotHistoryLess | PlayTheLottery/HistoryViewModel.swift:94-99 | A draw does not come before another exactly when its code is later, or the codes are equal and its number is not greater. |
| History.SortResults | PlayTheLottery/HistoryViewModel.swift:94-99 | The sort keeps the same draws. |
| History.SortResultsOrder | PlayTheLottery/HistoryViewModel.swift:94-99 | After the sort, game codes ascend, and within a game the contest numbers descend. |
| History.FilteredMembers | PlayTheLottery/HistoryViewModel.swift:108-121 | The filter keeps exactly the draws that match the selected game, if any, and whose number contains the trimmed query, if it is not blank. |
| History.FilteredAppend | PlayTheLottery/HistoryViewModel.swift:108-121 | The filter splits over concatenation, so it keeps the list's order. |
| History.FilteredNoFilters | PlayTheLottery/HistoryViewModel.swift:111-118 | No game and a blank query keep the whole list. |
| History.FilteredIdempotent | PlayTheLottery/HistoryViewModel.swift:108-121 | Filtering the filtered list again changes nothing. |
| History.FilterSwap | PlayTheLottery/HistoryViewModel.swift:111-118 | Applying the game filter again after both filters changes nothing. |
| History.FetchOne | PlayTheLottery/HistoryViewModel.swift:86-91 | One predecessor request gives `FetchedOne`. |
| History.FetchPredecessors | PlayTheLottery/HistoryViewModel.swift:82-92 | The inner loop, with its `currentNumber -= 1` and `break`, fetches `Fetched` of `Predecessors(n)`. |
| History.FetchGame | PlayTheLottery/HistoryViewModel.swift:80-92 | One pass of the outer loop gives `GameBatch`. |
| History.FetchAll | PlayTheLottery/HistoryViewModel.swift:78-93 | The outer loop over the four games gives `Combined` of `allCases`. |
| History.HistoryViewModel.constructor | PlayTheLottery/HistoryViewModel.swift:42-51 | Empty lists and no filters. |
| History.HistoryViewModel.LoadInitial | PlayTheLottery/HistoryViewModel.swift:63-106 | While a load is running nothing happens. Fresh cached data is shown without fetching. A failed batch keeps what was shown, cached data included. A successful batch is sorted, shown and saved with the time stamp `savedAt`, read after the fetches and not before the staleness check's `now`. The filters are not touched. |
| History.HistoryViewModel.ApplyFilters | PlayTheLottery/HistoryViewModel.swift:108-121 | `filteredResults` becomes `Filtered` of the list and both filters, and nothing else changes. |
| History.HistoryViewModel.ClearFilters | PlayTheLottery/HistoryViewModel.swift:123-127 | Both filters are off and the whole list is shown, which is also what applying the cleared filters gives. |
| History.HistoryViewModel.SelectGame | HistoryView.swift:41-56 | Choosing a game (`None` for "Todos") applies the filters again when the value changes. |
| History.HistoryViewModel.SetQuery | HistoryView.swift:44-46 | Editing the query applies the filters again when the text changes. |
| NextContests.DecodeEncode | NextContestsView.swift:60-80 | Decoding what was encoded gives the card back. |
| NextContests.DecodeSpec | NextContestsView.swift:63-67 | Decoding fails exactly on a game text that is no raw value, and what decodes encodes back to the same thing. |
| NextContests.NextUrlIsLatest | NextContestsView.swift:132 | The address asked is the results service's latest-draw URL for the game. |
| NextContests.FetchNextSpec | NextContestsView.swift:130-151 | `fetchNext` never fails. The card carries the game and its raw value as `id`, the answer's three values on success, and none of them on an error. |
| NextContests.CompletedCount | NextContestsView.swift:111-120 | A card occurs in the collected list as often as its game finished, and only if it is that game's card. |
| NextContests.MappedCount | NextContestsView.swift:117-120 | The counting fact behind `CompletedCount`, for any map whose images give back their argument. |
| NextContests.CompletedPermutation | NextContestsView.swift:111-120 | The completion order does not change which cards are collected. |
| NextContests.CompletedAt | NextContestsView.swift:117-120 | The `i`-th collected card is the card of the `i`-th game to finish. |
| NextContests.CompletedStep | NextContestsView.swift:118-119 | Each completion appends its card. |
| NextContests.CanonicalShape | NextContestsView.swift:112-123 | The canonical list has one card for each game, in `allCases` order. |
| NextContests.GameBeforeOrder | NextContestsView.swift:121-123 | Comparing `allCases` positions is a strict weak order. |
| NextContests.SortByGame | NextContestsView.swift:121-123 | The sort keeps the cards and orders them by `allCases` position. |
| NextContests.SortedCompletion | NextContestsView.swift:111-124 | For every completion order of the four games, sorting gives the canonical list. |
| NextContests.ConcursoTextSpec | NextContestsView.swift:284-290 | A missing number reads "Indisponível", and a present one reads as its decimal, never as "Indisponível". |
| NextContests.FormatDateSpec | NextContestsView.swift:204-212 | A missing date, or one the formatter cannot read, reads "Indisponível"; otherwise the formatter's text is shown. |
| NextContests.CollectAll | NextContestsView.swift:117-120 | The `for await` loop collects the cards in completion order. |
| NextContests.NextContestsViewModel.constructor | NextContestsView.swift:92-95 | No cards, not loading, not fetching. |
| NextContests.NextContestsViewModel.Load | NextContestsView.swift:98-128 | While a load is running nothing happens. Fresh cached cards are shown without fetching. Otherwise one card per game, in `allCases` order, is shown and saved with the time stamp `savedAt`, read after the task group and not before the staleness check's `now`, whatever order the requests finished in. |
| Balls.KeepInts | BallsRowView.swift:20 | `compactMap { Int($0) }` gives at most one number per piece. |
| Balls.KeepIntsAppend | BallsRowView.swift:20 | Keeping splits over concatenation, so the numbers stay in order. |
| Balls.KeepIntsMembers | BallsRowView.swift:20 | Every kept number is what some piece parses to, and every piece that parses is kept. |
| Balls.KeepIntsAll | BallsRowView.swift:20 | When every piece parses, all their values are kept, in order. |
| Balls.ParseNumbersSpec | BallsRowView.swift:16-22 | The parse gives at most one number for each piece, and each number is the value of a trimmed piece. |
| Balls.SignOrDigitNotBlank | BallsRowView.swift:19 | Digits and the minus sign are neither blanks nor the clover. |
| Balls.ParseDigitParts | BallsViews.swift:17-23 | Runs of digits joined by `" 🍀 "` parse back to their values in order, so `"07"` gives 7 and `"00"` gives 0. |
| Balls.ParseDecimals | BallsRowView.swift:16-22 | 64-bit integers joined by `" 🍀 "` parse back to themselves, in order. |
| Balls.PreviewExample | BallsRowView.swift:158 | `"12 🍀 7 🍀 33 🍀 1"` reads as `[12, 7, 33, 1]`. |
| Balls.PreviewJoin | BallsRowView.swift:158 | The preview text is the four numbers joined by `" 🍀 "`. |
| Balls.PreviewDigits | BallsRowView.swift:158 | The preview's pieces are digit runs worth 12, 7, 33 and 1. |
| Balls.BallImageNameInjective | BallsViews.swift:57 | Different numbers get different `"ball_"` images. |
| Balls.DezenasLayout | BallsViews.swift:17-27 | A history card's dezenas, joined as the card joins them, parse to one number each. They show in a single row exactly when there are at most eight. |
| MainMenu.RemainingSplit | MainMenuView.swift:119-121 | `remaining` is `max(0, until - now)`, and `minutes * 60 + seconds == remaining` with `seconds < 60`. It is positive exactly when the hints show. |
| MainMenu.TextParts | MainMenuView.swift:117-123 | The text is `"Expira em "`, the `%02d` minutes, a colon and the `%02d` seconds. |
| MainMenu.TextDeterminesRemaining | MainMenuView.swift:117-123 | Two texts agree only when the same number of seconds is left. |
| MainMenu.NoUnlock | MainMenuView.swift:112-118 | Without an unlock there are no hints and no text. |
| MainMenu.ExpiredText | MainMenuView.swift:112-123 | Once the unlock has run out, the hints are gone and the text reads "Expira em 00:00". |
| MainMenu.JustRewarded | MainMenuView.swift:129 | Right after the reward the hints show and the text reads "Expira em 10:00". |
| MainMenu.DuringReward | MainMenuView.swift:112-121 | During the ten minutes the hints show, with at most ten minutes left, and fewer after the first second. |
| MainMenu.ButtonRules | MainMenuView.swift:80-99 | For the ten minutes after a reward the rewarded button is usable whether or not an ad is ready. After that, and with no unlock, it is usable exactly when an ad is ready. The remove-ads button is disabled exactly when ads are removed. |
| MainMenu.PremiumCardSpec | MainMenuView.swift:74-75 | The card says "Dicas Premium Ativas" with the countdown exactly while the hints show. |
| MainMenu.MainMenuState.constructor | MainMenuView.swift:112-118 | No unlock at first. |
| MainMenu.MainMenuState.OnReward | MainMenuView.swift:127-130 | The reward unlocks the hints until `now + 600`, so they show and the text reads "Expira em 10:00". |
| Decimal.Pad2 | PlayTheLottery/GeneratingNumbers/View/LottoGameKit.swift:15 | `%02d` is a run of digits worth `n`: exactly two below 100, the plain decimal from 100 on. |
| Decimal.Pad2Injective | PlayTheLottery/GeneratingNumbers/View/LottoGameKit.swift:15 | Different numbers never share a `%02d` rendering. |
| Decimal.NatToString | PlayTheLottery/ContentView.swift:38 | `String(n)` is the shortest run of digits worth `n`. |
| Decimal.IntToStringInjective | PlayTheLottery/ContentView.swift:38 | Different integers never share a decimal rendering. |
| Decimal.ParseInt | BallsRowView.swift:20 | `Int(String)` only gives 64-bit integers. |
| Decimal.ParseIntToString | BallsRowView.swift:20 | `Int(String(i)) == i` for every 64-bit `i`. |
| Decimal.ParseDigits | BallsViews.swift:21 | A run of digits parses to the number it denotes, leading zeros included. |
| Decimal.ParsePad2 | FavoriteNumbersView.swift:15 | A `%02d` rendering parses back to its value. |
| Text.SplitTrimJoin | BallsRowView.swift:17-19 | Splitting on the clover and trimming undoes joining by `" 🍀 "`, for pieces without clovers or surrounding blanks. |
| Text.Trim | BallsRowView.swift:19 | The trimmed text is no longer and neither starts nor ends with a character of the class. |
| Text.Split | BallsRowView.swift:18 | `components(separatedBy:)` gives at least one piece, none holding the separator. |
| Text.UpperIsUpper | PlayTheLottery/HistoryViewModel.swift:54 | After `uppercased()` no ASCII lower-case letter is left, and upper-casing again changes nothing. |
| Text.LowerIsLower | FavoriteNumbersView.swift:22 | After `lowercased()` no ASCII upper-case letter is left, and lower-casing again changes nothing. |
| Text.CaseKeepsNonLetters | PlayTheLottery/HistoryViewModel.swift:54 | A text with no ASCII letter is unchanged by both case mappings, as digits, blanks and the clover are. |
| Text.StrLessPad2 | PlayTheLottery/GeneratingNumbers/View/LottoGameKit.swift:21 | Two-digit renderings sort as text in their numeric order. |
| Sorting.SortedStrings | PlayTheLottery/GeneratingNumbers/View/LottoGameKit.swift:21 | `sorted()` of a set of strings has the same strings, strictly ascending. |
| Sorting.SortedInts | PlayTheLottery/ContentView.swift:38 | `sorted()` of a set of integers has the same numbers, strictly ascending. |
| Sorting.SortedStringsOrderFree | PlayTheLottery/GeneratingNumbers/View/LottoGameKit.swift:21 | The sorted ticket does not depend on the order the set is iterated in. |
| StableSort.SortBy | PlayTheLottery/HistoryViewModel.swift:94-99 | The list sorted by a strict weak order is a permutation of the input, and no element comes before another that it should follow. |
| StableSort.SortedUnique | NextContestsView.swift:121-123 | Two sorted permutations of a list without distinct ties are equal. |
| Filtering.FilterMembers | PlayTheLottery/HistoryViewModel.swift:112 | `filter` keeps exactly the elements that pass. |
| Filtering.FilterAppend | PlayTheLottery/HistoryViewModel.swift:117 | `filter` splits over concatenation, so it keeps order. |
| Filtering.FilterIdempotent | PlayTheLottery/HistoryViewModel.swift:112 | Filtering twice by the same test is filtering once. |

## Left out

- I/O is not modelled: URLSession requests, JSON coding, `UserDefaults`
  and `UIApplication` are parameters, or a `Defaults` object over a map.
  Percent-encoding of the WhatsApp link is left out: the model stops at
  the text before escaping and takes whether WhatsApp can open it as a
  flag.
- Concurrency: the task group in `NextContestsViewModel.load` is a
  sequential loop over an arbitrary completion `order`, a permutation of
  `allCases`. The `[weak self]` case where a task gives `nil` is not
  modelled: every task gives a card. `@MainActor` and the `async`
  suspension points are not modelled, and neither is `isLoading` being
  visible before a load returns.
- Randomness: `Int.random` is the sequence `draws`. When the draws run
  out before the generator has enough numbers, the model returns `None`.
  It stands for a loop that goes on drawing. `Int.random(in: 1...maxNumber)`
  traps when `maxNumber < 1`, so both generators require `maxNumber >= 1`
  whenever they would draw (`total > 0`).
- Calendar: a day is 86400 seconds from midnight at multiples of 86400.
  There are no time zones or DST, and `calendar.date(from:)` never fails.
  `Date.distantPast` is the second of 0001-01-01.
- MainMenu.Remaining: `Int(timeIntervalSinceNow)` truncates fractional
  seconds; the model's clock counts whole seconds.
- Formatting: `textForEstimativa` (the currency formatter) is not
  modelled. The estimate is a `real` that is only carried. In
  `formatDate`, the `dd/MM/yyyy` formatter is a parameter `reformat`.
- Text: case mapping covers ASCII letters only. The whitespace classes are
  a finite set of Unicode blank and newline characters. Diacritic folding
  in `normalized` is a parameter `fold`. Swift's grapheme clusters are
  Dafny characters (Unicode scalars), and the clover is one.
- FavoritesView.DisplayNameLogo: proved only for foldings that strip the
  accent from "lotofácil" and leave the other three names unchanged. The
  real folding is locale-dependent library code.
- Sorting stability: Swift's `sort` is not stable, and the model sorts by
  insertion. The history sort can tie only on equal game code and number,
  so the result differs only between such draws. `NextContests` cards
  never tie, since there is one for each game.
- History.HistoryViewModel.LoadInitial: the batch is built one game at a
  time and joined, which gives the same list as appending each draw to
  `combined`. A thrown `fetchLast` is modelled as the batch being `None`.
- Favorites.FavoriteNumbersService.Save: encoding a list of entries is
  taken to always succeed. `UUID()` and `Date()` of a new entry are the
  parameters `id` and `now`.
- Tickets.Render: the source writes the drawn value 100 as `"00"`
  whatever `maxNumber` is, and the model does the same.
  `GameConfig` has no logic and is not modelled; the per-game numbers are
  the `ContentView` tap parameters.
- `scheduleTodayNotificationsIfNeeded`, NotificationsManager, ads,
  StoreKit, the loading animations, the splash and home screens, and all
  SwiftUI layout (`FlowLayoutImpl`, the grid) are not part of this model.
  `GeneratingNumbersViewModel` is not part of this model.
