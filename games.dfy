/** The four lotteries (`GameType`), one draw's result as the results service
    reports it (`LotteryResult`), and how `HistoryService` builds its request
    and judges the response. */
module Games {
  import opened Wrappers
  import opened Decimal
  import opened Text

  // --------------------------------------------------------------- GameType

  datatype GameType = MegaSena | Quina | Lotomania | Lotofacil

  /** `GameType.allCases`, in declaration order. */
  const AllCases: seq<GameType> := [MegaSena, Quina, Lotomania, Lotofacil]

  /** `rawValue`, also the game's `id` and the service's path segment. */
  function RawValue(g: GameType): (r: string)
  {
    match g
    case MegaSena => "megasena"
    case Quina => "quina"
    case Lotomania => "lotomania"
    case Lotofacil => "lotofacil"
  }

  /** `GameType(rawValue:)`: the game whose raw value is `s`, if any. */
  function FromRawValue(s: string): (r: Option<GameType>)
    ensures r.Some? ==> RawValue(r.value) == s
  {
    if s == "megasena" then Some(MegaSena)
    else if s == "quina" then Some(Quina)
    else if s == "lotomania" then Some(Lotomania)
    else if s == "lotofacil" then Some(Lotofacil)
    else None
  }

  function DisplayName(g: GameType): (r: string)
  {
    match g
    case MegaSena => "Mega-Sena"
    case Quina => "Quina"
    case Lotomania => "Lotomania"
    case Lotofacil => "Lotofácil"
  }

  function LogoAssetName(g: GameType): (r: string)
  {
    match g
    case MegaSena => "mega-sena-button"
    case Quina => "quina-button"
    case Lotomania => "lotomania-button"
    case Lotofacil => "lotofacil-button"
  }

  /** Position of a game in `AllCases`. */
  function CaseIndex(g: GameType): (i: nat)
    ensures i < |AllCases| && AllCases[i] == g
  {
    match g
    case MegaSena => 0
    case Quina => 1
    case Lotomania => 2
    case Lotofacil => 3
  }

  /** `allCases` lists every game exactly once. */
  lemma AllCasesExactlyOnce()
    ensures |AllCases| == 4
    ensures forall g: GameType :: g in AllCases
    ensures forall i, j :: 0 <= i < j < |AllCases| ==> AllCases[i] != AllCases[j]
  {
    forall g: GameType ensures g in AllCases {
      assert AllCases[CaseIndex(g)] == g;
    }
  }

  /** A raw value names its game back, and only raw values name a game. */
  lemma RawValueRoundTrip(g: GameType, s: string)
    ensures FromRawValue(RawValue(g)) == Some(g)
    ensures FromRawValue(s).None? <==> forall h: GameType :: RawValue(h) != s
  {
    forall h: GameType ensures FromRawValue(RawValue(h)) == Some(h) { }
  }

  /** The names of the games are pairwise distinct, in every table. */
  lemma NamesDistinct(a: GameType, b: GameType)
    ensures RawValue(a) == RawValue(b) ==> a == b
    ensures DisplayName(a) == DisplayName(b) ==> a == b
    ensures LogoAssetName(a) == LogoAssetName(b) ==> a == b
  {
  }

  /** No raw value holds a `/` (each is one path segment). */
  lemma RawValueNoSlash(g: GameType)
    ensures '/' !in RawValue(g)
  {
  }

  // ---------------------------------------------------------- LotteryResult

  /** One decoded draw: `tipoJogo` is the service's game code (such as
      `"MEGA_SENA"`), `listaDezenas` the drawn numbers as text, when given. */
  datatype LotteryResult = LotteryResult(
    tipoJogo: string,
    numero: int,
    listaDezenas: Option<seq<string>>,
    acumulado: bool)
  {
    /** `id`: `"\(tipoJogo)-\(numero)"`. */
    function Id(): (r: string)
    {
      tipoJogo + "-" + IntToString(numero)
    }
  }

  /** Two results with dash-free game codes have the same `id` only when they
      agree on game code and contest number. */
  lemma IdInjective(a: LotteryResult, b: LotteryResult)
    requires '-' !in a.tipoJogo && '-' !in b.tipoJogo
    requires a.Id() == b.Id()
    ensures a.tipoJogo == b.tipoJogo && a.numero == b.numero
  {
    assert a.Id() == a.tipoJogo + ['-'] + IntToString(a.numero);
    assert b.Id() == b.tipoJogo + ['-'] + IntToString(b.numero);
    SplitAtFirst(a.tipoJogo, IntToString(a.numero), b.tipoJogo, IntToString(b.numero), '-');
    IntToStringInjective(a.numero, b.numero);
  }

  // ------------------------------------------------------ the results service

  const BaseUrl: string := "https://api.guidi.dev.br/loteria"

  /** The contest segment that asks for the latest draw. */
  const LastContest: string := "ultimo"

  /** `url.appendingPathComponent(c)` for a URL without a trailing slash. */
  function AppendPath(url: string, c: string): (r: string)
  {
    url + "/" + c
  }

  /** The URL `fetchResult(game:contest:)` requests. */
  function ResultUrl(g: GameType, contest: string): (r: string)
  {
    AppendPath(AppendPath(BaseUrl, RawValue(g)), contest)
  }

  /** The URL names the game and the contest: different requests never share
      a URL. */
  lemma ResultUrlInjective(g1: GameType, c1: string, g2: GameType, c2: string)
    requires ResultUrl(g1, c1) == ResultUrl(g2, c2)
    ensures g1 == g2 && c1 == c2
  {
    var pre := BaseUrl + "/";
    var t1, t2 := RawValue(g1) + ['/'] + c1, RawValue(g2) + ['/'] + c2;
    assert ResultUrl(g1, c1) == pre + t1;
    assert ResultUrl(g2, c2) == pre + t2;
    PrefixCancel(pre, t1, t2);
    RawValueNoSlash(g1);
    RawValueNoSlash(g2);
    SplitAtFirst(RawValue(g1), c1, RawValue(g2), c2, '/');
    NamesDistinct(g1, g2);
  }

  /** What a request can come back with: the HTTP status and what the JSON
      decoder makes of the body (`None` when it throws). */
  datatype HttpResponse = HttpResponse(statusCode: int, decoded: Option<LotteryResult>)

  datatype FetchError =
    | TransportError      // `URLSession` threw
    | BadServerResponse   // a status outside 200..<300
    | DecodingError       // the body is not a `LotteryResult`

  /** The network, as the answer (or transport failure) each URL gets. */
  type Network = string -> Result<HttpResponse, FetchError>

  /** What `fetchResult` makes of the answer: the decoded result for a
      status in `200..<300`, the decoder's failure otherwise, and
      `badServerResponse` for any other status (checked before decoding). */
  function CheckResponse(answer: Result<HttpResponse, FetchError>): (r: Result<LotteryResult, FetchError>)
    ensures r.Success? <==>
      answer.Success? && 200 <= answer.value.statusCode < 300 && answer.value.decoded.Some?
    ensures r.Success? ==> r.value == answer.value.decoded.value
    ensures answer.Success? && !(200 <= answer.value.statusCode < 300) ==> r == Failure(BadServerResponse)
    ensures answer.Failure? ==> r == Failure(answer.error)
  {
    match answer
    case Failure(e) => Failure(e)
    case Success(resp) =>
      if !(200 <= resp.statusCode < 300) then Failure(BadServerResponse)
      else if resp.decoded.None? then Failure(DecodingError)
      else Success(resp.decoded.value)
  }

  /** `fetchResult(game:contest:)`. */
  function FetchResult(net: Network, g: GameType, contest: string): (r: Result<LotteryResult, FetchError>)
  {
    CheckResponse(net(ResultUrl(g, contest)))
  }

  /** `fetchLast(game:)`: the same request for contest `"ultimo"`. */
  function FetchLast(net: Network, g: GameType): (r: Result<LotteryResult, FetchError>)
  {
    FetchResult(net, g, LastContest)
  }

  /** The latest-draw request is the ordinary one at `base/<rawValue>/ultimo`,
      and it succeeds exactly when the server answers it with a 2xx status and
      a decodable body. */
  lemma FetchLastRequest(net: Network, g: GameType)
    ensures ResultUrl(g, LastContest) == BaseUrl + "/" + RawValue(g) + "/ultimo"
    ensures var answer := net(ResultUrl(g, LastContest));
      FetchLast(net, g).Success? <==>
        answer.Success? && 200 <= answer.value.statusCode < 300 && answer.value.decoded.Some?
  {
  }
}
