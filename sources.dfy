/**
 * The three upstream gas-price sources and how each one's already-decoded JSON
 * becomes the tuple the bot works with. A fetch returns the tuple, or `None`
 * when the HTTP status is not 200 (the Python function falls off its end), or
 * raises when `int()` rejects an Etherscan field.
 */
module Sources {
  import opened Wrappers
  import opened PyText
  import opened Units

  datatype Source = Etherscan | GasNow | EthGasStation

  /** The name the command line uses for each source. */
  function Name(s: Source): string {
    match s
    case Etherscan => "etherscan"
    case GasNow => "gasnow"
    case EthGasStation => "ethgasstation"
  }

  function SourceNamed(name: string): (r: Option<Source>)
    ensures r.Some? ==> Name(r.value) == name
    ensures r.None? ==> forall s: Source :: Name(s) != name
  {
    if name == "etherscan" then Some(Etherscan)
    else if name == "gasnow" then Some(GasNow)
    else if name == "ethgasstation" then Some(EthGasStation)
    else None
  }

  /** Each source's name selects that source, so no two sources share a name. */
  lemma NameRoundTrip(s: Source)
    ensures SourceNamed(Name(s)) == Some(s)
  {
  }

  /** The exceptions the core can raise. */
  datatype Error =
    | InvalidLiteral(text: string)  // ValueError: int() rejected an Etherscan field
    | NoneUnpacked                  // TypeError: a None fetch result unpacked into names or arguments
    | NoneSubscripted               // TypeError: a None fetch result indexed
    | NotImplementedCalled          // TypeError: 'NotImplementedType' object is not callable
    | UnsupportedSource             // NotImplementedError('Unsupported source')

  /** An HTTP response whose body has already been decoded into `json`. */
  datatype Response<J> = Response(statusCode: int, json: J)

  /** Etherscan's `result` object: gas prices in gwei, as decimal strings. */
  datatype EtherscanResult = EtherscanResult(fastGasPrice: string, proposeGasPrice: string, safeGasPrice: string)

  /** GasNow's `data` object: gas prices in wei. */
  datatype GasNowData = GasNowData(fast: int, standard: int, slow: int)

  /** ETH Gas Station's body: prices in tenths of a gwei, waits in minutes. */
  datatype StationData = StationData(
    fastest: int, fast: int, average: int, safeLow: int,
    fastestWait: real, fastWait: real, avgWait: real, safeLowWait: real)

  /** What each endpoint answers during one fetch. */
  datatype Upstream = Upstream(
    etherscan: Response<EtherscanResult>,
    gasnow: Response<GasNowData>,
    ethgasstation: Response<StationData>)

  /**
   * A normalised quote. `ThreeTier` is what Etherscan (fast, propose, safe)
   * and GasNow (fast, standard, slow) give, in gwei; `StationQuote` holds
   * ETH Gas Station's four prices in tenths of a gwei and its four waits in
   * seconds.
   */
  datatype Quote =
    | ThreeTier(fast: int, standard: int, slow: int)
    | StationQuote(fastest: int, fast: int, average: int, safeLow: int,
                   fastestWait: int, fastWait: int, avgWait: int, safeLowWait: int)

  /** The number of values each source's fetch function returns. */
  function TupleLength(s: Source): nat {
    if s == EthGasStation then 8 else 3
  }

  /** The Python tuple a quote is returned as, in the order the source code lists it. */
  function Tuple(q: Quote): (t: seq<Num>)
    ensures |t| == (if q.StationQuote? then 8 else 3)
  {
    match q
    case ThreeTier(f, m, s) => [Int(f), Int(m), Int(s)]
    case StationQuote(p0, p1, p2, p3, w0, w1, w2, w3) =>
      [Tenths(p0), Tenths(p1), Tenths(p2), Tenths(p3), Int(w0), Int(w1), Int(w2), Int(w3)]
  }

  /** `get_gas_from_etherscan`, without the request. */
  function FetchEtherscan(r: Response<EtherscanResult>): (q: Result<Option<Quote>, Error>)
    ensures q == Success(None) <==> r.statusCode != 200
    ensures q.Success? && q.value.Some? ==>
              q.value.value.ThreeTier?
              && ParseInt(r.json.fastGasPrice) == Some(q.value.value.fast)
              && ParseInt(r.json.proposeGasPrice) == Some(q.value.value.standard)
              && ParseInt(r.json.safeGasPrice) == Some(q.value.value.slow)
    ensures q.Failure? <==>
              r.statusCode == 200
              && (ParseInt(r.json.fastGasPrice).None? || ParseInt(r.json.proposeGasPrice).None?
                  || ParseInt(r.json.safeGasPrice).None?)
    ensures q.Failure? ==> q.error.InvalidLiteral? && ParseInt(q.error.text).None?
  {
    if r.statusCode != 200 then Success(None)
    else
      var d := r.json;
      match (ParseInt(d.fastGasPrice), ParseInt(d.proposeGasPrice), ParseInt(d.safeGasPrice))
      case (None, _, _) => Failure(InvalidLiteral(d.fastGasPrice))
      case (_, None, _) => Failure(InvalidLiteral(d.proposeGasPrice))
      case (_, _, None) => Failure(InvalidLiteral(d.safeGasPrice))
      case (Some(f), Some(m), Some(s)) => Success(Some(ThreeTier(f, m, s)))
  }

  /** `get_gas_from_gasnow`, without the request. */
  function FetchGasNow(r: Response<GasNowData>): (q: Option<Quote>)
    ensures q.None? <==> r.statusCode != 200
    ensures q.Some? ==>
              q.value.ThreeTier?
              && InGweiBucket(q.value.fast, r.json.fast)
              && InGweiBucket(q.value.standard, r.json.standard)
              && InGweiBucket(q.value.slow, r.json.slow)
  {
    if r.statusCode != 200 then None
    else
      var d := r.json;
      Some(ThreeTier(GweiFromWei(d.fast), GweiFromWei(d.standard), GweiFromWei(d.slow)))
  }

  /** `get_gas_from_ethgasstation`, without the request. */
  function FetchStation(r: Response<StationData>): (q: Option<Quote>)
    ensures q.None? <==> r.statusCode != 200
    ensures q.Some? ==>
              var t := Tuple(q.value);
              var d := r.json;
              q.value.StationQuote?
              && Value(t[0]) == d.fastest as real / 10.0
              && Value(t[1]) == d.fast as real / 10.0
              && Value(t[2]) == d.average as real / 10.0
              && Value(t[3]) == d.safeLow as real / 10.0
              && IsTruncation(t[4].n, 60.0 * d.fastestWait)
              && IsTruncation(t[5].n, 60.0 * d.fastWait)
              && IsTruncation(t[6].n, 60.0 * d.avgWait)
              && IsTruncation(t[7].n, 60.0 * d.safeLowWait)
  {
    if r.statusCode != 200 then None
    else
      var d := r.json;
      Some(StationQuote(d.fastest, d.fast, d.average, d.safeLow,
                        WaitSeconds(d.fastestWait), WaitSeconds(d.fastWait),
                        WaitSeconds(d.avgWait), WaitSeconds(d.safeLowWait)))
  }

  /** The fetch function the bot calls for `s`. */
  function Fetch(s: Source, up: Upstream): (q: Result<Option<Quote>, Error>)
    ensures q.Failure? ==> s == Etherscan
    ensures q.Success? && q.value.Some? ==> |Tuple(q.value.value)| == TupleLength(s)
  {
    match s
    case Etherscan => FetchEtherscan(up.etherscan)
    case GasNow => Success(FetchGasNow(up.gasnow))
    case EthGasStation => Success(FetchStation(up.ethgasstation))
  }

  /** The status code of the response `s` is fetched from. */
  function StatusCode(s: Source, up: Upstream): int {
    match s
    case Etherscan => up.etherscan.statusCode
    case GasNow => up.gasnow.statusCode
    case EthGasStation => up.ethgasstation.statusCode
  }

  /** Every source answers a non-200 status with no quote, and only then. */
  lemma NoQuoteExactlyOnFailedStatus(s: Source, up: Upstream)
    ensures Fetch(s, up) == Success(None) <==> StatusCode(s, up) != 200
  {
  }

  /** Etherscan's fields come back in the order FastGasPrice, ProposeGasPrice, SafeGasPrice. */
  lemma EtherscanOrder(a: int, b: int, c: int)
    ensures FetchEtherscan(Response(200, EtherscanResult(ShowInt(a), ShowInt(b), ShowInt(c))))
            == Success(Some(ThreeTier(a, b, c)))
  {
    ParseShowInt(a);
    ParseShowInt(b);
    ParseShowInt(c);
  }

  /** A decimal Etherscan price such as "12.5" makes the fetch raise. */
  lemma EtherscanRejectsDecimal(r: Response<EtherscanResult>)
    requires r.statusCode == 200 && '.' in r.json.fastGasPrice
    ensures FetchEtherscan(r) == Failure(InvalidLiteral(r.json.fastGasPrice))
  {
    DecimalPointRejected(r.json.fastGasPrice);
  }

  /** GasNow's tiers come back in the order fast, standard, slow, each exact on whole gwei. */
  lemma GasNowOrder(a: int, b: int, c: int)
    ensures FetchGasNow(Response(200, GasNowData(a * WeiPerGwei, b * WeiPerGwei, c * WeiPerGwei)))
            == Some(ThreeTier(a, b, c))
  {
    GweiFromWholeGwei(a);
    GweiFromWholeGwei(b);
    GweiFromWholeGwei(c);
  }

  /**
   * ETH Gas Station's values come back as the four prices fastest, fast,
   * average, safeLow divided by ten, then the four waits in the same order,
   * exact for whole minutes.
   */
  lemma StationOrder(d: StationData, a: int, b: int, c: int, e: int)
    requires d.fastestWait == a as real && d.fastWait == b as real
    requires d.avgWait == c as real && d.safeLowWait == e as real
    ensures FetchStation(Response(200, d)).Some?
    ensures Tuple(FetchStation(Response(200, d)).value)
            == [Tenths(d.fastest), Tenths(d.fast), Tenths(d.average), Tenths(d.safeLow),
                Int(60 * a), Int(60 * b), Int(60 * c), Int(60 * e)]
  {
    WholeMinutes(a);
    WholeMinutes(b);
    WholeMinutes(c);
    WholeMinutes(e);
  }
}
