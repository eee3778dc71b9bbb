/** The market-data service, `internal/services/market_data.go`: the
    market-hours classifier, the quote cache with its chain of fallback
    providers, and the split of quotes into gainers and losers.

    The clock is a parameter (the current weekday, hour and minute in the
    service's fixed EST zone, or an instant in nanoseconds), and each quote
    provider is an oracle: the outcome its HTTP request would have had. */
module MarketData {
  import opened Wrappers
  import opened Sequences
  import opened Models

  /** One minute, in nanoseconds: how long a fetched quote stays cached. */
  const QuoteTTL: int := 60_000_000_000

  datatype Weekday = Sunday | Monday | Tuesday | Wednesday | Thursday | Friday | Saturday

  predicate IsWeekend(d: Weekday) {
    d == Saturday || d == Sunday
  }

  datatype MarketStatus = Open | PreMarket | AfterHours | Closed {
    /** The string the service reports. */
    function Label(): string {
      match this
      case Open => "open"
      case PreMarket => "pre-market"
      case AfterHours => "after-hours"
      case Closed => "closed"
    }
  }

  /** The minute of the day a clock reading falls in. */
  function MinuteOfDay(hour: int, minute: int): int {
    hour * 60 + minute
  }

  /** `GetMarketStatus`: Saturday and Sunday are closed at every time of day;
      on a weekday each status covers one span of minutes of a valid clock
      reading: open from 9:30 through 15:59, pre-market from 4:00 through
      9:29, after-hours from 16:00 through 19:59, and closed before 4:00 and
      from 20:00. */
  function GetMarketStatus(weekday: Weekday, hour: int, minute: int): (s: MarketStatus)
    ensures IsWeekend(weekday) ==> s == Closed
    ensures !IsWeekend(weekday) && 0 <= hour < 24 && 0 <= minute < 60 ==>
              var m := MinuteOfDay(hour, minute);
              (s == Open <==> 9 * 60 + 30 <= m < 16 * 60) &&
              (s == PreMarket <==> 4 * 60 <= m < 9 * 60 + 30) &&
              (s == AfterHours <==> 16 * 60 <= m < 20 * 60) &&
              (s == Closed <==> m < 4 * 60 || 20 * 60 <= m)
  {
    if IsWeekend(weekday) then Closed
    else
      var marketOpen := hour > 9 || (hour == 9 && minute >= 30);
      var marketClose := hour < 16;
      if marketOpen && marketClose then Open
      else if hour >= 4 && (hour < 9 || (hour == 9 && minute < 30)) then PreMarket
      else if hour >= 16 && hour < 20 then AfterHours
      else Closed
  }

  /** The four labels are distinct, so the reported string identifies the status. */
  lemma LabelsDistinct(s: MarketStatus, t: MarketStatus)
    ensures s.Label() == t.Label() <==> s == t
  {
  }

  /** The part of a quote the model looks at; the remaining price fields are
      carried by the providers and not inspected. */
  datatype StockQuote = StockQuote(
    symbol: string, name: string, price: real, change: real, changePercent: real, volume: int)

  /** A cache entry and the instant it stops being served. */
  datatype CachedQuote = CachedQuote(data: StockQuote, expiresAt: Time)

  datatype Provider = Finnhub | AlphaVantage | Yahoo

  /** The entry for `symbol` may be served at `now`: it exists and `now` is
      strictly before its expiry. */
  predicate Fresh(quotes: map<string, CachedQuote>, symbol: string, now: Time) {
    symbol in quotes && now < quotes[symbol].expiresAt
  }

  /** The outcome of the fallback chain: Finnhub's quote, else Alpha
      Vantage's, else Yahoo's, else an error wrapping Yahoo's error. */
  function Fetched(symbol: string, finnhub: Result<StockQuote, string>, alphaVantage: Result<StockQuote, string>,
                   yahoo: Result<StockQuote, string>): (r: Result<StockQuote, string>)
    ensures r.Failure? <==> finnhub.Failure? && alphaVantage.Failure? && yahoo.Failure?
    ensures finnhub.Success? ==> r == finnhub
    ensures finnhub.Failure? && alphaVantage.Success? ==> r == alphaVantage
    ensures finnhub.Failure? && alphaVantage.Failure? && yahoo.Success? ==> r == yahoo
    ensures r.Failure? ==> r.error == "all data sources failed for " + symbol + ": " + yahoo.error
  {
    if finnhub.Success? then finnhub
    else if alphaVantage.Success? then alphaVantage
    else if yahoo.Success? then yahoo
    else Failure("all data sources failed for " + symbol + ": " + yahoo.error)
  }

  /** The providers the chain asks, in order: each later one only after every
      earlier one failed. */
  function Consulted(finnhub: Result<StockQuote, string>, alphaVantage: Result<StockQuote, string>): (ps: seq<Provider>)
    ensures 1 <= |ps| <= 3 && ps == [Finnhub, AlphaVantage, Yahoo][..|ps|]
    ensures |ps| == 1 <==> finnhub.Success?
    ensures |ps| == 3 <==> finnhub.Failure? && alphaVantage.Failure?
  {
    if finnhub.Success? then [Finnhub]
    else if alphaVantage.Success? then [Finnhub, AlphaVantage]
    else [Finnhub, AlphaVantage, Yahoo]
  }

  /** `MarketDataService` with its quote cache. */
  class MarketDataService {
    var quotes: map<string, CachedQuote>

    /** `NewMarketDataService`: the cache starts empty. */
    constructor()
      ensures quotes == map[]
    {
      quotes := map[];
    }

    /** `GetQuote`. A fresh cache entry is returned without asking any
        provider. Otherwise the providers are asked in turn (`now` is the
        instant of the cache check, `storedAt` the instant the fetched quote
        is cached): on success that symbol's entry, and no other, becomes the
        quote with an expiry one minute after `storedAt`; on failure the
        cache is unchanged. `consulted` lists the providers asked. */
    method GetQuote(symbol: string, now: Time, finnhub: Result<StockQuote, string>,
                    alphaVantage: Result<StockQuote, string>, yahoo: Result<StockQuote, string>, storedAt: Time)
      returns (r: Result<StockQuote, string>, consulted: seq<Provider>)
      modifies this
      ensures Fresh(old(quotes), symbol, now) ==>
                r == Success(old(quotes)[symbol].data) && consulted == [] && quotes == old(quotes)
      ensures !Fresh(old(quotes), symbol, now) ==>
                r == Fetched(symbol, finnhub, alphaVantage, yahoo) && consulted == Consulted(finnhub, alphaVantage)
      ensures !Fresh(old(quotes), symbol, now) && r.Failure? ==> quotes == old(quotes)
      ensures !Fresh(old(quotes), symbol, now) && r.Success? ==>
                quotes == old(quotes)[symbol := CachedQuote(r.value, storedAt + QuoteTTL)]
    {
      if symbol in quotes && now < quotes[symbol].expiresAt {
        return Success(quotes[symbol].data), [];
      }
      var quote := finnhub;
      consulted := [Finnhub];
      if quote.Failure? {
        quote := alphaVantage;
        consulted := consulted + [AlphaVantage];
        if quote.Failure? {
          quote := yahoo;
          consulted := consulted + [Yahoo];
          if quote.Failure? {
            return Failure("all data sources failed for " + symbol + ": " + quote.error), consulted;
          }
        }
      }
      quotes := quotes[symbol := CachedQuote(quote.value, storedAt + QuoteTTL)];
      return Success(quote.value), consulted;
    }
  }

  /** A quote just cached is served from the cache by a later call exactly
      while that call's instant is less than one minute after it was stored. */
  lemma CachedQuoteServed(quotes: map<string, CachedQuote>, symbol: string, q: StockQuote, storedAt: Time, now: Time)
    ensures Fresh(quotes[symbol := CachedQuote(q, storedAt + QuoteTTL)], symbol, now) <==> now < storedAt + QuoteTTL
  {
  }

  /** Whether a quote counts among the gainers. */
  predicate IsGainer(q: StockQuote) {
    q.changePercent > 0.0
  }

  /** The gainers among `qs`, in order. */
  function Gainers(qs: seq<StockQuote>): seq<StockQuote> {
    if qs == [] then []
    else Gainers(qs[..|qs| - 1]) + (if IsGainer(qs[|qs| - 1]) then [qs[|qs| - 1]] else [])
  }

  /** The losers among `qs`, in order: every quote that is not a gainer,
      those with no change included. */
  function Losers(qs: seq<StockQuote>): seq<StockQuote> {
    if qs == [] then []
    else Losers(qs[..|qs| - 1]) + (if IsGainer(qs[|qs| - 1]) then [] else [qs[|qs| - 1]])
  }

  /** The partition loop of `GetMarketMovers`, over the quotes it was given
      (the values of the map `GetMultipleQuotes` returns, in the map's
      iteration order); `active` is every quote. */
  method MarketMovers(allQuotes: seq<StockQuote>) returns (gainers: seq<StockQuote>, losers: seq<StockQuote>, active: seq<StockQuote>)
    ensures gainers == Gainers(allQuotes) && losers == Losers(allQuotes)
    ensures active == allQuotes
  {
    gainers, losers := [], [];
    for i := 0 to |allQuotes|
      invariant gainers == Gainers(allQuotes[..i]) && losers == Losers(allQuotes[..i])
    {
      assert allQuotes[..i + 1][..i] == allQuotes[..i];
      var q := allQuotes[i];
      if q.changePercent > 0.0 {
        gainers := gainers + [q];
      } else {
        losers := losers + [q];
      }
    }
    assert allQuotes[..|allQuotes|] == allQuotes;
    active := allQuotes;
  }

  /** Every quote lands in exactly one of the two lists: the gainers all rose,
      the losers all did not, and together they are the quotes given. */
  lemma {:induction false} MoversPartition(qs: seq<StockQuote>)
    ensures forall q :: q in Gainers(qs) ==> IsGainer(q)
    ensures forall q :: q in Losers(qs) ==> !IsGainer(q)
    ensures multiset(Gainers(qs)) + multiset(Losers(qs)) == multiset(qs)
  {
    if qs != [] {
      var init, last := qs[..|qs| - 1], qs[|qs| - 1];
      MoversPartition(init);
      SplitLast(qs);
      if IsGainer(last) {
        assert Gainers(qs) == Gainers(init) + [last] && Losers(qs) == Losers(init);
      } else {
        assert Gainers(qs) == Gainers(init) && Losers(qs) == Losers(init) + [last];
      }
    }
  }
}
