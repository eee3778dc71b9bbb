# Financing-101 news pipeline and market rules, in Dafny

This project models the core of Financing-101, a Go web application for
learning about stocks. The model covers:

- **News ingestion** (`internal/ingest/news.go`). A refresh gathers the items
  of every configured RSS feed and skips the feeds that fail. It ranks the
  candidates newest first with a stable sort and keeps the first
  `maxArticles`. It then upserts one record per kept article. Each record
  carries a sentiment label, the tickers found in the title and summary, a
  truncated summary and a content-derived id.
- **The read side of the news** (`internal/services/news.go`). Stored rows
  become headlines, and the comma-joined tickers column is split back into a
  list.
- **Configuration** (`internal/config/config.go`). Settings come from the
  environment with fallbacks. The news feed list is comma-split, trimmed and
  cleaned of empty entries.
- **Market rules** (`internal/services/market_data.go`): the market-hours
  classifier, the one-minute quote cache with its Finnhub → Alpha Vantage →
  Yahoo fallback chain, and the gainers/losers partition.
- **Page helpers** (`internal/handlers/pages.go`, `internal/handlers/dashboard.go`):
  the page's own hour-based classifier, the per-recommendation insight
  context, the outperformer count and the average score.

## How the model is organised

| file | module | models |
|---|---|---|
| `wrappers.dfy` | `Wrappers` | `Option` and `Result` |
| `sequences.dfy` | `Sequences` | generic facts about sequences (associativity of `+`, splitting off the last element, an element-wise map) that the other modules use |
| `go_strings.dfy` | `GoStrings` | `strings.Split`, `FieldsFunc`, `Join`, `TrimSpace`, `ToUpper`, and the trim-and-drop-empties loop shared by `splitAndClean` and `splitTickers` |
| `ingest.dfy` | `Ingest` | `NewNewsIngestor`, `Refresh`, `extractTickers`, `truncate`, `sentimentLabel`, `deterministicID`, and the store as a class |
| `news_service.dfy` | `NewsService` | `splitTickers`, `Latest` |
| `config.dfy` | `Config` | `getEnv`, `splitAndClean`, `Load` |
| `models.dfy` | `Models` | `Recommendation`, `StockSnapshot` |
| `market_data.dfy` | `MarketData` | `GetMarketStatus`, `GetQuote` with its cache, the partition in `GetMarketMovers` |
| `pages.dfy` | `Pages` | `getMarketStatus`, `getReasoningForRec`, `getRiskFactorsForRec`, the constant lists, the loop of `aiInsights` |
| `dashboard.dfy` | `Dashboard` | `countOutperforming`, `avgScore` |

The model's shape follows the source:

- **Loops become methods.** Each is proved against a specification function
  on sequences: `Refresh`'s gathering and upsert loops, `extractTickers`,
  `splitTickers`, `splitAndClean`, `Latest`, `aiInsights`, the partition in
  `GetMarketMovers`, `countOutperforming` and `avgScore`.
- **State that changes in place becomes classes.** The news store and the
  market-data service update their fields (the rows, the quote cache). The
  ingestor's own fields never change after construction; it is a class
  because `Refresh` writes through the store it holds.
- **Conditionals and expressions become functions.**

Everything outside the program is a parameter:

- feed fetches, as `Option<Feed>` per configured feed;
- sentiment scoring, RFC 3339 formatting and the version 5 UUID of section
  4.3 of RFC 4122, as the functions of a `Collaborators` value;
- the database's upsert outcome, as an oracle by call index;
- the quote providers, as their outcomes;
- the clock, as parameters;
- the environment, as a map;
- `time.ParseDuration`, as a function parameter.

Three behaviours of the code are worth stating outright:

- **Tokenizer.** `extractTickers` splits only on the space character and the
  punctuation listed at internal/ingest/news.go:130, so a tab or a newline
  does not separate tokens. `Ingest.Tokens` uses exactly those separators.
- **Sentiment labels.** With the strict ±0.2 thresholds of
  internal/ingest/news.go:171-180, a score of 0.21 is bullish and -0.12 is
  neutral. The seed rows at internal/data/seed.go:52-53 and
  internal/data/seed.go:63-64 label those two scores "neutral" and "bearish"
  by hand, so seeded rows and ingested rows disagree for such scores.
  `Ingest.SentimentLabelBoundaries` states the code's answers.
- **Undated items.** An item without a publish date is dated with the
  refresh's clock reading (internal/ingest/news.go:69-72). Its id therefore
  changes from one refresh to the next, and each refresh inserts another row
  for it; a dated item keeps its id and is updated in place.

## Model

| member | source | states |
|---|---|---|
| Ingest.NewsIngestor.constructor | internal/ingest/news.go:27-30 | an empty feed list is replaced by the single default Yahoo feed; the ingestor always has at least one feed |
| Ingest.SentimentLabel | internal/ingest/news.go:171-180 | bullish exactly when score > 0.2, bearish exactly when score < -0.2, neutral exactly when -0.2 ≤ score ≤ 0.2 |
| Ingest.SentimentLabelMonotone | internal/ingest/news.go:171-180 | a higher score never gets a more bearish label |
| Ingest.SentimentLabelBoundaries | internal/ingest/news.go:171-180 | 0.2 and -0.2 are neutral, 0.21 is bullish, -0.21 bearish, -0.12 neutral |
| Ingest.Truncate | internal/ingest/news.go:164-169 | the result is a prefix of the input, of the input's length when it fits and of exactly `limit` otherwise |
| Ingest.IdNameInjective | internal/ingest/news.go:159-162 | when link and title contain no bar character, the hashed name (link, bar, title, bar, date) determines link, title and date |
| Ingest.IdNameCollision | internal/ingest/news.go:160 | a bar character inside a link or title lets two different (link, title) pairs hash the same name |
| Ingest.SameArticleSameId | internal/ingest/news.go:107 | the id depends only on link, title and date |
| Ingest.DatedItemSameId | internal/ingest/news.go:69-72 | an item with a publish date gets the same id at every refresh and from every feed, so re-ingesting it upserts the same row |
| Ingest.UndatedItemNewIdEachRefresh | internal/ingest/news.go:69-72 | an undated item refreshed at two instants that format differently gets two different ids (with a collision-free UUID), so it is inserted again rather than updated |
| Ingest.ExtractTickers | internal/ingest/news.go:127-157 | the loop with its seen-set returns the deduplicated lexicon matches of the tokens, or ["SPY"] when there are none |
| Ingest.DedupProperties | internal/ingest/news.go:135-150 | deduplication keeps exactly the elements of its input, each once, in order of first occurrence |
| Ingest.LexiconShape | internal/ingest/news.go:33 | every lexicon symbol is 2–5 upper-case ASCII letters |
| Ingest.TickersInProperties | internal/ingest/news.go:127-157 | the result is non-empty, all lexicon symbols, without duplicates; exactly ["SPY"] when no token matches; otherwise exactly the matched symbols |
| Ingest.TickersInFirstMentionOrder | internal/ingest/news.go:137-150 | symbols come out in the order of their first mention in the text |
| Ingest.TickersInShape | internal/ingest/news.go:127-157 | every extracted symbol is non-empty, trimmed, comma-free and upper case, so it can be stored in the comma-joined column |
| Ingest.FeedArticlesItems | internal/ingest/news.go:68-84 | one candidate per item; summary is the description, or the content when the description is empty; date is the publish time, or now |
| Ingest.GatheredAppend | internal/ingest/news.go:62-85 | candidates are gathered feed by feed, so a failed feed removes only its own items and later feeds are still processed |
| Ingest.GatheredEmpty | internal/ingest/news.go:62-89 | nothing is gathered exactly when every feed failed or had no items |
| Ingest.GatherArticles | internal/ingest/news.go:61-85 | the nested gathering loops produce every item of every fetched feed in feed order, then item order |
| Ingest.NewestFirstPermutes | internal/ingest/news.go:91-93 | the stand-in for `sort.SliceStable` returns a permutation of the candidates: same length, same multiset |
| Ingest.NewestFirstOrdered | internal/ingest/news.go:91-93 | the sort returns candidates in non-increasing date order |
| Ingest.NewestFirstStable | internal/ingest/news.go:91-93 | the sort is stable: the candidates of each date keep their gathering order |
| Ingest.KeptCount | internal/ingest/news.go:95-100 | exactly min(cap, n) candidates are kept, and kept plus dropped are exactly the gathered candidates |
| Ingest.KeptNewest | internal/ingest/news.go:91-100 | the kept articles are newest first and none of the dropped ones is newer than a kept one |
| Ingest.KeptStable | internal/ingest/news.go:91-100 | among candidates of one date, those kept are the first ones in gathering order |
| Ingest.RecordsItems | internal/ingest/news.go:100-116 | one record per kept article, in the same order |
| Ingest.RecordOfProperties | internal/ingest/news.go:101-116 | a record's summary is a prefix of at most 280 characters, its trend is the label of its score, its tickers column is non-empty, and it keeps title, link and date |
| Ingest.RecordsNewestFirst | internal/ingest/news.go:100-116 | records are written newest first |
| Ingest.ScoreArticle | internal/ingest/news.go:101-116 | the per-article step builds exactly the specified record |
| Ingest.UpsertedKeys | internal/ingest/news.go:118-120 | after the batch the store holds the old rows plus the ids of the successful writes; a failed write does not stop the batch |
| Ingest.UpsertedUntouched | internal/ingest/news.go:118-120 | a row whose id no successful write carries is unchanged |
| Ingest.UpsertedLastWriteWins | internal/ingest/news.go:118-120 | the stored row of an id is its last successful write |
| Ingest.UpsertedAllSucceed | internal/ingest/news.go:118-120 | with no failures the store is the old rows overridden by the batch's last write per id |
| Ingest.UpsertedRetry | internal/ingest/news.go:118-120 | re-running a batch with no failure after a run with any failures leaves exactly the rows of one failure-free run; with no failures on either run, upserting is idempotent |
| Ingest.NewsStore.InsertNewsArticle | internal/ingest/news.go:118-120 | an upsert keyed by id is recorded; on failure the rows are unchanged and false is returned |
| Ingest.NewsIngestor.StoreRecords | internal/ingest/news.go:100-121 | the upsert loop writes the records of the kept articles in order and leaves the rows as the batch of upserts with its failures specifies |
| Ingest.NewsIngestor.Refresh | internal/ingest/news.go:48-125 | a cap ≤ 0 is an error with no write; no gathered article is an error with no write; otherwise success with exactly min(cap, n) writes of the newest-first kept articles, despite upsert failures (the allocation panic for huge caps and the per-item clock readings of undated items are not modelled, see "Left out") |
| GoStrings.SplitWhereCount | internal/config/config.go:76 | `strings.Split` gives one piece more than there are separators |
| GoStrings.SplitCommaJoin | internal/config/config.go:76 | joining the pieces of a comma split with "," gives the input back |
| GoStrings.TrimSpaceTrimmed | internal/config/config.go:77 | `TrimSpace` leaves no white space at either end |
| GoStrings.TrimSpaceEmpty | internal/config/config.go:77-80 | trimming leaves the empty string exactly when the input is all white space |
| GoStrings.ToUpperProperties | internal/services/news.go:52 | upper-casing is idempotent, keeps a trimmed string trimmed and keeps a non-empty string non-empty |
| GoStrings.TrimmedNonEmptyShape | internal/config/config.go:76-82 | the trim-and-drop loop yields only non-empty trimmed strings, no more than there were parts |
| GoStrings.TrimmedNonEmptyOrder | internal/config/config.go:76-82 | a surviving part lands after all surviving parts before it: order is kept |
| GoStrings.CleanedConcat | internal/config/config.go:74-84 | cleaning `a + "," + b` gives the cleaned `a` followed by the cleaned `b` |
| GoStrings.CleanedJoin | internal/services/news.go:45-56 | cleaning the comma split of a ", "-join of non-empty trimmed comma-free strings gives the list back, for every list, the empty one included |
| NewsService.SplitTickers | internal/services/news.go:45-56 | the loop returns the comma-separated parts, trimmed, empties dropped, upper-cased |
| NewsService.UpperAllItems | internal/services/news.go:52 | one upper-cased element per kept part, in order |
| NewsService.TickerListShape | internal/services/news.go:45-56 | every element is non-empty, trimmed and upper case; at most commas + 1 elements |
| NewsService.TickerListConcat | internal/services/news.go:47-53 | left-to-right order of the parts is preserved |
| NewsService.TickerListBlank | internal/services/news.go:46-55 | the empty column, or one of only white space and commas, gives no tickers |
| NewsService.TickerColumnRoundTrip | internal/services/news.go:45-56 | splitting the ", "-joined extracted tickers gives back exactly the extracted tickers, for every text |
| NewsService.Latest | internal/services/news.go:21-43 | a query error is passed through; otherwise exactly one headline per row, in row order, with the row's fields and its split tickers |
| NewsService.HeadlineOfRecord | internal/services/news.go:36 | a headline read back from a record written by a refresh lists exactly the tickers extracted from the article |
| Config.GetEnv | internal/config/config.go:66-72 | a set variable gives its value even when empty; only an unset one gives the fallback |
| Config.SplitAndClean | internal/config/config.go:74-84 | the loop returns the trimmed non-empty comma-separated parts |
| Config.CleanListShape | internal/config/config.go:74-84 | no element is empty, each is trimmed and is the trimmed form of some part, and there are at most commas + 1 elements |
| GoStrings.CleanedBlank | internal/config/config.go:74-84 | an empty value, or one of only white space and commas, gives the empty list |
| Config.CleanListSingle | internal/config/config.go:74-84 | a non-empty, trimmed, comma-free value is a one-element list |
| Config.DefaultNewsFeedsList | internal/config/config.go:53-54 | the default `NEWS_FEEDS` value gives exactly the Yahoo and Dow Jones feeds, in that order |
| Config.Load | internal/config/config.go:29-64 | loading fails exactly when one of the two durations does not parse; a bad request timeout is the error reported, else a bad poll interval; a loaded feed list has no blank or untrimmed entry |
| Config.LoadDefaults | internal/config/config.go:29-64 | with nothing set every setting takes its default value, the two default feeds included |
| Config.BlankNewsFeedsFallBack | internal/config/config.go:53-54 | a blank `NEWS_FEEDS` gives no feeds, and an ingestor built from that list uses its one default feed |
| MarketData.GetMarketStatus | internal/services/market_data.go:320-342 | Saturday and Sunday are closed at any time; on weekdays: open exactly 9:30–15:59, pre-market 4:00–9:29, after-hours 16:00–19:59, closed before 4:00 and from 20:00 |
| MarketData.LabelsDistinct | internal/services/market_data.go:320-342 | the four status strings are distinct |
| MarketData.Fetched | internal/services/market_data.go:121-133 | the chain fails only when all three providers fail, with Yahoo's error wrapped; otherwise it returns the first successful provider's quote in Finnhub, Alpha Vantage, Yahoo order |
| MarketData.Consulted | internal/services/market_data.go:121-133 | providers are asked in the fixed order, each only after all earlier ones failed |
| MarketData.MarketDataService.constructor | internal/services/market_data.go:98-109 | the quote cache starts empty |
| MarketData.MarketDataService.GetQuote | internal/services/market_data.go:112-144 | a fresh entry is returned with no provider asked and the cache unchanged; otherwise the chain's outcome; on error the cache is unchanged; on success only that symbol's entry becomes the quote with expiry one minute later |
| MarketData.CachedQuoteServed | internal/services/market_data.go:114-141 | a quote just cached is served from the cache exactly while less than a minute has passed since it was stored |
| MarketData.MarketMovers | internal/services/market_data.go:262-279 | the loop returns the quotes that rose as gainers, all others as losers, in order, and all quotes as active |
| MarketData.MoversPartition | internal/services/market_data.go:268-277 | every gainer rose, no loser rose (zero change is a loser), and the two lists together are exactly the quotes |
| Pages.PageMarketStatus | internal/handlers/pages.go:347-365 | weekends closed; weekdays open for hours 9–15, pre-market 4–8, after-hours 16–19, otherwise closed |
| Pages.ClassifiersDisagree | internal/handlers/pages.go:355-357 | for the same weekday, hour and minute, the page and the service agree except on weekdays from 9:00 to 9:29, where the page says open and the service pre-market |
| Pages.ReasoningForRec | internal/handlers/pages.go:298-300 | the fixed sentence, then the symbol, then ". ", then the thesis |
| Pages.RiskFactorsForRec | internal/handlers/pages.go:320-333 | the method returns the specified risk-factor list |
| Pages.RiskFactorsShape | internal/handlers/pages.go:320-333 | the list starts with the two fixed factors and has a third, conviction-specific line exactly for "High" and "Low" |
| Pages.AIInsights | internal/handlers/pages.go:264-295 | a failed query gives no insights; otherwise one insight per recommendation, in order, built from it |
| Pages.InsightOfProperties | internal/handlers/pages.go:274-286 | each insight carries its recommendation, names its symbol in the reasoning, and starts its risks with the fixed two |
| Dashboard.CountOutperforming | internal/handlers/dashboard.go:118-127 | the loop counts exactly the stocks with a positive 90-day difference to the S&P 500 |
| Dashboard.OutperformersSnoc | internal/handlers/dashboard.go:120-124 | appending a stock adds 1 when it outperformed and 0 otherwise |
| Dashboard.OutperformersBounds | internal/handlers/dashboard.go:118-127 | the count is at most the number of stocks, 0 exactly when none outperformed (zero does not count), all exactly when every one did |
| Dashboard.OutperformersAppend | internal/handlers/dashboard.go:118-127 | the count is additive over concatenation |
| Dashboard.AvgScore | internal/handlers/dashboard.go:129-140 | zero for no recommendations; otherwise the average times the count is the total score |
| Dashboard.TotalScoreBounds | internal/handlers/dashboard.go:134-137 | scores within [lo, hi] give a total within [n·lo, n·hi] |
| Dashboard.AverageWithinScores | internal/handlers/dashboard.go:129-140 | the mean of scores within [lo, hi] is within [lo, hi] |

## Left out

- RSS and Atom fetching and parsing (`gofeed`): network access and a foreign parser. Each feed's outcome is an input, `None` for a failure.
- VADER sentiment scoring (`govader`): a foreign library. It is the `polarity` function of `Collaborators`.
- SHA-1 and the UUID string format, and Go's RFC 3339 formatting: these are the opaque `nameUUID` and `formatRFC3339` functions.
- `time.Now()`, time zones and the EST conversion: `now`, the weekday, the hour and the minute are parameters.
- Ingest.NewsIngestor.Refresh: takes one clock reading, `now`, for every undated item, where the source reads the clock once per item (internal/ingest/news.go:69). In the source a later item gets a later reading, so the newest-first sort puts undated items in reverse gathering order; in the model they all tie at `now` and the stable sort keeps them in gathering order. When more undated items than the cap compete for the last places, the source keeps the last-gathered ones and the model the first-gathered ones.
- Ingest.KeptStable: its "first of each date in gathering order" is exact for dated items only; for undated items it describes the single-reading model above, not the source, which keeps the last-gathered undated items.
- Pages.ClassifiersDisagree: compares the two classifiers on the same weekday, hour and minute. The page reads the host's local clock and the service a fixed UTC-5 zone, so at one instant their readings, and hence their answers, can also differ by the zone offset.
- Ingest.NewsIngestor.Refresh: integers are unbounded, so the capacity `maxArticles * len(feeds)` passed to `make` at internal/ingest/news.go:61 never overflows. In Go the product wraps around at 64 bits, and `make` panics ("makeslice: cap out of range") when the capacity is negative after wrapping or when the slice would exceed the allocator's limit (for two feeds, from about 10^12 articles). For such caps the model reports the outcome of a refresh where the program crashes.
- `GetQuote` takes one instant for the cache check and one for the expiry, standing for the two `time.Now()` calls.
- Ingest.Truncate: counts characters, not UTF-8 bytes as Go's `len` and slicing do. It agrees with the source only on ASCII summaries.
- GoStrings.ToUpper: upper-cases the ASCII letters, U+0131 and U+017F only. These are the letters whose Go upper case is ASCII, so ticker extraction is exact, but `splitTickers` on other non-ASCII letters is not.
- The in-place `sort.SliceStable` is a library call. It is modelled as the stable insertion-sort function `Ingest.NewestFirst`, with its order, permutation and stability proved.
- Logging (`slog`): the warnings for failed fetches and failed upserts, and the completion line.
- Concurrency:
  - the mutex of the quote cache;
  - the goroutines of `GetMultipleQuotes`;
  - the `errgroup` fan-out of the dashboard handlers;
  - the periodic ticker.
- MarketData.MarketMovers: takes the quotes as a sequence. The source builds them from a Go map, whose iteration order is unspecified.
- `GetSectorPerformance`: it iterates a Go map, so its output order is unspecified.
- The HTTP and JSON provider code (`fetchFinnhubQuote`, `fetchAlphaVantageQuote`, `fetchYahooQuote`, `fetchYahooHistorical`). Each provider is an outcome parameter.
- `changePercent` and other floating point arithmetic: Go's `float64` values are reals, and rounding is not modelled.
- Dashboard.AvgScore: states the average through the real-number identity average × count = total, so float64 rounding of the sum and of the division is not captured.
- `MarketData.StockQuote` keeps only symbol, name, price, change, change percent and volume. The model never inspects the remaining fields.
- `TopPicks(10)` and `ListLatestNews`: database queries. Their outcomes are inputs.
- Template rendering, routes, the mock quote tables, the sqlc query layer, the seeding tools, the stub integrations (Clerk, Stripe, ShipStation, SendGrid), the JWT check and the logger setup are outside the modelled core.
- `time.ParseDuration`: a parameter. The model does not check its grammar.
