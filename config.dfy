/** Runtime configuration, `internal/config/config.go`: every setting is read
    from the environment with a fallback; the news feed list is a
    comma-separated value that is split, trimmed and cleaned of empty entries.

    The environment is a map from variable name to value, so a variable that is
    set to the empty string is distinguished from one that is not set.
    `time.ParseDuration` is a collaborator: a function from text to either a
    duration in nanoseconds or the parser's error text. */
module Config {
  import opened Wrappers
  import opened GoStrings
  import Ingest

  type Environment = map<string, string>

  /** `time.ParseDuration` */
  type DurationParser = string -> Result<int, string>

  const YahooFeed: string := "https://finance.yahoo.com/news/rssindex"
  const DowJonesFeed: string := "https://feeds.a.dj.com/rss/RSSMarketsMain"

  /** The fallback of `NEWS_FEEDS`. */
  const DefaultNewsFeeds: string := YahooFeed + "," + DowJonesFeed

  datatype Config = Config(
    env: string, httpAddr: string, publicURL: string, databasePath: string,
    jwtAudience: string, jwtIssuer: string, clerkSecretKey: string, stripeSecretKey: string,
    shipStationAPIKey: string, shipStationSecret: string, sendGridAPIKey: string, signingKey: string,
    requestTimeout: int, newsFeeds: seq<string>, newsPollInterval: int)

  /** `getEnv`: a variable that is set gives its value, even the empty
      string; only a variable that is not set gives the fallback. */
  function GetEnv(environment: Environment, key: string, fallback: string): (v: string)
    ensures key in environment ==> v == environment[key]
    ensures key !in environment ==> v == fallback
  {
    if key in environment then environment[key] else fallback
  }

  /** `os.Getenv`: the empty string for a variable that is not set. */
  function Getenv(environment: Environment, key: string): string {
    GetEnv(environment, key, "")
  }

  /** What `splitAndClean` returns. */
  function CleanList(raw: string): seq<string> {
    TrimmedNonEmpty(SplitComma(raw))
  }

  /** `splitAndClean` */
  method SplitAndClean(raw: string) returns (out: seq<string>)
    ensures out == CleanList(raw)
  {
    out := [];
    var parts := SplitComma(raw);
    for i := 0 to |parts|
      invariant out == TrimmedNonEmpty(parts[..i])
    {
      TrimmedNonEmptySnoc(parts, i);
      var trimmed := TrimSpace(parts[i]);
      if trimmed == "" {
        continue;
      }
      out := out + [trimmed];
    }
    assert parts[..|parts|] == parts;
  }

  /** No element is empty, every element is trimmed and is the trimmed form of
      one of the comma-separated parts, and there are at most as many
      elements as commas plus one. */
  lemma CleanListShape(raw: string)
    ensures forall k :: 0 <= k < |CleanList(raw)| ==> CleanList(raw)[k] != "" && IsTrimmed(CleanList(raw)[k])
    ensures forall x :: x in CleanList(raw) ==> exists p :: p in SplitComma(raw) && x == TrimSpace(p)
    ensures |CleanList(raw)| <= CountWhere(raw, IsComma) + 1
  {
    TrimmedNonEmptyShape(SplitComma(raw));
    TrimmedNonEmptyFromParts(SplitComma(raw));
    CleanedCommaCount(raw);
  }

  /** A trimmed, comma-free, non-empty value is a one-element list. */
  lemma CleanListSingle(s: string)
    requires s != "" && IsTrimmed(s) && NoneWhere(s, IsComma)
    ensures CleanList(s) == [s]
  {
    SplitWhereWhole(s, IsComma);
    TrimSpaceOfTrimmed(s);
    TrimmedNonEmptySingle(s);
  }

  /** The default `NEWS_FEEDS` value is exactly the two default feeds, in order. */
  lemma DefaultNewsFeedsList()
    ensures CleanList(DefaultNewsFeeds) == [YahooFeed, DowJonesFeed]
  {
    CleanedConcat(YahooFeed, DowJonesFeed);
    YahooFeedClean();
    DowJonesFeedClean();
  }

  lemma YahooFeedClean()
    ensures CleanList(YahooFeed) == [YahooFeed]
  {
    YahooFeedChars();
    FeedUrlShape(YahooFeed);
    CleanListSingle(YahooFeed);
  }

  lemma DowJonesFeedClean()
    ensures CleanList(DowJonesFeed) == [DowJonesFeed]
  {
    DowJonesFeedChars();
    FeedUrlShape(DowJonesFeed);
    CleanListSingle(DowJonesFeed);
  }

  /** A URL of letters, digits and `:/._-` is trimmed and comma-free. */
  lemma FeedUrlShape(url: string)
    requires url != []
    requires forall i :: 0 <= i < |url| ==> IsUrlChar(url[i])
    ensures IsTrimmed(url) && NoneWhere(url, IsComma)
  {
  }

  lemma YahooFeedChars()
    ensures forall i :: 0 <= i < |YahooFeed| ==> IsUrlChar(YahooFeed[i])
  {
  }

  lemma DowJonesFeedChars()
    ensures forall i :: 0 <= i < |DowJonesFeed| ==> IsUrlChar(DowJonesFeed[i])
  {
  }

  predicate IsUrlChar(c: char) {
    'a' <= c <= 'z' || 'A' <= c <= 'Z' || '0' <= c <= '9' || c in ":/._-"
  }

  /** `Load`: the string settings with their fallbacks; the request timeout
      and the poll interval parsed as durations, a parse error being reported
      for the first one that fails; the news feeds cleaned. Loading fails
      exactly when one of the two durations does not parse, the request
      timeout is reported first, and a loaded feed list holds no blank or
      untrimmed entry. */
  function Load(environment: Environment, parseDuration: DurationParser): (r: Result<Config, string>)
    ensures r.Failure? <==>
              parseDuration(GetEnv(environment, "REQUEST_TIMEOUT", "4s")).Failure? ||
              parseDuration(GetEnv(environment, "NEWS_POLL_INTERVAL", "30m")).Failure?
    ensures parseDuration(GetEnv(environment, "REQUEST_TIMEOUT", "4s")).Failure? ==>
              "invalid REQUEST_TIMEOUT: " <= r.error
    ensures parseDuration(GetEnv(environment, "REQUEST_TIMEOUT", "4s")).Success? &&
            parseDuration(GetEnv(environment, "NEWS_POLL_INTERVAL", "30m")).Failure? ==>
              "invalid NEWS_POLL_INTERVAL: " <= r.error
    ensures r.Success? ==> forall k :: 0 <= k < |r.value.newsFeeds| ==>
              r.value.newsFeeds[k] != "" && IsTrimmed(r.value.newsFeeds[k])
  {
    var timeout := parseDuration(GetEnv(environment, "REQUEST_TIMEOUT", "4s"));
    var poll := parseDuration(GetEnv(environment, "NEWS_POLL_INTERVAL", "30m"));
    var feeds := GetEnv(environment, "NEWS_FEEDS", DefaultNewsFeeds);
    CleanListShape(feeds);
    if timeout.Failure? then Failure("invalid REQUEST_TIMEOUT: " + timeout.error)
    else if poll.Failure? then Failure("invalid NEWS_POLL_INTERVAL: " + poll.error)
    else
      Success(Config(
        GetEnv(environment, "APP_ENV", "development"),
        GetEnv(environment, "HTTP_ADDR", ":8080"),
        GetEnv(environment, "PUBLIC_URL", "http://localhost:8080"),
        GetEnv(environment, "DATABASE_PATH", "data/app.db"),
        GetEnv(environment, "JWT_AUDIENCE", "financing101"),
        GetEnv(environment, "JWT_ISSUER", "financing101"),
        Getenv(environment, "CLERK_SECRET_KEY"),
        Getenv(environment, "STRIPE_SECRET_KEY"),
        GetEnv(environment, "SHIPSTATION_API_KEY", ""),
        GetEnv(environment, "SHIPSTATION_SECRET", ""),
        GetEnv(environment, "SENDGRID_API_KEY", ""),
        GetEnv(environment, "SIGNING_KEY", "insecure-local-key"),
        timeout.value,
        CleanList(feeds),
        poll.value))
  }

  /** With nothing set, every setting takes its documented default, the two
      default feeds among them. */
  lemma LoadDefaults(parseDuration: DurationParser)
    requires parseDuration("4s").Success? && parseDuration("30m").Success?
    ensures Load(map[], parseDuration) == Success(Config(
              "development", ":8080", "http://localhost:8080", "data/app.db", "financing101", "financing101",
              "", "", "", "", "", "insecure-local-key",
              parseDuration("4s").value, [YahooFeed, DowJonesFeed], parseDuration("30m").value))
  {
    DefaultNewsFeedsList();
  }

  /** A blank `NEWS_FEEDS` gives no feeds, and the ingestor built from that
      list falls back to its single default feed. */
  lemma BlankNewsFeedsFallBack(environment: Environment, parseDuration: DurationParser)
    requires "NEWS_FEEDS" in environment
    requires forall i :: 0 <= i < |environment["NEWS_FEEDS"]| ==> IsSpace(environment["NEWS_FEEDS"][i])
    requires Load(environment, parseDuration).Success?
    ensures Load(environment, parseDuration).value.newsFeeds == []
    ensures Ingest.EffectiveFeeds(Load(environment, parseDuration).value.newsFeeds) == [Ingest.DefaultFeed]
  {
    CleanedBlank(environment["NEWS_FEEDS"]);
  }
}
