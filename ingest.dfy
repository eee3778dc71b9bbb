/** The news ingestion pipeline of `internal/ingest/news.go`: gather the
    items of every configured feed, rank them newest first with a stable
    sort, keep the first `maxArticles`, and upsert one scored, tagged record
    per kept article through the store.

    Feed fetching and parsing, sentiment scoring, RFC 3339 formatting and the
    name-based UUID (version 5, section 4.3 of RFC 4122, URL namespace) are
    collaborators: the fetched feeds and the clock reading are inputs, the
    others are the functions of a `Collaborators` value. */
module Ingest {
  import opened Wrappers
  import opened GoStrings
  import opened Sequences
  import opened Models

  /** The feed used when the ingestor is configured with none. */
  const DefaultFeed: string := "https://finance.yahoo.com/news/rssindex"

  /** The feeds `NewNewsIngestor` keeps: the default feed when none is configured. */
  function EffectiveFeeds(feeds: seq<string>): seq<string> {
    if feeds == [] then [DefaultFeed] else feeds
  }

  /** The closed allow-list of ticker symbols built by `NewNewsIngestor`. */
  const Lexicon: set<string> := {"AAPL", "GOOGL", "META", "MSFT", "NVDA", "AMZN", "TSLA", "SPY", "QQQ",
                                 "LMT", "XOM", "NFLX", "ORCL", "AMD", "INTC", "AVGO", "JPM", "BAC"}

  /** The broad-market symbol stored when no lexicon symbol is mentioned. */
  const FallbackTicker: string := "SPY"

  /** Maximum length of a stored summary. */
  const SummaryLimit: nat := 280

  /** How the ticker list is joined into the stored `tickers` column. */
  const TickerSeparator: string := ", "

  /** A parsed feed item; `published` is `PublishedParsed`, absent when the
      feed gives no parsable date. */
  datatype Item = Item(title: string, link: string, description: string, content: string, published: Option<Time>)

  /** A parsed feed: its display title and its items. */
  datatype Feed = Feed(title: string, items: seq<Item>)

  /** A candidate article gathered during one refresh. */
  datatype Article = Article(title: string, source: string, summary: string, link: string, date: Time)

  datatype Trend = Bullish | Neutral | Bearish {
    /** The string stored in the `trend` column. */
    function Label(): string {
      match this
      case Bullish => "bullish"
      case Neutral => "neutral"
      case Bearish => "bearish"
    }
  }

  /** The row written by `InsertNewsArticle` (an upsert keyed by `id`). */
  datatype NewsArticle = NewsArticle(
    id: string, title: string, source: string, summary: string,
    sentimentScore: real, trend: string, tickers: string, url: string, publishedAt: Time)

  /** The foreign code a refresh calls: the compound polarity score of a text,
      RFC 3339 formatting of an instant, and the SHA-1 name-based UUID in the
      URL namespace, as its canonical string. */
  datatype Collaborators = Collaborators(
    polarity: string -> real, formatRFC3339: Time -> string, nameUUID: string -> string)

  datatype RefreshError = InvalidArgument | NoData

  // ---------------------------------------------------------------------------
  // Sentiment label

  /** `sentimentLabel`: strict thresholds at 0.2 and -0.2. */
  function SentimentLabel(score: real): (t: Trend)
    ensures t == Bullish <==> score > 0.2
    ensures t == Bearish <==> score < -0.2
    ensures t == Neutral <==> -0.2 <= score <= 0.2
  {
    if score > 0.2 then Bullish
    else if score < -0.2 then Bearish
    else Neutral
  }

  function Rank(t: Trend): nat {
    match t
    case Bearish => 0
    case Neutral => 1
    case Bullish => 2
  }

  /** A higher score never gets a more bearish label. */
  lemma SentimentLabelMonotone(a: real, b: real)
    requires a <= b
    ensures Rank(SentimentLabel(a)) <= Rank(SentimentLabel(b))
  {
  }

  /** The boundaries themselves are neutral. */
  lemma SentimentLabelBoundaries()
    ensures SentimentLabel(0.2) == Neutral && SentimentLabel(-0.2) == Neutral
    ensures SentimentLabel(0.21) == Bullish && SentimentLabel(-0.21) == Bearish
    ensures SentimentLabel(0.78) == Bullish && SentimentLabel(-0.12) == Neutral
  {
  }

  // ---------------------------------------------------------------------------
  // Truncation and identity

  /** `truncate`: the first `limit` characters, no ellipsis. */
  function Truncate(input: string, limit: nat): (r: string)
    ensures r <= input
    ensures |r| == if |input| <= limit then |input| else limit
  {
    if |input| <= limit then input else input[..limit]
  }

  /** The name hashed by `deterministicID`. */
  function IdName(link: string, title: string, stamp: string): string {
    link + "|" + title + "|" + stamp
  }

  /** `deterministicID`: the UUID of `link|title|RFC 3339 date`. */
  function DeterministicID(link: string, title: string, published: Time, c: Collaborators): string {
    c.nameUUID(IdName(link, title, c.formatRFC3339(published)))
  }

  predicate IsBar(ch: char) {
    ch == '|'
  }

  /** When neither link nor title contains '|', the hashed name determines
      the link, the title and the formatted date. */
  lemma IdNameInjective(l1: string, t1: string, s1: string, l2: string, t2: string, s2: string)
    requires NoneWhere(l1, IsBar) && NoneWhere(t1, IsBar) && NoneWhere(l2, IsBar) && NoneWhere(t2, IsBar)
    requires IdName(l1, t1, s1) == IdName(l2, t2, s2)
    ensures l1 == l2 && t1 == t2 && s1 == s2
  {
    IdNamePieces(l1, t1, s1);
    IdNamePieces(l2, t2, s2);
    var n := IdName(l1, t1, s1);
    assert s1 == n[|l1| + |t1| + 2..];
    assert s2 == n[|l2| + |t2| + 2..];
  }

  lemma IdNamePieces(l: string, t: string, s: string)
    requires NoneWhere(l, IsBar) && NoneWhere(t, IsBar)
    ensures |SplitWhere(IdName(l, t, s), IsBar)| >= 2
    ensures SplitWhere(IdName(l, t, s), IsBar)[0] == l
    ensures SplitWhere(IdName(l, t, s), IsBar)[1] == t
  {
    assert IdName(l, t, s) == l + ['|'] + (t + ['|'] + s);
    SplitWhereAtSeparator(l, '|', t + ['|'] + s, IsBar);
    SplitWhereAtSeparator(t, '|', s, IsBar);
  }

  /** A '|' inside a link or title lets two different articles share an id. */
  lemma IdNameCollision(stamp: string)
    ensures IdName("a|b", "c", stamp) == IdName("a", "b|c", stamp)
  {
  }

  /** The id depends only on link, title and date. */
  lemma SameArticleSameId(a1: Article, a2: Article, c: Collaborators)
    requires a1.link == a2.link && a1.title == a2.title && a1.date == a2.date
    ensures RecordOf(a1, c).id == RecordOf(a2, c).id
  {
  }

  /** An item with a publish date gets the same id at every refresh and from
      every feed, so ingesting it again upserts the same row. */
  lemma DatedItemSameId(source1: string, source2: string, item: Item, now1: Time, now2: Time, c: Collaborators)
    requires item.published.Some?
    ensures RecordOf(ArticleOf(source1, item, now1), c).id == RecordOf(ArticleOf(source2, item, now2), c).id
  {
  }

  /** An item without a publish date is dated with the refresh's clock
      reading, so two refreshes whose readings format differently give it
      two different ids (the name-based UUID being collision-free): the
      second refresh inserts another row for the same item instead of
      updating the first. */
  lemma UndatedItemNewIdEachRefresh(source: string, item: Item, now1: Time, now2: Time, c: Collaborators)
    requires item.published.None?
    requires c.formatRFC3339(now1) != c.formatRFC3339(now2)
    requires forall x, y :: c.nameUUID(x) == c.nameUUID(y) ==> x == y
    ensures RecordOf(ArticleOf(source, item, now1), c).id != RecordOf(ArticleOf(source, item, now2), c).id
  {
    var s1, s2 := c.formatRFC3339(now1), c.formatRFC3339(now2);
    var n1, n2 := IdName(item.link, item.title, s1), IdName(item.link, item.title, s2);
    assert RecordOf(ArticleOf(source, item, now1), c).id == c.nameUUID(n1);
    assert RecordOf(ArticleOf(source, item, now2), c).id == c.nameUUID(n2);
    assert n1[|item.link| + |item.title| + 2..] == s1;
    assert n2[|item.link| + |item.title| + 2..] == s2;
  }

  // ---------------------------------------------------------------------------
  // Ticker extraction

  /** The characters `extractTickers` splits on. */
  predicate IsTickerSeparator(ch: char) {
    ch in {' ', ',', '.', ';', ':', '(', ')', '"', '\'', '?', '!'}
  }

  /** `strings.FieldsFunc(text, ...)` with the separators above. */
  function Tokens(text: string): seq<string> {
    FieldsFunc(text, IsTickerSeparator)
  }

  /** An upper-cased token that passes both filters of `extractTickers`. */
  predicate IsLexiconSymbol(u: string) {
    2 <= |u| <= 5 && u in Lexicon
  }

  /** The upper-cased tokens that pass the filters, in order, repeats kept. */
  function LexiconMatches(tokens: seq<string>): seq<string> {
    if tokens == [] then []
    else
      var prev := LexiconMatches(tokens[..|tokens| - 1]);
      var u := ToUpper(tokens[|tokens| - 1]);
      if IsLexiconSymbol(u) then prev + [u] else prev
  }

  /** The first occurrence of every element, in order. */
  function Dedup(s: seq<string>): seq<string> {
    if s == [] then []
    else
      var prev := Dedup(s[..|s| - 1]);
      if s[|s| - 1] in prev then prev else prev + [s[|s| - 1]]
  }

  predicate Distinct(s: seq<string>) {
    forall i, j :: 0 <= i < j < |s| ==> s[i] != s[j]
  }

  /** What `extractTickers` returns for `text`. */
  function TickersIn(text: string): seq<string> {
    var found := Dedup(LexiconMatches(Tokens(text)));
    if found == [] then [FallbackTicker] else found
  }

  /** `extractTickers` */
  method ExtractTickers(text: string) returns (tickers: seq<string>)
    ensures tickers == TickersIn(text)
  {
    var tokens := FieldsFunc(text, IsTickerSeparator);
    var seen: set<string> := {};
    tickers := [];
    for i := 0 to |tokens|
      invariant tickers == Dedup(LexiconMatches(tokens[..i]))
      invariant forall t :: t in seen <==> t in tickers
    {
      assert tokens[..i + 1][..i] == tokens[..i];
      var upper := ToUpper(tokens[i]);
      if |upper| < 2 || |upper| > 5 {
        continue;
      }
      if upper !in Lexicon {
        continue;
      }
      if upper in seen {
        continue;
      }
      seen := seen + {upper};
      tickers := tickers + [upper];
    }
    assert tokens[..|tokens|] == tokens;
    if |tickers| == 0 {
      return [FallbackTicker];
    }
  }

  /** Dedup keeps exactly the elements of its input, each once, ordered by
      first occurrence: an element listed before another occurs in the input
      before every occurrence of the other. */
  lemma {:induction false} DedupProperties(s: seq<string>)
    ensures forall x :: x in Dedup(s) <==> x in s
    ensures Distinct(Dedup(s))
    ensures forall i, j, q :: 0 <= i < j < |Dedup(s)| && 0 <= q < |s| && s[q] == Dedup(s)[j] ==> Dedup(s)[i] in s[..q]
  {
    if s != [] {
      var init := s[..|s| - 1];
      var x := s[|s| - 1];
      DedupProperties(init);
      var prev := Dedup(init);
      var r := Dedup(s);
      assert s == init + [x];
      forall i, j, q | 0 <= i < j < |r| && 0 <= q < |s| && s[q] == r[j]
        ensures r[i] in s[..q]
      {
        if q < |init| {
          assert s[q] == init[q] && s[..q] == init[..q];
        } else {
          assert r[i] in prev;
          assert s[..q] == init;
        }
      }
    }
  }

  /** Every lexicon symbol is two to five upper-case ASCII letters. */
  lemma LexiconShape()
    ensures forall s :: s in Lexicon ==> 2 <= |s| <= 5 && forall i :: 0 <= i < |s| ==> 'A' <= s[i] <= 'Z'
  {
  }

  /** Strings of upper-case ASCII letters are non-empty-safe list entries:
      trimmed, comma-free and their own upper case. */
  lemma LettersAreTickerShaped(s: string)
    requires forall i :: 0 <= i < |s| ==> 'A' <= s[i] <= 'Z'
    ensures IsTrimmed(s) && NoneWhere(s, IsComma) && IsUpper(s)
  {
    assert ToUpper(s) == s;
  }

  /** `extractTickers` never returns an empty list; every element is a
      lexicon symbol; no symbol appears twice; and the result is exactly
      `["SPY"]` when no token is a lexicon symbol. */
  lemma TickersInProperties(text: string)
    ensures |TickersIn(text)| >= 1
    ensures forall t :: t in TickersIn(text) ==> t in Lexicon
    ensures Distinct(TickersIn(text))
    ensures LexiconMatches(Tokens(text)) == [] ==> TickersIn(text) == [FallbackTicker]
    ensures LexiconMatches(Tokens(text)) != [] ==>
              forall t :: t in TickersIn(text) <==> t in LexiconMatches(Tokens(text))
  {
    var m := LexiconMatches(Tokens(text));
    DedupProperties(m);
    LexiconMatchesInLexicon(Tokens(text));
    if m != [] {
      assert m[0] in Dedup(m);
    }
  }

  /** The symbols come out in the order of their first mention. */
  lemma TickersInFirstMentionOrder(text: string)
    ensures var m := LexiconMatches(Tokens(text));
            forall i, j, q :: 0 <= i < j < |TickersIn(text)| && 0 <= q < |m| && m[q] == TickersIn(text)[j] ==>
              TickersIn(text)[i] in m[..q]
  {
    var m := LexiconMatches(Tokens(text));
    if m != [] {
      DedupProperties(m);
      assert m[0] in Dedup(m);
    }
  }

  lemma {:induction false} LexiconMatchesInLexicon(tokens: seq<string>)
    ensures forall t :: t in LexiconMatches(tokens) ==> t in Lexicon
  {
    if tokens != [] {
      LexiconMatchesInLexicon(tokens[..|tokens| - 1]);
    }
  }

  /** Every extracted symbol can be stored in the comma-joined column: it is
      non-empty, trimmed, comma-free and upper case. */
  lemma TickersInShape(text: string)
    ensures forall k :: 0 <= k < |TickersIn(text)| ==>
              var t := TickersIn(text)[k];
              t != "" && IsTrimmed(t) && NoneWhere(t, IsComma) && IsUpper(t)
  {
    TickersInProperties(text);
    LexiconShape();
    forall k | 0 <= k < |TickersIn(text)|
      ensures var t := TickersIn(text)[k]; t != "" && IsTrimmed(t) && NoneWhere(t, IsComma) && IsUpper(t)
    {
      var t := TickersIn(text)[k];
      assert t in Lexicon;
      LettersAreTickerShaped(t);
    }
  }

  // ---------------------------------------------------------------------------
  // Gathering

  /** The candidate for one item: the description, or the content when the
      description is empty; the publish time, or `now` when there is none. */
  function ArticleOf(source: string, item: Item, now: Time): Article {
    Article(item.title, source, if item.description == "" then item.content else item.description,
            item.link, item.published.GetOr(now))
  }

  /** The candidates of one feed, in item order. */
  function FeedArticles(source: string, items: seq<Item>, now: Time): seq<Article> {
    if items == [] then []
    else FeedArticles(source, items[..|items| - 1], now) + [ArticleOf(source, items[|items| - 1], now)]
  }

  /** The candidates a fetch outcome contributes: none for a failed fetch. */
  function FetchedArticles(outcome: Option<Feed>, now: Time): seq<Article> {
    match outcome
    case None => []
    case Some(feed) => FeedArticles(feed.title, feed.items, now)
  }

  /** All candidates of one refresh, feed by feed, item by item. */
  function Gathered(fetched: seq<Option<Feed>>, now: Time): seq<Article> {
    if fetched == [] then []
    else Gathered(fetched[..|fetched| - 1], now) + FetchedArticles(fetched[|fetched| - 1], now)
  }

  /** One candidate per item, built from that item. */
  lemma {:induction false} FeedArticlesItems(source: string, items: seq<Item>, now: Time)
    ensures |FeedArticles(source, items, now)| == |items|
    ensures forall i :: 0 <= i < |items| ==> FeedArticles(source, items, now)[i] == ArticleOf(source, items[i], now)
  {
    if items != [] {
      FeedArticlesItems(source, items[..|items| - 1], now);
    }
  }

  /** Gathering is feed by feed: the candidates of a list of outcomes are those
      of its first part followed by those of the rest, so a failed fetch only
      drops its own feed. */
  lemma {:induction false} GatheredAppend(a: seq<Option<Feed>>, b: seq<Option<Feed>>, now: Time)
    ensures Gathered(a + b, now) == Gathered(a, now) + Gathered(b, now)
  {
    if b == [] {
      assert a + b == a;
    } else {
      var init, last := b[..|b| - 1], b[|b| - 1];
      GatheredAppend(a, init, now);
      SplitLast(b);
      AppendAssoc(a, init, [last]);
      GatheredSnoc(a + init, last, now);
      AppendAssoc(Gathered(a, now), Gathered(init, now), FetchedArticles(last, now));
    }
  }

  lemma GatheredSnoc(fetched: seq<Option<Feed>>, outcome: Option<Feed>, now: Time)
    ensures Gathered(fetched + [outcome], now) == Gathered(fetched, now) + FetchedArticles(outcome, now)
  {
    assert (fetched + [outcome])[..|fetched|] == fetched;
  }

  /** A fetch outcome that brings at least one item. */
  predicate Contributes(outcome: Option<Feed>) {
    outcome.Some? && outcome.value.items != []
  }

  lemma FetchedArticlesEmpty(outcome: Option<Feed>, now: Time)
    ensures FetchedArticles(outcome, now) == [] <==> !Contributes(outcome)
  {
    if outcome.Some? {
      FeedArticlesItems(outcome.value.title, outcome.value.items, now);
    }
  }

  /** Nothing is gathered exactly when every fetch failed or returned no item. */
  lemma {:induction false} GatheredEmpty(fetched: seq<Option<Feed>>, now: Time)
    ensures Gathered(fetched, now) == [] <==> forall i :: 0 <= i < |fetched| ==> !Contributes(fetched[i])
  {
    if fetched != [] {
      var init := fetched[..|fetched| - 1];
      var last := fetched[|fetched| - 1];
      GatheredEmpty(init, now);
      FetchedArticlesEmpty(last, now);
      assert Gathered(fetched, now) == Gathered(init, now) + FetchedArticles(last, now);
      if forall i :: 0 <= i < |fetched| ==> !Contributes(fetched[i]) {
        forall i | 0 <= i < |init| ensures !Contributes(init[i]) {
          assert init[i] == fetched[i];
        }
      } else {
        var i :| 0 <= i < |fetched| && Contributes(fetched[i]);
        if i < |init| {
          assert init[i] == fetched[i];
        }
      }
    }
  }

  /** `Refresh`'s gathering loops: every item of every feed that was fetched,
      in feed order, then item order. */
  method GatherArticles(fetched: seq<Option<Feed>>, now: Time) returns (articles: seq<Article>)
    ensures articles == Gathered(fetched, now)
  {
    articles := [];
    for i := 0 to |fetched|
      invariant articles == Gathered(fetched[..i], now)
    {
      GatheredPrefixSnoc(fetched, i, now);
      match fetched[i] {
        case None =>
          // the fetch failed: it is logged and the feed is skipped
        case Some(feed) =>
          ghost var before := articles;
          for j := 0 to |feed.items|
            invariant articles == before + FeedArticles(feed.title, feed.items[..j], now)
          {
            FeedArticlesPrefixSnoc(feed.title, feed.items, j, now);
            AppendAssoc(before, FeedArticles(feed.title, feed.items[..j], now), [ArticleOf(feed.title, feed.items[j], now)]);
            articles := articles + [ArticleOf(feed.title, feed.items[j], now)];
          }
          assert feed.items[..|feed.items|] == feed.items;
      }
    }
    assert fetched[..|fetched|] == fetched;
  }

  /** One more fetch outcome of a prefix adds its candidates at the end. */
  lemma GatheredPrefixSnoc(fetched: seq<Option<Feed>>, i: nat, now: Time)
    requires i < |fetched|
    ensures Gathered(fetched[..i + 1], now) == Gathered(fetched[..i], now) + FetchedArticles(fetched[i], now)
  {
    assert fetched[..i + 1][..i] == fetched[..i];
  }

  /** One more item of a prefix adds its candidate at the end. */
  lemma FeedArticlesPrefixSnoc(source: string, items: seq<Item>, j: nat, now: Time)
    requires j < |items|
    ensures FeedArticles(source, items[..j + 1], now) == FeedArticles(source, items[..j], now) + [ArticleOf(source, items[j], now)]
  {
    assert items[..j + 1][..j] == items[..j];
  }

  // ---------------------------------------------------------------------------
  // Ranking: the stable newest-first sort

  /** Non-increasing dates. */
  predicate NewestFirstOrder(s: seq<Article>) {
    forall i, j :: 0 <= i < j < |s| ==> s[i].date >= s[j].date
  }

  /** Insert `a` before the first element that is not newer than it. */
  function InsertByDate(a: Article, t: seq<Article>): seq<Article> {
    if t == [] || a.date >= t[0].date then [a] + t
    else [t[0]] + InsertByDate(a, t[1..])
  }

  /** `sort.SliceStable` with "date after" as the order. */
  function NewestFirst(s: seq<Article>): seq<Article> {
    if s == [] then []
    else InsertByDate(s[0], NewestFirst(s[1..]))
  }

  /** The articles with date `d`, in order. */
  function WithDate(s: seq<Article>, d: Time): seq<Article> {
    if s == [] then []
    else (if s[0].date == d then [s[0]] else []) + WithDate(s[1..], d)
  }

  lemma {:induction false} InsertByDatePermutes(a: Article, t: seq<Article>)
    ensures |InsertByDate(a, t)| == |t| + 1
    ensures multiset(InsertByDate(a, t)) == multiset(t) + multiset{a}
  {
    if !(t == [] || a.date >= t[0].date) {
      InsertByDatePermutes(a, t[1..]);
      assert t == [t[0]] + t[1..];
    }
  }

  /** The sort rearranges its input: same length, same articles. */
  lemma {:induction false} NewestFirstPermutes(s: seq<Article>)
    ensures |NewestFirst(s)| == |s|
    ensures multiset(NewestFirst(s)) == multiset(s)
  {
    if s != [] {
      NewestFirstPermutes(s[1..]);
      InsertByDatePermutes(s[0], NewestFirst(s[1..]));
      assert s == [s[0]] + s[1..];
    }
  }

  lemma {:induction false} InsertByDateBounded(a: Article, t: seq<Article>, newest: Time)
    requires a.date <= newest
    requires forall k :: 0 <= k < |t| ==> t[k].date <= newest
    ensures forall k :: 0 <= k < |InsertByDate(a, t)| ==> InsertByDate(a, t)[k].date <= newest
  {
    if !(t == [] || a.date >= t[0].date) {
      InsertByDateBounded(a, t[1..], newest);
    }
  }

  lemma {:induction false} InsertByDateOrdered(a: Article, t: seq<Article>)
    requires NewestFirstOrder(t)
    ensures NewestFirstOrder(InsertByDate(a, t))
  {
    if !(t == [] || a.date >= t[0].date) {
      var rest := InsertByDate(a, t[1..]);
      InsertByDateOrdered(a, t[1..]);
      InsertByDateBounded(a, t[1..], t[0].date);
      assert InsertByDate(a, t) == [t[0]] + rest;
    }
  }

  lemma WithDateSingle(x: Article, d: Time)
    ensures WithDate([x], d) == if x.date == d then [x] else []
  {
    assert [x][1..] == [];
  }

  lemma {:induction false} WithDateAppend(a: seq<Article>, b: seq<Article>, d: Time)
    ensures WithDate(a + b, d) == WithDate(a, d) + WithDate(b, d)
  {
    if a == [] {
      assert a + b == b;
    } else {
      assert (a + b)[0] == a[0] && (a + b)[1..] == a[1..] + b;
      WithDateAppend(a[1..], b, d);
      var head := if a[0].date == d then [a[0]] else [];
      AppendAssoc(head, WithDate(a[1..], d), WithDate(b, d));
    }
  }

  /** Inserting `a` after the newer head `x` does not reorder the articles of any date. */
  lemma InsertByDateStableStep(a: Article, x: Article, rest: seq<Article>, t: seq<Article>, d: Time)
    requires a.date < x.date
    requires WithDate(rest, d) == WithDate([a], d) + WithDate(t, d)
    ensures WithDate([x] + rest, d) == WithDate([a] + ([x] + t), d)
  {
    WithDateSingle(a, d);
    WithDateSingle(x, d);
    WithDateAppend([x], rest, d);
    WithDateAppend([x], t, d);
    WithDateAppend([a], [x] + t, d);
    if x.date == d {
      assert WithDate([a], d) == [];
      assert WithDate([a], d) + WithDate(t, d) == WithDate(t, d);
    } else {
      assert WithDate([x], d) == [];
      assert WithDate([x], d) + WithDate(t, d) == WithDate(t, d);
    }
  }

  lemma {:induction false} InsertByDateStable(a: Article, t: seq<Article>, d: Time)
    ensures WithDate(InsertByDate(a, t), d) == WithDate([a] + t, d)
  {
    if !(t == [] || a.date >= t[0].date) {
      InsertByDateStable(a, t[1..], d);
      WithDateAppend([a], t[1..], d);
      InsertByDateStableStep(a, t[0], InsertByDate(a, t[1..]), t[1..], d);
      assert [t[0]] + t[1..] == t;
    }
  }

  /** The sort yields newest first. */
  lemma {:induction false} NewestFirstOrdered(s: seq<Article>)
    ensures NewestFirstOrder(NewestFirst(s))
  {
    if s != [] {
      NewestFirstOrdered(s[1..]);
      InsertByDateOrdered(s[0], NewestFirst(s[1..]));
    }
  }

  /** The sort is stable: the articles of any one date stay in their gathering order. */
  lemma {:induction false} NewestFirstStable(s: seq<Article>, d: Time)
    ensures WithDate(NewestFirst(s), d) == WithDate(s, d)
  {
    if s != [] {
      NewestFirstStable(s[1..], d);
      InsertByDateStable(s[0], NewestFirst(s[1..]), d);
      WithDateAppend([s[0]], NewestFirst(s[1..]), d);
      WithDateAppend([s[0]], s[1..], d);
      assert [s[0]] + s[1..] == s;
    }
  }

  // ---------------------------------------------------------------------------
  // Selection

  function Min(a: nat, b: nat): nat {
    if a <= b then a else b
  }

  /** The ranked candidates of one refresh. */
  function Ranked(fetched: seq<Option<Feed>>, now: Time): seq<Article> {
    NewestFirst(Gathered(fetched, now))
  }

  /** The articles a refresh with a positive cap keeps: the first
      `min(cap, n)` of the ranked candidates. */
  function Kept(cap: nat, fetched: seq<Option<Feed>>, now: Time): seq<Article> {
    var ranked := Ranked(fetched, now);
    ranked[..Min(cap, |ranked|)]
  }

  /** The articles a refresh ranks but does not keep. */
  function Dropped(cap: nat, fetched: seq<Option<Feed>>, now: Time): seq<Article> {
    var ranked := Ranked(fetched, now);
    ranked[Min(cap, |ranked|)..]
  }

  /** A refresh keeps `min(cap, n)` of its `n` candidates, and what it keeps
      and what it drops are together exactly the gathered candidates. */
  lemma KeptCount(cap: nat, fetched: seq<Option<Feed>>, now: Time)
    ensures |Kept(cap, fetched, now)| == Min(cap, |Gathered(fetched, now)|)
    ensures multiset(Kept(cap, fetched, now)) + multiset(Dropped(cap, fetched, now)) == multiset(Gathered(fetched, now))
  {
    NewestFirstPermutes(Gathered(fetched, now));
    var ranked := Ranked(fetched, now);
    var n := Min(cap, |ranked|);
    assert ranked == ranked[..n] + ranked[n..];
  }

  /** The kept articles are newest first, and no dropped article is newer than a kept one. */
  lemma KeptNewest(cap: nat, fetched: seq<Option<Feed>>, now: Time)
    ensures NewestFirstOrder(Kept(cap, fetched, now))
    ensures forall i, j :: 0 <= i < |Kept(cap, fetched, now)| && 0 <= j < |Dropped(cap, fetched, now)| ==>
              Kept(cap, fetched, now)[i].date >= Dropped(cap, fetched, now)[j].date
  {
    var ranked := Ranked(fetched, now);
    var n := Min(cap, |ranked|);
    NewestFirstOrdered(Gathered(fetched, now));
    forall i, j | 0 <= i < n && 0 <= j < |ranked| - n
      ensures ranked[..n][i].date >= ranked[n..][j].date
    {
      assert ranked[n..][j] == ranked[n + j];
    }
  }

  /** Among articles of one date, the kept ones are the first ones in
      gathering order: ties never reorder. */
  lemma KeptStable(cap: nat, fetched: seq<Option<Feed>>, now: Time, d: Time)
    ensures WithDate(Kept(cap, fetched, now), d) <= WithDate(Gathered(fetched, now), d)
  {
    var ranked := Ranked(fetched, now);
    var n := Min(cap, |ranked|);
    NewestFirstStable(Gathered(fetched, now), d);
    WithDateAppend(ranked[..n], ranked[n..], d);
    assert ranked[..n] + ranked[n..] == ranked;
  }

  // ---------------------------------------------------------------------------
  // Records

  /** The record upserted for a kept article. */
  function RecordOf(a: Article, c: Collaborators): NewsArticle {
    var text := a.title + " " + a.summary;
    var score := c.polarity(text);
    NewsArticle(DeterministicID(a.link, a.title, a.date, c), a.title, a.source,
                Truncate(a.summary, SummaryLimit), score, SentimentLabel(score).Label(),
                Join(TickersIn(text), TickerSeparator), a.link, a.date)
  }

  /** The record builder of a refresh with collaborators `c`. */
  function Scorer(c: Collaborators): Article -> NewsArticle {
    a => RecordOf(a, c)
  }

  /** The records of a list of kept articles, in order. */
  function Records(kept: seq<Article>, c: Collaborators): seq<NewsArticle> {
    Map(Scorer(c), kept)
  }

  /** One record per kept article, in the same order. */
  lemma RecordsItems(kept: seq<Article>, c: Collaborators)
    ensures |Records(kept, c)| == |kept|
    ensures forall i :: 0 <= i < |kept| ==> Records(kept, c)[i] == RecordOf(kept[i], c)
  {
    MapItems(Scorer(c), kept);
  }

  /** A record's summary fits the limit and is a prefix of the article's
      summary, its trend is the label of its score, its tickers column is
      non-empty, and it keeps the article's title, link and date. */
  lemma RecordOfProperties(a: Article, c: Collaborators)
    ensures |RecordOf(a, c).summary| <= SummaryLimit && RecordOf(a, c).summary <= a.summary
    ensures RecordOf(a, c).trend == SentimentLabel(RecordOf(a, c).sentimentScore).Label()
    ensures RecordOf(a, c).tickers != ""
    ensures RecordOf(a, c).title == a.title && RecordOf(a, c).url == a.link && RecordOf(a, c).publishedAt == a.date
  {
    var ts := TickersIn(a.title + " " + a.summary);
    TickersInShape(a.title + " " + a.summary);
    TickersInProperties(a.title + " " + a.summary);
    JoinNonEmpty(ts, TickerSeparator);
  }

  /** Records of newest-first articles are newest first. */
  lemma RecordsNewestFirst(kept: seq<Article>, c: Collaborators)
    requires NewestFirstOrder(kept)
    ensures forall i, j :: 0 <= i < j < |Records(kept, c)| ==> Records(kept, c)[i].publishedAt >= Records(kept, c)[j].publishedAt
  {
    RecordsItems(kept, c);
  }

  lemma RecordsSnoc(kept: seq<Article>, k: nat, c: Collaborators)
    requires k < |kept|
    ensures Records(kept[..k + 1], c) == Records(kept[..k], c) + [RecordOf(kept[k], c)]
  {
    MapSnoc(Scorer(c), kept, k);
  }

  lemma JoinNonEmpty(ts: seq<string>, sep: string)
    requires |ts| >= 1 && ts[0] != ""
    ensures Join(ts, sep) != ""
  {
  }

  /** One more kept article appends its record and applies its upsert. */
  lemma StoreStep(rows: map<string, NewsArticle>, kept: seq<Article>, k: nat, c: Collaborators, fails: nat -> bool)
    requires k < |kept|
    ensures Records(kept[..k + 1], c) == Records(kept[..k], c) + [RecordOf(kept[k], c)]
    ensures Upserted(rows, Records(kept[..k + 1], c), fails) ==
              if fails(k) then Upserted(rows, Records(kept[..k], c), fails)
              else Upserted(rows, Records(kept[..k], c), fails)[RecordOf(kept[k], c).id := RecordOf(kept[k], c)]
  {
    RecordsSnoc(kept, k, c);
    MapItems(Scorer(c), kept[..k]);
    UpsertedSnoc(rows, Records(kept[..k], c), RecordOf(kept[k], c), fails);
  }

  /** `Refresh`'s per-article step: score the title and summary, label the
      score, extract the tickers, and build the record. */
  method ScoreArticle(art: Article, c: Collaborators) returns (arg: NewsArticle)
    ensures arg == RecordOf(art, c)
  {
    var text := art.title + " " + art.summary;
    var score := c.polarity(text);
    var trend := SentimentLabel(score);
    var tickers := ExtractTickers(text);
    arg := NewsArticle(DeterministicID(art.link, art.title, art.date, c), art.title, art.source,
                       Truncate(art.summary, SummaryLimit), score, trend.Label(),
                       Join(tickers, TickerSeparator), art.link, art.date);
  }

  // ---------------------------------------------------------------------------
  // Upserts

  /** The store after a batch of upserts: a write whose attempt fails leaves
      the rows as they were, a successful one inserts or replaces its id. */
  function Upserted(rows: map<string, NewsArticle>, batch: seq<NewsArticle>, fails: nat -> bool): map<string, NewsArticle> {
    if batch == [] then rows
    else
      var prev := Upserted(rows, batch[..|batch| - 1], fails);
      var last := batch[|batch| - 1];
      if fails(|batch| - 1) then prev else prev[last.id := last]
  }

  lemma UpsertedSnoc(rows: map<string, NewsArticle>, batch: seq<NewsArticle>, x: NewsArticle, fails: nat -> bool)
    ensures Upserted(rows, batch + [x], fails) ==
              if fails(|batch|) then Upserted(rows, batch, fails) else Upserted(rows, batch, fails)[x.id := x]
  {
    assert (batch + [x])[..|batch|] == batch;
  }

  /** The ids of the writes that succeed. */
  function WrittenIds(batch: seq<NewsArticle>, fails: nat -> bool): set<string> {
    set i | 0 <= i < |batch| && !fails(i) :: batch[i].id
  }

  lemma WrittenIdsStep(batch: seq<NewsArticle>, fails: nat -> bool)
    requires batch != []
    ensures var n := |batch| - 1;
            WrittenIds(batch, fails) == WrittenIds(batch[..n], fails) + (if fails(n) then {} else {batch[n].id})
  {
    var n := |batch| - 1;
    var init := batch[..n];
    forall k | k in WrittenIds(batch, fails)
      ensures k in WrittenIds(init, fails) + (if fails(n) then {} else {batch[n].id})
    {
      var i :| 0 <= i < |batch| && !fails(i) && batch[i].id == k;
      if i < n {
        assert init[i] == batch[i];
      }
    }
    forall k | k in WrittenIds(init, fails) ensures k in WrittenIds(batch, fails) {
      var i :| 0 <= i < |init| && !fails(i) && init[i].id == k;
      assert batch[i] == init[i];
    }
  }

  /** After a batch the store holds the old rows plus one row per id written
      successfully; a failed upsert does not stop the batch. */
  lemma {:induction false} UpsertedKeys(rows: map<string, NewsArticle>, batch: seq<NewsArticle>, fails: nat -> bool)
    ensures Upserted(rows, batch, fails).Keys == rows.Keys + WrittenIds(batch, fails)
  {
    if batch != [] {
      UpsertedKeys(rows, batch[..|batch| - 1], fails);
      WrittenIdsStep(batch, fails);
    }
  }

  /** Rows whose id no successful write carries are unchanged. */
  lemma {:induction false} UpsertedUntouched(rows: map<string, NewsArticle>, batch: seq<NewsArticle>, fails: nat -> bool, k: string)
    requires k in rows && k !in WrittenIds(batch, fails)
    ensures k in Upserted(rows, batch, fails) && Upserted(rows, batch, fails)[k] == rows[k]
  {
    if batch != [] {
      WrittenIdsStep(batch, fails);
      UpsertedUntouched(rows, batch[..|batch| - 1], fails, k);
    }
  }

  /** The stored row of an id is its last successful write. */
  lemma {:induction false} UpsertedLastWriteWins(rows: map<string, NewsArticle>, batch: seq<NewsArticle>, fails: nat -> bool, i: nat)
    requires i < |batch| && !fails(i)
    requires forall j :: i < j < |batch| && !fails(j) ==> batch[j].id != batch[i].id
    ensures batch[i].id in Upserted(rows, batch, fails) && Upserted(rows, batch, fails)[batch[i].id] == batch[i]
  {
    var n := |batch| - 1;
    if i < n {
      var init := batch[..n];
      assert init[i] == batch[i];
      forall j | i < j < |init| && !fails(j) ensures init[j].id != init[i].id {
        assert init[j] == batch[j];
      }
      UpsertedLastWriteWins(rows, init, fails, i);
    }
  }

  /** No attempt fails. */
  function NeverFails(i: nat): bool {
    false
  }

  /** The rows a batch writes when nothing fails, the later write of an id winning. */
  function LastWrites(batch: seq<NewsArticle>): map<string, NewsArticle> {
    if batch == [] then map[]
    else LastWrites(batch[..|batch| - 1])[batch[|batch| - 1].id := batch[|batch| - 1]]
  }

  lemma {:induction false} UpsertedAllSucceed(rows: map<string, NewsArticle>, batch: seq<NewsArticle>)
    ensures Upserted(rows, batch, NeverFails) == rows + LastWrites(batch)
  {
    if batch != [] {
      UpsertedAllSucceed(rows, batch[..|batch| - 1]);
    }
  }

  /** Updating the right operand of a map union updates the union. */
  lemma UnionUpdate<K, V>(a: map<K, V>, l: map<K, V>, k: K, v: V)
    ensures a + l[k := v] == (a + l)[k := v]
  {
  }

  /** A key that the right operand's update sets anyway need not be set on the left. */
  lemma UpdateTwice<K, V>(m: map<K, V>, l: map<K, V>, k: K, v: V)
    ensures (m[k := v] + l)[k := v] == (m + l)[k := v]
  {
  }

  /** Whatever a batch managed to write, the batch's own writes, applied
      on top, give the same rows as applying them to the old rows. */
  lemma {:induction false} UpsertedThenLastWrites(rows: map<string, NewsArticle>, batch: seq<NewsArticle>, fails: nat -> bool)
    ensures Upserted(rows, batch, fails) + LastWrites(batch) == rows + LastWrites(batch)
  {
    if batch != [] {
      var init, x := batch[..|batch| - 1], batch[|batch| - 1];
      UpsertedThenLastWrites(rows, init, fails);
      var m, l := Upserted(rows, init, fails), LastWrites(init);
      UnionUpdate(m, l, x.id, x);
      UnionUpdate(m[x.id := x], l, x.id, x);
      UnionUpdate(rows, l, x.id, x);
      UpdateTwice(m, l, x.id, x);
    }
  }

  /** Retrying a batch repairs it: after a run with any failures, running the
      same batch again with no failure leaves exactly the rows of a single
      failure-free run. With no failure on either run this is idempotence:
      the ids are derived from the content, so a repeated write is an update
      of the same key. */
  lemma UpsertedRetry(rows: map<string, NewsArticle>, batch: seq<NewsArticle>, fails: nat -> bool)
    ensures Upserted(Upserted(rows, batch, fails), batch, NeverFails) == Upserted(rows, batch, NeverFails)
  {
    UpsertedAllSucceed(Upserted(rows, batch, fails), batch);
    UpsertedAllSucceed(rows, batch);
    UpsertedThenLastWrites(rows, batch, fails);
  }

  // ---------------------------------------------------------------------------
  // The store and the ingestor

  /** The persistence collaborator: the `news_articles` rows by id, and the
      records handed to `InsertNewsArticle`, in call order. */
  class NewsStore {
    var rows: map<string, NewsArticle>
    var writes: seq<NewsArticle>

    constructor (initial: map<string, NewsArticle>)
      ensures rows == initial && writes == []
    {
      rows := initial;
      writes := [];
    }

    /** `InsertNewsArticle`, an upsert on `id`; `fail` says whether the
        database reports an error for this call. */
    method InsertNewsArticle(arg: NewsArticle, fail: bool) returns (ok: bool)
      modifies this
      ensures ok == !fail
      ensures writes == old(writes) + [arg]
      ensures rows == if fail then old(rows) else old(rows)[arg.id := arg]
    {
      writes := writes + [arg];
      ok := !fail;
      if ok {
        rows := rows[arg.id := arg];
      }
    }
  }

  class NewsIngestor {
    const store: NewsStore
    const feeds: seq<string>

    /** `NewNewsIngestor`: an empty feed list falls back to the default feed. */
    constructor (store: NewsStore, feeds: seq<string>)
      ensures this.store == store
      ensures this.feeds == EffectiveFeeds(feeds)
      ensures |this.feeds| >= 1
    {
      this.store := store;
      this.feeds := EffectiveFeeds(feeds);
    }

    /** `Refresh`'s upsert loop: one record per kept article, in order; the
        k-th upsert fails when `upsertFails(k)`, is logged, and the loop goes on. */
    method StoreRecords(kept: seq<Article>, c: Collaborators, upsertFails: nat -> bool)
      modifies store
      ensures store.writes == old(store.writes) + Records(kept, c)
      ensures store.rows == Upserted(old(store.rows), Records(kept, c), upsertFails)
    {
      for k := 0 to |kept|
        invariant store.writes == old(store.writes) + Records(kept[..k], c)
        invariant store.rows == Upserted(old(store.rows), Records(kept[..k], c), upsertFails)
      {
        var arg := ScoreArticle(kept[k], c);
        StoreStep(old(store.rows), kept, k, c, upsertFails);
        var ok := store.InsertNewsArticle(arg, upsertFails(k));
      }
      assert kept[..|kept|] == kept;
    }

    /** `Refresh`. `fetched[i]` is the outcome of fetching `feeds[i]` (`None`
        when the fetch or parse fails), `now` the clock reading used for items
        without a date, and `upsertFails(k)` whether the k-th upsert fails. */
    method Refresh(maxArticles: int, fetched: seq<Option<Feed>>, now: Time, c: Collaborators, upsertFails: nat -> bool)
      returns (r: Result<nat, RefreshError>)
      requires |fetched| == |feeds|
      modifies store
      ensures maxArticles <= 0 ==> r == Failure(InvalidArgument)
      ensures maxArticles > 0 && Gathered(fetched, now) == [] ==> r == Failure(NoData)
      ensures r.Failure? ==> store.writes == old(store.writes) && store.rows == old(store.rows)
      ensures maxArticles > 0 && Gathered(fetched, now) != [] ==>
                var kept := Kept(maxArticles as nat, fetched, now);
                && r == Success(|kept|)
                && store.writes == old(store.writes) + Records(kept, c)
                && store.rows == Upserted(old(store.rows), Records(kept, c), upsertFails)
    {
      if maxArticles <= 0 {
        return Failure(InvalidArgument);
      }
      var articles := GatherArticles(fetched, now);
      if |articles| == 0 {
        return Failure(NoData);
      }
      articles := NewestFirst(articles);
      var limit := maxArticles;
      if |articles| < limit {
        limit := |articles|;
      }

      StoreRecords(articles[..limit], c, upsertFails);
      return Success(limit);
    }
  }
}
