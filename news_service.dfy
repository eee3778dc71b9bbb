/** The read side of the news pipeline, `internal/services/news.go`: the
    latest stored articles become headlines, and the stored comma-joined
    tickers column is split back into a list. */
module NewsService {
  import opened Wrappers
  import opened GoStrings
  import Ingest
  import Models

  /** The headline handed to the pages. */
  datatype NewsHeadline = NewsHeadline(
    id: string, title: string, source: string, summary: string, sentiment: real,
    trend: string, tickers: seq<string>, url: string, publishedAt: Models.Time)

  /** Every string upper-cased, in order. */
  function UpperAll(ts: seq<string>): seq<string> {
    if ts == [] then []
    else UpperAll(ts[..|ts| - 1]) + [ToUpper(ts[|ts| - 1])]
  }

  /** What `splitTickers` returns: the comma-separated parts, trimmed, the
      empty ones dropped, upper-cased. */
  function TickerList(raw: string): seq<string> {
    UpperAll(TrimmedNonEmpty(SplitComma(raw)))
  }

  /** `splitTickers` */
  method SplitTickers(raw: string) returns (out: seq<string>)
    ensures out == TickerList(raw)
  {
    out := [];
    var parts := SplitComma(raw);
    for i := 0 to |parts|
      invariant out == UpperAll(TrimmedNonEmpty(parts[..i]))
    {
      assert parts[..i + 1][..i] == parts[..i];
      var trimmed := TrimSpace(parts[i]);
      if trimmed == "" {
        continue;
      }
      out := out + [ToUpper(trimmed)];
    }
    assert parts[..|parts|] == parts;
  }

  lemma UpperAllSnoc(ts: seq<string>, t: string)
    ensures UpperAll(ts + [t]) == UpperAll(ts) + [ToUpper(t)]
  {
    assert (ts + [t])[..|ts|] == ts;
  }

  lemma {:induction false} UpperAllItems(ts: seq<string>)
    ensures |UpperAll(ts)| == |ts|
    ensures forall k :: 0 <= k < |ts| ==> UpperAll(ts)[k] == ToUpper(ts[k])
  {
    if ts != [] {
      UpperAllItems(ts[..|ts| - 1]);
    }
  }

  lemma {:induction false} UpperAllAppend(a: seq<string>, b: seq<string>)
    ensures UpperAll(a + b) == UpperAll(a) + UpperAll(b)
  {
    if b != [] {
      assert (a + b)[..|a + b| - 1] == a + b[..|b| - 1];
      UpperAllAppend(a, b[..|b| - 1]);
    } else {
      assert a + b == a;
    }
  }

  /** Upper-casing strings that are already upper case changes nothing. */
  lemma UpperAllOfUpper(ts: seq<string>)
    requires forall k :: 0 <= k < |ts| ==> IsUpper(ts[k])
    ensures UpperAll(ts) == ts
  {
    UpperAllItems(ts);
  }

  /** Every element is non-empty, trimmed and upper case, and there are at
      most as many elements as commas plus one. */
  lemma TickerListShape(raw: string)
    ensures forall k :: 0 <= k < |TickerList(raw)| ==>
              TickerList(raw)[k] != "" && IsTrimmed(TickerList(raw)[k]) && IsUpper(TickerList(raw)[k])
    ensures |TickerList(raw)| <= CountWhere(raw, IsComma) + 1
  {
    var cleaned := TrimmedNonEmpty(SplitComma(raw));
    UpperAllItems(cleaned);
    TrimmedNonEmptyShape(SplitComma(raw));
    CleanedCommaCount(raw);
    forall k | 0 <= k < |cleaned|
      ensures ToUpper(cleaned[k]) != "" && IsTrimmed(ToUpper(cleaned[k])) && IsUpper(ToUpper(cleaned[k]))
    {
      ToUpperProperties(cleaned[k]);
    }
  }

  /** The parts keep their left-to-right order: the list of `a + "," + b` is
      the list of `a` followed by the list of `b`. */
  lemma TickerListConcat(a: string, b: string)
    ensures TickerList(a + "," + b) == TickerList(a) + TickerList(b)
  {
    CleanedConcat(a, b);
    UpperAllAppend(TrimmedNonEmpty(SplitComma(a)), TrimmedNonEmpty(SplitComma(b)));
  }

  /** The empty column, and a column of only white space and commas, give no tickers. */
  lemma TickerListBlank(raw: string)
    requires forall i :: 0 <= i < |raw| ==> IsSpace(raw[i]) || raw[i] == ','
    ensures TickerList(raw) == []
  {
    CleanedBlank(raw);
  }

  /** Round trip with the write side: splitting the column `Refresh` stores
      gives back exactly the tickers it extracted, for every text. */
  lemma TickerColumnRoundTrip(text: string)
    ensures TickerList(Join(Ingest.TickersIn(text), Ingest.TickerSeparator)) == Ingest.TickersIn(text)
  {
    var ts := Ingest.TickersIn(text);
    Ingest.TickersInProperties(text);
    Ingest.TickersInShape(text);
    CleanedJoin(ts);
    UpperAllOfUpper(ts);
  }

  /** The headline for one stored row. */
  function HeadlineOf(row: Ingest.NewsArticle): NewsHeadline {
    NewsHeadline(row.id, row.title, row.source, row.summary, row.sentimentScore, row.trend,
                 TickerList(row.tickers), row.url, row.publishedAt)
  }

  /** `Latest`: `queried` is the outcome of `ListLatestNews`; a query error is
      passed through, otherwise there is exactly one headline per row, in row
      order, each carrying its row's fields and its split tickers column. */
  method Latest(queried: Result<seq<Ingest.NewsArticle>, string>) returns (r: Result<seq<NewsHeadline>, string>)
    ensures queried.Failure? ==> r == Failure(queried.error)
    ensures queried.Success? ==> r.Success? && |r.value| == |queried.value|
    ensures queried.Success? ==> forall i :: 0 <= i < |queried.value| ==> r.value[i] == HeadlineOf(queried.value[i])
  {
    if queried.Failure? {
      return Failure(queried.error);
    }
    var rows := queried.value;
    var headlines: seq<NewsHeadline> := [];
    for i := 0 to |rows|
      invariant |headlines| == i
      invariant forall j :: 0 <= j < i ==> headlines[j] == HeadlineOf(rows[j])
    {
      var row := rows[i];
      var tickers := SplitTickers(row.tickers);
      headlines := headlines + [NewsHeadline(row.id, row.title, row.source, row.summary, row.sentimentScore,
                                             row.trend, tickers, row.url, row.publishedAt)];
    }
    return Success(headlines);
  }

  /** A headline read back from a record that `Refresh` wrote lists exactly the
      tickers extracted from the article's title and summary. */
  lemma HeadlineOfRecord(a: Ingest.Article, c: Ingest.Collaborators)
    ensures HeadlineOf(Ingest.RecordOf(a, c)).tickers == Ingest.TickersIn(a.title + " " + a.summary)
  {
    TickerColumnRoundTrip(a.title + " " + a.summary);
  }
}
