/** The helpers of the page handlers, `internal/handlers/pages.go`: the
    page's own market-hours classifier, and the context attached to each
    recommendation on the AI insights page. */
module Pages {
  import opened Wrappers
  import opened Models
  import MarketData

  /** `getMarketStatus` of the pages, over the weekday and hour of the local
      clock: whole hours only, with no half-hour boundary at the open.
      Weekends are closed; on a weekday the page reports open for hours 9
      through 15, pre-market for 4 through 8, after-hours for 16 through 19
      and closed otherwise. */
  function PageMarketStatus(weekday: MarketData.Weekday, hour: int): (s: MarketData.MarketStatus)
    ensures MarketData.IsWeekend(weekday) ==> s == MarketData.Closed
    ensures !MarketData.IsWeekend(weekday) ==>
              (s == MarketData.Open <==> 9 <= hour <= 15) &&
              (s == MarketData.PreMarket <==> 4 <= hour <= 8) &&
              (s == MarketData.AfterHours <==> 16 <= hour <= 19) &&
              (s == MarketData.Closed <==> hour < 4 || 20 <= hour)
  {
    if MarketData.IsWeekend(weekday) then MarketData.Closed
    else if hour >= 9 && hour < 16 then MarketData.Open
    else if hour >= 4 && hour < 9 then MarketData.PreMarket
    else if hour >= 16 && hour < 20 then MarketData.AfterHours
    else MarketData.Closed
  }

  /** Given the same weekday, hour and minute, the page and the service
      agree except in the first half hour after 9:00 on a weekday, where the
      page says open and the service says pre-market. (The two read
      different clocks: the page the host's local time, the service a fixed
      UTC-5 zone; both readings are parameters here.) */
  lemma ClassifiersDisagree(weekday: MarketData.Weekday, hour: int, minute: int)
    requires 0 <= hour < 24 && 0 <= minute < 60
    ensures PageMarketStatus(weekday, hour) != MarketData.GetMarketStatus(weekday, hour, minute) <==>
              !MarketData.IsWeekend(weekday) && hour == 9 && minute < 30
    ensures !MarketData.IsWeekend(weekday) && hour == 9 && minute < 30 ==>
              PageMarketStatus(weekday, hour) == MarketData.Open &&
              MarketData.GetMarketStatus(weekday, hour, minute) == MarketData.PreMarket
  {
  }

  const ReasoningPrefix: string :=
    "This insight was generated by analyzing recent news sentiment, trading volume patterns, and sector momentum for "

  /** `getReasoningForRec`: the fixed sentence naming the symbol, then the
      recommendation's thesis. */
  function ReasoningForRec(rec: Recommendation): (s: string)
    ensures |s| == |ReasoningPrefix| + |rec.symbol| + 2 + |rec.thesis|
    ensures s[..|ReasoningPrefix|] == ReasoningPrefix
    ensures s[|ReasoningPrefix|..|ReasoningPrefix| + |rec.symbol|] == rec.symbol
    ensures s[|ReasoningPrefix| + |rec.symbol|..|ReasoningPrefix| + |rec.symbol| + 2] == ". "
    ensures s[|s| - |rec.thesis|..] == rec.thesis
  {
    ReasoningPrefix + rec.symbol + ". " + rec.thesis
  }

  /** `getDataSourcesForRec`: the same four sources for every recommendation. */
  const DataSources: seq<string> := [
    "News sentiment analysis (past 7 days)",
    "Trading volume and price patterns",
    "Sector performance comparison",
    "Public financial filings"]

  /** `getStandardLimitations` */
  const StandardLimitations: seq<string> := [
    "AI cannot predict future stock prices",
    "Past performance does not guarantee future results",
    "This analysis may not account for recent breaking news",
    "Market conditions can change rapidly and unexpectedly"]

  /** `getQuestionsForRec`: the same five questions for every recommendation. */
  const Questions: seq<string> := [
    "Have I read multiple sources about this company?",
    "Do I understand how this company makes money?",
    "Can I afford to lose my entire investment?",
    "Does this fit my overall investment strategy?",
    "Have I considered what could go wrong?"]

  /** The two risk factors every recommendation carries. */
  const FixedRiskFactors: seq<string> := [
    "Stock prices can decline significantly",
    "Individual stocks are more volatile than diversified portfolios"]

  const HighConvictionRisk: string := "High conviction does not mean guaranteed returns"
  const LowConvictionRisk: string := "Low confidence indicates conflicting or limited data"

  /** The risk factors of a recommendation: the fixed factors, then one more
      line for a "High" or a "Low" conviction. */
  function RiskFactors(rec: Recommendation): seq<string> {
    FixedRiskFactors +
      (if rec.conviction == "High" then [HighConvictionRisk]
       else if rec.conviction == "Low" then [LowConvictionRisk]
       else [])
  }

  /** `getRiskFactorsForRec` */
  method RiskFactorsForRec(rec: Recommendation) returns (factors: seq<string>)
    ensures factors == RiskFactors(rec)
  {
    factors := FixedRiskFactors;
    if rec.conviction == "High" {
      factors := factors + [HighConvictionRisk];
    } else if rec.conviction == "Low" {
      factors := factors + [LowConvictionRisk];
    }
  }

  /** The list always starts with the two fixed factors; it has a third,
      conviction-specific line exactly for "High" and "Low". */
  lemma RiskFactorsShape(rec: Recommendation)
    ensures |RiskFactors(rec)| >= 2 && RiskFactors(rec)[..2] == FixedRiskFactors
    ensures |RiskFactors(rec)| == 3 <==> rec.conviction == "High" || rec.conviction == "Low"
    ensures rec.conviction == "High" ==> RiskFactors(rec)[2] == HighConvictionRisk
    ensures rec.conviction == "Low" ==> RiskFactors(rec)[2] == LowConvictionRisk
    ensures rec.conviction != "High" && rec.conviction != "Low" ==> RiskFactors(rec) == FixedRiskFactors
  {
  }

  /** The transparency context shown with an insight. */
  datatype InsightContext = InsightContext(
    reasoning: string, dataSources: seq<string>, limitations: seq<string>,
    riskFactors: seq<string>, questions: seq<string>)

  datatype AIInsight = AIInsight(recommendation: Recommendation, context: InsightContext)

  /** The insight built for one recommendation. */
  function InsightOf(rec: Recommendation): AIInsight {
    AIInsight(rec, InsightContext(ReasoningForRec(rec), DataSources, StandardLimitations,
                                  RiskFactors(rec), Questions))
  }

  /** The loop of `aiInsights`: `picks` is the outcome of `TopPicks`. A failed
      query shows no insights; otherwise there is exactly one insight per
      recommendation, in the same order, built from it. */
  method AIInsights(picks: Result<seq<Recommendation>, string>) returns (insights: seq<AIInsight>)
    ensures picks.Failure? ==> insights == []
    ensures picks.Success? ==> |insights| == |picks.value|
    ensures picks.Success? ==> forall i :: 0 <= i < |picks.value| ==> insights[i] == InsightOf(picks.value[i])
  {
    var recs := if picks.Success? then picks.value else [];
    insights := [];
    for i := 0 to |recs|
      invariant |insights| == i
      invariant forall j :: 0 <= j < i ==> insights[j] == InsightOf(recs[j])
    {
      var rec := recs[i];
      var riskFactors := RiskFactorsForRec(rec);
      var context := InsightContext(ReasoningForRec(rec), DataSources, StandardLimitations,
                                    riskFactors, Questions);
      assert AIInsight(rec, context) == InsightOf(rec);
      insights := insights + [AIInsight(rec, context)];
    }
  }

  /** Each insight carries its recommendation and that recommendation's
      symbol in its reasoning, and risk factors that start with the fixed
      two. */
  lemma InsightOfProperties(rec: Recommendation)
    ensures InsightOf(rec).recommendation == rec
    ensures InsightOf(rec).context.reasoning[|ReasoningPrefix|..|ReasoningPrefix| + |rec.symbol|] == rec.symbol
    ensures InsightOf(rec).context.riskFactors[..2] == FixedRiskFactors
  {
    RiskFactorsShape(rec);
  }
}
