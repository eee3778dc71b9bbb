/** The metric helpers of the dashboard handler, `internal/handlers/dashboard.go`. */
module Dashboard {
  import opened Models
  import opened Sequences

  /** Whether a stock beat the S&P 500 over the last 90 days. */
  predicate Outperforms(stock: StockSnapshot) {
    stock.vsSP500_90 > 0.0
  }

  /** The number of stocks in `stocks` that beat the index. */
  function Outperformers(stocks: seq<StockSnapshot>): nat {
    if stocks == [] then 0
    else Outperformers(stocks[..|stocks| - 1]) + (if Outperforms(stocks[|stocks| - 1]) then 1 else 0)
  }

  /** `countOutperforming` */
  method CountOutperforming(stocks: seq<StockSnapshot>) returns (count: int)
    ensures count == Outperformers(stocks)
  {
    count := 0;
    for i := 0 to |stocks|
      invariant count == Outperformers(stocks[..i])
    {
      assert stocks[..i + 1][..i] == stocks[..i];
      if stocks[i].vsSP500_90 > 0.0 {
        count := count + 1;
      }
    }
    assert stocks[..|stocks|] == stocks;
  }

  /** Appending a stock raises the count by one exactly when that stock beat
      the index. */
  lemma OutperformersSnoc(stocks: seq<StockSnapshot>, stock: StockSnapshot)
    ensures Outperformers(stocks + [stock]) == Outperformers(stocks) + (if Outperforms(stock) then 1 else 0)
  {
    assert (stocks + [stock])[..|stocks|] == stocks;
  }

  /** The count never exceeds the number of stocks, is zero exactly when no
      stock beat the index (a zero difference does not count), and equals the
      number of stocks exactly when every one did. */
  lemma {:induction false} OutperformersBounds(stocks: seq<StockSnapshot>)
    ensures Outperformers(stocks) <= |stocks|
    ensures Outperformers(stocks) == 0 <==> forall i :: 0 <= i < |stocks| ==> !Outperforms(stocks[i])
    ensures Outperformers(stocks) == |stocks| <==> forall i :: 0 <= i < |stocks| ==> Outperforms(stocks[i])
  {
    if stocks != [] {
      var init := stocks[..|stocks| - 1];
      OutperformersBounds(init);
      assert forall i :: 0 <= i < |init| ==> init[i] == stocks[i];
    }
  }

  /** Counting is additive over concatenation. */
  lemma {:induction false} OutperformersAppend(a: seq<StockSnapshot>, b: seq<StockSnapshot>)
    ensures Outperformers(a + b) == Outperformers(a) + Outperformers(b)
  {
    if b == [] {
      assert a + b == a;
    } else {
      var init, last := b[..|b| - 1], b[|b| - 1];
      OutperformersAppend(a, init);
      SplitLast(b);
      AppendAssoc(a, init, [last]);
      OutperformersSnoc(a + init, last);
      OutperformersSnoc(init, last);
    }
  }

  /** The sum of the recommendations' scores. */
  function TotalScore(recs: seq<Recommendation>): real {
    if recs == [] then 0.0 else TotalScore(recs[..|recs| - 1]) + recs[|recs| - 1].score
  }

  /** `avgScore`: zero for no recommendations, otherwise the mean score. */
  method AvgScore(recs: seq<Recommendation>) returns (avg: real)
    ensures |recs| == 0 ==> avg == 0.0
    ensures |recs| > 0 ==> avg * (|recs| as real) == TotalScore(recs)
  {
    if |recs| == 0 {
      return 0.0;
    }
    var total := 0.0;
    for i := 0 to |recs|
      invariant total == TotalScore(recs[..i])
    {
      assert recs[..i + 1][..i] == recs[..i];
      total := total + recs[i].score;
    }
    assert recs[..|recs|] == recs;
    avg := total / (|recs| as real);
  }

  /** When every score lies in `[lo, hi]`, so does the total divided by the count. */
  lemma {:induction false} TotalScoreBounds(recs: seq<Recommendation>, lo: real, hi: real)
    requires forall i :: 0 <= i < |recs| ==> lo <= recs[i].score <= hi
    ensures (|recs| as real) * lo <= TotalScore(recs) <= (|recs| as real) * hi
  {
    if recs != [] {
      var init := recs[..|recs| - 1];
      assert forall i :: 0 <= i < |init| ==> init[i] == recs[i];
      TotalScoreBounds(init, lo, hi);
    }
  }

  /** The mean of scores that all lie in `[lo, hi]` lies in `[lo, hi]`. */
  lemma AverageWithinScores(recs: seq<Recommendation>, lo: real, hi: real)
    requires |recs| > 0
    requires forall i :: 0 <= i < |recs| ==> lo <= recs[i].score <= hi
    ensures lo <= TotalScore(recs) / (|recs| as real) <= hi
  {
    TotalScoreBounds(recs, lo, hi);
    var n := |recs| as real;
    assert TotalScore(recs) / n * n == TotalScore(recs);
  }
}
