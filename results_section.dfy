/**
 * The "Results Summary" card: the leading party and its margin, the six-party
 * bar chart sorted by votes, and the valid and rejected votes with the
 * rejected share of all votes.
 */
module ResultsSection {
  import opened Common
  import opened Records
  import opened Sorting
  import M = MockElectionData
  import opened Charts

  /** `results.totalValidVotes + results.totalRejectedVotes`. */
  function TotalVotes(results: M.ResultsSummary): int
  {
    results.totalValidVotes + results.totalRejectedVotes
  }

  /** The rejected share in percent; "0.0" when no vote was cast. */
  function RejectedShare(results: M.ResultsSummary): real
  {
    var total := TotalVotes(results);
    if total > 0 then results.totalRejectedVotes as real / total as real * 100.0 else 0.0
  }

  /**
   * The share never divides by zero; with counts that are not negative it is
   * a percentage, 0 exactly when nothing was rejected and 100 exactly when
   * every vote was rejected.
   */
  lemma RejectedShareBounds(results: M.ResultsSummary)
    ensures TotalVotes(results) <= 0 ==> RejectedShare(results) == 0.0
    ensures results.totalValidVotes >= 0 && results.totalRejectedVotes >= 0 ==>
      0.0 <= RejectedShare(results) <= 100.0 &&
      (RejectedShare(results) == 0.0 <==> results.totalRejectedVotes == 0) &&
      (RejectedShare(results) == 100.0 <==> results.totalRejectedVotes > 0 && results.totalValidVotes == 0)
  {
    var v, r := results.totalValidVotes, results.totalRejectedVotes;
    if v >= 0 && r >= 0 && v + r > 0 {
      ShareBounds(v, r);
    }
  }

  lemma ShareBounds(v: int, r: int)
    requires v >= 0 && r >= 0 && v + r > 0
    ensures 0.0 <= r as real / (v + r) as real * 100.0 <= 100.0
    ensures r as real / (v + r) as real * 100.0 == 0.0 <==> r == 0
    ensures r as real / (v + r) as real * 100.0 == 100.0 <==> v == 0
  {
    var q := r as real / (v + r) as real;
    assert q * (v + r) as real == r as real;
    assert q <= 1.0;
    if v == 0 {
      assert q == 1.0;
    }
    if q == 1.0 {
      assert (v + r) as real == r as real;
    }
  }

  /** The chart of the summary's party totals. */
  function ResultsChart(results: M.ResultsSummary): Record<int>
  {
    PartyChart(results.partyTotals)
  }

  /** The value under each charted key of the twelve-key totals is that party's total. */
  lemma ChartedTotals(apc: int, lp: int, pdp: int, nnpp: int, apga: int, others: int)
    ensures PartyBars(M.PartyTotals(apc, lp, pdp, nnpp, apga, others))
      == [Entry("APC", apc), Entry("LP", lp), Entry("PDP", pdp),
          Entry("NNPP", nnpp), Entry("APGA", apga), Entry("Others", others)]
  {
    TotalsLookup(apc, lp, pdp, nnpp, apga, others);
    BarsOfLookups(M.PartyTotals(apc, lp, pdp, nnpp, apga, others), apc, lp, pdp, nnpp, apga, others);
  }

  lemma BarsOfLookups(t: Record<int>, apc: int, lp: int, pdp: int, nnpp: int, apga: int, others: int)
    requires GetOrZero(t, "apc") == apc && GetOrZero(t, "lp") == lp && GetOrZero(t, "pdp") == pdp
    requires GetOrZero(t, "nnpp") == nnpp && GetOrZero(t, "apga") == apga && GetOrZero(t, "others") == others
    ensures PartyBars(t) == [Entry("APC", apc), Entry("LP", lp), Entry("PDP", pdp),
                             Entry("NNPP", nnpp), Entry("APGA", apga), Entry("Others", others)]
  {
    var bars := PartyBars(t);
    assert bars[0] == Entry(ChartLabels[0], GetOrZero(t, ChartKeys[0]));
    assert bars[1] == Entry(ChartLabels[1], GetOrZero(t, ChartKeys[1]));
    assert bars[2] == Entry(ChartLabels[2], GetOrZero(t, ChartKeys[2]));
    assert bars[3] == Entry(ChartLabels[3], GetOrZero(t, ChartKeys[3]));
    assert bars[4] == Entry(ChartLabels[4], GetOrZero(t, ChartKeys[4]));
    assert bars[5] == Entry(ChartLabels[5], GetOrZero(t, ChartKeys[5]));
  }

  lemma TotalsLookup(apc: int, lp: int, pdp: int, nnpp: int, apga: int, others: int)
    ensures var t := M.PartyTotals(apc, lp, pdp, nnpp, apga, others);
      GetOrZero(t, "apc") == apc && GetOrZero(t, "lp") == lp && GetOrZero(t, "pdp") == pdp &&
      GetOrZero(t, "nnpp") == nnpp && GetOrZero(t, "apga") == apga && GetOrZero(t, "others") == others
  {
    var t := M.PartyTotals(apc, lp, pdp, nnpp, apga, others);
    assert t[0] == Entry("apc", apc) && t[1] == Entry("lp", lp) && t[2] == Entry("pdp", pdp);
    assert t[3] == Entry("nnpp", nnpp) && t[4] == Entry("apga", apga) && t[11] == Entry("others", others);
    EntryValue(t, t[0]);
    EntryValue(t, t[1]);
    EntryValue(t, t[2]);
    EntryValue(t, t[3]);
    EntryValue(t, t[4]);
    EntryValue(t, t[11]);
  }

  /** The six bars add up to the six totals. */
  lemma SixBarsSum(bars: Record<int>)
    requires |bars| == 6
    ensures Sum(bars, ValueOf) == bars[0].value + bars[1].value + bars[2].value
      + bars[3].value + bars[4].value + bars[5].value
  {
    assert bars[..0] == [];
    SumStep(bars, ValueOf, 0);
    SumStep(bars, ValueOf, 1);
    SumStep(bars, ValueOf, 2);
    SumStep(bars, ValueOf, 3);
    SumStep(bars, ValueOf, 4);
    SumStep(bars, ValueOf, 5);
    assert bars[..6] == bars;
  }

  /**
   * For totals as the results aggregator builds them, the chart holds each
   * of the six parties once with its total, most votes first, and its bars
   * add up to the valid votes: the six keys never accumulated are all 0.
   */
  lemma ResultsChartSpec(apc: int, lp: int, pdp: int, nnpp: int, apga: int, others: int)
    ensures var chart := PartyChart(M.PartyTotals(apc, lp, pdp, nnpp, apga, others));
      |chart| == 6 &&
      multiset(chart) == multiset{Entry("APC", apc), Entry("LP", lp), Entry("PDP", pdp),
                                  Entry("NNPP", nnpp), Entry("APGA", apga), Entry("Others", others)} &&
      SortedDesc(chart, M.EntryVotes) &&
      Sum(chart, ValueOf) == SumValues(M.PartyTotals(apc, lp, pdp, nnpp, apga, others))
  {
    ChartedTotals(apc, lp, pdp, nnpp, apga, others);
    ChartOfBars(M.PartyTotals(apc, lp, pdp, nnpp, apga, others), apc, lp, pdp, nnpp, apga, others);
  }

  lemma ChartOfBars(t: Record<int>, apc: int, lp: int, pdp: int, nnpp: int, apga: int, others: int)
    requires PartyBars(t) == [Entry("APC", apc), Entry("LP", lp), Entry("PDP", pdp),
                              Entry("NNPP", nnpp), Entry("APGA", apga), Entry("Others", others)]
    requires SumValues(t) == apc + lp + pdp + nnpp + apga + others
    ensures |PartyChart(t)| == 6
    ensures multiset(PartyChart(t)) == multiset{Entry("APC", apc), Entry("LP", lp), Entry("PDP", pdp),
                                                Entry("NNPP", nnpp), Entry("APGA", apga), Entry("Others", others)}
    ensures SortedDesc(PartyChart(t), M.EntryVotes)
    ensures Sum(PartyChart(t), ValueOf) == SumValues(t)
  {
    PartyChartSpec(t);
    SixBarsSum(PartyBars(t));
    SixMultiset(Entry("APC", apc), Entry("LP", lp), Entry("PDP", pdp),
                Entry("NNPP", nnpp), Entry("APGA", apga), Entry("Others", others));
  }

  lemma SixMultiset<T>(a: T, b: T, c: T, d: T, e: T, f: T)
    ensures multiset([a, b, c, d, e, f]) == multiset{a, b, c, d, e, f}
  {
  }

  /**
   * The card as rendered from the data: the sorted chart, whose bars add up
   * to the valid votes shown beside it, the total of valid and rejected
   * votes, and the rejected share, a percentage when no count is negative.
   */
  method ResultsCard(data: seq<M.LGASummary>) returns (chart: Record<int>, totalVotes: int, rejectedShare: real)
    ensures |chart| == 6 && SortedDesc(chart, M.EntryVotes)
    ensures totalVotes == Sum(chart, ValueOf) + Sum(data, M.RejectedOf)
    ensures totalVotes <= 0 ==> rejectedShare == 0.0
    ensures Sum(chart, ValueOf) >= 0 && Sum(data, M.RejectedOf) >= 0 ==> 0.0 <= rejectedShare <= 100.0
  {
    var results := M.GetResultsSummary(data);
    ResultsChartSpec(Sum(data, M.Votes("apc")), Sum(data, M.Votes("lp")), Sum(data, M.Votes("pdp")),
      Sum(data, M.Votes("nnpp")), Sum(data, M.Votes("apga")), Sum(data, M.Votes("others")));
    RejectedShareBounds(results);
    chart := ResultsChart(results);
    totalVotes := TotalVotes(results);
    rejectedShare := RejectedShare(results);
  }
}
