/**
 * Shapes shared by the dashboard's charts: the six-party bar chart built from
 * a party-results object and sorted by votes, the largest value of a list of
 * counts, and a bar's length as a share of the largest bar.
 */
module Charts {
  import opened Common
  import opened Records
  import opened Sorting
  import M = MockElectionData

  /** The labels of the six charted parties, in the order the chart lists them. */
  const ChartLabels: seq<string> := ["APC", "LP", "PDP", "NNPP", "APGA", "Others"]

  /** The keys the six bars read from the results object. */
  const ChartKeys: seq<string> := ["apc", "lp", "pdp", "nnpp", "apga", "others"]

  /** The six bars before sorting: label and `results.<key>`, a missing key read as 0. */
  function PartyBars(results: Record<int>): (bars: Record<int>)
    ensures |bars| == 6
    ensures forall i :: 0 <= i < 6 ==> bars[i] == Entry(ChartLabels[i], GetOrZero(results, ChartKeys[i]))
  {
    Map(ChartKeys, (k: string) => Entry(ChartLabelOf(k), GetOrZero(results, k)))
  }

  function ChartLabelOf(k: string): string
  {
    if k == "apc" then "APC" else if k == "lp" then "LP" else if k == "pdp" then "PDP"
    else if k == "nnpp" then "NNPP" else if k == "apga" then "APGA" else "Others"
  }

  /** `[...six bars].sort((a, b) => b.votes - a.votes)`. */
  function PartyChart(results: Record<int>): Record<int>
  {
    SortDesc(PartyBars(results), M.EntryVotes)
  }

  /**
   * The chart has exactly the six bars, most votes first, and the same total
   * as the bars.
   */
  lemma PartyChartSpec(results: Record<int>)
    ensures |PartyChart(results)| == 6
    ensures multiset(PartyChart(results)) == multiset(PartyBars(results))
    ensures SortedDesc(PartyChart(results), M.EntryVotes)
    ensures Sum(PartyChart(results), ValueOf) == Sum(PartyBars(results), ValueOf)
  {
    SortDescPermutation(PartyBars(results), M.EntryVotes);
    SortDescSorted(PartyBars(results), M.EntryVotes);
    SortDescSum(PartyBars(results), M.EntryVotes, ValueOf);
  }

  /** Bars with equal votes keep the listed order. */
  lemma PartyChartStable(results: Record<int>, votes: real)
    ensures Filter(PartyChart(results), KeyIs(M.EntryVotes, votes))
         == Filter(PartyBars(results), KeyIs(M.EntryVotes, votes))
  {
    SortDescStable(PartyBars(results), M.EntryVotes, votes);
  }

  /** A bar is in the chart exactly when it is one of the six parties' bars. */
  lemma PartyChartMember(results: Record<int>, e: Entry<int>)
    ensures e in PartyChart(results) <==>
      exists i :: 0 <= i < 6 && e == Entry(ChartLabels[i], GetOrZero(results, ChartKeys[i]))
  {
    if e in PartyChart(results) {
      var i := SortDescSource(PartyBars(results), M.EntryVotes, e);
    }
    if exists i :: 0 <= i < 6 && e == Entry(ChartLabels[i], GetOrZero(results, ChartKeys[i])) {
      var i :| 0 <= i < 6 && e == Entry(ChartLabels[i], GetOrZero(results, ChartKeys[i]));
      SortDescKeeps(PartyBars(results), M.EntryVotes, i);
    }
  }

  /** Each party has one bar in the chart. */
  lemma PartyChartLabelsDistinct(results: Record<int>)
    ensures DistinctBy(PartyChart(results), KeyOf)
  {
    var bars := PartyBars(results);
    LabelsDistinct();
    forall i, j | 0 <= i < j < 6 ensures KeyOf(bars[i]) != KeyOf(bars[j]) {
      assert KeyOf(bars[i]) == ChartLabels[i] && KeyOf(bars[j]) == ChartLabels[j];
    }
    SortDescDistinct(bars, M.EntryVotes, KeyOf);
  }

  lemma LabelsDistinct()
    ensures forall i, j :: 0 <= i < j < |ChartLabels| ==> ChartLabels[i] != ChartLabels[j]
  {
  }

  /** `Math.max(...values)` of a non-empty list of counts. */
  function MaxValue(r: Record<int>): (m: int)
    requires r != []
    ensures forall e :: e in r ==> e.value <= m
    ensures exists e :: e in r && e.value == m
  {
    if |r| == 1 then r[0].value
    else
      var rest := MaxValue(r[1..]);
      assert forall e :: e in r ==> e == r[0] || e in r[1..];
      Max(r[0].value, rest)
  }

  /** The largest value of a list sorted by non-increasing value is the head's. */
  lemma MaxValueOfSorted(r: Record<int>)
    requires r != [] && SortedDesc(r, M.EntryVotes)
    ensures MaxValue(r) == r[0].value
  {
    var m := MaxValue(r);
    assert r[0] in r;
    var e0 :| e0 in r && e0.value == m;
    var j :| 0 <= j < |r| && r[j] == e0;
    assert M.EntryVotes(r[0]) >= M.EntryVotes(r[j]);
  }

  /** Sorting does not change the largest value: it is the head of the sort. */
  lemma MaxValueIsHead(r: Record<int>)
    requires r != []
    ensures MaxValue(r) == SortDesc(r, M.EntryVotes)[0].value
  {
    var h := SortDesc(r, M.EntryVotes)[0];
    SortDescHeadMax(r, M.EntryVotes);
    var m := MaxValue(r);
    var e0 :| e0 in r && e0.value == m;
    var j :| 0 <= j < |r| && r[j] == e0;
    assert M.EntryVotes(r[j]) <= M.EntryVotes(h);
  }

  /** `(count / max) * 100`, a bar's length as a percentage of the longest. */
  function BarWidth(count: int, max: int): real
    requires max > 0
  {
    count as real / max as real * 100.0
  }

  /** A bar for a count between 0 and the largest is between 0% and 100%, and the largest is 100%. */
  lemma WidthBounds(count: int, max: int)
    requires 0 <= count <= max && max > 0
    ensures 0.0 <= BarWidth(count, max) <= 100.0
    ensures count > 0 ==> 0.0 < BarWidth(count, max)
    ensures count == max ==> BarWidth(count, max) == 100.0
  {
    assert count as real / max as real <= 1.0;
  }
}
