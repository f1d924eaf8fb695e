/**
 * The "Security & Incidents" card: the three area councils with the most
 * incidents, each drawn as a bar against the largest count, and the latest
 * incidents of the councils shown, optionally of one type, at most four.
 */
module SecurityIncidentsSection {
  import opened Common
  import opened Records
  import opened Sorting
  import M = MockElectionData
  import opened Charts

  /** `stats.incidentsByLGA` as the security aggregator builds it. */
  function IncidentsByLGA(data: seq<M.LGASummary>): Record<int>
  {
    IndexBy(data, M.IdOf, M.IncidentCountOf)
  }

  /** `Object.entries(stats.incidentsByLGA).sort((a, b) => b[1] - a[1]).slice(0, 3)`. */
  function TopIncidentLGAs(data: seq<M.LGASummary>): (top: Record<int>)
    ensures |top| == Min(3, |IncidentsByLGA(data)|)
  {
    Take(SortDesc(IncidentsByLGA(data), M.EntryVotes), 3)
  }

  /** Each shown council is a council of the data with its incident count. */
  lemma TopAreCouncils(data: seq<M.LGASummary>, e: Entry<int>) returns (l: M.LGASummary)
    requires e in TopIncidentLGAs(data)
    ensures l in data && e == Entry(l.id, l.incidentCount)
  {
    var r := IncidentsByLGA(data);
    SortDescPermutation(r, M.EntryVotes);
    assert e in SortDesc(r, M.EntryVotes);
    assert e in multiset(r);
    var i := IndexByEntries(data, M.IdOf, M.IncidentCountOf, e);
    l := data[i];
  }

  /** A council left out has no more incidents than the last one shown. */
  lemma TopAreLargest(data: seq<M.LGASummary>, e: Entry<int>)
    requires e in IncidentsByLGA(data) && e !in TopIncidentLGAs(data)
    ensures TopIncidentLGAs(data) != []
    ensures e.value <= TopIncidentLGAs(data)[|TopIncidentLGAs(data)| - 1].value
  {
    var r := IncidentsByLGA(data);
    var sorted := SortDesc(r, M.EntryVotes);
    var top := TopIncidentLGAs(data);
    SortDescSorted(r, M.EntryVotes);
    SortDescPermutation(r, M.EntryVotes);
    assert e in multiset(sorted);
    var j :| 0 <= j < |sorted| && sorted[j] == e;
    assert forall k :: 0 <= k < |top| ==> sorted[k] == top[k] && top[k] in top;
    assert |top| <= j;
    assert M.EntryVotes(sorted[|top| - 1]) >= M.EntryVotes(sorted[j]);
  }

  /**
   * At most three councils, most incidents first; each is a council of the
   * data with its incident count, so `data.find` always finds a row to draw;
   * and every council left out has no more incidents than the third shown.
   */
  lemma TopIncidentLGAsSpec(data: seq<M.LGASummary>)
    ensures |TopIncidentLGAs(data)| <= 3
    ensures SortedDesc(TopIncidentLGAs(data), M.EntryVotes)
    ensures forall e :: e in TopIncidentLGAs(data) ==>
      exists l :: l in data && e == Entry(l.id, l.incidentCount)
    ensures forall e :: e in IncidentsByLGA(data) && e !in TopIncidentLGAs(data) ==>
      e.value <= TopIncidentLGAs(data)[|TopIncidentLGAs(data)| - 1].value
  {
    SortDescSorted(IncidentsByLGA(data), M.EntryVotes);
    var top := TopIncidentLGAs(data);
    forall e | e in top ensures exists l :: l in data && e == Entry(l.id, l.incidentCount) {
      var l := TopAreCouncils(data, e);
    }
    forall e | e in IncidentsByLGA(data) && e !in top ensures top != [] && e.value <= top[|top| - 1].value {
      TopAreLargest(data, e);
    }
  }

  /**
   * `(count / maxCount) * 100` with `maxCount` the largest count of all
   * councils; `None` is the NaN of `0 / 0` when every count is 0.
   */
  function HotspotWidth(data: seq<M.LGASummary>, count: int): Option<real>
    requires data != []
  {
    var max := MaxValue(IncidentsByLGA(data));
    if max > 0 then Some(BarWidth(count, max)) else None
  }

  /**
   * With incident counts that are not negative every shown bar is between 0%
   * and 100%, the first at 100%, unless no council has an incident, in which
   * case no bar has a width.
   */
  lemma HotspotWidthsBounded(data: seq<M.LGASummary>)
    requires data != []
    requires forall i :: 0 <= i < |data| ==> data[i].incidentCount >= 0
    ensures HotspotWidth(data, TopIncidentLGAs(data)[0].value).Some? ==>
      HotspotWidth(data, TopIncidentLGAs(data)[0].value).value == 100.0
    ensures forall e :: e in TopIncidentLGAs(data) && HotspotWidth(data, e.value).Some? ==>
      0.0 <= HotspotWidth(data, e.value).value <= 100.0
    ensures (forall i :: 0 <= i < |data| ==> data[i].incidentCount == 0) ==>
      forall e :: e in TopIncidentLGAs(data) ==> HotspotWidth(data, e.value).None?
  {
    var r := IncidentsByLGA(data);
    var top := TopIncidentLGAs(data);
    IncidentsNonEmpty(data);
    var max := MaxValue(r);
    MaxValueIsHead(r);
    assert top[0] == SortDesc(r, M.EntryVotes)[0] && top[0] in top;
    forall e | e in top ensures 0 <= e.value <= max {
      TopEntryBounded(data, e);
    }
    if max > 0 {
      forall e | e in top ensures 0.0 <= BarWidth(e.value, max) <= 100.0 {
        WidthBounds(e.value, max);
      }
      WidthBounds(top[0].value, max);
    }
    if forall i :: 0 <= i < |data| ==> data[i].incidentCount == 0 {
      AllZeroMax(data);
    }
  }

  lemma IncidentsNonEmpty(data: seq<M.LGASummary>)
    requires data != []
    ensures IncidentsByLGA(data) != []
  {
    var n := |data| - 1;
    assert IncidentsByLGA(data) == Put(IndexBy(data[..n], M.IdOf, M.IncidentCountOf), data[n].id, data[n].incidentCount);
  }

  /** A shown count is one council's count, so it lies between 0 and the largest. */
  lemma TopEntryBounded(data: seq<M.LGASummary>, e: Entry<int>)
    requires data != []
    requires forall i :: 0 <= i < |data| ==> data[i].incidentCount >= 0
    requires e in TopIncidentLGAs(data)
    ensures IncidentsByLGA(data) != [] && 0 <= e.value <= MaxValue(IncidentsByLGA(data))
  {
    var r := IncidentsByLGA(data);
    IncidentsNonEmpty(data);
    var l := TopAreCouncils(data, e);
    var i :| 0 <= i < |data| && data[i] == l;
    var j := SortDescSource(r, M.EntryVotes, e);
    assert r[j] in r;
  }

  /** With no incident anywhere the largest count is 0. */
  lemma AllZeroMax(data: seq<M.LGASummary>)
    requires data != []
    requires forall i :: 0 <= i < |data| ==> data[i].incidentCount == 0
    ensures IncidentsByLGA(data) != [] && MaxValue(IncidentsByLGA(data)) == 0
  {
    var r := IncidentsByLGA(data);
    IncidentsNonEmpty(data);
    var e0 :| e0 in r && e0.value == MaxValue(r);
    var i := IndexByEntries(data, M.IdOf, M.IncidentCountOf, e0);
  }

  /** `data.some(l => l.id === i.lgaId)`. */
  function InData(data: seq<M.LGASummary>): M.Incident -> bool
  {
    (i: M.Incident) => exists l :: l in data && l.id == i.lgaId
  }

  /** `!filterIncidentType || i.type === filterIncidentType`. */
  function TypeMatches(filterType: Option<string>): M.Incident -> bool
  {
    (i: M.Incident) => !(filterType.Some? && filterType.value != "") || i.incidentType == filterType.value
  }

  /** The latest incidents listed: of the councils shown, of the chosen type, the first four. */
  function LatestIncidents(data: seq<M.LGASummary>, incidents: seq<M.Incident>, filterType: Option<string>): seq<M.Incident>
  {
    Take(Filter(Filter(incidents, InData(data)), TypeMatches(filterType)), 4)
  }

  /** An incident the list may show: of a council of the data and of the chosen type. */
  function Qualifies(data: seq<M.LGASummary>, filterType: Option<string>): M.Incident -> bool
  {
    Both(InData(data), TypeMatches(filterType))
  }

  /**
   * At most four incidents, in the order of the incident list; each belongs
   * to a council of the data and, when a type is chosen, is of that type.
   * They are exactly the first four qualifying incidents, so fewer than four
   * are shown only when every qualifying incident is.
   */
  lemma LatestIncidentsSpec(data: seq<M.LGASummary>, incidents: seq<M.Incident>, filterType: Option<string>)
    ensures |LatestIncidents(data, incidents, filterType)| <= 4
    ensures SubsequenceOf(LatestIncidents(data, incidents, filterType), incidents)
    ensures forall i :: i in LatestIncidents(data, incidents, filterType) ==>
      exists l :: l in data && l.id == i.lgaId
    ensures filterType.Some? && filterType.value != "" ==>
      forall i :: i in LatestIncidents(data, incidents, filterType) ==> i.incidentType == filterType.value
    ensures LatestIncidents(data, incidents, filterType)
         == Take(Filter(incidents, Qualifies(data, filterType)), 4)
    ensures |LatestIncidents(data, incidents, filterType)| == Min(4, Count(incidents, Qualifies(data, filterType)))
    ensures |LatestIncidents(data, incidents, filterType)| < 4 ==>
      forall i :: i in incidents && Qualifies(data, filterType)(i) ==> i in LatestIncidents(data, incidents, filterType)
  {
    FilterFilter(incidents, InData(data), TypeMatches(filterType));
    assert Filter(Filter(incidents, InData(data)), TypeMatches(filterType))
        == Filter(incidents, Qualifies(data, filterType));
    forall i | i in incidents && Qualifies(data, filterType)(i)
      ensures |LatestIncidents(data, incidents, filterType)| < 4 ==> i in LatestIncidents(data, incidents, filterType)
    {
      FilterKeeps(incidents, Qualifies(data, filterType), i);
    }
    var inData := Filter(incidents, InData(data));
    var typed := Filter(inData, TypeMatches(filterType));
    var r := LatestIncidents(data, incidents, filterType);
    FilterIsSubsequence(incidents, InData(data));
    FilterIsSubsequence(inData, TypeMatches(filterType));
    PrefixIsSubsequence(typed, |r|);
    SubsequenceTransitive(r, typed, inData);
    SubsequenceTransitive(r, inData, incidents);
    forall i | i in r ensures exists l :: l in data && l.id == i.lgaId {
      assert i in typed;
      FilterHolds(incidents, InData(data), i);
    }
    forall i | i in r ensures TypeMatches(filterType)(i) {
      FilterHolds(inData, TypeMatches(filterType), i);
    }
  }
}
