/**
 * The dashboard page's list of area councils after the filter bar: only the
 * area-council and risk-level filters narrow it; the ward, incident-type and
 * time-window filters do not affect this list.
 */
module IndexPage {
  import opened Common
  import M = MockElectionData
  import ET = ElectionTypes
  import opened FilterBar
  import AbujaMap

  /** `l => l.id === lgaId`. */
  function HasId(lgaId: string): M.LGASummary -> bool
  {
    (l: M.LGASummary) => l.id == lgaId
  }

  /** `l => l.riskLevel === riskLevel`. */
  function HasRisk(riskLevel: string): M.LGASummary -> bool
  {
    (l: M.LGASummary) => ET.Name(l.riskLevel) == riskLevel
  }

  /** `filteredLGAData`: filter by area council if set, then by risk level if set. */
  function FilteredLGAData(data: seq<M.LGASummary>, f: FilterState): seq<M.LGASummary>
  {
    var byId := if Truthy(f.lgaId) then Filter(data, HasId(f.lgaId.value)) else data;
    if Truthy(f.riskLevel) then Filter(byId, HasRisk(f.riskLevel.value)) else byId
  }

  /** With neither filter set the list is the input. */
  lemma NoFilterKeepsAll(data: seq<M.LGASummary>, f: FilterState)
    requires !Truthy(f.lgaId) && !Truthy(f.riskLevel)
    ensures FilteredLGAData(data, f) == data
  {
  }

  /**
   * An area council is listed iff it is in the input, has the chosen ID when
   * one is set, and has the chosen risk level when one is set.
   */
  lemma FilteredMembership(data: seq<M.LGASummary>, f: FilterState, l: M.LGASummary)
    ensures l in FilteredLGAData(data, f) <==>
      l in data
      && (Truthy(f.lgaId) ==> l.id == f.lgaId.value)
      && (Truthy(f.riskLevel) ==> ET.Name(l.riskLevel) == f.riskLevel.value)
  {
    var byId := if Truthy(f.lgaId) then Filter(data, HasId(f.lgaId.value)) else data;
    if l in data && (Truthy(f.lgaId) ==> l.id == f.lgaId.value) {
      if Truthy(f.lgaId) {
        FilterKeeps(data, HasId(f.lgaId.value), l);
      }
      if Truthy(f.riskLevel) && ET.Name(l.riskLevel) == f.riskLevel.value {
        FilterKeeps(byId, HasRisk(f.riskLevel.value), l);
      }
    }
    if l in FilteredLGAData(data, f) {
      assert l in byId;
      if Truthy(f.lgaId) {
        var k :| 0 <= k < |byId| && byId[k] == l;
        assert HasId(f.lgaId.value)(byId[k]);
      }
      if Truthy(f.riskLevel) {
        var r := FilteredLGAData(data, f);
        var k :| 0 <= k < |r| && r[k] == l;
        assert HasRisk(f.riskLevel.value)(r[k]);
      }
    }
  }

  /** The result keeps the input order: it is a subsequence of the input. */
  lemma FilteredIsSubsequence(data: seq<M.LGASummary>, f: FilterState)
    ensures SubsequenceOf(FilteredLGAData(data, f), data)
  {
    var byId := if Truthy(f.lgaId) then Filter(data, HasId(f.lgaId.value)) else data;
    if Truthy(f.lgaId) {
      FilterIsSubsequence(data, HasId(f.lgaId.value));
    } else {
      SubsequenceReflexive(data);
    }
    if Truthy(f.riskLevel) {
      FilterIsSubsequence(byId, HasRisk(f.riskLevel.value));
      SubsequenceTransitive(FilteredLGAData(data, f), byId, data);
    }
  }

  /** The ward, incident-type and time-window filters do not change the list. */
  lemma OtherFiltersIgnored(data: seq<M.LGASummary>, f: FilterState, ward: Option<string>,
                            incident: Option<string>, time: Option<string>)
    ensures FilteredLGAData(data, f.(wardId := ward, incidentType := incident, timeWindow := time)) ==
      FilteredLGAData(data, f)
  {
  }

  /** The map's filter, `filters.riskLevel || 'all'`: the risk-level drop-down value, or "all". */
  function MapFilter(f: FilterState): string
  {
    if Truthy(f.riskLevel) then f.riskLevel.value else "all"
  }

  /**
   * The map is given the full list and the risk-level value as its filter.
   * No risk level narrows the map, so every council stays picked and only
   * councils missing from the data are dimmed, and none at all without a
   * risk-level filter.
   */
  lemma MapFilterNeverNarrows(data: seq<M.LGASummary>, f: FilterState, level: ET.RiskLevel)
    requires !Truthy(f.riskLevel) || f.riskLevel == Some(ET.Name(level))
    ensures AbujaMap.FilteredCouncils(data, MapFilter(f)) == data
    ensures forall id :: AbujaMap.IsDimmed(data, MapFilter(f), id) <==>
      Truthy(f.riskLevel) && id !in AbujaMap.DataIds(data)
  {
    assert !AbujaMap.Narrowing(ET.Name(level));
    forall id
      ensures AbujaMap.IsDimmed(data, MapFilter(f), id) <==> Truthy(f.riskLevel) && id !in AbujaMap.DataIds(data)
    {
      AbujaMap.NothingDimmedUnfiltered(data, MapFilter(f), id);
    }
  }
}
