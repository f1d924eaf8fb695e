/**
 * The situation room: the live incident feed with its severity chips, the
 * headline counters, the hotspot clusters (the four area councils with the
 * most incidents), the breakdown of incidents by type and the area councils
 * ordered by risk.
 */
module SituationRoom {
  import opened Common
  import opened Records
  import opened Sorting
  import M = MockElectionData
  import ET = ElectionTypes
  import opened Charts

  /** The severity as the feed spells it. */
  function SeverityName(s: M.Severity): string
  {
    match s
    case SevLow => "low"
    case SevMedium => "medium"
    case SevHigh => "high"
    case SevCritical => "critical"
  }

  /** The chip pressed: "all" clears the selection. */
  function SelectSeverity(chip: string): (v: Option<string>)
    ensures v.None? <==> chip == "all"
    ensures v.Some? ==> v.value == chip
  {
    if chip == "all" then None else Some(chip)
  }

  /** `!selectedSeverity` is false: a selection that is set and non-empty. */
  predicate Selected(v: Option<string>)
  {
    v.Some? && v.value != ""
  }

  function HasSeverity(name: string): M.Incident -> bool
  {
    (i: M.Incident) => SeverityName(i.severity) == name
  }

  /** `filteredIncidents`: every incident, or those of the selected severity. */
  function FilteredIncidents(incidents: seq<M.Incident>, selected: Option<string>): seq<M.Incident>
  {
    if !Selected(selected) then incidents else Filter(incidents, HasSeverity(selected.value))
  }

  /**
   * With no selection the feed is the whole list; with one, an incident is
   * shown iff it is listed and has the selected severity, and the feed keeps
   * the list's order.
   */
  lemma FilteredIncidentsSpec(incidents: seq<M.Incident>, selected: Option<string>, i: M.Incident)
    ensures !Selected(selected) ==> FilteredIncidents(incidents, selected) == incidents
    ensures Selected(selected) ==>
      (i in FilteredIncidents(incidents, selected) <==> i in incidents && SeverityName(i.severity) == selected.value)
    ensures SubsequenceOf(FilteredIncidents(incidents, selected), incidents)
  {
    if Selected(selected) {
      var p := HasSeverity(selected.value);
      if i in incidents && p(i) {
        FilterKeeps(incidents, p, i);
      }
      FilterHolds(incidents, p, i);
      FilterIsSubsequence(incidents, p);
    } else {
      SubsequenceReflexive(incidents);
    }
  }

  /** A chip other than "all" selects a severity nothing else is called, so an unknown name shows nothing. */
  lemma UnknownSeverityShowsNothing(incidents: seq<M.Incident>, name: string)
    requires name !in {"all", "", "low", "medium", "high", "critical"}
    ensures FilteredIncidents(incidents, SelectSeverity(name)) == []
  {
    forall k | 0 <= k < |incidents| ensures !HasSeverity(name)(incidents[k]) {
      assert SeverityName(incidents[k].severity) in {"low", "medium", "high", "critical"};
    }
    CountZero(incidents, HasSeverity(name));
  }

  function IsCritical(i: M.Incident): bool { i.severity == M.SevCritical }
  function IsHigh(i: M.Incident): bool { i.severity == M.SevHigh }
  function IsActive(i: M.Incident): bool { i.status != M.Resolved }
  function IsInvestigating(i: M.Incident): bool { i.status == M.Investigating }

  /** The headline counters. */
  datatype Counters = Counters(critical: nat, high: nat, active: nat, investigating: nat)

  function GetCounters(incidents: seq<M.Incident>): Counters
  {
    Counters(Count(incidents, IsCritical), Count(incidents, IsHigh),
             Count(incidents, IsActive), Count(incidents, IsInvestigating))
  }

  /**
   * Every incident under investigation is active, and the critical and high
   * incidents together are at most all of them.
   */
  lemma CountersBounded(incidents: seq<M.Incident>)
    ensures GetCounters(incidents).investigating <= GetCounters(incidents).active <= |incidents|
    ensures GetCounters(incidents).critical + GetCounters(incidents).high <= |incidents|
  {
    CountImplies(incidents, IsInvestigating, IsActive);
    CriticalAndHigh(incidents);
  }

  lemma {:induction false} CriticalAndHigh(s: seq<M.Incident>)
    ensures Count(s, IsCritical) + Count(s, IsHigh) <= |s|
  {
    if s != [] {
      var n := |s| - 1;
      CriticalAndHigh(s[..n]);
      CountStep(s, IsCritical, n);
      CountStep(s, IsHigh, n);
      assert s[..n + 1] == s;
    }
  }

  /** The number on each severity chip equals the number of incidents the chip shows. */
  lemma ChipCountIsFeedLength(incidents: seq<M.Incident>, chip: string)
    requires chip in {"critical", "high", "medium", "low"}
    ensures |FilteredIncidents(incidents, SelectSeverity(chip))| == Count(incidents, HasSeverity(chip))
  {
  }

  function LgaIdOf(i: M.Incident): string { i.lgaId }

  /** `new Set(incidents.map(i => i.lgaId))`: the area councils with an incident. */
  function AffectedCouncils(incidents: seq<M.Incident>): set<string>
  {
    KeySet(incidents, LgaIdOf)
  }

  /** Every incident's council is affected, and there are no more affected councils than incidents. */
  lemma AffectedCouncilsSpec(incidents: seq<M.Incident>, k: nat)
    requires k < |incidents|
    ensures incidents[k].lgaId in AffectedCouncils(incidents)
    ensures |AffectedCouncils(incidents)| <= |incidents|
  {
    assert LgaIdOf(incidents[k]) == incidents[k].lgaId;
    KeySetBound(incidents, LgaIdOf);
  }

  // Hotspot clusters.

  /** A hotspot: the council with its critical and active incident counts. */
  datatype Hotspot = Hotspot(lga: M.LGASummary, criticalIncidents: nat, activeIncidents: nat)

  function IncidentKey(l: M.LGASummary): real { l.incidentCount as real }

  function CriticalIn(id: string): M.Incident -> bool
  {
    (i: M.Incident) => i.lgaId == id && i.severity == M.SevCritical
  }

  function ActiveIn(id: string): M.Incident -> bool
  {
    (i: M.Incident) => i.lgaId == id && i.status != M.Resolved
  }

  function InCouncil(id: string): M.Incident -> bool
  {
    (i: M.Incident) => i.lgaId == id
  }

  function HotspotOf(incidents: seq<M.Incident>): M.LGASummary -> Hotspot
  {
    (l: M.LGASummary) => Hotspot(l, Count(incidents, CriticalIn(l.id)), Count(incidents, ActiveIn(l.id)))
  }

  /** `hotspots`: the councils sorted by incident count, the first four, with their counts. */
  function Hotspots(lgas: seq<M.LGASummary>, incidents: seq<M.Incident>): (h: seq<Hotspot>)
    ensures |h| == Min(4, |lgas|)
  {
    Map(Take(SortDesc(lgas, IncidentKey), 4), HotspotOf(incidents))
  }

  /** The i-th hotspot is the i-th council of the sort. */
  lemma HotspotAt(lgas: seq<M.LGASummary>, incidents: seq<M.Incident>, i: nat)
    requires i < |Hotspots(lgas, incidents)|
    ensures Hotspots(lgas, incidents)[i].lga == SortDesc(lgas, IncidentKey)[i]
  {
  }

  /** A council left out of the hotspots has no more incidents than the last one shown. */
  lemma HotspotsLargest(lgas: seq<M.LGASummary>, incidents: seq<M.Incident>, l: M.LGASummary)
    requires l in lgas
    requires forall i :: 0 <= i < |Hotspots(lgas, incidents)| ==> Hotspots(lgas, incidents)[i].lga != l
    ensures Hotspots(lgas, incidents) != []
    ensures l.incidentCount <= Hotspots(lgas, incidents)[|Hotspots(lgas, incidents)| - 1].lga.incidentCount
  {
    var h := Hotspots(lgas, incidents);
    var sorted := SortDesc(lgas, IncidentKey);
    SortDescSorted(lgas, IncidentKey);
    SortDescPermutation(lgas, IncidentKey);
    assert l in multiset(sorted);
    var j :| 0 <= j < |sorted| && sorted[j] == l;
    forall k | 0 <= k < |h| ensures sorted[k] != l {
      HotspotAt(lgas, incidents, k);
    }
    assert |h| <= j;
    HotspotAt(lgas, incidents, |h| - 1);
    assert IncidentKey(sorted[|h| - 1]) >= IncidentKey(sorted[j]);
  }

  /**
   * The hotspots are councils of the list, in non-increasing order of
   * incident count, and every council left out has no more incidents than the
   * last hotspot shown.
   */
  lemma HotspotsSpec(lgas: seq<M.LGASummary>, incidents: seq<M.Incident>)
    ensures forall i :: 0 <= i < |Hotspots(lgas, incidents)| ==> Hotspots(lgas, incidents)[i].lga in lgas
    ensures forall i, j :: 0 <= i < j < |Hotspots(lgas, incidents)| ==>
      Hotspots(lgas, incidents)[i].lga.incidentCount >= Hotspots(lgas, incidents)[j].lga.incidentCount
    ensures forall l :: l in lgas && (forall i :: 0 <= i < |Hotspots(lgas, incidents)| ==> Hotspots(lgas, incidents)[i].lga != l) ==>
      l.incidentCount <= Hotspots(lgas, incidents)[|Hotspots(lgas, incidents)| - 1].lga.incidentCount
  {
    var h := Hotspots(lgas, incidents);
    forall i | 0 <= i < |h| ensures h[i].lga in lgas {
      HotspotInList(lgas, incidents, i);
    }
    forall i, j | 0 <= i < j < |h| ensures h[i].lga.incidentCount >= h[j].lga.incidentCount {
      HotspotsOrdered(lgas, incidents, i, j);
    }
    forall l | l in lgas && (forall i :: 0 <= i < |h| ==> h[i].lga != l)
      ensures h != [] && l.incidentCount <= h[|h| - 1].lga.incidentCount
    {
      HotspotsLargest(lgas, incidents, l);
    }
  }

  lemma HotspotInList(lgas: seq<M.LGASummary>, incidents: seq<M.Incident>, i: nat)
    requires i < |Hotspots(lgas, incidents)|
    ensures Hotspots(lgas, incidents)[i].lga in lgas
  {
    var sorted := SortDesc(lgas, IncidentKey);
    SortDescPermutation(lgas, IncidentKey);
    HotspotAt(lgas, incidents, i);
    assert sorted[i] in multiset(lgas);
  }

  lemma HotspotsOrdered(lgas: seq<M.LGASummary>, incidents: seq<M.Incident>, i: nat, j: nat)
    requires i < j < |Hotspots(lgas, incidents)|
    ensures Hotspots(lgas, incidents)[i].lga.incidentCount >= Hotspots(lgas, incidents)[j].lga.incidentCount
  {
    var sorted := SortDesc(lgas, IncidentKey);
    SortDescSorted(lgas, IncidentKey);
    HotspotAt(lgas, incidents, i);
    HotspotAt(lgas, incidents, j);
    assert IncidentKey(sorted[i]) >= IncidentKey(sorted[j]);
  }

  /** A hotspot's critical and active counts only count incidents in that council. */
  lemma HotspotCountsBounded(incidents: seq<M.Incident>, l: M.LGASummary)
    ensures HotspotOf(incidents)(l).criticalIncidents <= Count(incidents, InCouncil(l.id))
    ensures HotspotOf(incidents)(l).activeIncidents <= Count(incidents, InCouncil(l.id))
  {
    CountImplies(incidents, CriticalIn(l.id), InCouncil(l.id));
    CountImplies(incidents, ActiveIn(l.id), InCouncil(l.id));
  }

  // Incident type breakdown.

  function TypeOf(i: M.Incident): string { i.incidentType }

  /** `Object.entries(counts).sort((a, b) => b[1] - a[1])`, `counts` tallying the incident types. */
  function Breakdown(incidents: seq<M.Incident>): Record<int>
  {
    SortDesc(Tally(incidents, TypeOf), M.EntryVotes)
  }

  /**
   * The breakdown lists each incident type exactly once, most frequent first,
   * with the number of incidents of that type (at least one), and its counts
   * add up to the number of incidents.
   */
  lemma BreakdownSpec(incidents: seq<M.Incident>)
    ensures SortedDesc(Breakdown(incidents), M.EntryVotes)
    ensures DistinctBy(Breakdown(incidents), KeyOf)
    ensures (set e | e in Breakdown(incidents) :: e.key) == KeySet(incidents, TypeOf)
    ensures Sum(Breakdown(incidents), ValueOf) == |incidents|
    ensures forall e :: e in Breakdown(incidents) ==>
      e.value == Count(incidents, KeyEquals(TypeOf, e.key)) && e.value >= 1
  {
    var c := Tally(incidents, TypeOf);
    var b := Breakdown(incidents);
    TallySpec(incidents, TypeOf);
    SortDescSorted(c, M.EntryVotes);
    SortDescSum(c, M.EntryVotes, ValueOf);
    SortDescDistinct(c, M.EntryVotes, KeyOf);
    BreakdownKeys(incidents);
    forall e | e in b ensures e.value == Count(incidents, KeyEquals(TypeOf, e.key)) && e.value >= 1 {
      BreakdownEntry(incidents, e);
    }
  }

  /** The breakdown names the same types as the tally it sorts. */
  lemma BreakdownKeys(incidents: seq<M.Incident>)
    ensures (set e | e in Breakdown(incidents) :: e.key) == KeySet(incidents, TypeOf)
  {
    var c := Tally(incidents, TypeOf);
    var b := Breakdown(incidents);
    TallySpec(incidents, TypeOf);
    SortDescPermutation(c, M.EntryVotes);
    KeysAreEntryKeys(c);
    forall e ensures e in b <==> e in c {
      assert e in b <==> e in multiset(b);
    }
  }

  /** Each entry of the breakdown carries the number of incidents of its type. */
  lemma BreakdownEntry(incidents: seq<M.Incident>, e: Entry<int>)
    requires e in Breakdown(incidents)
    ensures e.value == Count(incidents, KeyEquals(TypeOf, e.key)) && e.value >= 1
  {
    var c := Tally(incidents, TypeOf);
    SortDescPermutation(c, M.EntryVotes);
    assert e in multiset(Breakdown(incidents));
    TallyPositive(incidents, TypeOf, e);
  }

  /**
   * The `forEach` over the incidents, then the sort: the method the page runs,
   * proved to compute the breakdown.
   */
  method TypeBreakdown(incidents: seq<M.Incident>) returns (b: Record<int>)
    ensures b == Breakdown(incidents)
  {
    var counts: Record<int> := [];
    var i := 0;
    while i < |incidents|
      invariant i <= |incidents|
      invariant counts == Tally(incidents[..i], TypeOf)
    {
      assert incidents[..i + 1][..i] == incidents[..i];
      counts := Add(counts, incidents[i].incidentType, 1);
      i := i + 1;
    }
    assert incidents[..i] == incidents;
    b := SortDesc(counts, M.EntryVotes);
  }

  /**
   * The longest bar is the first, the most frequent type, at 100%; every bar
   * is longer than 0% and at most 100%.
   */
  lemma BarWidths(incidents: seq<M.Incident>)
    requires incidents != []
    ensures Breakdown(incidents) != [] && Breakdown(incidents)[0].value >= 1
    ensures MaxValue(Breakdown(incidents)) == Breakdown(incidents)[0].value
    ensures BarWidth(Breakdown(incidents)[0].value, MaxValue(Breakdown(incidents))) == 100.0
    ensures forall e :: e in Breakdown(incidents) ==>
      0.0 < BarWidth(e.value, MaxValue(Breakdown(incidents))) <= 100.0
  {
    var b := Breakdown(incidents);
    BreakdownSpec(incidents);
    assert b[0] in b;
    MaxValueOfSorted(b);
    var m := MaxValue(b);
    WidthBounds(b[0].value, m);
    forall e | e in b ensures 0.0 < BarWidth(e.value, m) <= 100.0 {
      WidthBounds(e.value, m);
    }
  }

  // Council risk overview.

  function RiskKey(l: M.LGASummary): real { ET.Rank(l.riskLevel) as real }

  /** The councils ordered critical, high, medium, low, none. */
  function RiskOverview(lgas: seq<M.LGASummary>): seq<M.LGASummary>
  {
    SortDesc(lgas, RiskKey)
  }

  /**
   * The overview lists the same councils, from the highest risk down, and
   * councils of equal risk keep their order in the data.
   */
  lemma RiskOverviewSpec(lgas: seq<M.LGASummary>, level: ET.RiskLevel)
    ensures multiset(RiskOverview(lgas)) == multiset(lgas)
    ensures forall i, j :: 0 <= i < j < |RiskOverview(lgas)| ==>
      ET.Rank(RiskOverview(lgas)[i].riskLevel) >= ET.Rank(RiskOverview(lgas)[j].riskLevel)
    ensures Filter(RiskOverview(lgas), KeyIs(RiskKey, ET.Rank(level) as real))
         == Filter(lgas, KeyIs(RiskKey, ET.Rank(level) as real))
  {
    SortDescPermutation(lgas, RiskKey);
    SortDescSorted(lgas, RiskKey);
    SortDescStable(lgas, RiskKey, ET.Rank(level) as real);
    var r := RiskOverview(lgas);
    forall i, j | 0 <= i < j < |r| ensures ET.Rank(r[i].riskLevel) >= ET.Rank(r[j].riskLevel) {
      assert RiskKey(r[i]) >= RiskKey(r[j]);
    }
  }
}
