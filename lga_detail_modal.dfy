/**
 * The area-council detail dialog: the council's incidents, its wards'
 * checklist counts, the timeliness breakdowns, the party chart, the polling
 * unit status pie, the guarded percentages and the ward selection.
 */
module LGADetailModal {
  import opened Common
  import opened Records
  import opened Sorting
  import M = MockElectionData
  import opened Charts

  /** The dialog's state: the ward clicked and the wards loaded for the council. */
  class ModalState {
    var selectedWard: Option<M.WardSummary>
    var wardData: seq<M.WardSummary>

    constructor()
      ensures selectedWard.None? && wardData == []
    {
      selectedWard := None;
      wardData := [];
    }

    /**
     * The effect run when the council or the open flag changes: the fetched
     * wards when a council is shown and open, an empty list otherwise. A
     * failed fetch (`None`) leaves the list as it was.
     */
    method LoadWards(lga: Option<M.LGASummary>, open: bool, fetched: Option<seq<M.WardSummary>>)
      modifies this
      ensures lga.Some? && open && fetched.Some? ==> wardData == fetched.value
      ensures lga.Some? && open && fetched.None? ==> wardData == old(wardData)
      ensures !(lga.Some? && open) ==> wardData == []
      ensures selectedWard == old(selectedWard)
    {
      if lga.Some? && open {
        if fetched.Some? {
          wardData := fetched.value;
        }
      } else {
        wardData := [];
      }
    }

    /** A click on a ward card: the selected ward is deselected, any other is selected. */
    method ClickWard(ward: M.WardSummary)
      modifies this
      ensures selectedWard == ToggleWard(old(selectedWard), ward)
      ensures wardData == old(wardData)
    {
      selectedWard := ToggleWard(selectedWard, ward);
    }
  }

  /** `selectedWard?.id === ward.id ? null : ward`. */
  function ToggleWard(selected: Option<M.WardSummary>, ward: M.WardSummary): (r: Option<M.WardSummary>)
    ensures selected.Some? && selected.value.id == ward.id ==> r.None?
    ensures !(selected.Some? && selected.value.id == ward.id) ==> r == Some(ward)
  {
    if selected.Some? && selected.value.id == ward.id then None else Some(ward)
  }

  /**
   * Two clicks on the same ward undo each other: the ward ends selected
   * exactly when it was selected before, and otherwise nothing is selected.
   */
  lemma ToggleWardTwice(selected: Option<M.WardSummary>, ward: M.WardSummary)
    ensures selected.Some? && selected.value.id == ward.id ==>
      ToggleWard(ToggleWard(selected, ward), ward) == Some(ward)
    ensures !(selected.Some? && selected.value.id == ward.id) ==>
      ToggleWard(ToggleWard(selected, ward), ward).None?
  {
  }

  function InCouncil(id: string): M.Incident -> bool
  {
    (i: M.Incident) => i.lgaId == id
  }

  /** `lgaIncidents`: none without a council, else the incidents of that council in list order. */
  function LgaIncidents(lga: Option<M.LGASummary>, incidents: seq<M.Incident>): seq<M.Incident>
  {
    if lga.None? then [] else Filter(incidents, InCouncil(lga.value.id))
  }

  /**
   * An incident is listed iff a council is shown and the incident is in that
   * council, and the list keeps the order of all incidents.
   */
  lemma LgaIncidentsSpec(lga: Option<M.LGASummary>, incidents: seq<M.Incident>, i: M.Incident)
    ensures i in LgaIncidents(lga, incidents) <==> lga.Some? && i in incidents && i.lgaId == lga.value.id
    ensures SubsequenceOf(LgaIncidents(lga, incidents), incidents)
  {
    if lga.Some? {
      var p := InCouncil(lga.value.id);
      if i in incidents && p(i) {
        FilterKeeps(incidents, p, i);
      }
      FilterHolds(incidents, p, i);
      FilterIsSubsequence(incidents, p);
    }
  }

  // Checklist counts.

  datatype IntegrityStats = IntegrityStats(
    ec8bSubmitted: nat, ec8cCollated: nat, csrvsDone: nat, votesAnnounced: nat,
    agentsCountersigned: nat, ec60eDisplayed: nat, total: nat)

  function Ec8bOf(w: M.WardSummary): bool { w.integrity.ec8bSubmitted }
  function Ec8cOf(w: M.WardSummary): bool { w.integrity.ec8cCollated }
  function CsrvsOf(w: M.WardSummary): bool { w.integrity.csrvsDone }
  function AnnouncedOf(w: M.WardSummary): bool { w.integrity.votesAnnounced }
  function SignedOf(w: M.WardSummary): bool { w.integrity.agentsCountersigned }
  function Ec60eOf(w: M.WardSummary): bool { w.integrity.ec60eDisplayed }

  /** `integrityStats`: null without wards, else how many wards pass each check, out of all wards. */
  function IntegrityStatsOf(wards: seq<M.WardSummary>): (r: Option<IntegrityStats>)
    ensures r.None? <==> wards == []
    ensures r.Some? ==> r.value.total == |wards|
  {
    if |wards| == 0 then None
    else Some(IntegrityStats(
      Count(wards, Ec8bOf), Count(wards, Ec8cOf), Count(wards, CsrvsOf),
      Count(wards, AnnouncedOf), Count(wards, SignedOf), Count(wards, Ec60eOf), |wards|))
  }

  /** No check is passed by more wards than there are, and a check all wards pass counts every ward. */
  lemma IntegrityStatsBounded(wards: seq<M.WardSummary>)
    requires wards != []
    ensures var s := IntegrityStatsOf(wards).value;
      s.ec8bSubmitted <= s.total && s.ec8cCollated <= s.total && s.csrvsDone <= s.total
      && s.votesAnnounced <= s.total && s.agentsCountersigned <= s.total && s.ec60eDisplayed <= s.total
    ensures (forall i :: 0 <= i < |wards| ==> wards[i].integrity.agentsCountersigned) ==>
      IntegrityStatsOf(wards).value.agentsCountersigned == |wards|
  {
    if forall i :: 0 <= i < |wards| ==> wards[i].integrity.agentsCountersigned {
      FilterAll(wards, SignedOf);
    }
  }

  /** `Math.round((value / total) * 100)`, rounding halves up. */
  function Percent(value: int, total: int): int
    requires total > 0
  {
    ((value as real / total as real) * 100.0 + 0.5).Floor
  }

  /** A share of the wards rounds to a whole percentage between 0 and 100; none is 0 and all is 100. */
  lemma PercentBounds(value: int, total: int)
    requires 0 <= value <= total && total > 0
    ensures 0 <= Percent(value, total) <= 100
    ensures value == 0 ==> Percent(value, total) == 0
    ensures value == total ==> Percent(value, total) == 100
  {
    var q := value as real / total as real;
    assert 0.0 <= q <= 1.0;
    assert q * 100.0 + 0.5 < 101.0;
    if value == total {
      assert q == 1.0;
      assert q * 100.0 + 0.5 == 100.5;
    }
  }

  /** The six parties of the countersignature grid. */
  const CountersignParties: seq<string> := ["APC", "LP", "PDP", "NNPP", "APGA", "Others"]

  /** Each party's cell of the countersignature grid: the share of wards whose agents countersigned. */
  function CountersignPercents(wards: seq<M.WardSummary>): seq<(string, int)>
    requires wards != []
  {
    Map(CountersignParties, (party: string) => (party, Percent(Count(wards, SignedOf), |wards|)))
  }

  /**
   * The grid shows the six parties in order and gives every one of them the
   * same figure, the countersigned share of the checklist counts, whatever
   * the party.
   */
  lemma CountersignSameForAll(wards: seq<M.WardSummary>)
    requires wards != []
    ensures |CountersignPercents(wards)| == 6
    ensures forall i :: 0 <= i < 6 ==> CountersignPercents(wards)[i].0 == CountersignParties[i]
    ensures forall i :: 0 <= i < 6 ==>
      CountersignPercents(wards)[i].1
        == Percent(IntegrityStatsOf(wards).value.agentsCountersigned, IntegrityStatsOf(wards).value.total)
    ensures forall i :: 0 <= i < 6 ==> 0 <= CountersignPercents(wards)[i].1 <= 100
  {
    PercentBounds(Count(wards, SignedOf), |wards|);
  }

  // Timeliness.

  function ArrivalOf(w: M.WardSummary): string { w.arrivalCategory }
  function StartOf(w: M.WardSummary): string { w.startCategory }

  /**
   * `timelinessStats`: one pass over the wards adding one to the ward's
   * arrival category and one to its start category.
   */
  method TimelinessStats(wards: seq<M.WardSummary>) returns (arrival: Record<int>, start: Record<int>)
    ensures arrival == Tally(wards, ArrivalOf) && start == Tally(wards, StartOf)
  {
    arrival := [];
    start := [];
    var i := 0;
    while i < |wards|
      invariant i <= |wards|
      invariant arrival == Tally(wards[..i], ArrivalOf)
      invariant start == Tally(wards[..i], StartOf)
    {
      assert wards[..i + 1][..i] == wards[..i];
      arrival := Add(arrival, wards[i].arrivalCategory, 1);
      start := Add(start, wards[i].startCategory, 1);
      i := i + 1;
    }
    assert wards[..i] == wards;
  }

  /**
   * Each breakdown counts every ward once: its counts add up to the number of
   * wards, and a category holds the number of wards in it.
   */
  lemma TimelinessSpec(wards: seq<M.WardSummary>, category: string)
    ensures SumValues(Tally(wards, ArrivalOf)) == |wards|
    ensures SumValues(Tally(wards, StartOf)) == |wards|
    ensures GetOrZero(Tally(wards, ArrivalOf), category) == Count(wards, KeyEquals(ArrivalOf, category))
    ensures GetOrZero(Tally(wards, StartOf), category) == Count(wards, KeyEquals(StartOf, category))
  {
    TallySpec(wards, ArrivalOf);
    TallySpec(wards, StartOf);
  }

  // Results tab.

  /**
   * `partyChartData`: the council's six bars, most votes first; every bar is
   * one of the six charted parties carrying that party's result for the
   * council, and each party appears once.
   */
  lemma CouncilPartyChart(lga: M.LGASummary, e: Entry<int>)
    ensures |PartyChart(lga.partyResults)| == 6
    ensures SortedDesc(PartyChart(lga.partyResults), M.EntryVotes)
    ensures e in PartyChart(lga.partyResults) <==>
      exists i :: 0 <= i < 6 && e == Entry(ChartLabels[i], GetOrZero(lga.partyResults, ChartKeys[i]))
    ensures DistinctBy(PartyChart(lga.partyResults), KeyOf)
  {
    PartyChartSpec(lga.partyResults);
    PartyChartMember(lga.partyResults, e);
    PartyChartLabelsDistinct(lga.partyResults);
  }

  /** The polling-unit pie: operational, with issues, cancelled. */
  datatype StatusData = StatusData(operational: int, issues: int, cancelled: int)

  function StatusDataOf(lga: M.LGASummary): StatusData
  {
    StatusData(lga.pollingUnits - lga.cancelledPUs, (lga.pollingUnits as real * 0.03).Floor, lga.cancelledPUs)
  }

  /**
   * The operational and cancelled slices make up all polling units; the
   * issues slice is a further 3% of them, rounded down, and never more than
   * all of them.
   */
  lemma StatusDataSpec(lga: M.LGASummary)
    ensures StatusDataOf(lga).operational + StatusDataOf(lga).cancelled == lga.pollingUnits
    ensures lga.pollingUnits >= 0 ==> 0 <= StatusDataOf(lga).issues <= lga.pollingUnits
    ensures 0 <= lga.pollingUnits < 34 ==> StatusDataOf(lga).issues == 0
  {
    var x := lga.pollingUnits as real * 0.03;
    if lga.pollingUnits >= 0 {
      assert 0.0 <= x <= lga.pollingUnits as real;
    }
    if 0 <= lga.pollingUnits < 34 {
      assert x < 1.0;
    }
  }

  /** `registeredVoters > 0 ? accredited / registered * 100 : 0`. */
  function AccreditationPercent(lga: M.LGASummary): real
  {
    if lga.registeredVoters > 0 then lga.accreditedVoters as real / lga.registeredVoters as real * 100.0 else 0.0
  }

  /** `votesCast > 0 ? rejected / cast * 100 : 0`. */
  function RejectionRate(lga: M.LGASummary): real
  {
    if lga.votesCast > 0 then lga.rejectedVotes as real / lga.votesCast as real * 100.0 else 0.0
  }

  /** Each rate is 0 when its denominator is not positive, and a share of at most 100 otherwise. */
  lemma RatesGuarded(lga: M.LGASummary)
    ensures lga.registeredVoters <= 0 ==> AccreditationPercent(lga) == 0.0
    ensures lga.votesCast <= 0 ==> RejectionRate(lga) == 0.0
    ensures 0 <= lga.accreditedVoters <= lga.registeredVoters ==> 0.0 <= AccreditationPercent(lga) <= 100.0
    ensures 0 <= lga.rejectedVotes <= lga.votesCast ==> 0.0 <= RejectionRate(lga) <= 100.0
  {
    if 0 <= lga.accreditedVoters <= lga.registeredVoters && lga.registeredVoters > 0 {
      assert lga.accreditedVoters as real / lga.registeredVoters as real <= 1.0;
    }
    if 0 <= lga.rejectedVotes <= lga.votesCast && lga.votesCast > 0 {
      assert lga.rejectedVotes as real / lga.votesCast as real <= 1.0;
    }
  }
}
