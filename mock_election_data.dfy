/**
 * The dashboard's LGA summaries and the six aggregators computed from them:
 * overview, process integrity, security, results, turnout and red flags.
 */
module MockElectionData {
  import opened Common
  import opened Records
  import Sorting
  import ET = ElectionTypes

  /**
   * One area council (LGA) as the dashboard receives it. `incidentBreakdown`
   * and `partyResults` are dictionaries: a missing one is the empty record,
   * and a missing key reads as 0 (`?.` and `|| 0`).
   */
  datatype LGASummary = LGASummary(
    id: string,
    name: string,
    wards: int,
    pollingUnits: int,
    registeredVoters: int,
    accreditedVoters: int,
    votesCast: int,
    validVotes: int,
    rejectedVotes: int,
    turnoutPercent: real,
    wardsReported: int,
    complianceScore: int,
    incidentCount: int,
    incidentBreakdown: Record<int>,
    deniedAccessCount: int,
    lateStartCount: int,
    cancelledPUs: int,
    lostVoters: int,
    securityPresent: int,
    observerCoverage: int,
    riskLevel: ET.RiskLevel,
    partyResults: Record<int>)

  /** The six checklist items a ward view carries. */
  datatype WardIntegrity = WardIntegrity(
    ec8bSubmitted: bool,
    ec8cCollated: bool,
    csrvsDone: bool,
    votesAnnounced: bool,
    agentsCountersigned: bool,
    ec60eDisplayed: bool)

  /** One ward as the dashboard receives it (the backend's ward detail). */
  datatype WardSummary = WardSummary(
    id: string,
    lgaId: string,
    name: string,
    pollingUnits: int,
    registeredVoters: int,
    accreditedVoters: int,
    votesCast: int,
    validVotes: int,
    rejectedVotes: int,
    turnoutPercent: real,
    complianceScore: int,
    incidentCount: int,
    deniedAccess: bool,
    lateStart: bool,
    cancelledPUs: int,
    securityPresent: bool,
    observerPresent: bool,
    riskLevel: ET.RiskLevel,
    arrivalCategory: string,
    startCategory: string,
    partyResults: Record<int>,
    integrity: WardIntegrity)

  /** A reported incident. */
  datatype Severity = SevLow | SevMedium | SevHigh | SevCritical
  datatype IncidentStatus = Reported | Investigating | Resolved
  datatype Incident = Incident(
    id: string,
    incidentType: string,
    severity: Severity,
    wardName: string,
    lgaId: string,
    lgaName: string,
    status: IncidentStatus)

  // Field selectors, so that list reductions can name the field they add up.
  function IdOf(l: LGASummary): string { l.id }
  function NameOf(l: LGASummary): string { l.name }
  function WardsOf(l: LGASummary): int { l.wards }
  function WardsReportedOf(l: LGASummary): int { l.wardsReported }
  function ComplianceOf(l: LGASummary): int { l.complianceScore }
  function IncidentCountOf(l: LGASummary): int { l.incidentCount }
  function DeniedAccessOf(l: LGASummary): int { l.deniedAccessCount }
  function LateStartsOf(l: LGASummary): int { l.lateStartCount }
  function RegisteredOf(l: LGASummary): int { l.registeredVoters }
  function VotesCastOf(l: LGASummary): int { l.votesCast }
  function CancelledOf(l: LGASummary): int { l.cancelledPUs }
  function LostVotersOf(l: LGASummary): int { l.lostVoters }
  function TurnoutOf(l: LGASummary): real { l.turnoutPercent }
  /** `lga.rejectedVotes || 0` */
  function RejectedOf(l: LGASummary): int { l.rejectedVotes }

  function HasReported(l: LGASummary): bool { l.wardsReported > 0 }

  /** `lga.incidentBreakdown[k] || 0` */
  function Breakdown(k: string): LGASummary -> int
  {
    (l: LGASummary) => GetOrZero(l.incidentBreakdown, k)
  }

  /** `lga.partyResults?.[k] || 0` */
  function Votes(k: string): LGASummary -> int
  {
    (l: LGASummary) => GetOrZero(l.partyResults, k)
  }

  // ------------------------------------------------------------------
  // getOverviewStats
  // ------------------------------------------------------------------

  datatype OverviewStats = OverviewStats(
    totalLGAs: nat,
    totalWards: int,
    wardsReported: int,
    lgasReported: nat,
    compliancePercent: real)

  /**
   * `getOverviewStats` over the fixed, non-empty LGA list: ward totals, the
   * number of LGAs with a reported ward and the mean compliance score.
   */
  function GetOverviewStats(data: seq<LGASummary>): (o: OverviewStats)
    requires data != []
    ensures o.totalLGAs == |data|
    ensures o.lgasReported <= o.totalLGAs
  {
    OverviewStats(
      |data|,
      Sum(data, WardsOf),
      Sum(data, WardsReportedOf),
      Count(data, HasReported),
      Sum(data, ComplianceOf) as real / |data| as real)
  }

  /** Every LGA's reported wards lie between 0 and its ward count. */
  predicate WardCountsValid(data: seq<LGASummary>)
  {
    forall i :: 0 <= i < |data| ==> 0 <= data[i].wardsReported <= data[i].wards
  }

  /** Every LGA's compliance score is a percentage. */
  predicate CompliancesValid(data: seq<LGASummary>)
  {
    forall i :: 0 <= i < |data| ==> 0 <= data[i].complianceScore <= 100
  }

  /**
   * With consistent ward counts the reported wards never exceed the wards, and
   * no LGA has reported exactly when no ward has.
   */
  lemma OverviewWards(data: seq<LGASummary>)
    requires data != [] && WardCountsValid(data)
    ensures 0 <= GetOverviewStats(data).wardsReported <= GetOverviewStats(data).totalWards
    ensures GetOverviewStats(data).lgasReported == 0 <==> GetOverviewStats(data).wardsReported == 0
  {
    SumLeq(data, WardsReportedOf, WardsOf);
    SumNonNegative(data, WardsReportedOf);
    SumZero(data, WardsReportedOf);
    CountZero(data, HasReported);
  }

  /** The mean compliance of percentages is a percentage. */
  lemma OverviewCompliance(data: seq<LGASummary>)
    requires data != [] && CompliancesValid(data)
    ensures 0.0 <= GetOverviewStats(data).compliancePercent <= 100.0
  {
    SumNonNegative(data, ComplianceOf);
    SumBounded(data, ComplianceOf, 100);
    RatioBound(Sum(data, ComplianceOf), |data|, 100);
  }

  /** `a / n` lies in `[0, bound]` when `a` lies in `[0, n * bound]`. */
  lemma RatioBound(a: int, n: int, bound: int)
    requires n > 0 && 0 <= a <= n * bound
    ensures 0.0 <= a as real / n as real <= bound as real
  {
    assert (n * bound) as real == n as real * bound as real;
  }

  // ------------------------------------------------------------------
  // getProcessIntegrityStats
  // ------------------------------------------------------------------

  datatype ProcessIntegrityStats = ProcessIntegrityStats(
    timelinessScore: real,
    accessScore: real,
    complianceScore: real,
    overallIntegrityScore: real,
    lateStartPercent: real,
    deniedAccessPercent: real)

  /**
   * `getProcessIntegrityStats`. The source does not guard a non-empty list
   * whose ward total is 0 (it would divide by zero), so such a list is
   * excluded by the precondition.
   */
  function GetProcessIntegrityStats(data: seq<LGASummary>): (p: ProcessIntegrityStats)
    requires data == [] || Sum(data, WardsOf) != 0
    ensures data == [] ==> p == ProcessIntegrityStats(0.0, 0.0, 0.0, 0.0, 0.0, 0.0)
    ensures p.overallIntegrityScore
         == 0.4 * p.complianceScore + 0.3 * p.timelinessScore + 0.3 * p.accessScore
  {
    if data == [] then ProcessIntegrityStats(0.0, 0.0, 0.0, 0.0, 0.0, 0.0)
    else
      var totalWards := Sum(data, WardsOf) as real;
      var lateStarts := Sum(data, LateStartsOf) as real;
      var deniedAccess := Sum(data, DeniedAccessOf) as real;
      var avgCompliance := Sum(data, ComplianceOf) as real / |data| as real;
      ProcessIntegrityStats(
        100.0 - (lateStarts / totalWards) * 100.0,
        100.0 - (deniedAccess / totalWards) * 100.0,
        avgCompliance,
        avgCompliance * 0.4 + (100.0 - (lateStarts / totalWards) * 100.0) * 0.3
          + (100.0 - (deniedAccess / totalWards) * 100.0) * 0.3,
        (lateStarts / totalWards) * 100.0,
        (deniedAccess / totalWards) * 100.0)
  }

  /** Late starts and denials are counted per ward, so neither exceeds the LGA's wards. */
  predicate WardFlagsValid(data: seq<LGASummary>)
  {
    forall i :: 0 <= i < |data| ==>
      0 <= data[i].lateStartCount <= data[i].wards && 0 <= data[i].deniedAccessCount <= data[i].wards
  }

  /** With consistent counts every integrity score is a percentage. */
  lemma ProcessIntegrityBounded(data: seq<LGASummary>)
    requires data != [] && Sum(data, WardsOf) != 0
    requires WardFlagsValid(data) && CompliancesValid(data)
    ensures var p := GetProcessIntegrityStats(data);
      0.0 <= p.timelinessScore <= 100.0 && 0.0 <= p.accessScore <= 100.0
      && 0.0 <= p.complianceScore <= 100.0 && 0.0 <= p.overallIntegrityScore <= 100.0
      && 0.0 <= p.lateStartPercent <= 100.0 && 0.0 <= p.deniedAccessPercent <= 100.0
  {
    SumLeq(data, LateStartsOf, WardsOf);
    SumLeq(data, DeniedAccessOf, WardsOf);
    SumNonNegative(data, LateStartsOf);
    SumNonNegative(data, DeniedAccessOf);
    var w := Sum(data, WardsOf);
    RatioBound(Sum(data, LateStartsOf), w, 1);
    RatioBound(Sum(data, DeniedAccessOf), w, 1);
    SumNonNegative(data, ComplianceOf);
    SumBounded(data, ComplianceOf, 100);
    RatioBound(Sum(data, ComplianceOf), |data|, 100);
  }

  // ------------------------------------------------------------------
  // getSecurityStats
  // ------------------------------------------------------------------

  datatype SecurityStats = SecurityStats(
    totalIncidents: int,
    intimidationCount: int,
    disruptionAttempts: int,
    disagreements: int,
    incidentsByLGA: Record<int>)

  /**
   * `getSecurityStats`: one pass over the LGAs adding up incident counts and
   * the three breakdown fields, and recording each LGA's incident count under
   * its id, so that a repeated id keeps the last LGA's count.
   */
  method GetSecurityStats(data: seq<LGASummary>) returns (s: SecurityStats)
    ensures s.totalIncidents == Sum(data, IncidentCountOf)
    ensures s.intimidationCount == Sum(data, Breakdown("intimidation"))
    ensures s.disruptionAttempts == Sum(data, Breakdown("disruption"))
    ensures s.disagreements == Sum(data, Breakdown("disagreement"))
    ensures s.incidentsByLGA == IndexBy(data, IdOf, IncidentCountOf)
    ensures data == [] ==> s == SecurityStats(0, 0, 0, 0, [])
  {
    if data == [] {
      return SecurityStats(0, 0, 0, 0, []);
    }
    var incidentsByLGA: Record<int> := [];
    var totalIncidents, intimidationCount, disruptionAttempts, disagreements := 0, 0, 0, 0;
    var i := 0;
    while i < |data|
      invariant 0 <= i <= |data|
      invariant incidentsByLGA == IndexBy(data[..i], IdOf, IncidentCountOf)
      invariant totalIncidents == Sum(data[..i], IncidentCountOf)
      invariant intimidationCount == Sum(data[..i], Breakdown("intimidation"))
      invariant disruptionAttempts == Sum(data[..i], Breakdown("disruption"))
      invariant disagreements == Sum(data[..i], Breakdown("disagreement"))
    {
      var lga := data[i];
      assert data[..i + 1][..i] == data[..i];
      incidentsByLGA := Put(incidentsByLGA, lga.id, lga.incidentCount);
      totalIncidents := totalIncidents + lga.incidentCount;
      intimidationCount := intimidationCount + GetOrZero(lga.incidentBreakdown, "intimidation");
      disruptionAttempts := disruptionAttempts + GetOrZero(lga.incidentBreakdown, "disruption");
      disagreements := disagreements + GetOrZero(lga.incidentBreakdown, "disagreement");
      i := i + 1;
    }
    assert data[..i] == data;
    s := SecurityStats(totalIncidents, intimidationCount, disruptionAttempts, disagreements, incidentsByLGA);
  }

  /**
   * `incidentsByLGA` has an entry for exactly the ids in the list, holding the
   * incident count of the last LGA with that id.
   */
  lemma IncidentsByLGAEntries(data: seq<LGASummary>, i: nat, k: string)
    requires i < |data| && forall j :: i < j < |data| ==> data[j].id != data[i].id
    requires forall j :: 0 <= j < |data| ==> data[j].id != k
    ensures Get(IndexBy(data, IdOf, IncidentCountOf), data[i].id) == Some(data[i].incidentCount)
    ensures Get(IndexBy(data, IdOf, IncidentCountOf), k) == None
  {
    IndexByLast(data, IdOf, IncidentCountOf, i);
    IndexByAbsent(data, IdOf, IncidentCountOf, k);
  }

  // ------------------------------------------------------------------
  // getResultsSummary
  // ------------------------------------------------------------------

  datatype ResultsSummary = ResultsSummary(
    partyTotals: Record<int>,
    leadingParty: string,
    marginOfVictory: int,
    totalValidVotes: int,
    totalRejectedVotes: int)

  /**
   * The twelve `partyTotals` keys in declaration order. Only six are ever
   * accumulated; the other six stay 0.
   */
  function PartyTotals(apc: int, lp: int, pdp: int, nnpp: int, apga: int, others: int): (t: Record<int>)
    ensures |t| == 12 && DistinctKeys(t)
    ensures SumValues(t) == apc + lp + pdp + nnpp + apga + others
  {
    var t := [Entry("apc", apc), Entry("lp", lp), Entry("pdp", pdp), Entry("nnpp", nnpp),
              Entry("apga", apga), Entry("sdp", 0), Entry("apm", 0), Entry("adc", 0),
              Entry("app", 0), Entry("ypp", 0), Entry("zlp", 0), Entry("others", others)];
    SumTwelve(t);
    t
  }

  lemma SumTwelve(t: Record<int>)
    requires |t| == 12
    ensures SumValues(t) == t[0].value + t[1].value + t[2].value + t[3].value + t[4].value
      + t[5].value + t[6].value + t[7].value + t[8].value + t[9].value + t[10].value + t[11].value
  {
    assert t[..0] == [];
    SumStep(t, ValueOf, 0);
    SumStep(t, ValueOf, 1);
    SumStep(t, ValueOf, 2);
    SumStep(t, ValueOf, 3);
    SumStep(t, ValueOf, 4);
    SumStep(t, ValueOf, 5);
    SumStep(t, ValueOf, 6);
    SumStep(t, ValueOf, 7);
    SumStep(t, ValueOf, 8);
    SumStep(t, ValueOf, 9);
    SumStep(t, ValueOf, 10);
    SumStep(t, ValueOf, 11);
    assert t[..12] == t;
  }

  function EntryVotes(e: Entry<int>): real { e.value as real }

  /** `toUpperCase` on ASCII letters. */
  function Upper(s: string): (u: string)
    ensures |u| == |s|
  {
    if s == [] then []
    else [if 'a' <= s[0] <= 'z' then (s[0] as int - 32) as char else s[0]] + Upper(s[1..])
  }

  /**
   * The leader and the runner-up of the totals: the first two entries after a
   * stable sort by non-increasing votes.
   */
  function Podium(t: Record<int>): (p: (Entry<int>, Entry<int>))
    requires |t| >= 2
  {
    var sorted := Sorting.SortDesc(t, EntryVotes);
    (sorted[0], sorted[1])
  }

  /**
   * The leader has the most votes and is the first such entry in declaration
   * order; the runner-up is some other entry and has the most votes among the
   * others, so the margin is the smallest gap from the leader to any other.
   */
  lemma PodiumSpec(t: Record<int>) returns (lead: nat, second: nat)
    requires |t| >= 2 && DistinctKeys(t)
    ensures lead < |t| && second < |t| && lead != second
    ensures t[lead] == Podium(t).0 && t[second] == Podium(t).1
    ensures forall j :: 0 <= j < |t| ==> t[j].value <= t[lead].value
    ensures forall j :: 0 <= j < lead ==> t[j].value < t[lead].value
    ensures forall j :: 0 <= j < |t| && j != lead ==> t[j].value <= t[second].value
  {
    var sorted := Sorting.SortDesc(t, EntryVotes);
    lead := Sorting.SortDescHeadFirst(t, EntryVotes);
    forall j | 0 <= j < lead ensures t[j].value < t[lead].value {
      assert EntryVotes(t[j]) < EntryVotes(t[lead]);
    }
    forall j | 0 <= j < |t| ensures t[j].value <= t[lead].value {
      assert EntryVotes(t[j]) <= EntryVotes(t[lead]);
    }
    Sorting.SortDescSorted(t, EntryVotes);
    Sorting.SortDescPermutation(t, EntryVotes);
    assert sorted[1] in multiset(t);
    second :| 0 <= second < |t| && t[second] == sorted[1];
    if second == lead {
      DistinctOnce(t, lead);
      assert false;
    }
    forall j | 0 <= j < |t| && j != lead ensures t[j].value <= t[second].value {
      NotLeadAtMostSecond(t, lead, j);
    }
  }

  /** An entry other than the leader sits at the runner-up's place or later. */
  lemma NotLeadAtMostSecond(t: Record<int>, lead: nat, j: nat)
    requires |t| >= 2 && DistinctKeys(t)
    requires lead < |t| && t[lead] == Sorting.SortDesc(t, EntryVotes)[0]
    requires j < |t| && j != lead
    ensures t[j].value <= Sorting.SortDesc(t, EntryVotes)[1].value
  {
    var sorted := Sorting.SortDesc(t, EntryVotes);
    assert t[j].key != t[lead].key;
    Sorting.SortDescSorted(t, EntryVotes);
    var m := Sorting.SortDescKeepsAt(t, EntryVotes, j);
    assert m != 0;
    assert EntryVotes(sorted[1]) >= EntryVotes(sorted[m]);
  }

  /** In a record with distinct keys every entry occurs once. */
  lemma {:induction false} DistinctOnce<V>(t: Record<V>, i: nat)
    requires i < |t| && DistinctKeys(t)
    ensures multiset(t)[t[i]] == 1
  {
    assert t == [t[0]] + t[1..];
    if i == 0 {
      assert t[0] !in t[1..];
    } else {
      DistinctOnce(t[1..], i - 1);
    }
  }

  /**
   * `getResultsSummary`: one pass adding the six accumulated parties and the
   * rejected votes, then the total over all twelve keys and the podium of the
   * stable descending sort; "None" and 0 for an empty list.
   */
  method GetResultsSummary(data: seq<LGASummary>) returns (r: ResultsSummary)
    ensures r.partyTotals == PartyTotals(Sum(data, Votes("apc")), Sum(data, Votes("lp")),
      Sum(data, Votes("pdp")), Sum(data, Votes("nnpp")), Sum(data, Votes("apga")),
      Sum(data, Votes("others")))
    ensures r.totalValidVotes == Sum(data, Votes("apc")) + Sum(data, Votes("lp"))
      + Sum(data, Votes("pdp")) + Sum(data, Votes("nnpp")) + Sum(data, Votes("apga"))
      + Sum(data, Votes("others"))
    ensures r.totalRejectedVotes == Sum(data, RejectedOf)
    ensures data == [] ==> r.leadingParty == "None" && r.marginOfVictory == 0
    ensures data != [] ==> r.leadingParty == Upper(Podium(r.partyTotals).0.key)
    ensures data != [] ==> r.marginOfVictory == Podium(r.partyTotals).0.value - Podium(r.partyTotals).1.value
  {
    if data == [] {
      return ResultsSummary(PartyTotals(0, 0, 0, 0, 0, 0), "None", 0, 0, 0);
    }
    var apc, lp, pdp, nnpp, apga, others, totalRejected := 0, 0, 0, 0, 0, 0, 0;
    var i := 0;
    while i < |data|
      invariant 0 <= i <= |data|
      invariant apc == Sum(data[..i], Votes("apc")) && lp == Sum(data[..i], Votes("lp"))
      invariant pdp == Sum(data[..i], Votes("pdp")) && nnpp == Sum(data[..i], Votes("nnpp"))
      invariant apga == Sum(data[..i], Votes("apga")) && others == Sum(data[..i], Votes("others"))
      invariant totalRejected == Sum(data[..i], RejectedOf)
    {
      var lga := data[i];
      assert data[..i + 1][..i] == data[..i];
      apc := apc + GetOrZero(lga.partyResults, "apc");
      lp := lp + GetOrZero(lga.partyResults, "lp");
      pdp := pdp + GetOrZero(lga.partyResults, "pdp");
      nnpp := nnpp + GetOrZero(lga.partyResults, "nnpp");
      apga := apga + GetOrZero(lga.partyResults, "apga");
      others := others + GetOrZero(lga.partyResults, "others");
      totalRejected := totalRejected + lga.rejectedVotes;
      i := i + 1;
    }
    assert data[..i] == data;
    var totals := PartyTotals(apc, lp, pdp, nnpp, apga, others);
    var totalValid := SumValues(totals);
    var sorted := Sorting.SortDesc(totals, EntryVotes);
    r := ResultsSummary(totals, Upper(sorted[0].key), sorted[0].value - sorted[1].value,
                        totalValid, totalRejected);
  }

  /**
   * The leading party is a party with the most votes, the earliest such in
   * declaration order, and the margin is its lead over the runner-up, never
   * negative.
   */
  lemma LeadingPartyAndMargin(t: Record<int>) returns (lead: nat)
    requires |t| >= 2 && DistinctKeys(t)
    ensures lead < |t| && Upper(Podium(t).0.key) == Upper(t[lead].key)
    ensures forall j :: 0 <= j < |t| ==> t[j].value <= t[lead].value
    ensures forall j :: 0 <= j < lead ==> t[j].value < t[lead].value
    ensures Podium(t).0.value - Podium(t).1.value >= 0
    ensures forall j :: 0 <= j < |t| && j != lead ==> t[lead].value - t[j].value >= Podium(t).0.value - Podium(t).1.value
    ensures exists j :: 0 <= j < |t| && j != lead && t[lead].value - t[j].value == Podium(t).0.value - Podium(t).1.value
  {
    var second;
    lead, second := PodiumSpec(t);
  }

  // ------------------------------------------------------------------
  // getTurnoutStats
  // ------------------------------------------------------------------

  datatype TurnoutStats = TurnoutStats(
    overallTurnout: real,
    cancelledPUs: int,
    lostVoters: int,
    turnoutByLGA: Record<real>)

  /**
   * `getTurnoutStats`. The source does not guard a non-empty list with no
   * registered voters (it would divide by zero), so the precondition excludes it.
   */
  function GetTurnoutStats(data: seq<LGASummary>): (t: TurnoutStats)
    requires data == [] || Sum(data, RegisteredOf) != 0
    ensures data == [] ==> t == TurnoutStats(0.0, 0, 0, [])
    ensures DistinctKeys(t.turnoutByLGA)
  {
    if data == [] then TurnoutStats(0.0, 0, 0, [])
    else
      IndexByDistinct(data, IdOf, TurnoutOf);
      TurnoutStats(
        (Sum(data, VotesCastOf) as real / Sum(data, RegisteredOf) as real) * 100.0,
        Sum(data, CancelledOf),
        Sum(data, LostVotersOf),
        IndexBy(data, IdOf, TurnoutOf))
  }

  /** `turnoutByLGA` holds, under each id, the turnout of the last LGA with that id. */
  lemma TurnoutByLGALast(data: seq<LGASummary>, i: nat)
    requires data == [] || Sum(data, RegisteredOf) != 0
    requires i < |data| && forall j :: i < j < |data| ==> data[j].id != data[i].id
    ensures Get(GetTurnoutStats(data).turnoutByLGA, data[i].id) == Some(data[i].turnoutPercent)
  {
    IndexByLast(data, IdOf, TurnoutOf, i);
  }

  /**
   * The cancelled polling units and lost voters are the totals over all LGAs:
   * with non-negative counts, no LGA's figure exceeds the total.
   */
  lemma TurnoutTotalsCoverEachLGA(data: seq<LGASummary>, i: nat)
    requires Sum(data, RegisteredOf) != 0
    requires i < |data|
    requires forall k :: 0 <= k < |data| ==> data[k].cancelledPUs >= 0 && data[k].lostVoters >= 0
    ensures 0 <= data[i].cancelledPUs <= GetTurnoutStats(data).cancelledPUs
    ensures 0 <= data[i].lostVoters <= GetTurnoutStats(data).lostVoters
  {
    TermWithinSum(data, CancelledOf, i);
    TermWithinSum(data, LostVotersOf, i);
  }

  /** When no LGA has more votes cast than registered voters, overall turnout is a percentage. */
  lemma OverallTurnoutBounded(data: seq<LGASummary>)
    requires data != [] && Sum(data, RegisteredOf) != 0
    requires forall i :: 0 <= i < |data| ==> 0 <= data[i].votesCast <= data[i].registeredVoters
    ensures 0.0 <= GetTurnoutStats(data).overallTurnout <= 100.0
  {
    SumLeq(data, VotesCastOf, RegisteredOf);
    SumNonNegative(data, VotesCastOf);
    RatioBound(Sum(data, VotesCastOf), Sum(data, RegisteredOf), 1);
  }

  // ------------------------------------------------------------------
  // getRedFlagSummary
  // ------------------------------------------------------------------

  datatype RedFlagSummary = RedFlagSummary(
    noObserverAccess: int,
    noCountersignatures: int,
    lateStarts: int,
    integrityViolations: int,
    flaggedLocations: seq<string>)

  /** A reporting LGA at high or critical risk. */
  function IsFlagged(l: LGASummary): bool
  {
    l.wardsReported > 0 && (l.riskLevel == ET.High || l.riskLevel == ET.Critical)
  }

  /** `floor((100 - c) / 10)` for a reporting LGA with compliance below 70, else nothing. */
  function ViolationPoints(l: LGASummary): int
  {
    if l.wardsReported > 0 && l.complianceScore < 70 then (100 - l.complianceScore) / 10 else 0
  }

  /** `floor(wards * (1 - c / 100) * 0.3)` for a reporting LGA, else nothing. */
  function CountersignShortfall(l: LGASummary): int
  {
    if l.wardsReported > 0
    then (l.wards as real * (1.0 - l.complianceScore as real / 100.0) * 0.3).Floor
    else 0
  }

  /**
   * `getRedFlagSummary`: observer denials and late starts over every LGA; the
   * integrity and countersignature shortfalls and the flagged names over the
   * LGAs with a reported ward, accumulated in one pass.
   */
  method GetRedFlagSummary(data: seq<LGASummary>) returns (r: RedFlagSummary)
    ensures r.noObserverAccess == Sum(data, DeniedAccessOf)
    ensures r.lateStarts == Sum(data, LateStartsOf)
    ensures r.integrityViolations == Sum(data, ViolationPoints)
    ensures r.noCountersignatures == Sum(data, CountersignShortfall)
    ensures r.flaggedLocations == Map(Filter(data, IsFlagged), NameOf)
  {
    if data == [] {
      return RedFlagSummary(0, 0, 0, 0, []);
    }
    var integrityViolations, noCountersignatures := 0, 0;
    var flaggedLocations: seq<string> := [];
    var i := 0;
    while i < |data|
      invariant 0 <= i <= |data|
      invariant integrityViolations == Sum(data[..i], ViolationPoints)
      invariant noCountersignatures == Sum(data[..i], CountersignShortfall)
      invariant flaggedLocations == Map(Filter(data[..i], IsFlagged), NameOf)
    {
      var lga := data[i];
      SumStep(data, ViolationPoints, i);
      SumStep(data, CountersignShortfall, i);
      MapFilterStep(data, IsFlagged, NameOf, i);
      if lga.wardsReported > 0 {
        if lga.riskLevel == ET.High || lga.riskLevel == ET.Critical {
          flaggedLocations := flaggedLocations + [lga.name];
        }
        if lga.complianceScore < 70 {
          integrityViolations := integrityViolations + (100 - lga.complianceScore) / 10;
        }
        noCountersignatures := noCountersignatures
          + (lga.wards as real * (1.0 - lga.complianceScore as real / 100.0) * 0.3).Floor;
      }
      i := i + 1;
    }
    assert data[..i] == data;
    r := RedFlagSummary(Sum(data, DeniedAccessOf), noCountersignatures, Sum(data, LateStartsOf),
                        integrityViolations, flaggedLocations);
  }

  /**
   * The flagged names are, in input order, the names of the reporting LGAs at
   * high or critical risk: each of them, and nothing else.
   */
  lemma FlaggedLocationsSpec(data: seq<LGASummary>)
    ensures SubsequenceOf(Map(Filter(data, IsFlagged), NameOf), Map(data, NameOf))
    ensures forall i :: 0 <= i < |data| && IsFlagged(data[i]) ==> data[i].name in Map(Filter(data, IsFlagged), NameOf)
    ensures forall n :: n in Map(Filter(data, IsFlagged), NameOf) ==>
      exists i :: 0 <= i < |data| && IsFlagged(data[i]) && data[i].name == n
  {
    MapFilterSubsequence(data, IsFlagged, NameOf);
    forall i | 0 <= i < |data| && IsFlagged(data[i])
      ensures data[i].name in Map(Filter(data, IsFlagged), NameOf)
    {
      MapFilterKeeps(data, IsFlagged, NameOf, i);
    }
    forall n | n in Map(Filter(data, IsFlagged), NameOf)
      ensures exists i :: 0 <= i < |data| && IsFlagged(data[i]) && data[i].name == n
    {
      var i := MapFilterOnly(data, IsFlagged, NameOf, n);
    }
  }

  /**
   * With no ward reported anywhere the integrity, countersignature and
   * flagged-location figures are all empty, while observer denials and late
   * starts are still added up over every LGA.
   */
  lemma RedFlagsNeedReports(data: seq<LGASummary>)
    requires forall i :: 0 <= i < |data| ==> data[i].wardsReported <= 0
    ensures Sum(data, ViolationPoints) == 0 && Sum(data, CountersignShortfall) == 0
    ensures Map(Filter(data, IsFlagged), NameOf) == []
  {
    SumZero(data, ViolationPoints);
    SumZero(data, CountersignShortfall);
    CountZero(data, IsFlagged);
  }

  /** With compliance scores in 0..100 each violating LGA adds 3 to 10 points. */
  lemma IntegrityViolationsBounded(data: seq<LGASummary>)
    requires CompliancesValid(data)
    ensures 0 <= Sum(data, ViolationPoints) <= 10 * |data|
  {
    SumNonNegative(data, ViolationPoints);
    SumBounded(data, ViolationPoints, 10);
  }
}
