/**
 * The backend's read handlers, with the database queries replaced by their
 * rows: the ward-to-area-council roll-up of `GetAreaCouncils`, the ward views
 * of `GetWards` / `GetWardDetails`, and the polling-unit breakdown of
 * `GetDashboardStats`.
 */
module Handlers {
  import opened Common
  import opened Records
  import M = MockElectionData
  import ET = ElectionTypes

  /**
   * A row of `ward_results`. The Go zero value (all 0, "" and false) is what a
   * handler keeps when the ward has no row.
   */
  datatype WardResult = WardResult(
    accreditedVoters: int,
    validVotes: int,
    rejectedVotes: int,
    votesCast: int,
    arrivalTime: string,
    collationStartTime: string,
    securityPresent: bool,
    ec8bSubmitted: bool,
    ec8cCollated: bool,
    csrvsDone: bool,
    votesAnnounced: bool,
    agentsCountersigned: bool,
    ec60eDisplayed: bool)

  const ZeroResult := WardResult(0, 0, 0, 0, "", "", false, false, false, false, false, false, false)

  /**
   * What the roll-up reads for one ward: its registered voters and polling
   * units, its result row if there is one, its incident rows `(type, count)`
   * grouped by type, and its party rows `(party, score)`.
   */
  datatype WardRow = WardRow(
    id: string,
    registeredVoters: int,
    pollingUnits: int,
    result: Option<WardResult>,
    incidents: seq<Entry<int>>,
    parties: seq<Entry<int>>)

  /** An area council with the rows of its wards. */
  datatype Council = Council(id: string, name: string, wards: seq<WardRow>)

  /** The late-start rule shared by all three handlers. */
  function IsLateStart(collationStartTime: string): bool
  {
    collationStartTime == "not_started" || collationStartTime == "9_12am"
  }

  /** A ward's compliance: 30 for EC8B, 30 for EC8C, 40 for the CSRVS cross-check. */
  function WardCompliance(res: WardResult): (c: int)
    ensures c == 0 || c == 30 || c == 40 || c == 60 || c == 70 || c == 100
    ensures c == 100 <==> res.ec8bSubmitted && res.ec8cCollated && res.csrvsDone
    ensures c == 0 <==> !res.ec8bSubmitted && !res.ec8cCollated && !res.csrvsDone
  {
    (if res.ec8bSubmitted then 30 else 0)
    + (if res.ec8cCollated then 30 else 0)
    + (if res.csrvsDone then 40 else 0)
  }

  /** The risk level from an incident count: high above 10, medium above 5, else low. */
  function RiskFromIncidents(n: int): (l: ET.RiskLevel)
    ensures l == ET.Low || l == ET.Medium || l == ET.High
  {
    if n > 10 then ET.High else if n > 5 then ET.Medium else ET.Low
  }

  /** More incidents never give a lower risk level. */
  lemma RiskFromIncidentsMonotone(a: int, b: int)
    requires a <= b
    ensures ET.Rank(RiskFromIncidents(a)) <= ET.Rank(RiskFromIncidents(b))
  {
  }

  /** Turnout in percent, 0 when there are no registered voters. */
  function Turnout(votesCast: int, registered: int): (t: real)
    ensures registered <= 0 || votesCast == 0 ==> t == 0.0
    ensures 0 <= votesCast <= registered ==> 0.0 <= t <= 100.0
  {
    if registered > 0 then (votesCast as real / registered as real) * 100.0 else 0.0
  }

  // Per-ward contributions to the roll-up; a ward without a result row
  // contributes only its registered voters, polling units, incidents and parties.
  function IsReported(w: WardRow): bool { w.result.Some? }
  function RegisteredOf(w: WardRow): int { w.registeredVoters }
  function PollingUnitsOf(w: WardRow): int { w.pollingUnits }
  function AccreditedOf(w: WardRow): int { if w.result.Some? then w.result.value.accreditedVoters else 0 }
  function CastOf(w: WardRow): int { if w.result.Some? then w.result.value.votesCast else 0 }
  function ValidOf(w: WardRow): int { if w.result.Some? then w.result.value.validVotes else 0 }
  function RejectedOf(w: WardRow): int { if w.result.Some? then w.result.value.rejectedVotes else 0 }
  function ComplianceOf(w: WardRow): int { if w.result.Some? then WardCompliance(w.result.value) else 0 }
  function SecurityCounted(w: WardRow): bool { w.result.Some? && w.result.value.securityPresent }
  function LateCounted(w: WardRow): bool { w.result.Some? && IsLateStart(w.result.value.collationStartTime) }
  function IncidentTotal(w: WardRow): int { Sum(w.incidents, ValueOf) }

  /** A ward's score for party `p`, summed over its party rows. */
  function PartyScore(p: string): WardRow -> int
  {
    (w: WardRow) => Sum(w.parties, AmountFor(p))
  }

  /** `IncidentBreakdown[type] += count` over every incident row of every ward. */
  function BreakdownOf(ws: seq<WardRow>): Record<int>
  {
    if ws == [] then [] else AddAll(BreakdownOf(ws[..|ws| - 1]), ws[|ws| - 1].incidents)
  }

  /** `PartyResults[party] += score` over every party row of every ward. */
  function PartyResultsOf(ws: seq<WardRow>): Record<int>
  {
    if ws == [] then [] else AddAll(PartyResultsOf(ws[..|ws| - 1]), ws[|ws| - 1].parties)
  }

  /** Go's integer mean `total / n`, left at 0 when there is nothing to divide by. */
  function Mean(total: int, n: int): int
  {
    if n > 0 then total / n else 0
  }

  /**
   * The summary `GetAreaCouncils` builds for one area council from its wards.
   * The mean compliance is Go integer division over the reported wards, and
   * the security percentage is taken over all wards.
   */
  function RollUp(id: string, name: string, ws: seq<WardRow>): M.LGASummary
  {
    var wards := |ws|;
    var reported := Count(ws, IsReported);
    var incidents := Sum(ws, IncidentTotal);
    M.LGASummary(
      id, name, wards,
      Sum(ws, PollingUnitsOf),
      Sum(ws, RegisteredOf),
      Sum(ws, AccreditedOf),
      Sum(ws, CastOf),
      Sum(ws, ValidOf),
      Sum(ws, RejectedOf),
      Turnout(Sum(ws, CastOf), Sum(ws, RegisteredOf)),
      reported,
      if wards > 0 then Mean(Sum(ws, ComplianceOf), reported) else 0,
      incidents,
      BreakdownOf(ws),
      0,
      Count(ws, LateCounted),
      0,
      0,
      Mean(Count(ws, SecurityCounted) * 100, wards),
      0,
      RiskFromIncidents(incidents),
      PartyResultsOf(ws))
  }

  /** One inner row loop: `m[k] += n` for each row, also adding up the amounts. */
  method AccumulateRows(m: Record<int>, rows: seq<Entry<int>>) returns (m': Record<int>, added: int)
    ensures m' == AddAll(m, rows)
    ensures added == Sum(rows, ValueOf)
  {
    m' := m;
    added := 0;
    var j := 0;
    while j < |rows|
      invariant 0 <= j <= |rows|
      invariant m' == AddAll(m, rows[..j])
      invariant added == Sum(rows[..j], ValueOf)
    {
      assert rows[..j + 1][..j] == rows[..j];
      m' := Add(m', rows[j].key, rows[j].value);
      added := added + rows[j].value;
      j := j + 1;
    }
    assert rows[..j] == rows;
  }

  /** The step-by-step compliance of one ward's result row. */
  method ComputeWardCompliance(res: WardResult) returns (wardCompliance: int)
    ensures wardCompliance == WardCompliance(res)
  {
    wardCompliance := 0;
    if res.ec8bSubmitted {
      wardCompliance := wardCompliance + 30;
    }
    if res.ec8cCollated {
      wardCompliance := wardCompliance + 30;
    }
    if res.csrvsDone {
      wardCompliance := wardCompliance + 40;
    }
  }

  /** How each roll-up figure of the first `i + 1` wards extends that of the first `i`. */
  lemma RollUpStep(ws: seq<WardRow>, i: nat)
    requires i < |ws|
    ensures Sum(ws[..i + 1], PollingUnitsOf) == Sum(ws[..i], PollingUnitsOf) + ws[i].pollingUnits
    ensures Sum(ws[..i + 1], RegisteredOf) == Sum(ws[..i], RegisteredOf) + ws[i].registeredVoters
    ensures Sum(ws[..i + 1], AccreditedOf) == Sum(ws[..i], AccreditedOf) + AccreditedOf(ws[i])
    ensures Sum(ws[..i + 1], CastOf) == Sum(ws[..i], CastOf) + CastOf(ws[i])
    ensures Sum(ws[..i + 1], ValidOf) == Sum(ws[..i], ValidOf) + ValidOf(ws[i])
    ensures Sum(ws[..i + 1], RejectedOf) == Sum(ws[..i], RejectedOf) + RejectedOf(ws[i])
    ensures Sum(ws[..i + 1], ComplianceOf) == Sum(ws[..i], ComplianceOf) + ComplianceOf(ws[i])
    ensures Sum(ws[..i + 1], IncidentTotal) == Sum(ws[..i], IncidentTotal) + IncidentTotal(ws[i])
    ensures Count(ws[..i + 1], IsReported) == Count(ws[..i], IsReported) + (if IsReported(ws[i]) then 1 else 0)
    ensures Count(ws[..i + 1], SecurityCounted) == Count(ws[..i], SecurityCounted) + (if SecurityCounted(ws[i]) then 1 else 0)
    ensures Count(ws[..i + 1], LateCounted) == Count(ws[..i], LateCounted) + (if LateCounted(ws[i]) then 1 else 0)
    ensures BreakdownOf(ws[..i + 1]) == AddAll(BreakdownOf(ws[..i]), ws[i].incidents)
    ensures PartyResultsOf(ws[..i + 1]) == AddAll(PartyResultsOf(ws[..i]), ws[i].parties)
  {
    assert ws[..i + 1][..i] == ws[..i];
    CountStep(ws, IsReported, i);
    CountStep(ws, SecurityCounted, i);
    CountStep(ws, LateCounted, i);
  }

  /** The ward loop of `GetAreaCouncils` for one area council. */
  method AggregateAreaCouncil(id: string, name: string, ws: seq<WardRow>) returns (s: M.LGASummary)
    ensures s == RollUp(id, name, ws)
  {
    var wards, pollingUnits, registered, reported := 0, 0, 0, 0;
    var accredited, cast, valid, rejected := 0, 0, 0, 0;
    var totalCompliance, securityCount, lateStarts, incidentCount := 0, 0, 0, 0;
    var breakdown: Record<int> := [];
    var partyResults: Record<int> := [];
    var i := 0;
    while i < |ws|
      invariant 0 <= i <= |ws| && wards == i
      invariant pollingUnits == Sum(ws[..i], PollingUnitsOf) && registered == Sum(ws[..i], RegisteredOf)
      invariant reported == Count(ws[..i], IsReported)
      invariant accredited == Sum(ws[..i], AccreditedOf) && cast == Sum(ws[..i], CastOf)
      invariant valid == Sum(ws[..i], ValidOf) && rejected == Sum(ws[..i], RejectedOf)
      invariant totalCompliance == Sum(ws[..i], ComplianceOf)
      invariant securityCount == Count(ws[..i], SecurityCounted)
      invariant lateStarts == Count(ws[..i], LateCounted)
      invariant incidentCount == Sum(ws[..i], IncidentTotal)
      invariant breakdown == BreakdownOf(ws[..i])
      invariant partyResults == PartyResultsOf(ws[..i])
    {
      var w := ws[i];
      RollUpStep(ws, i);
      wards := wards + 1;
      registered := registered + w.registeredVoters;
      pollingUnits := pollingUnits + w.pollingUnits;
      if w.result.Some? {
        var res := w.result.value;
        reported := reported + 1;
        accredited := accredited + res.accreditedVoters;
        cast := cast + res.votesCast;
        valid := valid + res.validVotes;
        rejected := rejected + res.rejectedVotes;
        if res.securityPresent {
          securityCount := securityCount + 1;
        }
        var wardCompliance := ComputeWardCompliance(res);
        totalCompliance := totalCompliance + wardCompliance;
        if res.collationStartTime == "not_started" || res.collationStartTime == "9_12am" {
          lateStarts := lateStarts + 1;
        }
      }
      var added;
      breakdown, added := AccumulateRows(breakdown, w.incidents);
      incidentCount := incidentCount + added;
      var scored;
      partyResults, scored := AccumulateRows(partyResults, w.parties);
      i := i + 1;
    }
    assert ws[..i] == ws;
    s := Summarize(id, name, wards, pollingUnits, registered, accredited, cast, valid, rejected,
                   reported, totalCompliance, incidentCount, breakdown, lateStarts, securityCount, partyResults);
  }

  /** What follows the ward loop: the guarded means, the turnout and the risk level. */
  method Summarize(id: string, name: string, wards: int, pollingUnits: int, registered: int,
                   accredited: int, cast: int, valid: int, rejected: int, reported: int,
                   totalCompliance: int, incidentCount: int, breakdown: Record<int>, lateStarts: int,
                   securityCount: int, partyResults: Record<int>) returns (s: M.LGASummary)
    ensures s == M.LGASummary(id, name, wards, pollingUnits, registered, accredited, cast, valid, rejected,
      Turnout(cast, registered), reported, if wards > 0 then Mean(totalCompliance, reported) else 0,
      incidentCount, breakdown, 0, lateStarts, 0, 0, Mean(securityCount * 100, wards), 0,
      RiskFromIncidents(incidentCount), partyResults)
  {
    var securityPresent, complianceScore := 0, 0;
    if wards > 0 {
      securityPresent := securityCount * 100 / wards;
      if reported > 0 {
        complianceScore := totalCompliance / reported;
      }
    }
    var turnout := 0.0;
    if registered > 0 {
      turnout := (cast as real / registered as real) * 100.0;
    }
    var risk := ET.Low;
    if incidentCount > 10 {
      risk := ET.High;
    } else if incidentCount > 5 {
      risk := ET.Medium;
    }
    s := M.LGASummary(id, name, wards, pollingUnits, registered, accredited, cast, valid, rejected,
                      turnout, reported, complianceScore, incidentCount, breakdown, 0, lateStarts,
                      0, 0, securityPresent, 0, risk, partyResults);
  }

  /** `GetAreaCouncils`: one summary per area council, in query order. */
  method GetAreaCouncils(councils: seq<Council>) returns (summaries: seq<M.LGASummary>)
    ensures |summaries| == |councils|
    ensures forall i :: 0 <= i < |councils| ==>
      summaries[i] == RollUp(councils[i].id, councils[i].name, councils[i].wards)
  {
    summaries := [];
    var i := 0;
    while i < |councils|
      invariant 0 <= i <= |councils| && |summaries| == i
      invariant forall k :: 0 <= k < i ==>
        summaries[k] == RollUp(councils[k].id, councils[k].name, councils[k].wards)
    {
      var summary := AggregateAreaCouncil(councils[i].id, councils[i].name, councils[i].wards);
      summaries := summaries + [summary];
      i := i + 1;
    }
  }

  /** The compliance points of the reported wards are at most 100 each. */
  lemma {:induction false} CompliancePointsBound(ws: seq<WardRow>)
    ensures 0 <= Sum(ws, ComplianceOf) <= 100 * Count(ws, IsReported)
  {
    if ws != [] {
      var n := |ws| - 1;
      CompliancePointsBound(ws[..n]);
      CountStep(ws, IsReported, n);
      assert ws[..n + 1] == ws;
    }
  }

  /**
   * In a roll-up, reported wards never exceed wards, late starts never exceed
   * reported wards, and the compliance and security figures are percentages,
   * with compliance 0 when no ward has reported.
   */
  lemma RollUpBounds(id: string, name: string, ws: seq<WardRow>)
    ensures var s := RollUp(id, name, ws);
      0 <= s.lateStartCount <= s.wardsReported <= s.wards
      && 0 <= s.complianceScore <= 100 && 0 <= s.securityPresent <= 100
      && (s.wardsReported == 0 ==> s.complianceScore == 0)
  {
    CountImplies(ws, LateCounted, IsReported);
    CountImplies(ws, SecurityCounted, IsReported);
    CompliancePointsBound(ws);
    MeanBound(Sum(ws, ComplianceOf), Count(ws, IsReported), 100);
    MeanBound(Count(ws, SecurityCounted) * 100, |ws|, 100);
  }

  /** A mean of a total that is at most `bound` per item is at most `bound`. */
  lemma MeanBound(total: int, n: int, bound: int)
    requires 0 <= bound && 0 <= total <= n * bound
    ensures 0 <= Mean(total, n) <= bound
  {
  }

  /** The incident count equals the total of the incident breakdown, whose types are distinct. */
  lemma {:induction false} RollUpIncidents(ws: seq<WardRow>)
    ensures DistinctKeys(BreakdownOf(ws))
    ensures SumValues(BreakdownOf(ws)) == Sum(ws, IncidentTotal)
  {
    if ws != [] {
      var n := |ws| - 1;
      RollUpIncidents(ws[..n]);
      AddAllSum(BreakdownOf(ws[..n]), ws[n].incidents);
    }
  }

  /** Each party's result is the sum of its scores over all wards. */
  lemma {:induction false} RollUpParties(ws: seq<WardRow>, p: string)
    ensures GetOrZero(PartyResultsOf(ws), p) == Sum(ws, PartyScore(p))
  {
    if ws != [] {
      var n := |ws| - 1;
      RollUpParties(ws[..n], p);
      AddAllGet(PartyResultsOf(ws[..n]), ws[n].parties, p);
    }
  }

  /**
   * Only reported wards feed the vote figures: with no result row anywhere the
   * accredited, cast, valid and rejected totals, late starts, compliance and
   * turnout are all 0, while registered voters and polling units still add up.
   */
  lemma RollUpUnreported(id: string, name: string, ws: seq<WardRow>)
    requires forall i :: 0 <= i < |ws| ==> ws[i].result.None?
    ensures RollUp(id, name, ws).accreditedVoters == 0 && RollUp(id, name, ws).votesCast == 0
    ensures RollUp(id, name, ws).validVotes == 0 && RollUp(id, name, ws).rejectedVotes == 0
    ensures RollUp(id, name, ws).wardsReported == 0 && RollUp(id, name, ws).lateStartCount == 0
    ensures RollUp(id, name, ws).complianceScore == 0 && RollUp(id, name, ws).turnoutPercent == 0.0
    ensures RollUp(id, name, ws).registeredVoters == Sum(ws, RegisteredOf)
  {
    UnreportedZero(ws);
    var s := RollUp(id, name, ws);
    assert s.accreditedVoters == Sum(ws, AccreditedOf) && s.votesCast == Sum(ws, CastOf);
    assert s.validVotes == Sum(ws, ValidOf) && s.rejectedVotes == Sum(ws, RejectedOf);
    assert s.wardsReported == Count(ws, IsReported) && s.lateStartCount == Count(ws, LateCounted);
    assert s.turnoutPercent == Turnout(0, Sum(ws, RegisteredOf));
  }

  lemma UnreportedZero(ws: seq<WardRow>)
    requires forall i :: 0 <= i < |ws| ==> ws[i].result.None?
    ensures Sum(ws, AccreditedOf) == 0 && Sum(ws, CastOf) == 0
    ensures Sum(ws, ValidOf) == 0 && Sum(ws, RejectedOf) == 0
    ensures Count(ws, IsReported) == 0 && Count(ws, LateCounted) == 0
  {
    SumZero(ws, AccreditedOf);
    SumZero(ws, CastOf);
    SumZero(ws, ValidOf);
    SumZero(ws, RejectedOf);
    CountZero(ws, IsReported);
    CountZero(ws, LateCounted);
  }

  // ------------------------------------------------------------------
  // GetWards / GetWardDetails
  // ------------------------------------------------------------------

  /** A row of `wards`. */
  datatype Ward = Ward(id: string, areaCouncilId: string, name: string, totalPollingUnits: int, registeredVoters: int)

  /** What the ward views read for one ward. */
  datatype WardInput = WardInput(ward: Ward, result: Option<WardResult>, partyRows: seq<Entry<int>>, incidentCount: int)

  /**
   * The ward view built by `GetWards` and `GetWardDetails`: the result row's
   * figures (zero values when there is none), a fixed compliance score of 75,
   * the shared late-start rule, each party's score from its last row, and
   * turnout 0 when the ward has no registered voters.
   */
  function WardDetail(input: WardInput): (d: M.WardSummary)
    ensures d.complianceScore == 75 && d.riskLevel == ET.Low && d.cancelledPUs == 0
    ensures !d.deniedAccess && d.observerPresent
    ensures input.result.None? ==>
      d.accreditedVoters == 0 && d.votesCast == 0 && d.validVotes == 0 && d.rejectedVotes == 0
      && !d.lateStart && !d.securityPresent && d.turnoutPercent == 0.0
    ensures input.ward.registeredVoters <= 0 ==> d.turnoutPercent == 0.0
    ensures DistinctKeys(d.partyResults)
  {
    var w := input.ward;
    var res := if input.result.Some? then input.result.value else ZeroResult;
    IndexByDistinct(input.partyRows, KeyOf, ValueOf);
    M.WardSummary(
      w.id, w.areaCouncilId, w.name, w.totalPollingUnits, w.registeredVoters,
      res.accreditedVoters, res.votesCast, res.validVotes, res.rejectedVotes,
      Turnout(res.votesCast, w.registeredVoters),
      75, input.incidentCount, false, IsLateStart(res.collationStartTime), 0,
      res.securityPresent, true, ET.Low, res.arrivalTime, res.collationStartTime,
      IndexBy(input.partyRows, KeyOf, ValueOf),
      M.WardIntegrity(res.ec8bSubmitted, res.ec8cCollated, res.csrvsDone,
                      res.votesAnnounced, res.agentsCountersigned, res.ec60eDisplayed))
  }

  /** `partyScores[name] = score`: a party listed twice keeps its last score. */
  lemma WardDetailPartyLast(input: WardInput, i: nat)
    requires i < |input.partyRows|
    requires forall j :: i < j < |input.partyRows| ==> input.partyRows[j].key != input.partyRows[i].key
    ensures Get(WardDetail(input).partyResults, input.partyRows[i].key) == Some(input.partyRows[i].value)
  {
    IndexByLast(input.partyRows, KeyOf, ValueOf, i);
  }

  /**
   * The ward view and the area-council roll-up apply the same late-start rule
   * to a ward that has a result row.
   */
  lemma LateStartAgrees(input: WardInput, row: WardRow)
    requires input.result.Some? && input.result == row.result
    ensures WardDetail(input).lateStart == LateCounted(row)
  {
  }

  /** `GetWards`: one ward view per ward row, in query order. */
  method GetWards(inputs: seq<WardInput>) returns (wards: seq<M.WardSummary>)
    ensures wards == Map(inputs, WardDetail)
  {
    wards := [];
    var i := 0;
    while i < |inputs|
      invariant 0 <= i <= |inputs|
      invariant wards == Map(inputs[..i], WardDetail)
    {
      MapStep(inputs, WardDetail, i);
      wards := wards + [WardDetail(inputs[i])];
      i := i + 1;
    }
    assert inputs[..i] == inputs;
  }

  /** `GetWardDetails`: "Ward not found" when the ward row is missing, else the same view as `GetWards`. */
  function GetWardDetails(ward: Option<Ward>, result: Option<WardResult>, partyRows: seq<Entry<int>>,
                          incidentCount: int): (r: Result<M.WardSummary, string>)
    ensures ward.None? <==> r.Err?
    ensures ward.None? ==> r.error == "Ward not found"
    ensures ward.Some? ==> r.value.id == ward.value.id && r.value.lgaId == ward.value.areaCouncilId
  {
    if ward.None? then Err("Ward not found")
    else Ok(WardDetail(WardInput(ward.value, result, partyRows, incidentCount)))
  }

  /** A found ward's details are exactly its entry in the `GetWards` list. */
  lemma WardDetailsAgree(inputs: seq<WardInput>, i: nat)
    requires i < |inputs|
    ensures var x := inputs[i];
      GetWardDetails(Some(x.ward), x.result, x.partyRows, x.incidentCount) == Ok(Map(inputs, WardDetail)[i])
  {
  }

  // ------------------------------------------------------------------
  // GetDashboardStats
  // ------------------------------------------------------------------

  datatype Breakdown = Breakdown(operational: int, minorIssues: int, offline: int, notOpened: int)

  datatype DashboardStats = DashboardStats(
    totalLGAs: int,
    totalWards: int,
    wardsReported: int,
    lgasReported: int,
    compliancePercent: real,
    totalPollingUnits: int,
    openPollingUnits: int,
    breakdown: Breakdown)

  /**
   * `GetDashboardStats`, given the counts its queries return: polling units in
   * reported wards are open, those also carrying an incident have minor
   * issues, the rest of the open ones are operational (never below 0), and the
   * units of unreported wards are offline. Compliance is the share of reports
   * with both EC8B and EC8C, 0 when nothing has been reported.
   */
  method GetDashboardStats(totalLGAs: int, totalWards: int, wardsReported: int, totalPollingUnits: int,
                           openPollingUnits: int, unitsWithIssues: int, lgasReported: int,
                           compliantReports: int) returns (stats: DashboardStats)
    ensures stats.totalLGAs == totalLGAs && stats.totalWards == totalWards
    ensures stats.wardsReported == wardsReported && stats.lgasReported == lgasReported
    ensures stats.totalPollingUnits == totalPollingUnits && stats.openPollingUnits == openPollingUnits
    ensures stats.breakdown.offline == totalPollingUnits - openPollingUnits
    ensures stats.breakdown.operational >= 0 && stats.breakdown.notOpened == 0
    ensures stats.breakdown.minorIssues == unitsWithIssues
    ensures stats.breakdown.operational == Max(0, openPollingUnits - unitsWithIssues)
    ensures stats.breakdown.offline + stats.openPollingUnits == stats.totalPollingUnits
    ensures 0 <= unitsWithIssues <= openPollingUnits ==>
      stats.breakdown.operational + stats.breakdown.minorIssues + stats.breakdown.offline
      + stats.breakdown.notOpened == stats.totalPollingUnits
    ensures wardsReported <= 0 ==> stats.compliancePercent == 0.0
    ensures wardsReported > 0 ==>
      stats.compliancePercent == compliantReports as real / wardsReported as real * 100.0
    ensures 0 <= compliantReports <= wardsReported ==> 0.0 <= stats.compliancePercent <= 100.0
  {
    var operational := openPollingUnits - unitsWithIssues;
    if operational < 0 {
      operational := 0;
    }
    var offline := totalPollingUnits - openPollingUnits;
    var compliancePercent := 0.0;
    if wardsReported > 0 {
      compliancePercent := (compliantReports as real / wardsReported as real) * 100.0;
    }
    stats := DashboardStats(totalLGAs, totalWards, wardsReported, lgasReported, compliancePercent,
                            totalPollingUnits, openPollingUnits,
                            Breakdown(operational, unitsWithIssues, offline, 0));
  }
}
