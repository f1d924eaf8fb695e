/**
 * The quick-filter buttons above the map, each with a badge computed from the
 * static list of area councils: all areas, high risk, low turnout, active
 * incidents and open units.
 */
module QuickFilters {
  import opened Common
  import ET = ElectionTypes

  /** The five quick filters. */
  datatype FilterType = All | HighRisk | LowTurnout | Incidents | Open

  /** The fields of a static area-council entry the badges read. */
  datatype AreaCouncil = AreaCouncil(
    id: string, name: string, turnoutPercent: real, incidentCount: int, openUnits: int,
    riskLevel: ET.RiskLevel)

  /** The turnout below which an area council counts as low turnout. */
  const LowTurnoutBelow: real := 52.0

  predicate IsHighRisk(r: ET.RiskLevel)
  {
    r == ET.High || r == ET.Critical
  }

  function HighRiskCouncil(c: AreaCouncil): bool { IsHighRisk(c.riskLevel) }
  function LowTurnoutCouncil(c: AreaCouncil): bool { c.turnoutPercent < LowTurnoutBelow }
  function HasIncidents(c: AreaCouncil): bool { c.incidentCount > 0 }
  function IncidentsOf(c: AreaCouncil): int { c.incidentCount }
  function OpenUnitsOf(c: AreaCouncil): int { c.openUnits }

  datatype Badges = Badges(all: nat, highRisk: nat, lowTurnout: nat, incidents: int, open: int)

  /** The five badge numbers. */
  function GetBadges(councils: seq<AreaCouncil>): Badges
  {
    Badges(|councils|, Count(councils, HighRiskCouncil), Count(councils, LowTurnoutCouncil),
           Sum(councils, IncidentsOf), Sum(councils, OpenUnitsOf))
  }

  /** The high-risk and low-turnout badges count councils, so neither exceeds the "All Areas" badge. */
  lemma BadgeCountsBounded(councils: seq<AreaCouncil>)
    ensures GetBadges(councils).highRisk <= GetBadges(councils).all
    ensures GetBadges(councils).lowTurnout <= GetBadges(councils).all
  {
  }

  /**
   * The "Active Incidents" badge adds up incidents rather than counting
   * councils: it is at least the number of councils with an incident.
   */
  lemma {:induction false} IncidentBadgeCountsIncidents(councils: seq<AreaCouncil>)
    requires forall i :: 0 <= i < |councils| ==> councils[i].incidentCount >= 0
    ensures Count(councils, HasIncidents) <= GetBadges(councils).incidents
  {
    if councils != [] {
      var n := |councils| - 1;
      IncidentBadgeCountsIncidents(councils[..n]);
      CountStep(councils, HasIncidents, n);
      assert councils[..n + 1] == councils;
    }
  }

  /** The high-risk badge is 0 exactly when no council is high or critical risk. */
  lemma HighRiskBadgeZero(councils: seq<AreaCouncil>)
    ensures GetBadges(councils).highRisk == 0 <==>
      forall i :: 0 <= i < |councils| ==> !IsHighRisk(councils[i].riskLevel)
  {
    CountZero(councils, HighRiskCouncil);
  }
}
