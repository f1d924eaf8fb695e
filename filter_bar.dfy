/**
 * The dashboard's drill-down filter bar: five optional filters (area council,
 * ward, incident type, risk level, time window), each set from a drop-down in
 * which "all" means no filter, a clear button, and the badge counting the
 * filters in force. The bar also keeps the ward list of the chosen area council.
 */
module FilterBar {
  import opened Common

  /** The five filters; `None` is JavaScript's `null`. */
  datatype FilterState = FilterState(
    lgaId: Option<string>, wardId: Option<string>, incidentType: Option<string>,
    riskLevel: Option<string>, timeWindow: Option<string>)

  const NoFilters := FilterState(None, None, None, None, None)

  /** A drop-down value: "all" clears the filter. */
  function FromChoice(value: string): (v: Option<string>)
    ensures v.None? <==> value == "all"
    ensures v.Some? ==> v.value == value
  {
    if value == "all" then None else Some(value)
  }

  /** `Boolean(v)` for a filter value: set and non-empty. */
  predicate Truthy(v: Option<string>)
  {
    v.Some? && v.value != ""
  }

  function Bit(b: bool): nat
  {
    if b then 1 else 0
  }

  /** `Object.values(filters).filter(Boolean).length`. */
  function ActiveFilterCount(f: FilterState): (n: nat)
    ensures n <= 5
    ensures n == 0 <==> (!Truthy(f.lgaId) && !Truthy(f.wardId) && !Truthy(f.incidentType)
      && !Truthy(f.riskLevel) && !Truthy(f.timeWindow))
  {
    Bit(Truthy(f.lgaId)) + Bit(Truthy(f.wardId)) + Bit(Truthy(f.incidentType))
      + Bit(Truthy(f.riskLevel)) + Bit(Truthy(f.timeWindow))
  }

  /** Choosing an area council also clears the ward; the other three filters stay. */
  function LgaChange(f: FilterState, value: string): (g: FilterState)
    ensures g.lgaId == FromChoice(value) && g.wardId.None?
    ensures g.incidentType == f.incidentType && g.riskLevel == f.riskLevel && g.timeWindow == f.timeWindow
  {
    f.(lgaId := FromChoice(value), wardId := None)
  }

  /** Choosing a ward sets only the ward filter. */
  function WardChange(f: FilterState, value: string): (g: FilterState)
    ensures g.wardId.None? <==> value == "all"
    ensures g.wardId.Some? ==> g.wardId.value == value
    ensures g.lgaId == f.lgaId && g.incidentType == f.incidentType
    ensures g.riskLevel == f.riskLevel && g.timeWindow == f.timeWindow
  {
    f.(wardId := FromChoice(value))
  }

  /** Choosing an incident type sets only the incident filter. */
  function IncidentChange(f: FilterState, value: string): (g: FilterState)
    ensures g.incidentType.None? <==> value == "all"
    ensures g.incidentType.Some? ==> g.incidentType.value == value
    ensures g.lgaId == f.lgaId && g.wardId == f.wardId
    ensures g.riskLevel == f.riskLevel && g.timeWindow == f.timeWindow
  {
    f.(incidentType := FromChoice(value))
  }

  /** Choosing a risk level sets only the risk filter. */
  function RiskChange(f: FilterState, value: string): (g: FilterState)
    ensures g.riskLevel.None? <==> value == "all"
    ensures g.riskLevel.Some? ==> g.riskLevel.value == value
    ensures g.lgaId == f.lgaId && g.wardId == f.wardId
    ensures g.incidentType == f.incidentType && g.timeWindow == f.timeWindow
  {
    f.(riskLevel := FromChoice(value))
  }

  /** Choosing a time window sets only the time filter. */
  function TimeChange(f: FilterState, value: string): (g: FilterState)
    ensures g.timeWindow.None? <==> value == "all"
    ensures g.timeWindow.Some? ==> g.timeWindow.value == value
    ensures g.lgaId == f.lgaId && g.wardId == f.wardId
    ensures g.incidentType == f.incidentType && g.riskLevel == f.riskLevel
  {
    f.(timeWindow := FromChoice(value))
  }

  /** After "clear" nothing is filtered and the badge shows 0. */
  lemma ClearedCountsZero()
    ensures ActiveFilterCount(NoFilters) == 0
  {
  }

  /**
   * Choosing "all" for the ward drops exactly that filter from the badge;
   * choosing a ward raises the badge by one exactly when no ward was chosen.
   */
  lemma WardChangeCount(f: FilterState, value: string)
    ensures value == "all" ==>
      ActiveFilterCount(WardChange(f, value)) == ActiveFilterCount(f) - Bit(Truthy(f.wardId))
    ensures value != "all" && value != "" ==>
      ActiveFilterCount(WardChange(f, value)) == ActiveFilterCount(f) + Bit(!Truthy(f.wardId))
  {
  }

  /**
   * Choosing "all" for the incident type drops exactly that filter from the
   * badge; choosing a type raises the badge by one exactly when none was chosen.
   */
  lemma IncidentChangeCount(f: FilterState, value: string)
    ensures value == "all" ==>
      ActiveFilterCount(IncidentChange(f, value)) == ActiveFilterCount(f) - Bit(Truthy(f.incidentType))
    ensures value != "all" && value != "" ==>
      ActiveFilterCount(IncidentChange(f, value)) == ActiveFilterCount(f) + Bit(!Truthy(f.incidentType))
  {
  }

  /** The same for the risk level. */
  lemma RiskChangeCount(f: FilterState, value: string)
    ensures value == "all" ==>
      ActiveFilterCount(RiskChange(f, value)) == ActiveFilterCount(f) - Bit(Truthy(f.riskLevel))
    ensures value != "all" && value != "" ==>
      ActiveFilterCount(RiskChange(f, value)) == ActiveFilterCount(f) + Bit(!Truthy(f.riskLevel))
  {
  }

  /** The same for the time window. */
  lemma TimeChangeCount(f: FilterState, value: string)
    ensures value == "all" ==>
      ActiveFilterCount(TimeChange(f, value)) == ActiveFilterCount(f) - Bit(Truthy(f.timeWindow))
    ensures value != "all" && value != "" ==>
      ActiveFilterCount(TimeChange(f, value)) == ActiveFilterCount(f) + Bit(!Truthy(f.timeWindow))
  {
  }

  /** Choosing "all" area councils drops both the area council and the ward filter. */
  lemma AllCouncilsCount(f: FilterState)
    ensures ActiveFilterCount(LgaChange(f, "all")) ==
      ActiveFilterCount(f) - Bit(Truthy(f.lgaId)) - Bit(Truthy(f.wardId))
  {
  }

  /** The bar's own state: the wards of the chosen area council. */
  class FilterBarState {
    var wards: seq<string>

    constructor()
      ensures wards == []
    {
      wards := [];
    }

    /**
     * `handleLGAChange`: the ward list becomes the generated wards of the
     * chosen area council, or empty for "all"; the new filters are returned.
     */
    method HandleLgaChange(f: FilterState, value: string, generated: seq<string>) returns (g: FilterState)
      modifies this
      ensures g == LgaChange(f, value)
      ensures wards == (if Truthy(FromChoice(value)) then generated else [])
    {
      var lgaId := FromChoice(value);
      if Truthy(lgaId) {
        wards := generated;
      } else {
        wards := [];
      }
      g := LgaChange(f, value);
    }

    /** `clearFilters`: no filters and no wards. */
    method ClearFilters() returns (g: FilterState)
      modifies this
      ensures g == NoFilters && wards == []
    {
      wards := [];
      g := NoFilters;
    }
  }
}
