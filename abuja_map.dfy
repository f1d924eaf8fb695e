/**
 * The interactive map of the six area councils: the active quick filter picks
 * out some councils, the rest are dimmed and ignore the pointer, and a click
 * selects or deselects a council.
 */
module AbujaMap {
  import opened Common
  import M = MockElectionData
  import ET = ElectionTypes
  import opened QuickFilters

  function IsHighRiskLGA(l: M.LGASummary): bool { IsHighRisk(l.riskLevel) }
  function IsLowTurnoutLGA(l: M.LGASummary): bool { l.turnoutPercent < LowTurnoutBelow }
  function HasIncidentsLGA(l: M.LGASummary): bool { l.incidentCount > 0 }

  /**
   * The filters that narrow the map. The map takes its filter as a string
   * (the dashboard passes the risk-level drop-down here), and every value
   * other than these three, "open" and "all" included, keeps every council.
   */
  predicate Narrowing(filter: string)
  {
    filter == "high-risk" || filter == "low-turnout" || filter == "incidents"
  }

  /** `filteredCouncils`: the councils the active filter picks out. */
  function FilteredCouncils(data: seq<M.LGASummary>, filter: string): seq<M.LGASummary>
  {
    if filter == "high-risk" then Filter(data, IsHighRiskLGA)
    else if filter == "low-turnout" then Filter(data, IsLowTurnoutLGA)
    else if filter == "incidents" then Filter(data, HasIncidentsLGA)
    else data
  }

  /** The predicate each filter applies; any other value keeps everything. */
  predicate Picks(filter: string, l: M.LGASummary)
  {
    if filter == "high-risk" then IsHighRisk(l.riskLevel)
    else if filter == "low-turnout" then l.turnoutPercent < LowTurnoutBelow
    else if filter == "incidents" then l.incidentCount > 0
    else true
  }

  /**
   * A council is kept iff it is in the data and the filter picks it, and the
   * kept councils are in data order; a filter that does not narrow keeps the
   * whole list.
   */
  lemma FilteredCouncilsSpec(data: seq<M.LGASummary>, filter: string, l: M.LGASummary)
    ensures l in FilteredCouncils(data, filter) <==> l in data && Picks(filter, l)
    ensures SubsequenceOf(FilteredCouncils(data, filter), data)
    ensures !Narrowing(filter) ==> FilteredCouncils(data, filter) == data
  {
    if filter == "high-risk" {
      if l in data && Picks(filter, l) { FilterKeeps(data, IsHighRiskLGA, l); }
      FilterHolds(data, IsHighRiskLGA, l);
      FilterIsSubsequence(data, IsHighRiskLGA);
    } else if filter == "low-turnout" {
      if l in data && Picks(filter, l) { FilterKeeps(data, IsLowTurnoutLGA, l); }
      FilterHolds(data, IsLowTurnoutLGA, l);
      FilterIsSubsequence(data, IsLowTurnoutLGA);
    } else if filter == "incidents" {
      if l in data && Picks(filter, l) { FilterKeeps(data, HasIncidentsLGA, l); }
      FilterHolds(data, HasIncidentsLGA, l);
      FilterIsSubsequence(data, HasIncidentsLGA);
    } else {
      SubsequenceReflexive(data);
    }
  }

  /** `filteredIds`: the IDs of the picked councils. */
  function FilteredIds(data: seq<M.LGASummary>, filter: string): set<string>
  {
    set l | l in FilteredCouncils(data, filter) :: l.id
  }

  /** A council is dimmed when a filter other than "all" is active and did not pick it. */
  predicate IsDimmed(data: seq<M.LGASummary>, filter: string, id: string)
  {
    filter != "all" && id !in FilteredIds(data, filter)
  }

  /**
   * Dimming in full: nothing under "all"; under any other filter, exactly the
   * councils with no data entry the filter picks.
   */
  lemma IsDimmedSpec(data: seq<M.LGASummary>, filter: string, id: string)
    ensures IsDimmed(data, filter, id) <==>
      filter != "all" && !(exists l :: l in data && l.id == id && Picks(filter, l))
  {
    if exists l :: l in data && l.id == id && Picks(filter, l) {
      var l :| l in data && l.id == id && Picks(filter, l);
      FilteredCouncilsSpec(data, filter, l);
    }
    if id in FilteredIds(data, filter) {
      var l :| l in FilteredCouncils(data, filter) && l.id == id;
      FilteredCouncilsSpec(data, filter, l);
    }
  }

  /**
   * Under "all" nothing is dimmed; under any other filter that does not
   * narrow (such as "open" or a risk level), exactly the councils missing
   * from the data are dimmed.
   */
  lemma NothingDimmedUnfiltered(data: seq<M.LGASummary>, filter: string, id: string)
    ensures filter == "all" ==> !IsDimmed(data, filter, id)
    ensures filter != "all" && !Narrowing(filter) ==> (IsDimmed(data, filter, id) <==> id !in DataIds(data))
  {
    IsDimmedSpec(data, filter, id);
  }

  /**
   * A click calls `onSelectCouncil` only on a council that is not dimmed:
   * with `None` (deselect) when it is the selected one, with its ID otherwise.
   * The outer `None` means no call is made.
   */
  function Click(dimmed: bool, selected: Option<string>, id: string): (r: Option<Option<string>>)
    ensures dimmed <==> r.None?
    ensures r.Some? && selected == Some(id) ==> r.value.None?
    ensures r.Some? && selected != Some(id) ==> r.value == Some(id)
  {
    if dimmed then None
    else if selected == Some(id) then Some(None)
    else Some(Some(id))
  }

  /** Clicking the same undimmed council twice, from no selection, ends with nothing selected. */
  lemma ClickTwiceDeselects(id: string)
    ensures Click(false, Click(false, None, id).value, id) == Some(None)
  {
  }

  /** Entering a council highlights it unless it is dimmed; leaving always clears the highlight. */
  function MouseEnter(hovered: Option<string>, dimmed: bool, id: string): (h: Option<string>)
    ensures dimmed ==> h == hovered
    ensures !dimmed ==> h == Some(id)
  {
    if dimmed then hovered else Some(id)
  }

  /** The highlight after the pointer enters each (council, dimmed) pair of `path` in turn. */
  function Sweep(hovered: Option<string>, path: seq<(string, bool)>): Option<string>
  {
    if path == [] then hovered else MouseEnter(Sweep(hovered, path[..|path| - 1]), path[|path| - 1].1, path[|path| - 1].0)
  }

  /** A sweep leaves the last undimmed council entered highlighted. */
  lemma {:induction false} SweepLastUndimmed(hovered: Option<string>, path: seq<(string, bool)>, k: nat)
    requires k < |path| && !path[k].1
    requires forall j :: k < j < |path| ==> path[j].1
    ensures Sweep(hovered, path) == Some(path[k].0)
  {
    if k < |path| - 1 {
      SweepLastUndimmed(hovered, path[..|path| - 1], k);
    }
  }

  /** The IDs of the data entries. */
  function DataIds(data: seq<M.LGASummary>): set<string>
  {
    set l | l in data :: l.id
  }

  /**
   * The councils drawn: the static councils, in order, that have a map path
   * and a data entry; the others are skipped.
   */
  function DrawnCouncils(councils: seq<string>, paths: set<string>, data: seq<M.LGASummary>): (r: seq<string>)
    ensures SubsequenceOf(r, councils)
  {
    FilterIsSubsequence(councils, Drawable(paths, data));
    Filter(councils, Drawable(paths, data))
  }

  function Drawable(paths: set<string>, data: seq<M.LGASummary>): string -> bool
  {
    (id: string) => id in paths && id in DataIds(data)
  }

  /** A council is drawn iff it is a static council with a path and a data entry. */
  lemma DrawnCouncilsSpec(councils: seq<string>, paths: set<string>, data: seq<M.LGASummary>, id: string)
    ensures id in DrawnCouncils(councils, paths, data) <==>
      id in councils && id in paths && id in DataIds(data)
  {
    if id in councils && id in paths && id in DataIds(data) {
      FilterKeeps(councils, Drawable(paths, data), id);
    }
    FilterHolds(councils, Drawable(paths, data), id);
  }

  /** The six area councils the map has paths for. */
  const CouncilPaths: set<string> := {"abaji", "kwali", "gwagwalada", "kuje", "amac", "bwari"}
}
