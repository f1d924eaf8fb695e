/**
 * The "Turnout & Cancellations" card: the area councils listed from the
 * lowest turnout up, each bar coloured by its turnout, and a warning naming
 * the council with the lowest turnout when that turnout is below 52%.
 */
module TurnoutCancellationsSection {
  import opened Common
  import opened Sorting
  import M = MockElectionData

  /** `[...data].sort((a, b) => a.turnoutPercent - b.turnoutPercent)`. */
  function SortedByTurnout(data: seq<M.LGASummary>): seq<M.LGASummary>
  {
    SortAsc(data, M.TurnoutOf)
  }

  /** The list shows every council once, from the lowest turnout to the highest. */
  lemma SortedByTurnoutSpec(data: seq<M.LGASummary>)
    ensures multiset(SortedByTurnout(data)) == multiset(data)
    ensures forall i, j :: 0 <= i < j < |data| ==>
      SortedByTurnout(data)[i].turnoutPercent <= SortedByTurnout(data)[j].turnoutPercent
  {
    SortAscSpec(data, M.TurnoutOf);
    var r := SortedByTurnout(data);
    forall i, j | 0 <= i < j < |data| ensures r[i].turnoutPercent <= r[j].turnoutPercent {
      assert M.TurnoutOf(r[i]) <= M.TurnoutOf(r[j]);
    }
  }

  /**
   * The council at the head of the list is the first council of the data
   * with the lowest turnout: no council has less, and every council before
   * it has more.
   */
  lemma LowestTurnout(data: seq<M.LGASummary>) returns (i: nat)
    requires data != []
    ensures i < |data| && SortedByTurnout(data)[0] == data[i]
    ensures forall j :: 0 <= j < |data| ==> data[i].turnoutPercent <= data[j].turnoutPercent
    ensures forall j :: 0 <= j < i ==> data[i].turnoutPercent < data[j].turnoutPercent
  {
    var key := Negated(M.TurnoutOf);
    i := SortDescHeadFirst(data, key);
    forall j | 0 <= j < |data| ensures data[i].turnoutPercent <= data[j].turnoutPercent {
      assert key(data[j]) <= key(data[i]);
    }
    forall j | 0 <= j < i ensures data[i].turnoutPercent < data[j].turnoutPercent {
      assert key(data[j]) < key(data[i]);
    }
  }

  /**
   * The low-turnout warning: the head of the list when there is one and its
   * turnout is below 52%.
   */
  function LowTurnoutWarning(data: seq<M.LGASummary>): (w: Option<M.LGASummary>)
    ensures w.Some? <==> data != [] && SortedByTurnout(data)[0].turnoutPercent < 52.0
    ensures w.Some? ==> w.value == SortedByTurnout(data)[0]
  {
    var sorted := SortedByTurnout(data);
    if |sorted| > 0 && sorted[0].turnoutPercent < 52.0 then Some(sorted[0]) else None
  }

  /**
   * The warning appears exactly when some council's turnout is below 52%, and
   * then it names a council of the data with the lowest turnout.
   */
  lemma LowTurnoutWarningSpec(data: seq<M.LGASummary>)
    ensures LowTurnoutWarning(data).Some? <==> exists j :: 0 <= j < |data| && data[j].turnoutPercent < 52.0
    ensures LowTurnoutWarning(data).Some? ==>
      LowTurnoutWarning(data).value in data &&
      forall j :: 0 <= j < |data| ==> LowTurnoutWarning(data).value.turnoutPercent <= data[j].turnoutPercent
  {
    if data != [] {
      var i := LowestTurnout(data);
      if exists j :: 0 <= j < |data| && data[j].turnoutPercent < 52.0 {
        var j :| 0 <= j < |data| && data[j].turnoutPercent < 52.0;
        assert data[i].turnoutPercent <= data[j].turnoutPercent;
      }
      if data[i].turnoutPercent < 52.0 {
        assert 0 <= i < |data| && data[i].turnoutPercent < 52.0;
      }
    }
  }

  /** A bar's colour: emerald from 55%, amber from 50%, red below. */
  datatype Shade = Emerald | Amber | Red

  function ShadeRank(s: Shade): nat
  {
    match s
    case Red => 0
    case Amber => 1
    case Emerald => 2
  }

  function TurnoutShade(turnout: real): (s: Shade)
    ensures s == Emerald <==> turnout >= 55.0
    ensures s == Amber <==> 50.0 <= turnout < 55.0
    ensures s == Red <==> turnout < 50.0
  {
    if turnout >= 55.0 then Emerald else if turnout >= 50.0 then Amber else Red
  }

  /** Down the list the colours only move from red towards emerald. */
  lemma ShadesAscend(data: seq<M.LGASummary>)
    ensures forall i, j :: 0 <= i < j < |data| ==>
      ShadeRank(TurnoutShade(SortedByTurnout(data)[i].turnoutPercent))
        <= ShadeRank(TurnoutShade(SortedByTurnout(data)[j].turnoutPercent))
  {
    SortedByTurnoutSpec(data);
  }
}
