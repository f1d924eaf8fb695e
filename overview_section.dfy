/**
 * The "Election Overview" cards: reporting area councils out of the fixed six,
 * reported wards, registered and accredited voters, votes cast, incidents,
 * the mean compliance score and the guarded turnout and accreditation rates.
 */
module OverviewSection {
  import opened Common
  import M = MockElectionData

  /** The capital territory has six area councils, whatever the data holds. */
  const TotalLGAs: nat := 6

  /** The score from which the compliance card shows its "success" variant. */
  const SuccessFrom: real := 80.0

  datatype Overview = Overview(
    totalLGAs: nat,
    lgasReported: nat,
    totalWards: int,
    wardsReported: int,
    totalRegistered: int,
    totalAccredited: int,
    totalVotesCast: int,
    totalIncidents: int,
    avgCompliance: real,
    turnoutPercent: real,
    accreditationPercent: real)

  function AccreditedOf(l: M.LGASummary): int { l.accreditedVoters }

  /** `part / whole * 100` when `whole > 0`, else 0 (the "0.00" card). */
  function Rate(part: int, whole: int): real
  {
    if whole > 0 then part as real / whole as real * 100.0 else 0.0
  }

  /** The cards' figures for the given area councils. */
  function OverviewOf(data: seq<M.LGASummary>): Overview
  {
    var registered := Sum(data, M.RegisteredOf);
    Overview(
      TotalLGAs,
      Count(data, M.HasReported),
      Sum(data, M.WardsOf),
      Sum(data, M.WardsReportedOf),
      registered,
      Sum(data, AccreditedOf),
      Sum(data, M.VotesCastOf),
      Sum(data, M.IncidentCountOf),
      if |data| > 0 then Sum(data, M.ComplianceOf) as real / |data| as real else 0.0,
      Rate(Sum(data, M.VotesCastOf), registered),
      Rate(Sum(data, AccreditedOf), registered))
  }

  /** The compliance card is green iff the mean compliance is at least 80. */
  predicate ComplianceSuccess(o: Overview)
  {
    o.avgCompliance >= SuccessFrom
  }

  /**
   * The card's "of six" stays six for any data; the reporting count never
   * exceeds the councils given; an empty list shows zeros everywhere without
   * dividing.
   */
  lemma OverviewShape(data: seq<M.LGASummary>)
    ensures OverviewOf(data).totalLGAs == 6
    ensures OverviewOf(data).lgasReported <= |data|
    ensures data == [] ==> OverviewOf(data) == Overview(6, 0, 0, 0, 0, 0, 0, 0, 0.0, 0.0, 0.0)
  {
  }

  /**
   * The rates fall back to 0 when no voter is registered, and are
   * percentages when each council's figures stay within its register.
   */
  lemma RatesGuarded(data: seq<M.LGASummary>)
    ensures OverviewOf(data).totalRegistered <= 0 ==>
      OverviewOf(data).turnoutPercent == 0.0 && OverviewOf(data).accreditationPercent == 0.0
    ensures (forall i :: 0 <= i < |data| ==> 0 <= data[i].votesCast <= data[i].registeredVoters) ==>
      0.0 <= OverviewOf(data).turnoutPercent <= 100.0
    ensures (forall i :: 0 <= i < |data| ==> 0 <= data[i].accreditedVoters <= data[i].registeredVoters) ==>
      0.0 <= OverviewOf(data).accreditationPercent <= 100.0
  {
    if forall i :: 0 <= i < |data| ==> 0 <= data[i].votesCast <= data[i].registeredVoters {
      SumLeq(data, M.VotesCastOf, M.RegisteredOf);
      SumNonNegative(data, M.VotesCastOf);
      RateBound(Sum(data, M.VotesCastOf), Sum(data, M.RegisteredOf));
    }
    if forall i :: 0 <= i < |data| ==> 0 <= data[i].accreditedVoters <= data[i].registeredVoters {
      SumLeq(data, AccreditedOf, M.RegisteredOf);
      SumNonNegative(data, AccreditedOf);
      RateBound(Sum(data, AccreditedOf), Sum(data, M.RegisteredOf));
    }
  }

  /** A part of a whole is between 0 and 100 percent of it. */
  lemma RateBound(part: int, whole: int)
    requires 0 <= part <= whole
    ensures 0.0 <= Rate(part, whole) <= 100.0
  {
    if whole > 0 {
      assert part as real / whole as real <= 1.0;
    }
  }

  /**
   * On a non-empty list the cards agree with the overview aggregator: the same
   * ward totals, the same reporting count and the same mean compliance.
   */
  lemma AgreesWithOverviewStats(data: seq<M.LGASummary>)
    requires data != []
    ensures OverviewOf(data).lgasReported == M.GetOverviewStats(data).lgasReported
    ensures OverviewOf(data).totalWards == M.GetOverviewStats(data).totalWards
    ensures OverviewOf(data).wardsReported == M.GetOverviewStats(data).wardsReported
    ensures OverviewOf(data).avgCompliance == M.GetOverviewStats(data).compliancePercent
  {
  }

  /** With every compliance score at least 80 the card is green; with every score below 80 it is not. */
  lemma ComplianceVariant(data: seq<M.LGASummary>)
    requires data != []
    ensures (forall i :: 0 <= i < |data| ==> data[i].complianceScore >= 80) ==> ComplianceSuccess(OverviewOf(data))
    ensures (forall i :: 0 <= i < |data| ==> data[i].complianceScore < 80) ==> !ComplianceSuccess(OverviewOf(data))
  {
    var n := |data|;
    var total := Sum(data, M.ComplianceOf);
    if forall i :: 0 <= i < n ==> data[i].complianceScore >= 80 {
      SumLeq(data, (l: M.LGASummary) => 80, M.ComplianceOf);
      ConstantSum(data, 80);
      MeanAtLeast(total, n, 80);
    }
    if forall i :: 0 <= i < n ==> data[i].complianceScore < 80 {
      SumBounded(data, M.ComplianceOf, 79);
      MeanAtMost(total, n, 79);
    }
  }

  lemma MeanAtLeast(total: int, n: int, c: int)
    requires n > 0 && total >= c * n
    ensures total as real / n as real >= c as real
  {
    var q := total as real / n as real;
    assert q * n as real == total as real;
    assert (c * n) as real == c as real * n as real;
  }

  lemma MeanAtMost(total: int, n: int, c: int)
    requires n > 0 && total <= c * n
    ensures total as real / n as real <= c as real
  {
    var q := total as real / n as real;
    assert q * n as real == total as real;
    assert (c * n) as real == c as real * n as real;
  }

  /** Adding the same amount for every element gives that amount times the length. */
  lemma {:induction false} ConstantSum(data: seq<M.LGASummary>, c: int)
    ensures Sum(data, (l: M.LGASummary) => c) == c * |data|
  {
    if data != [] {
      ConstantSum(data[..|data| - 1], c);
    }
  }
}
