/**
 * The "Red Flags" card: four flag tiles, each with a count from the red-flag
 * summary and a severity from its own two thresholds, the badge with the
 * total and its tier, and the warning text.
 */
module RedFlagsSection {
  import opened Common
  import M = MockElectionData

  /** A tile's severity; anything below the "high" threshold shows as medium. */
  datatype Tier = TierMedium | TierHigh | TierCritical

  function TierRank(t: Tier): nat
  {
    match t
    case TierMedium => 0
    case TierHigh => 1
    case TierCritical => 2
  }

  /** `count > critical ? 'critical' : count > high ? 'high' : 'medium'`. */
  function Tiered(count: int, high: int, critical: int): (t: Tier)
    ensures t == TierCritical <==> count > critical
    ensures t == TierHigh <==> high < count <= critical
    ensures t == TierMedium <==> count <= high && count <= critical
  {
    if count > critical then TierCritical else if count > high then TierHigh else TierMedium
  }

  /** With the high threshold below the critical one, a larger count never gets a lower tier. */
  lemma TieredMonotone(a: int, b: int, high: int, critical: int)
    requires high <= critical && a <= b
    ensures TierRank(Tiered(a, high, critical)) <= TierRank(Tiered(b, high, critical))
  {
  }

  datatype FlagItem = FlagItem(title: string, count: int, severity: Tier)

  /** The four tiles in display order, with their thresholds. */
  function FlagItems(flags: M.RedFlagSummary): (items: seq<FlagItem>)
    ensures |items| == 4
  {
    [FlagItem("No Observer Access", flags.noObserverAccess, Tiered(flags.noObserverAccess, 2, 5)),
     FlagItem("Missing Countersignatures", flags.noCountersignatures, Tiered(flags.noCountersignatures, 5, 10)),
     FlagItem("Late Starts", flags.lateStarts, Tiered(flags.lateStarts, 5, 10)),
     FlagItem("Integrity Violations", flags.integrityViolations, Tiered(flags.integrityViolations, 4, 8))]
  }

  function CountOf(item: FlagItem): int { item.count }

  /** `flagItems.reduce((sum, item) => sum + item.count, 0)`. */
  function TotalFlags(flags: M.RedFlagSummary): int
  {
    Sum(FlagItems(flags), CountOf)
  }

  /** The total is the four counts of the summary added up. */
  lemma TotalFlagsSum(flags: M.RedFlagSummary)
    ensures TotalFlags(flags) == flags.noObserverAccess + flags.noCountersignatures
      + flags.lateStarts + flags.integrityViolations
  {
    var items := FlagItems(flags);
    assert items[..0] == [];
    SumStep(items, CountOf, 0);
    SumStep(items, CountOf, 1);
    SumStep(items, CountOf, 2);
    SumStep(items, CountOf, 3);
    assert items[..4] == items;
  }

  /** Each tile's severity as a function of its count alone. */
  lemma TileSeverities(flags: M.RedFlagSummary)
    ensures FlagItems(flags)[0].severity == TierCritical <==> flags.noObserverAccess > 5
    ensures FlagItems(flags)[0].severity == TierHigh <==> 2 < flags.noObserverAccess <= 5
    ensures FlagItems(flags)[1].severity == TierCritical <==> flags.noCountersignatures > 10
    ensures FlagItems(flags)[1].severity == TierHigh <==> 5 < flags.noCountersignatures <= 10
    ensures FlagItems(flags)[2].severity == TierCritical <==> flags.lateStarts > 10
    ensures FlagItems(flags)[2].severity == TierHigh <==> 5 < flags.lateStarts <= 10
    ensures FlagItems(flags)[3].severity == TierCritical <==> flags.integrityViolations > 8
    ensures FlagItems(flags)[3].severity == TierHigh <==> 4 < flags.integrityViolations <= 8
  {
  }

  /** The badge next to the title: red above 30 issues, orange above 15, amber otherwise. */
  function BadgeTier(flags: M.RedFlagSummary): (t: Tier)
    ensures t == TierCritical <==> TotalFlags(flags) > 30
    ensures t == TierHigh <==> 15 < TotalFlags(flags) <= 30
  {
    Tiered(TotalFlags(flags), 15, 30)
  }

  /**
   * The warning text's second sentence: the number of late starts, present
   * only when more than five wards started late.
   */
  function LateStartSentence(flags: M.RedFlagSummary): (s: Option<int>)
    ensures s.Some? <==> flags.lateStarts > 5
    ensures s.Some? ==> s.value == flags.lateStarts
  {
    if flags.lateStarts > 5 then Some(flags.lateStarts) else None
  }

  /**
   * The badge reads only the total: it is amber exactly when the four counts
   * add up to at most fifteen, whatever the tiles' own severities.
   */
  lemma BadgeMediumIffTotal(flags: M.RedFlagSummary)
    ensures BadgeTier(flags) == TierMedium <==>
      flags.noObserverAccess + flags.noCountersignatures + flags.lateStarts + flags.integrityViolations <= 15
  {
    TotalFlagsSum(flags);
  }

  /**
   * A tile that is critical by itself need not raise the badge: whenever more
   * than five observer denials make that tile critical while all four counts
   * add up to at most fifteen, the badge stays amber.
   */
  lemma CriticalTileAmberBadge(flags: M.RedFlagSummary)
    requires flags.noObserverAccess > 5
    requires flags.noObserverAccess + flags.noCountersignatures + flags.lateStarts + flags.integrityViolations <= 15
    ensures FlagItems(flags)[0].severity == TierCritical && BadgeTier(flags) == TierMedium
  {
    TotalFlagsSum(flags);
  }
}
