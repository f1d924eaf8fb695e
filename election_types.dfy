/**
 * The risk classifier of a ward or LGA collation report: six weighted red
 * flags plus half the number of failed checks on the nine-item collation
 * integrity checklist, mapped onto five ordinal risk levels.
 */
module ElectionTypes {

  datatype RiskLevel = None | Low | Medium | High | Critical

  /** The position of a level on the ordinal scale, `none` lowest. */
  function Rank(l: RiskLevel): nat
  {
    match l
    case None => 0
    case Low => 1
    case Medium => 2
    case High => 3
    case Critical => 4
  }

  /** The level as the frontend writes it: "none", "low", "medium", "high", "critical". */
  function Name(l: RiskLevel): string
  {
    match l
    case None => "none"
    case Low => "low"
    case Medium => "medium"
    case High => "high"
    case Critical => "critical"
  }

  /** Distinct levels have distinct names, so comparing names compares levels. */
  lemma NameInjective(a: RiskLevel, b: RiskLevel)
    ensures Name(a) == Name(b) <==> a == b
  {
  }

  /** The nine collation integrity checks, `true` when the check passed. */
  datatype CollationIntegrity = CollationIntegrity(
    ec8bFormsSubmitted: bool,
    ec8cProperlyCollated: bool,
    csrvsCrosscheckDone: bool,
    ec40gTransfersDone: bool,
    ec40hPwdDataTransferred: bool,
    votesAnnouncedLoudly: bool,
    partyAgentsRequestedToCountersign: bool,
    ec8cCopiesDistributed: bool,
    ec60eDisplayed: bool)

  /** The fields of a ward or LGA collation report that the classifier reads. */
  datatype CollationReport = CollationReport(
    permittedToObserve: bool,
    intimidationOrHarassment: bool,
    attemptedDisruption: bool,
    disagreementWithResults: bool,
    securityAgentsPresent: bool,
    isLateStart: bool,
    integrity: CollationIntegrity)

  function Flag(b: bool): nat
  {
    if b then 1 else 0
  }

  /** The number of checklist items that did not pass. */
  function FailedChecks(c: CollationIntegrity): (n: nat)
    ensures n <= 9
    ensures n == 0 <==> c == CollationIntegrity(true, true, true, true, true, true, true, true, true)
  {
    Flag(!c.ec8bFormsSubmitted) + Flag(!c.ec8cProperlyCollated) + Flag(!c.csrvsCrosscheckDone)
    + Flag(!c.ec40gTransfersDone) + Flag(!c.ec40hPwdDataTransferred) + Flag(!c.votesAnnouncedLoudly)
    + Flag(!c.partyAgentsRequestedToCountersign) + Flag(!c.ec8cCopiesDistributed) + Flag(!c.ec60eDisplayed)
  }

  /** The weight of the six red flags alone. */
  function FlagScore(r: CollationReport): (n: nat)
    ensures n <= 12
  {
    3 * Flag(!r.permittedToObserve) + 3 * Flag(r.intimidationOrHarassment)
    + 2 * Flag(r.attemptedDisruption) + 2 * Flag(r.disagreementWithResults)
    + Flag(!r.securityAgentsPresent) + Flag(r.isLateStart)
  }

  /** The accumulated `riskScore`: red-flag weights plus `floor(failed / 2)`. */
  function RiskScore(r: CollationReport): (score: nat)
    ensures FlagScore(r) <= score <= FlagScore(r) + 4
    ensures score <= 16
  {
    FlagScore(r) + FailedChecks(r.integrity) / 2
  }

  /** The lowest score at which each level is assigned. */
  function Threshold(l: RiskLevel): nat
  {
    match l
    case None => 0
    case Low => 1
    case Medium => 3
    case High => 6
    case Critical => 8
  }

  /** The next level up, for the levels that have one. */
  function Next(l: RiskLevel): RiskLevel
    requires l != Critical
  {
    match l
    case None => Low
    case Low => Medium
    case Medium => High
    case High => Critical
  }

  /**
   * `calculateRiskLevel`: the level whose score band contains the report's
   * score, the bands being [0,1), [1,3), [3,6), [6,8) and [8, ...).
   */
  function CalculateRiskLevel(r: CollationReport): (level: RiskLevel)
    ensures Threshold(level) <= RiskScore(r)
    ensures level != Critical ==> RiskScore(r) < Threshold(Next(level))
  {
    var score := RiskScore(r);
    if score >= 8 then Critical
    else if score >= 6 then High
    else if score >= 3 then Medium
    else if score >= 1 then Low
    else None
  }

  /** Every check of `a` that failed also failed in `b`. */
  predicate FailsAtLeast(a: CollationIntegrity, b: CollationIntegrity)
  {
    (!a.ec8bFormsSubmitted ==> !b.ec8bFormsSubmitted)
    && (!a.ec8cProperlyCollated ==> !b.ec8cProperlyCollated)
    && (!a.csrvsCrosscheckDone ==> !b.csrvsCrosscheckDone)
    && (!a.ec40gTransfersDone ==> !b.ec40gTransfersDone)
    && (!a.ec40hPwdDataTransferred ==> !b.ec40hPwdDataTransferred)
    && (!a.votesAnnouncedLoudly ==> !b.votesAnnouncedLoudly)
    && (!a.partyAgentsRequestedToCountersign ==> !b.partyAgentsRequestedToCountersign)
    && (!a.ec8cCopiesDistributed ==> !b.ec8cCopiesDistributed)
    && (!a.ec60eDisplayed ==> !b.ec60eDisplayed)
  }

  /** Report `b` raises every red flag `a` raises and fails every check `a` fails. */
  predicate AtLeastAsBad(a: CollationReport, b: CollationReport)
  {
    (!a.permittedToObserve ==> !b.permittedToObserve)
    && (a.intimidationOrHarassment ==> b.intimidationOrHarassment)
    && (a.attemptedDisruption ==> b.attemptedDisruption)
    && (a.disagreementWithResults ==> b.disagreementWithResults)
    && (!a.securityAgentsPresent ==> !b.securityAgentsPresent)
    && (a.isLateStart ==> b.isLateStart)
    && FailsAtLeast(a.integrity, b.integrity)
  }

  /** Raising a flag or failing a further check never lowers the score or the level. */
  lemma RiskMonotone(a: CollationReport, b: CollationReport)
    requires AtLeastAsBad(a, b)
    ensures RiskScore(a) <= RiskScore(b)
    ensures Rank(CalculateRiskLevel(a)) <= Rank(CalculateRiskLevel(b))
  {
    FailedChecksMonotone(a.integrity, b.integrity);
    HalfMonotone(FailedChecks(a.integrity), FailedChecks(b.integrity));
    FlagScoreMonotone(a, b);
    LevelMonotone(RiskScore(a), RiskScore(b), a, b);
  }

  lemma FailedChecksMonotone(a: CollationIntegrity, b: CollationIntegrity)
    requires FailsAtLeast(a, b)
    ensures FailedChecks(a) <= FailedChecks(b)
  {
  }

  lemma HalfMonotone(m: nat, n: nat)
    requires m <= n
    ensures m / 2 <= n / 2
  {
  }

  lemma FlagScoreMonotone(a: CollationReport, b: CollationReport)
    requires AtLeastAsBad(a, b)
    ensures FlagScore(a) <= FlagScore(b)
  {
  }

  lemma LevelMonotone(sa: nat, sb: nat, a: CollationReport, b: CollationReport)
    requires sa == RiskScore(a) && sb == RiskScore(b) && sa <= sb
    ensures Rank(CalculateRiskLevel(a)) <= Rank(CalculateRiskLevel(b))
  {
  }

  const AllPassed := CollationIntegrity(true, true, true, true, true, true, true, true, true)

  /** A report with no red flag and every check passed is classified `none`. */
  lemma CleanReportIsNone(r: CollationReport)
    requires r.permittedToObserve && r.securityAgentsPresent
    requires !r.intimidationOrHarassment && !r.attemptedDisruption
    requires !r.disagreementWithResults && !r.isLateStart
    requires r.integrity == AllPassed
    ensures RiskScore(r) == 0 && CalculateRiskLevel(r) == None
  {
  }

  /** Observer denied plus intimidation, everything else clean, scores 6: `high`. */
  lemma DeniedAndIntimidatedIsHigh(r: CollationReport)
    requires !r.permittedToObserve && r.intimidationOrHarassment
    requires !r.attemptedDisruption && !r.disagreementWithResults
    requires r.securityAgentsPresent && !r.isLateStart
    requires r.integrity == AllPassed
    ensures RiskScore(r) == 6 && CalculateRiskLevel(r) == High
  {
  }

  /** A single failed check adds nothing to the score, since floor(1/2) = 0. */
  lemma OneFailedCheckAddsNothing(r: CollationReport)
    requires FailedChecks(r.integrity) <= 1
    ensures RiskScore(r) == FlagScore(r)
  {
  }
}
