/**
 * The data-entry side of the admin panel: the target selection (area council
 * and ward), the forms, the payloads the four submit buttons send, the party
 * list offered for an area council, and the incident form reset.
 *
 * The network calls themselves are not modelled: a submit is the payload it
 * would send (or `None` when it returns early), and a fetch is its outcome.
 */
module Admin {
  import opened Common

  // ---------------------------------------------------------------------------
  // `parseInt(s) || 0` on decimal input
  // ---------------------------------------------------------------------------

  predicate IsDigit(c: char)
  {
    '0' <= c <= '9'
  }

  /** The leading white space `parseInt` skips. */
  predicate IsSpace(c: char)
  {
    c == ' ' || c == '\t' || c == '\n' || c == '\r'
  }

  function TrimStart(s: string): (t: string)
    ensures t == [] || !IsSpace(t[0])
    ensures |t| <= |s|
  {
    if s != [] && IsSpace(s[0]) then TrimStart(s[1..]) else s
  }

  /** The longest prefix of decimal digits. */
  function DigitPrefix(s: string): (d: string)
    ensures |d| <= |s|
  {
    if s != [] && IsDigit(s[0]) then [s[0]] + DigitPrefix(s[1..]) else []
  }

  function DigitValue(c: char): int
  {
    c as int - '0' as int
  }

  function DigitChar(n: int): char
    requires 0 <= n < 10
  {
    ('0' as int + n) as char
  }

  /** The number a string of decimal digits denotes. */
  function Value(d: string): int
  {
    if d == [] then 0 else Value(d[..|d| - 1]) * 10 + DigitValue(d[|d| - 1])
  }

  /** The decimal rendering of a natural number, as `String(n)` gives it. */
  function Show(n: nat): (s: string)
    ensures s != [] && forall i :: 0 <= i < |s| ==> IsDigit(s[i])
  {
    if n < 10 then [DigitChar(n)] else Show(n / 10) + [DigitChar(n % 10)]
  }

  /** The text after an optional leading sign. */
  function Unsigned(t: string): string
  {
    if t != [] && (t[0] == '-' || t[0] == '+') then t[1..] else t
  }

  /**
   * JavaScript's `parseInt(s)` on decimal text: leading white space is
   * skipped, an optional sign is read, then as many digits as follow; with no
   * digit at all the result is `NaN`, here `None`.
   */
  function ParseInt(s: string): (r: Option<int>)
    ensures r.None? <==> Unsigned(TrimStart(s)) == [] || !IsDigit(Unsigned(TrimStart(s))[0])
  {
    var t := TrimStart(s);
    var digits := DigitPrefix(Unsigned(t));
    if digits == [] then None
    else if t[0] == '-' then Some(-Value(digits))
    else Some(Value(digits))
  }

  /** `parseInt(s) || 0`: `NaN` (and 0) become 0. */
  function ParseIntOrZero(s: string): (n: int)
    ensures ParseInt(s).None? ==> n == 0
    ensures ParseInt(s).Some? ==> n == ParseInt(s).value
  {
    match ParseInt(s)
    case None => 0
    case Some(v) => v
  }

  /** Reading back a rendered number gives the number. */
  lemma {:induction false} ValueShow(n: nat)
    ensures Value(Show(n)) == n
  {
    if n >= 10 {
      ValueShow(n / 10);
      var s := Show(n);
      assert s[..|s| - 1] == Show(n / 10);
      assert s[|s| - 1] == DigitChar(n % 10);
    }
  }

  /** Digits followed by something that is not a digit: the digits are the prefix. */
  lemma {:induction false} DigitPrefixOf(d: string, rest: string)
    requires forall i :: 0 <= i < |d| ==> IsDigit(d[i])
    requires rest == [] || !IsDigit(rest[0])
    ensures DigitPrefix(d + rest) == d
  {
    if d != [] {
      DigitPrefixOf(d[1..], rest);
      assert (d + rest)[1..] == d[1..] + rest;
      assert d == [d[0]] + d[1..];
    } else {
      assert d + rest == rest;
    }
  }

  /**
   * A rendered number followed by text that does not start with a digit
   * parses back to that number: `parseInt("12abc")` is 12.
   */
  lemma ParseIntShow(n: nat, rest: string)
    requires rest == [] || !IsDigit(rest[0])
    ensures ParseInt(Show(n) + rest) == Some(n)
  {
    var shown := Show(n);
    var s := shown + rest;
    assert s[0] == shown[0];
    ParseIntDigitStart(s);
    DigitPrefixOf(shown, rest);
    ValueShow(n);
  }

  /** Text that starts with a digit parses to the value of its leading digits. */
  lemma ParseIntDigitStart(s: string)
    requires s != [] && IsDigit(s[0])
    ensures ParseInt(s) == Some(Value(DigitPrefix(s)))
  {
    assert !IsSpace(s[0]) && s[0] != '-' && s[0] != '+';
    assert TrimStart(s) == s;
    assert Unsigned(s) == s;
    assert DigitPrefix(s) == [s[0]] + DigitPrefix(s[1..]);
  }

  /** The same with a leading minus sign: `parseInt("-12")` is -12. */
  lemma ParseIntShowNegative(n: nat, rest: string)
    requires rest == [] || !IsDigit(rest[0])
    ensures ParseInt("-" + Show(n) + rest) == Some(-(n as int))
  {
    var shown := Show(n);
    var s := "-" + shown + rest;
    assert s[0] == '-' && s[1..] == shown + rest;
    ParseIntMinusDigit(s);
    DigitPrefixOf(shown, rest);
    ValueShow(n);
  }

  /** A minus sign followed by a digit parses to the negated value of the digits. */
  lemma ParseIntMinusDigit(s: string)
    requires |s| >= 2 && s[0] == '-' && IsDigit(s[1])
    ensures ParseInt(s) == Some(-Value(DigitPrefix(s[1..])))
  {
    assert !IsSpace(s[0]);
    assert TrimStart(s) == s;
    assert Unsigned(s) == s[1..];
    assert DigitPrefix(s[1..]) == [s[1]] + DigitPrefix(s[2..]);
  }

  /** An empty field and a field that does not start with a number both submit 0. */
  lemma EmptyFieldIsZero(s: string)
    requires s == [] || s[0] == 'e' || s[0] == '.'
    ensures ParseIntOrZero(s) == 0
  {
  }

  // ---------------------------------------------------------------------------
  // Target selection and party list
  // ---------------------------------------------------------------------------

  /** The global selector: an area council ID and an optional ward ID ("" = none). */
  datatype Target = Target(lga: string, ward: string)

  /** How the request for an area council's configured parties ended. */
  datatype PartiesFetch = Loaded(parties: Option<seq<string>>) | Failed

  const ConfiguredFallback: seq<string> := ["APC", "PDP", "LP", "NNPP"]
  const FetchFailureFallback: seq<string> := ["APC", "PDP", "LP", "NNPP", "APGA", "ADC", "SDP", "YPP"]

  /**
   * The parties offered for result entry: none without an area council; the
   * configured list when it is non-empty; four defaults when it is missing or
   * empty; eight defaults when the request fails.
   */
  function ActiveParties(lga: string, fetch: PartiesFetch): (ps: seq<string>)
    ensures lga == "" ==> ps == []
    ensures lga != "" && fetch.Failed? ==> ps == FetchFailureFallback
    ensures lga != "" && fetch.Loaded? && fetch.parties.Some? && fetch.parties.value != [] ==>
      ps == fetch.parties.value
    ensures lga != "" && fetch.Loaded? && (fetch.parties.None? || fetch.parties.value == []) ==>
      ps == ConfiguredFallback
  {
    if lga == "" then []
    else match fetch
      case Failed => FetchFailureFallback
      case Loaded(parties) =>
        if parties.Some? && |parties.value| > 0 then parties.value else ConfiguredFallback
  }

  /** With an area council chosen, the offered party list is never empty. */
  lemma ActivePartiesNonEmpty(lga: string, fetch: PartiesFetch)
    requires lga != ""
    ensures ActiveParties(lga, fetch) != []
  {
  }

  // ---------------------------------------------------------------------------
  // Forms and payloads
  // ---------------------------------------------------------------------------

  datatype LogisticsForm = LogisticsForm(arrivalTime: string, collationStartTime: string)
  datatype LogisticsPayload = LogisticsPayload(wardId: string, arrivalTime: string, collationStartTime: string)

  datatype StaffingForm = StaffingForm(inecOfficers: string, femaleOfficers: string,
                                       securityPresent: string, partyAgents: string)
  datatype StaffingPayload = StaffingPayload(wardId: string, inecStaff: int, securityPresent: bool, partyAgents: int)

  /** The nine checklist boxes of the integrity form. */
  datatype IntegrityForm = IntegrityForm(
    ec8bSubmitted: bool, ec8cCollated: bool, csrvsChecked: bool,
    ec40gTransferred: bool, ec40hTransferred: bool, votesAnnounced: bool,
    agentsConsigned: bool, ec8cDistributed: bool, ec60eDisplayed: bool)

  datatype IntegrityPayload = IntegrityPayload(
    wardId: string, ec8bSubmitted: bool, ec8cCollated: bool, csrvsDone: bool,
    votesAnnounced: bool, agentsCountersigned: bool, ec60eDisplayed: bool)

  /** The four vote fields of the results form that are submitted. */
  datatype ResultsForm = ResultsForm(accreditedVoters: string, totalValidVotes: string,
                                     totalRejectedVotes: string, totalVotesCast: string)

  datatype ResultsPayload = ResultsPayload(wardId: string, accreditedVoters: int, validVotes: int,
                                           rejectedVotes: int, votesCast: int)

  /** The logistics submit: nothing without a ward, otherwise the two times for that ward. */
  function LogisticsSubmit(target: Target, form: LogisticsForm): (p: Option<LogisticsPayload>)
    ensures p.None? <==> target.ward == ""
    ensures p.Some? ==> (p.value.wardId == target.ward && p.value.arrivalTime == form.arrivalTime
      && p.value.collationStartTime == form.collationStartTime)
  {
    if target.ward == "" then None
    else Some(LogisticsPayload(target.ward, form.arrivalTime, form.collationStartTime))
  }

  /**
   * The staffing submit: nothing without a ward; counts are `parseInt || 0`,
   * and security is present exactly when the form says "yes".
   */
  function StaffingSubmit(target: Target, form: StaffingForm): (p: Option<StaffingPayload>)
    ensures p.None? <==> target.ward == ""
    ensures p.Some? ==> (p.value.wardId == target.ward
      && (p.value.securityPresent <==> form.securityPresent == "yes")
      && p.value.inecStaff == ParseIntOrZero(form.inecOfficers)
      && p.value.partyAgents == ParseIntOrZero(form.partyAgents))
  {
    if target.ward == "" then None
    else Some(StaffingPayload(target.ward, ParseIntOrZero(form.inecOfficers),
                              form.securityPresent == "yes", ParseIntOrZero(form.partyAgents)))
  }

  /** The integrity submit: nothing without a ward, otherwise six of the nine boxes. */
  function IntegritySubmit(target: Target, form: IntegrityForm): (p: Option<IntegrityPayload>)
    ensures p.None? <==> target.ward == ""
  {
    if target.ward == "" then None
    else Some(IntegrityPayload(target.ward, form.ec8bSubmitted, form.ec8cCollated, form.csrvsChecked,
                               form.votesAnnounced, form.agentsConsigned, form.ec60eDisplayed))
  }

  /**
   * The EC40G, EC40H and EC8C-distribution boxes never reach the server: two
   * forms that differ only there submit the same payload.
   */
  lemma IntegrityIgnoresThreeBoxes(target: Target, form: IntegrityForm, g: bool, h: bool, distributed: bool)
    ensures IntegritySubmit(target, form) ==
      IntegritySubmit(target, form.(ec40gTransferred := g, ec40hTransferred := h, ec8cDistributed := distributed))
  {
  }

  /** Every box the payload does carry is copied unchanged. */
  lemma IntegrityCopiesSixBoxes(target: Target, form: IntegrityForm)
    requires target.ward != ""
    ensures var p := IntegritySubmit(target, form).value;
      p.wardId == target.ward && p.ec8bSubmitted == form.ec8bSubmitted && p.ec8cCollated == form.ec8cCollated
      && p.csrvsDone == form.csrvsChecked && p.votesAnnounced == form.votesAnnounced
      && p.agentsCountersigned == form.agentsConsigned && p.ec60eDisplayed == form.ec60eDisplayed
  {
  }

  /** The results submit: nothing without a ward, otherwise four counts read with `parseInt || 0`. */
  function ResultsSubmit(target: Target, form: ResultsForm): (p: Option<ResultsPayload>)
    ensures p.None? <==> target.ward == ""
    ensures p.Some? ==> (p.value.wardId == target.ward
      && p.value.accreditedVoters == ParseIntOrZero(form.accreditedVoters)
      && p.value.validVotes == ParseIntOrZero(form.totalValidVotes)
      && p.value.rejectedVotes == ParseIntOrZero(form.totalRejectedVotes)
      && p.value.votesCast == ParseIntOrZero(form.totalVotesCast))
  {
    if target.ward == "" then None
    else Some(ResultsPayload(target.ward, ParseIntOrZero(form.accreditedVoters), ParseIntOrZero(form.totalValidVotes),
                             ParseIntOrZero(form.totalRejectedVotes), ParseIntOrZero(form.totalVotesCast)))
  }

  /** A results form filled with rendered numbers submits exactly those numbers. */
  lemma ResultsRoundTrip(target: Target, accredited: nat, valid: nat, rejected: nat, cast: nat)
    requires target.ward != ""
    ensures ResultsSubmit(target, ResultsForm(Show(accredited), Show(valid), Show(rejected), Show(cast))) ==
      Some(ResultsPayload(target.ward, accredited, valid, rejected, cast))
  {
    ParseIntShow(accredited, "");
    assert Show(accredited) + "" == Show(accredited);
    ParseIntShow(valid, "");
    assert Show(valid) + "" == Show(valid);
    ParseIntShow(rejected, "");
    assert Show(rejected) + "" == Show(rejected);
    ParseIntShow(cast, "");
    assert Show(cast) + "" == Show(cast);
  }

  datatype IncidentForm = IncidentForm(
    title: string, description: string, lga: string, incidentType: string, severity: string,
    disagreement: bool, intimidation: bool, disruption: bool)

  // ---------------------------------------------------------------------------
  // The page state
  // ---------------------------------------------------------------------------

  /** The admin page's selection and incident-form state, replaced through its setters. */
  class AdminPanel {
    var target: Target
    var availableWards: seq<string>
    var activeParties: seq<string>
    var incidentForm: IncidentForm

    constructor()
      ensures target == Target("", "") && availableWards == [] && activeParties == []
      ensures incidentForm == IncidentForm("", "", "", "Disturbance", "Medium", false, false, false)
    {
      target := Target("", "");
      availableWards := [];
      activeParties := [];
      incidentForm := IncidentForm("", "", "", "Disturbance", "Medium", false, false, false);
    }

    /** Choosing an area council also clears the ward. */
    method SelectAreaCouncil(lga: string)
      modifies this
      ensures target == Target(lga, "")
      ensures availableWards == old(availableWards) && activeParties == old(activeParties)
      ensures incidentForm == old(incidentForm)
    {
      target := Target(lga, "");
    }

    /** Choosing a ward keeps the area council. */
    method SelectWard(ward: string)
      modifies this
      ensures target == old(target).(ward := ward)
      ensures availableWards == old(availableWards) && activeParties == old(activeParties)
      ensures incidentForm == old(incidentForm)
    {
      target := target.(ward := ward);
    }

    /**
     * The effect run when the area council changes: without one both lists
     * are emptied; with one the ward list is replaced when its request
     * succeeds (a failure leaves it as it was) and the party list follows
     * `ActiveParties`.
     */
    method LoadForAreaCouncil(wards: Option<seq<string>>, parties: PartiesFetch)
      modifies this
      ensures target.lga == "" ==> availableWards == []
      ensures target.lga != "" ==> availableWards == (if wards.Some? then wards.value else old(availableWards))
      ensures activeParties == ActiveParties(target.lga, parties)
      ensures target == old(target) && incidentForm == old(incidentForm)
    {
      if target.lga != "" {
        if wards.Some? {
          availableWards := wards.value;
        }
      } else {
        availableWards := [];
      }
      activeParties := ActiveParties(target.lga, parties);
    }

    /** Logging an incident clears its title and description and keeps every other field. */
    method LogIncident()
      modifies this
      ensures incidentForm == old(incidentForm).(title := "", description := "")
      ensures target == old(target) && availableWards == old(availableWards) && activeParties == old(activeParties)
    {
      incidentForm := incidentForm.(title := "", description := "");
    }
  }
}
