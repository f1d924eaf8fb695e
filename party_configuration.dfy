/**
 * The party configuration card of the admin panel: choose an area council,
 * tick the parties that contest there, and save the list.
 */
module PartyConfiguration {
  import opened Common

  /** Every party the card offers, in display order. */
  const AllParties: seq<string> := ["APC", "PDP", "LP", "NNPP", "APGA", "ADC", "SDP", "YPP", "ZLP", "APP", "AAC", "BP", "ADP"]

  /** `p => p !== party`. */
  function Other(party: string): string -> bool
  {
    (p: string) => p != party
  }

  /**
   * Ticking a checkbox: a listed party is removed (every occurrence of it), an
   * unlisted one is appended at the end.
   */
  function Toggle(configured: seq<string>, party: string): (r: seq<string>)
    ensures party in configured ==> party !in r && SubsequenceOf(r, configured)
    ensures party in configured ==>
      forall q :: multiset(r)[q] == if q == party then 0 else multiset(configured)[q]
    ensures party !in configured ==> r == configured + [party]
  {
    if party in configured then
      FilterIsSubsequence(configured, Other(party));
      FilterMultiplicity(configured, Other(party));
      Filter(configured, Other(party))
    else configured + [party]
  }

  /**
   * After a toggle the ticked party's membership is flipped and every other
   * party's membership is as before.
   */
  lemma ToggleMembership(configured: seq<string>, party: string, q: string)
    ensures q == party ==> (q in Toggle(configured, party) <==> q !in configured)
    ensures q != party ==> (q in Toggle(configured, party) <==> q in configured)
  {
    if party in configured && q != party && q in configured {
      FilterKeeps(configured, Other(party), q);
    }
  }

  /** Toggling the same party twice restores every party's membership. */
  lemma ToggleTwiceMembership(configured: seq<string>, party: string, q: string)
    ensures q in Toggle(Toggle(configured, party), party) <==> q in configured
  {
    ToggleMembership(configured, party, q);
    ToggleMembership(Toggle(configured, party), party, q);
  }

  /** Adding a party and then removing it gives back exactly the list before. */
  lemma {:induction false} ToggleTwiceAbsent(configured: seq<string>, party: string)
    requires party !in configured
    ensures Toggle(Toggle(configured, party), party) == configured
  {
    FilterAppend(configured, [party], Other(party));
    assert Filter([party], Other(party)) == [];
    FilterAll(configured, Other(party));
  }

  /**
   * The list shown after the area council changes: empty without an area
   * council, the loaded list (or [] for a null answer) after a successful
   * load, and the previous list after a failed one.
   */
  function Loaded(selectedLga: string, previous: seq<string>, fetched: Result<Option<seq<string>>, string>): (r: seq<string>)
    ensures selectedLga == "" ==> r == []
    ensures selectedLga != "" && fetched.Ok? && fetched.value.None? ==> r == []
    ensures selectedLga != "" && fetched.Ok? && fetched.value.Some? ==> r == fetched.value.value
    ensures selectedLga != "" && fetched.Err? ==> r == previous
  {
    if selectedLga == "" then []
    else match fetched
      case Err(_) => previous
      case Ok(parties) => if parties.Some? then parties.value else []
  }

  /** The save request, `None` when no area council is selected. */
  function Save(selectedLga: string, configured: seq<string>): (r: Option<(string, seq<string>)>)
    ensures r.None? <==> selectedLga == ""
    ensures r.Some? ==> r.value == (selectedLga, configured)
  {
    if selectedLga == "" then None else Some((selectedLga, configured))
  }

  /** Toggling only ever adds the ticked party: a list drawn from `AllParties` stays so. */
  lemma ToggleStaysWithinOffered(configured: seq<string>, party: string)
    requires forall p :: p in configured ==> p in AllParties
    requires party in AllParties
    ensures forall p :: p in Toggle(configured, party) ==> p in AllParties
  {
  }
}
