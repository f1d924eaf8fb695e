/**
 * The vote-splitting loop of the database seeder: a ward's valid votes are
 * shared out among the seven parties in order. Each non-final party takes a
 * random chunk of what remains, the three major parties instead take a random
 * 20-30% of all valid votes (capped at what remains), and the final party
 * takes whatever is left.
 *
 * The random draws are inputs: `rand.Intn(n)` is `seed % n` for an arbitrary
 * seed, which reaches every value in `[0, n)`, and fails when `n <= 0` as Go's
 * does; `rand.Float64()` is an arbitrary real in `[0, 1)`.
 */
module Seeder {
  import opened Common

  /** The seeded parties, in the order the loop visits them. */
  const Parties: seq<string> := ["APC", "PDP", "LP", "NNPP", "ADC", "SDP", "ZLP"]

  /** The random values one iteration draws. */
  datatype Draw = Draw(chunkSeed: nat, spreadSeed: nat, share: real)

  predicate ValidDraws(draws: seq<Draw>)
  {
    forall i :: 0 <= i < |draws| ==> 0.0 <= draws[i].share < 1.0
  }

  const IntnPanic := "invalid argument to Intn"

  /** `rand.Intn(n)`: a value in `[0, n)`, or a panic when `n <= 0`. */
  function Intn(n: int, seed: nat): (r: Result<int, string>)
    ensures r.Ok? <==> n > 0
    ensures r.Ok? ==> 0 <= r.value < n
  {
    if n <= 0 then Err(IntnPanic) else Ok(seed % n)
  }

  /** Every value in `[0, n)` is some draw of `rand.Intn(n)`. */
  lemma IntnCovers(n: int, v: int)
    requires 0 <= v < n
    ensures Intn(n, v) == Ok(v)
  {
  }

  predicate IsMajor(party: string)
  {
    party == "APC" || party == "PDP" || party == "LP"
  }

  /** `int(float64(validVotes) * (0.2 + share*0.1))`, with exact reals. */
  function MajorShare(validVotes: nat, share: real): (s: int)
    requires 0.0 <= share < 1.0
    ensures 0 <= s <= validVotes
  {
    var x := validVotes as real * (0.2 + share * 0.1);
    assert 0.0 <= x <= validVotes as real by {
      assert 0.2 <= 0.2 + share * 0.1 <= 0.3;
    }
    x.Floor
  }

  /** The score of the party at position `i` of `n`, given the votes still unassigned. */
  function Score(i: nat, n: nat, party: string, remaining: int, validVotes: nat, d: Draw): Result<int, string>
    requires i < n && 0.0 <= d.share < 1.0
  {
    var drawn: Result<int, string> :=
      if i == n - 1 then Ok(remaining)
      else
        var max := Max(remaining - (n - 1 - i), 0);
        if max > 0 then
          match Intn(max / 2, d.chunkSeed)
          case Err(e) => Err(e)
          case Ok(_) => Intn(remaining / 2 + 1, d.spreadSeed)
        else Ok(0);
    if drawn.Err? then drawn
    else if IsMajor(party) then Ok(Min(MajorShare(validVotes, d.share), remaining))
    else drawn
  }

  /**
   * A party's draw fails exactly when `rand.Intn` is called with 0; otherwise
   * the score never exceeds the votes left, the final party takes all of
   * them, another minor party takes at most half (none when no chunk is
   * left to share) and a major party takes its share of all valid votes,
   * capped at what is left.
   */
  lemma ScoreSpec(i: nat, n: nat, party: string, remaining: int, validVotes: nat, d: Draw)
    requires i < n && 0.0 <= d.share < 1.0
    ensures var r := Score(i, n, party, remaining, validVotes, d);
      (r.Err? <==> i < n - 1 && remaining - (n - 1 - i) == 1)
      && (r.Ok? && remaining >= 0 ==> 0 <= r.value <= remaining)
      && (r.Ok? && i == n - 1 && !IsMajor(party) ==> r.value == remaining)
      && (r.Ok? && i < n - 1 && !IsMajor(party) && remaining >= 0 ==>
          r.value <= remaining / 2 && (remaining - (n - 1 - i) <= 0 ==> r.value == 0))
      && (r.Ok? && IsMajor(party) ==> r.value == Min(MajorShare(validVotes, d.share), remaining))
  {
  }

  /** The part of `ScoreSpec` the conservation proof needs. */
  lemma ScoreRange(i: nat, n: nat, party: string, remaining: int, validVotes: nat, d: Draw)
    requires i < n && 0.0 <= d.share < 1.0
    ensures var r := Score(i, n, party, remaining, validVotes, d);
      (r.Ok? && remaining >= 0 ==> 0 <= r.value <= remaining)
      && (r.Ok? && i == n - 1 && !IsMajor(party) ==> r.value == remaining)
  {
    ScoreSpec(i, n, party, remaining, validVotes, d);
  }

  /** The scores of parties `i..` when `remaining` votes are still unassigned. */
  function Distribute(parties: seq<string>, i: nat, remaining: int, validVotes: nat, draws: seq<Draw>): Result<seq<int>, string>
    requires i <= |parties| == |draws| && ValidDraws(draws)
    decreases |parties| - i
  {
    if i == |parties| then Ok([])
    else match Score(i, |parties|, parties[i], remaining, validVotes, draws[i])
      case Err(e) => Err(e)
      case Ok(score) =>
        match Distribute(parties, i + 1, remaining - score, validVotes, draws)
        case Err(e) => Err(e)
        case Ok(rest) => Ok([score] + rest)
  }

  /** `prefix` followed by the scores of a result, or its error. */
  function Then(prefix: seq<int>, r: Result<seq<int>, string>): Result<seq<int>, string>
  {
    match r
    case Err(e) => Err(e)
    case Ok(rest) => Ok(prefix + rest)
  }

  /**
   * `seedPartyResults` without the database: the scores written, one per party
   * in list order, or the panic of `rand.Intn(0)`.
   */
  method SeedPartyResults(validVotes: nat, draws: seq<Draw>) returns (r: Result<seq<int>, string>)
    requires |draws| == |Parties| && ValidDraws(draws)
    ensures r == Distribute(Parties, 0, validVotes, validVotes, draws)
  {
    r := SplitVotes(Parties, validVotes, draws);
  }

  /** The loop over the party list, for any list of parties. */
  method SplitVotes(parties: seq<string>, validVotes: nat, draws: seq<Draw>) returns (r: Result<seq<int>, string>)
    requires |draws| == |parties| && ValidDraws(draws)
    ensures r == Distribute(parties, 0, validVotes, validVotes, draws)
  {
    var remaining: int := validVotes;
    var scores: seq<int> := [];
    var i := 0;
    ThenEmpty(Distribute(parties, 0, validVotes, validVotes, draws));
    while i < |parties|
      invariant 0 <= i <= |parties| && remaining >= 0
      invariant Distribute(parties, 0, validVotes, validVotes, draws) ==
        Then(scores, Distribute(parties, i, remaining, validVotes, draws))
    {
      var score := Score(i, |parties|, parties[i], remaining, validVotes, draws[i]);
      ScoreSpec(i, |parties|, parties[i], remaining, validVotes, draws[i]);
      DistributeStep(parties, i, remaining, validVotes, draws, scores);
      if score.Err? {
        return Err(score.error);
      }
      scores := scores + [score.value];
      remaining := remaining - score.value;
      i := i + 1;
    }
    assert scores + [] == scores;
    return Ok(scores);
  }

  lemma ThenEmpty(r: Result<seq<int>, string>)
    ensures Then([], r) == r
  {
    if r.Ok? {
      assert [] + r.value == r.value;
    }
  }

  /** One iteration of the loop: a failed draw ends the split, a score extends the prefix. */
  lemma DistributeStep(parties: seq<string>, i: nat, remaining: int, validVotes: nat, draws: seq<Draw>, scores: seq<int>)
    requires i < |parties| == |draws| && ValidDraws(draws)
    ensures var score := Score(i, |parties|, parties[i], remaining, validVotes, draws[i]);
      Then(scores, Distribute(parties, i, remaining, validVotes, draws)) ==
        if score.Err? then Err(score.error)
        else Then(scores + [score.value], Distribute(parties, i + 1, remaining - score.value, validVotes, draws))
  {
    var score := Score(i, |parties|, parties[i], remaining, validVotes, draws[i]);
    if score.Ok? {
      var rest := Distribute(parties, i + 1, remaining - score.value, validVotes, draws);
      if rest.Ok? {
        assert scores + ([score.value] + rest.value) == (scores + [score.value]) + rest.value;
      }
    }
  }

  /**
   * When splitting succeeds from party `i` on, every score is non-negative,
   * there is one score per remaining party, and the scores add up to exactly
   * the votes that were still unassigned.
   */
  lemma DistributeSums(parties: seq<string>, i: nat, remaining: int, validVotes: nat, draws: seq<Draw>)
    requires i < |parties| == |draws| && ValidDraws(draws) && remaining >= 0
    requires !IsMajor(parties[|parties| - 1])
    requires Distribute(parties, i, remaining, validVotes, draws).Ok?
    ensures var s := Distribute(parties, i, remaining, validVotes, draws).value;
      |s| == |parties| - i && Sum(s, Identity) == remaining
      && forall k :: 0 <= k < |s| ==> s[k] >= 0
  {
    DistributeLength(parties, i, remaining, validVotes, draws);
    DistributeSum(parties, i, remaining, validVotes, draws);
    DistributeNonNegative(parties, i, remaining, validVotes, draws);
  }

  lemma {:induction false} DistributeLength(parties: seq<string>, i: nat, remaining: int, validVotes: nat, draws: seq<Draw>)
    requires i <= |parties| == |draws| && ValidDraws(draws)
    requires Distribute(parties, i, remaining, validVotes, draws).Ok?
    decreases |parties| - i
    ensures |Distribute(parties, i, remaining, validVotes, draws).value| == |parties| - i
  {
    if i < |parties| {
      var score, rest := DistributeCons(parties, i, remaining, validVotes, draws);
      DistributeLength(parties, i + 1, remaining - score, validVotes, draws);
    }
  }

  lemma {:induction false} DistributeSum(parties: seq<string>, i: nat, remaining: int, validVotes: nat, draws: seq<Draw>)
    requires i < |parties| == |draws| && ValidDraws(draws)
    requires !IsMajor(parties[|parties| - 1])
    requires Distribute(parties, i, remaining, validVotes, draws).Ok?
    decreases |parties| - i
    ensures Sum(Distribute(parties, i, remaining, validVotes, draws).value, Identity) == remaining
  {
    var score, rest := DistributeCons(parties, i, remaining, validVotes, draws);
    SumCons(score, rest, Identity);
    if i == |parties| - 1 {
      ScoreRange(i, |parties|, parties[i], remaining, validVotes, draws[i]);
      assert rest == [];
    } else {
      DistributeSum(parties, i + 1, remaining - score, validVotes, draws);
    }
  }

  lemma {:induction false} DistributeNonNegative(parties: seq<string>, i: nat, remaining: int, validVotes: nat, draws: seq<Draw>)
    requires i <= |parties| == |draws| && ValidDraws(draws) && remaining >= 0
    requires Distribute(parties, i, remaining, validVotes, draws).Ok?
    decreases |parties| - i
    ensures var s := Distribute(parties, i, remaining, validVotes, draws).value;
      forall k :: 0 <= k < |s| ==> s[k] >= 0
  {
    if i < |parties| {
      ScoreRange(i, |parties|, parties[i], remaining, validVotes, draws[i]);
      var score, rest := DistributeCons(parties, i, remaining, validVotes, draws);
      DistributeNonNegative(parties, i + 1, remaining - score, validVotes, draws);
      var s := [score] + rest;
      assert forall k :: 1 <= k < |s| ==> s[k] == rest[k - 1];
    }
  }

  /** A successful split from party `i` is party `i`'s score followed by the split from `i + 1`. */
  lemma DistributeCons(parties: seq<string>, i: nat, remaining: int, validVotes: nat, draws: seq<Draw>)
    returns (score: int, rest: seq<int>)
    requires i < |parties| == |draws| && ValidDraws(draws)
    requires Distribute(parties, i, remaining, validVotes, draws).Ok?
    ensures Score(i, |parties|, parties[i], remaining, validVotes, draws[i]) == Ok(score)
    ensures Distribute(parties, i + 1, remaining - score, validVotes, draws) == Ok(rest)
    ensures Distribute(parties, i, remaining, validVotes, draws).value == [score] + rest
  {
    score := Score(i, |parties|, parties[i], remaining, validVotes, draws[i]).value;
    rest := Distribute(parties, i + 1, remaining - score, validVotes, draws).value;
  }

  function Identity(x: int): int
  {
    x
  }

  /**
   * A successful seeding writes seven non-negative scores that add up to the
   * ward's valid votes; the last party's score is whatever the others left.
   */
  lemma SeedingConservesVotes(validVotes: nat, draws: seq<Draw>)
    requires |draws| == |Parties| && ValidDraws(draws)
    requires Distribute(Parties, 0, validVotes, validVotes, draws).Ok?
    ensures var s := Distribute(Parties, 0, validVotes, validVotes, draws).value;
      |s| == 7 && Sum(s, Identity) == validVotes && forall k :: 0 <= k < 7 ==> s[k] >= 0
  {
    LastPartyMinor();
    DistributeSums(Parties, 0, validVotes, validVotes, draws);
  }

  /** The final party of the list is not a major party, so it takes the rest. */
  lemma LastPartyMinor()
    ensures |Parties| == 7 && !IsMajor(Parties[|Parties| - 1])
  {
  }

  /**
   * With exactly seven valid votes the first iteration computes `max == 1`
   * and calls `rand.Intn(0)`, which panics whatever the draws are.
   */
  lemma SevenVotesPanic(draws: seq<Draw>)
    requires |draws| == |Parties| && ValidDraws(draws)
    ensures Distribute(Parties, 0, 7, 7, draws) == Err(IntnPanic)
  {
  }

  /** With no valid votes nothing fails and every party scores 0. */
  lemma {:induction false} NoVotesAllZero(parties: seq<string>, i: nat, draws: seq<Draw>)
    requires i <= |parties| == |draws| && ValidDraws(draws)
    decreases |parties| - i
    ensures Distribute(parties, i, 0, 0, draws) == Ok(seq(|parties| - i, _ => 0))
  {
    if i < |parties| {
      NoVotesAllZero(parties, i + 1, draws);
      assert Score(i, |parties|, parties[i], 0, 0, draws[i]) == Ok(0);
      assert [0] + seq(|parties| - (i + 1), _ => 0) == seq(|parties| - i, _ => 0);
    } else {
      assert seq(0, _ => 0) == [];
    }
  }
}
