/** Block rewards in fixed-point decimals: the fractions logged for a block, their accumulation over an epoch and the
    minting of the epoch's inflation. */
module Rewards {
  import opened Types
  import opened FiniteSums

  // ---- Fixed-point arithmetic: every quotient is rounded towards zero ----

  function TruncDiv(a: int, d: nat): int
    requires d > 0
  {
    if a >= 0 then a / d else -((-a) / d)
  }

  /** The product of two decimals. */
  function DecMul(a: int, b: int): int {
    TruncDiv(a * b, DEC_ONE)
  }

  /** The quotient of two amounts, as a decimal. Both are scaled by the same power of ten first. */
  function Ratio(a: Amount, b: Amount): nat
    requires b > 0
  {
    a * DEC_ONE / b
  }

  /** A non-negative decimal times an amount. */
  function DecTimes(rate: nat, amount: Amount): Amount {
    amount * rate / DEC_ONE
  }

  // ---- Coefficients ----

  /** 0.01 */
  const MIN_PROPOSER_REWARD: nat := 10_000_000_000

  datatype Coeffs = Coeffs(proposer: int, signer: int, active: int)

  datatype Error = InsufficientVotes | ExpectedValidatorInConsensus(validator: Address) | DivisionByZero | Underflow

  /** The least integer that is at least two thirds of the stake. */
  function MinRequiredVotes(total: Amount): Amount {
    (total * 2 + 2) / 3
  }

  lemma MinRequiredVotesIsLeast(total: Amount, votes: Amount)
    ensures MinRequiredVotes(total) <= votes <==> 2 * total <= 3 * votes
  {
  }

  function RewardCoeffs(proposerReward: nat, signerReward: int, signing: Amount, total: Amount): Result<Coeffs, Error> {
    var needed := MinRequiredVotes(total);
    if signing < needed then Err(InsufficientVotes)
    else if total == 0 then Err(DivisionByZero)
    else
      var proposer := Ratio(DecTimes(proposerReward, signing - needed), total) + MIN_PROPOSER_REWARD;
      Ok(Coeffs(proposer, signerReward, DEC_ONE - proposer - signerReward))
  }

  predicate NonNegative(c: Coeffs) {
    c.proposer >= 0 && c.signer >= 0 && c.active >= 0
  }

  lemma Cancel(t: nat, a: int, b: int)
    requires t > 0 && t * a <= t * b
    ensures a <= b
  {
    if a > b {
      MulMono(t, b + 1, a);
    }
  }

  lemma FloorTimes(a: nat, d: nat)
    requires d > 0
    ensures 0 <= a / d && a / d * d <= a
  {
    assert a == d * (a / d) + a % d;
  }

  /** As long as no more stake signs than there is, the coefficients add up to one and are not negative if a third of the
      proposer reward, the signer reward and the minimum proposer reward together are at most one. */
  lemma CoeffsNonNegative(proposerReward: nat, signerReward: nat, signing: Amount, total: Amount)
    requires signing <= total && total > 0
    requires proposerReward + 3 * signerReward + 3 * MIN_PROPOSER_REWARD <= 3 * DEC_ONE
    ensures var c := RewardCoeffs(proposerReward, signerReward, signing, total);
            c.Ok? ==> NonNegative(c.value) && c.value.proposer + c.value.signer + c.value.active == DEC_ONE
  {
    var c := RewardCoeffs(proposerReward, signerReward, signing, total);
    if c.Ok? {
      var extra := signing - MinRequiredVotes(total);
      assert 3 * extra <= total;
      var paid := DecTimes(proposerReward, extra);
      FloorTimes(extra * proposerReward, DEC_ONE);
      FloorTimes(paid * DEC_ONE, total);
      var ratio := Ratio(paid, total);
      assert ratio * total <= extra * proposerReward;
      MulMono(proposerReward, 3 * extra, total);
      ThirdAtMost(ratio, total, extra, proposerReward);
    }
  }

  lemma ThirdAtMost(ratio: nat, total: nat, extra: nat, reward: nat)
    requires total > 0 && ratio * total <= extra * reward && reward * (3 * extra) <= reward * total
    ensures 3 * ratio <= reward
  {
    assert reward * (3 * extra) == 3 * (extra * reward);
    assert total * (3 * ratio) == 3 * (ratio * total);
    assert total * reward == reward * total;
    Cancel(total, 3 * ratio, reward);
  }

  /** The extra of the proposer: the proposer reward for the part of the stake that signed beyond the required votes, rounded
      down twice. */
  lemma ProposerExtra(proposerReward: nat, signerReward: int, signing: Amount, total: Amount)
    requires total > 0 && MinRequiredVotes(total) <= signing
    ensures var c := RewardCoeffs(proposerReward, signerReward, signing, total);
            && c.Ok? && c.value.signer == signerReward && c.value.proposer >= MIN_PROPOSER_REWARD
            && c.value.proposer + c.value.signer + c.value.active == DEC_ONE
            && (var extra, votes := c.value.proposer - MIN_PROPOSER_REWARD, signing - MinRequiredVotes(total);
                extra * total <= votes * proposerReward < (extra + 1) * total + DEC_ONE)
  {
    var votes := signing - MinRequiredVotes(total);
    MulMono(votes, 0, proposerReward);
    FloorIsGreatest(votes * proposerReward, DEC_ONE);
    var paid := DecTimes(proposerReward, votes);
    FloorIsGreatest(paid * DEC_ONE, total);
    assert (paid + 1) * DEC_ONE == paid * DEC_ONE + DEC_ONE;
  }

  /** The proposer's coefficient is the minimum at exactly the required votes and grows with the signing stake; with less than
      the required votes, or no stake at all, there are no coefficients. */
  lemma ProposerGrows(proposerReward: nat, signerReward: int, signing: Amount, more: Amount, total: Amount)
    requires signing <= more
    ensures var a := RewardCoeffs(proposerReward, signerReward, signing, total);
            var b := RewardCoeffs(proposerReward, signerReward, more, total);
            && (a.Ok? <==> total > 0 && 2 * total <= 3 * signing)
            && (a.Ok? && signing == MinRequiredVotes(total) ==> a.value.proposer == MIN_PROPOSER_REWARD)
            && (a.Ok? ==> b.Ok? && MIN_PROPOSER_REWARD <= a.value.proposer <= b.value.proposer)
  {
    MinRequiredVotesIsLeast(total, signing);
    MinRequiredVotesIsLeast(total, more);
    var needed := MinRequiredVotes(total);
    if needed <= signing && total > 0 {
      var few, many := signing - needed, more - needed;
      MulMono(proposerReward, few, many);
      assert few * proposerReward == proposerReward * few && many * proposerReward == proposerReward * many;
      FloorMono(few * proposerReward, many * proposerReward, DEC_ONE);
      FloorMono(DecTimes(proposerReward, few) * DEC_ONE, DecTimes(proposerReward, many) * DEC_ONE, total);
    }
  }

  lemma FloorMono(a: nat, b: nat, d: nat)
    requires a <= b && d > 0
    ensures a / d <= b / d
  {
    FloorIsGreatest(a, d);
    FloorIsGreatest(b, d);
    CancelStrict(d, a / d, b / d + 1);
  }

  lemma CancelStrict(t: nat, a: int, b: int)
    requires t * a < t * b
    ensures a < b
  {
    if a >= b {
      MulMono(t, b, a);
    }
  }

  // ---- Sums of rounded-down parts ----

  /** A part of an amount, rounded down. */
  function Part(a: nat, mul: nat, div: nat): (r: nat)
    requires div > 0
    ensures r * div <= a * mul
  {
    MulMono(a, 0, mul);
    Floor(a * mul, div)
  }

  function Floor(a: nat, d: nat): (r: nat)
    requires d > 0
    ensures r * d <= a
  {
    FloorTimes(a, d);
    a / d
  }

  /** Rounding down loses less than one. */
  lemma FloorIsGreatest(a: nat, d: nat)
    requires d > 0
    ensures a / d * d <= a < (a / d + 1) * d
  {
    FloorTimes(a, d);
    assert a == d * (a / d) + a % d;
    assert (a / d + 1) * d == d * (a / d) + d;
  }

  function Scaled(m: map<Address, nat>, mul: nat, div: nat): map<Address, nat>
    requires div > 0
  {
    map v | v in m :: Part(m[v], mul, div)
  }

  /** Rounding every part down, the parts of a total stay within the part of the total. */
  lemma {:induction false} FloorSum(m: map<Address, nat>, mul: nat, div: nat)
    requires div > 0
    ensures Tally(Scaled(m, mul, div)) * div <= Tally(m) * mul
    decreases m.Keys
  {
    if m == map[] {
      assert Scaled(m, mul, div) == map[];
    } else {
      var v :| v in m;
      var rest := m - {v};
      FloorSum(rest, mul, div);
      ScaledWithout(m, mul, div, v);
      SumStep(Tally(Scaled(rest, mul, div)), Part(m[v], mul, div), Tally(rest), m[v], mul, div);
    }
  }

  /** Every part loses less than one. */
  lemma {:induction false} FloorSumAtLeast(m: map<Address, nat>, mul: nat, div: nat)
    requires div > 0
    ensures Tally(m) * mul <= Tally(Scaled(m, mul, div)) * div + |m| * div
    decreases m.Keys
  {
    hide Part, Scaled;
    if m == map[] {
      ScaledNothing(mul, div);
    } else {
      var v :| v in m;
      var rest := m - {v};
      FloorSumAtLeast(rest, mul, div);
      ScaledWithout(m, mul, div, v);
      SizeWithout(m, v);
      PartLosesLess(m[v], mul, div);
      SumStepAtLeast(Tally(Scaled(rest, mul, div)), Part(m[v], mul, div), Tally(rest), m[v], mul, div, |rest|);
    }
  }

  lemma ScaledNothing(mul: nat, div: nat)
    requires div > 0
    ensures Scaled(map[], mul, div) == map[]
  {
  }

  lemma ScaledWithout(m: map<Address, nat>, mul: nat, div: nat, v: Address)
    requires div > 0 && v in m
    ensures Tally(m) == m[v] + Tally(m - {v})
    ensures Tally(Scaled(m, mul, div)) == Part(m[v], mul, div) + Tally(Scaled(m - {v}, mul, div))
  {
    assert Scaled(m, mul, div) - {v} == Scaled(m - {v}, mul, div);
    SumWithout<Address>(m, v);
    SumWithout<Address>(Scaled(m, mul, div), v);
  }

  lemma SizeWithout(m: map<Address, nat>, v: Address)
    requires v in m
    ensures |m| == |m - {v}| + 1
  {
    assert (m - {v}).Keys == m.Keys - {v};
  }

  lemma PartLosesLess(a: nat, mul: nat, div: nat)
    requires div > 0
    ensures a * mul < Part(a, mul, div) * div + div
  {
    MulMono(a, 0, mul);
    FloorIsGreatest(a * mul, div);
    assert (Part(a, mul, div) + 1) * div == Part(a, mul, div) * div + div;
  }

  lemma SumStepAtLeast(scaledRest: nat, scaled: nat, rest: nat, one: nat, mul: nat, div: nat, n: nat)
    requires rest * mul <= scaledRest * div + n * div && one * mul < scaled * div + div
    ensures (one + rest) * mul <= (scaled + scaledRest) * div + (n + 1) * div
  {
    assert (one + rest) * mul == one * mul + rest * mul;
    assert (scaled + scaledRest) * div == scaled * div + scaledRest * div;
    assert (n + 1) * div == n * div + div;
  }

  lemma SumStep(scaledRest: nat, scaled: nat, rest: nat, one: nat, mul: nat, div: nat)
    requires scaledRest * div <= rest * mul && scaled * div <= one * mul
    ensures (scaled + scaledRest) * div <= (one + rest) * mul
  {
    assert (scaled + scaledRest) * div == scaled * div + scaledRest * div;
    assert (one + rest) * mul == one * mul + rest * mul;
  }

  /** The parts of something at most `whole` times the divisor are at most `whole` times the factor. */
  lemma PartsAtMost(m: map<Address, nat>, mul: nat, div: nat, whole: nat)
    requires div > 0 && Tally(m) <= whole * div
    ensures Tally(Scaled(m, mul, div)) <= whole * mul
  {
    hide Scaled;
    FloorSum(m, mul, div);
    AtMostWhole(Tally(Scaled(m, mul, div)), Tally(m), mul, div, whole);
  }

  lemma AtMostWhole(scaled: nat, total: nat, mul: nat, div: nat, whole: nat)
    requires div > 0 && scaled * div <= total * mul && total <= whole * div
    ensures scaled <= whole * mul
  {
    MulMono(mul, total, whole * div);
    assert mul * total == total * mul;
    assert mul * (whole * div) == div * (whole * mul);
    assert scaled * div == div * scaled;
    Cancel(div, scaled, whole * mul);
  }

  // ---- One block ----

  datatype Vote = Vote(validator: Address, power: nat)

  /** What a block reads: the consensus set with the stakes it is ordered by, the stored total, the state of the
      validators and their stakes read from deltas. */
  datatype Block = Block(
    votes: seq<Vote>,
    proposer: Address,
    consensus: map<Address, Amount>,
    total: Amount,
    inConsensusState: set<Address>,
    stakes: map<Address, Amount>)

  /** A vote without power is skipped; a vote by a validator that is not in the consensus state is an error. */
  predicate VoteOk(vote: Vote, inConsensusState: set<Address>) {
    vote.power == 0 || vote.validator in inConsensusState
  }

  predicate VotesOk(votes: seq<Vote>, inConsensusState: set<Address>) {
    forall i | 0 <= i < |votes| :: VoteOk(votes[i], inConsensusState)
  }

  /** The first such vote from an index on. */
  function FirstBad(votes: seq<Vote>, inConsensusState: set<Address>, i: nat): (r: Option<nat>)
    requires i <= |votes|
    ensures r.Some? ==> i <= r.value < |votes| && !VoteOk(votes[r.value], inConsensusState)
    ensures forall j | i <= j < (if r.Some? then r.value else |votes|) :: VoteOk(votes[j], inConsensusState)
    decreases |votes| - i
  {
    if i == |votes| then None
    else if VoteOk(votes[i], inConsensusState) then FirstBad(votes, inConsensusState, i + 1)
    else Some(i)
  }

  function Signers(votes: seq<Vote>): set<Address> {
    if votes == [] then {}
    else
      var last := votes[|votes| - 1];
      Signers(votes[..|votes| - 1]) + if last.power == 0 then {} else {last.validator}
  }

  /** A validator that votes twice is counted twice. */
  function SigningStake(votes: seq<Vote>, stakes: map<Address, Amount>): Amount {
    if votes == [] then 0
    else
      var last := votes[|votes| - 1];
      SigningStake(votes[..|votes| - 1], stakes) + if last.power == 0 then 0 else Get(stakes, last.validator)
  }

  function Fraction(b: Block, c: Coeffs, signers: set<Address>, signing: Amount, v: Address): int
    requires v in b.consensus && b.total > 0 && signing > 0
  {
    var stake := b.consensus[v];
    (if v == b.proposer then c.proposer else 0)
    + (if v in signers then DecMul(c.signer, Ratio(stake, signing)) else 0)
    + DecMul(c.active, Ratio(stake, b.total))
  }

  function Fractions(b: Block, c: Coeffs, signers: set<Address>, signing: Amount): map<Address, int>
    requires b.total > 0 && signing > 0
  {
    map v | v in b.consensus && b.consensus[v] > 0 :: Fraction(b, c, signers, signing, v)
  }

  /** The fractions that a block logs. */
  function BlockRewards(b: Block, proposerReward: nat, signerReward: int): Result<map<Address, int>, Error> {
    var bad := FirstBad(b.votes, b.inConsensusState, 0);
    if bad.Some? then Err(ExpectedValidatorInConsensus(b.votes[bad.value].validator))
    else
      var signing := SigningStake(b.votes, b.stakes);
      var c := RewardCoeffs(proposerReward, signerReward, signing, b.total);
      if c.Err? then Err(c.error)
      else
        EnoughSigned(signing, b.total);
        Ok(Fractions(b, c.value, Signers(b.votes), signing))
  }

  lemma EnoughSigned(signing: Amount, total: Amount)
    requires MinRequiredVotes(total) <= signing && total > 0
    ensures signing > 0
  {
  }

  /** The stored data of a block agrees with itself: the total is that of the set, and every signer is in the set with the
      stake that its deltas give. */
  ghost predicate Matching(b: Block) {
    && b.total == Tally(b.consensus)
    && forall v | v in b.inConsensusState :: v in b.consensus && Get(b.stakes, v) == b.consensus[v]
  }

  function Only(m: map<Address, nat>, s: set<Address>): map<Address, nat> {
    map v | v in m && v in s :: m[v]
  }

  /** The stake of the distinct signers is at most the stake counted from the votes. */
  lemma {:induction false} SignersWithin(votes: seq<Vote>, b: Block)
    requires VotesOk(votes, b.inConsensusState) && Matching(b)
    ensures Tally(Only(b.consensus, Signers(votes))) <= SigningStake(votes, b.stakes)
    decreases |votes|
  {
    if votes == [] {
      assert Only(b.consensus, Signers(votes)) == map[];
    } else {
      var before, last := votes[..|votes| - 1], votes[|votes| - 1];
      SignersWithin(before, b);
      var part := Only(b.consensus, Signers(before));
      if last.power == 0 {
        assert Only(b.consensus, Signers(votes)) == part;
      } else {
        var v := last.validator;
        assert last == votes[|votes| - 1];
        SumUpdate<Address>(part, v, b.consensus[v]);
        assert Only(b.consensus, Signers(votes)) == part[v := b.consensus[v]];
        assert GetInt<Address>(part, v) >= 0;
      }
    }
  }

  /** Shares of a total, weighted by a coefficient, add up to at most the coefficient. */
  lemma WeightedShares(m: map<Address, nat>, total: nat, coeff: nat)
    requires total > 0 && Tally(m) <= total
    ensures Tally(Scaled(Scaled(m, DEC_ONE, total), coeff, DEC_ONE)) <= coeff
  {
    PartsAtMost(m, DEC_ONE, total, 1);
    PartsAtMost(Scaled(m, DEC_ONE, total), coeff, DEC_ONE, 1);
  }

  ghost function ProposerPart(b: Block, c: Coeffs): map<Address, int> {
    if b.proposer in b.consensus && b.consensus[b.proposer] > 0 then map[b.proposer := c.proposer] else map[]
  }

  ghost function Weighted(m: map<Address, nat>, total: nat, coeff: nat): map<Address, nat>
    requires total > 0
  {
    Scaled(Scaled(m, DEC_ONE, total), coeff, DEC_ONE)
  }

  lemma WeightedAt(m: map<Address, nat>, total: nat, coeff: nat, v: Address)
    requires total > 0
    ensures Weighted(m, total, coeff).Keys == m.Keys
    ensures v in m ==> Weighted(m, total, coeff)[v] == DecMul(coeff, Ratio(m[v], total))
    ensures v in m && m[v] == 0 ==> Weighted(m, total, coeff)[v] == 0
  {
    if v in m {
      var share := Part(m[v], DEC_ONE, total);
      MulMono(coeff, 0, share);
      assert share * coeff == coeff * share;
      assert m[v] == 0 ==> share == 0;
    }
  }

  /** A logged fraction is the sum of its three parts. */
  lemma FractionParts(b: Block, c: Coeffs, signers: set<Address>, signing: Amount, v: Address)
    requires NonNegative(c) && b.total > 0 && signing > 0
    ensures GetInt<Address>(Fractions(b, c, signers, signing), v) ==
            GetInt<Address>(ProposerPart(b, c), v) +
            (GetInt<Address>(Weighted(Only(b.consensus, signers), signing, c.signer), v) +
             GetInt<Address>(Weighted(b.consensus, b.total, c.active), v))
    ensures GetInt<Address>(Fractions(b, c, signers, signing), v) >= 0
  {
    hide Weighted, DecMul, Ratio;
    WeightedAt(Only(b.consensus, signers), signing, c.signer, v);
    WeightedAt(b.consensus, b.total, c.active, v);
    assert v in Only(b.consensus, signers) <==> v in b.consensus && v in signers;
  }

  ghost function BothShares(b: Block, c: Coeffs, signers: set<Address>, signing: Amount): map<Address, int>
    requires NonNegative(c) && b.total > 0 && signing > 0
  {
    var s, a := Weighted(Only(b.consensus, signers), signing, c.signer), Weighted(b.consensus, b.total, c.active);
    map v | v in b.consensus :: GetInt<Address>(s, v) + GetInt<Address>(a, v)
  }

  lemma BothSharesSum(b: Block, c: Coeffs, signers: set<Address>, signing: Amount)
    requires NonNegative(c) && b.total > 0 && signing > 0
    ensures Sum<Address>(BothShares(b, c, signers, signing)) ==
            Sum<Address>(Weighted(Only(b.consensus, signers), signing, c.signer)) +
            Sum<Address>(Weighted(b.consensus, b.total, c.active))
  {
    hide Weighted;
    var s, a := Weighted(Only(b.consensus, signers), signing, c.signer), Weighted(b.consensus, b.total, c.active);
    forall v: Address
      ensures GetInt<Address>(BothShares(b, c, signers, signing), v) == GetInt<Address>(s, v) + GetInt<Address>(a, v)
    {
      WeightedAt(Only(b.consensus, signers), signing, c.signer, v);
      WeightedAt(b.consensus, b.total, c.active, v);
    }
    SumPointwise<Address>(s, a, BothShares(b, c, signers, signing));
  }

  lemma FractionsSum(b: Block, c: Coeffs, signers: set<Address>, signing: Amount)
    requires NonNegative(c) && b.total > 0 && signing > 0
    ensures Sum<Address>(Fractions(b, c, signers, signing)) ==
            Sum<Address>(ProposerPart(b, c)) + Sum<Address>(BothShares(b, c, signers, signing))
  {
    hide Fractions, Weighted, ProposerPart;
    forall v: Address
      ensures GetInt<Address>(Fractions(b, c, signers, signing), v) ==
              GetInt<Address>(ProposerPart(b, c), v) + GetInt<Address>(BothShares(b, c, signers, signing), v)
    {
      FractionParts(b, c, signers, signing, v);
      WeightedAt(Only(b.consensus, signers), signing, c.signer, v);
      WeightedAt(b.consensus, b.total, c.active, v);
    }
    SumPointwise<Address>(ProposerPart(b, c), BothShares(b, c, signers, signing), Fractions(b, c, signers, signing));
  }

  lemma ProposerSum(b: Block, c: Coeffs)
    requires c.proposer >= 0
    ensures Sum<Address>(ProposerPart(b, c)) <= c.proposer
  {
    SumWithout<Address>(ProposerPart(b, c), b.proposer);
    assert ProposerPart(b, c) - {b.proposer} == map[];
  }

  /** With non-negative coefficients and matching data, the fractions logged for a block are not negative and add up to at
      most one. */
  lemma FractionsAtMostOne(b: Block, proposerReward: nat, signerReward: int)
    requires Matching(b)
    requires var c := RewardCoeffs(proposerReward, signerReward, SigningStake(b.votes, b.stakes), b.total);
             c.Ok? ==> NonNegative(c.value)
    ensures var r := BlockRewards(b, proposerReward, signerReward);
            r.Ok? ==> Sum<Address>(r.value) <= DEC_ONE && forall v | v in r.value :: r.value[v] >= 0
  {
    hide Fractions, Weighted, ProposerPart, BothShares, RewardCoeffs, Matching;
    var r := BlockRewards(b, proposerReward, signerReward);
    if r.Ok? {
      var signing, signers := SigningStake(b.votes, b.stakes), Signers(b.votes);
      var c := RewardCoeffs(proposerReward, signerReward, signing, b.total).value;
      CoeffsSum(proposerReward, signerReward, signing, b.total);
      SignersWithin(b.votes, b);
      MatchingTotal(b);
      FractionsBound(b, c, signers, signing);
      forall v | v in r.value ensures r.value[v] >= 0 {
        FractionParts(b, c, signers, signing, v);
      }
    }
  }

  lemma MatchingTotal(b: Block)
    requires Matching(b)
    ensures b.total == Tally(b.consensus)
  {
  }

  lemma CoeffsSum(proposerReward: nat, signerReward: int, signing: Amount, total: Amount)
    ensures var c := RewardCoeffs(proposerReward, signerReward, signing, total);
            c.Ok? ==> c.value.proposer + c.value.signer + c.value.active == DEC_ONE && total > 0 && signing > 0
  {
  }

  lemma FractionsBound(b: Block, c: Coeffs, signers: set<Address>, signing: Amount)
    requires NonNegative(c) && b.total > 0 && signing > 0
    requires Tally(Only(b.consensus, signers)) <= signing && Tally(b.consensus) <= b.total
    ensures Sum<Address>(Fractions(b, c, signers, signing)) <= c.proposer + c.signer + c.active
  {
    hide Fractions, ProposerPart, BothShares, Scaled;
    FractionsSum(b, c, signers, signing);
    BothSharesSum(b, c, signers, signing);
    ProposerSum(b, c);
    WeightedShares(Only(b.consensus, signers), signing, c.signer);
    WeightedShares(b.consensus, b.total, c.active);
  }

  /** A weighted share is the exact one, rounded down twice. */
  lemma ShareNear(coeff: nat, stake: Amount, total: Amount)
    requires total > 0 && coeff <= DEC_ONE
    ensures var share := DecMul(coeff, Ratio(stake, total));
            0 <= share && share * total <= coeff * stake < (share + 2) * total
  {
    var ratio := Ratio(stake, total);
    FloorIsGreatest(stake * DEC_ONE, total);
    MulMono(coeff, 0, ratio);
    FloorIsGreatest(coeff * ratio, DEC_ONE);
    ShareArith(coeff, stake, total, ratio, coeff * ratio / DEC_ONE);
  }

  lemma ShareArith(coeff: nat, stake: nat, total: nat, ratio: nat, share: nat)
    requires coeff <= DEC_ONE && total > 0
    requires ratio * total <= stake * DEC_ONE < (ratio + 1) * total
    requires share * DEC_ONE <= coeff * ratio < (share + 1) * DEC_ONE
    ensures share * total <= coeff * stake < (share + 2) * total
  {
    MulMono(total, share * DEC_ONE, coeff * ratio);
    MulMono(coeff, ratio * total, stake * DEC_ONE);
    assert total * (share * DEC_ONE) == DEC_ONE * (share * total);
    assert total * (coeff * ratio) == coeff * (ratio * total);
    assert coeff * (stake * DEC_ONE) == DEC_ONE * (coeff * stake);
    Cancel(DEC_ONE, share * total, coeff * stake);
    MulMono(coeff, stake * DEC_ONE, (ratio + 1) * total);
    assert coeff * ((ratio + 1) * total) == total * (coeff * ratio) + coeff * total;
    StrictMulMono(total, coeff * ratio, (share + 1) * DEC_ONE);
    MulMono(total, coeff, DEC_ONE);
    assert total * ((share + 1) * DEC_ONE) + total * DEC_ONE == DEC_ONE * ((share + 2) * total);
    assert total * coeff == coeff * total;
    CancelStrict(DEC_ONE, coeff * stake, (share + 2) * total);
  }

  lemma StrictMulMono(a: nat, b: int, c: int)
    requires a > 0 && b < c
    ensures a * b < a * c
  {
    MulMono(a, b + 1, c);
    assert a * (b + 1) == a * b + a;
  }

  /** A logged fraction is the proposer's coefficient for the proposer, the signer's coefficient by the share of the signing
      stake for a signer, and the remaining coefficient by the share of the total stake. */
  lemma FractionNear(b: Block, c: Coeffs, signers: set<Address>, signing: Amount, v: Address)
      returns (signed: nat, active: nat)
    requires NonNegative(c) && c.signer <= DEC_ONE && c.active <= DEC_ONE && b.total > 0 && signing > 0
    requires v in b.consensus && b.consensus[v] > 0
    ensures v in Fractions(b, c, signers, signing)
    ensures Fractions(b, c, signers, signing)[v] == (if v == b.proposer then c.proposer else 0) + signed + active
    ensures if v in signers then signed * signing <= c.signer * b.consensus[v] < (signed + 2) * signing else signed == 0
    ensures active * b.total <= c.active * b.consensus[v] < (active + 2) * b.total
  {
    hide DecMul, Ratio;
    var stake := b.consensus[v];
    ShareNear(c.signer, stake, signing);
    ShareNear(c.active, stake, b.total);
    signed := if v in signers then DecMul(c.signer, Ratio(stake, signing)) else 0;
    active := DecMul(c.active, Ratio(stake, b.total));
  }

  /** Shares of a whole total, weighted by a coefficient, miss the coefficient by less than two roundings each. */
  lemma WeightedNear(m: map<Address, nat>, total: nat, coeff: nat)
    requires total > 0 && Tally(m) == total && coeff <= DEC_ONE
    ensures coeff <= Tally(Weighted(m, total, coeff)) + 2 * |m|
  {
    hide Scaled;
    var shares := Scaled(m, DEC_ONE, total);
    FloorSumAtLeast(m, DEC_ONE, total);
    FloorSumAtLeast(shares, coeff, DEC_ONE);
    ScaledSize(m, DEC_ONE, total);
    NearArith(Tally(shares), Tally(Scaled(shares, coeff, DEC_ONE)), total, coeff, |m|);
  }

  lemma ScaledSize(m: map<Address, nat>, mul: nat, div: nat)
    requires div > 0
    ensures |Scaled(m, mul, div)| == |m|
  {
    assert Scaled(m, mul, div).Keys == m.Keys;
  }

  lemma NearArith(shares: nat, weighted: nat, total: nat, coeff: nat, n: nat)
    requires total > 0 && coeff <= DEC_ONE
    requires total * DEC_ONE <= shares * total + n * total && shares * coeff <= weighted * DEC_ONE + n * DEC_ONE
    ensures coeff <= weighted + 2 * n
  {
    assert shares * total + n * total == total * (shares + n);
    Cancel(total, DEC_ONE, shares + n);
    MulMono(coeff, DEC_ONE, shares + n);
    assert coeff * (shares + n) == shares * coeff + n * coeff;
    MulMono(n, coeff, DEC_ONE);
    assert weighted * DEC_ONE + n * DEC_ONE + n * DEC_ONE == DEC_ONE * (weighted + 2 * n);
    assert coeff * DEC_ONE == DEC_ONE * coeff;
    Cancel(DEC_ONE, coeff, weighted + 2 * n);
  }

  /** Every validator votes at most once. */
  ghost predicate VotesOnce(votes: seq<Vote>) {
    forall i, j | 0 <= i < j < |votes| && votes[i].power > 0 && votes[j].power > 0 :: votes[i].validator != votes[j].validator
  }

  lemma {:induction false} SignersVoted(votes: seq<Vote>, v: Address)
    ensures v in Signers(votes) <==> exists i :: 0 <= i < |votes| && votes[i].power > 0 && votes[i].validator == v
    decreases |votes|
  {
    if votes != [] {
      var before, last := votes[..|votes| - 1], votes[|votes| - 1];
      SignersVoted(before, v);
      if i :| 0 <= i < |votes| && votes[i].power > 0 && votes[i].validator == v {
        assert i < |before| ==> before[i] == votes[i];
      }
      if i :| 0 <= i < |before| && before[i].power > 0 && before[i].validator == v {
        assert votes[i] == before[i];
      }
      assert last == votes[|votes| - 1];
    }
  }

  lemma {:induction false} SignersAre(votes: seq<Vote>, b: Block)
    requires VotesOk(votes, b.inConsensusState) && Matching(b) && VotesOnce(votes)
    ensures Tally(Only(b.consensus, Signers(votes))) == SigningStake(votes, b.stakes)
    decreases |votes|
  {
    if votes == [] {
      assert Only(b.consensus, Signers(votes)) == map[];
    } else {
      var before, last := votes[..|votes| - 1], votes[|votes| - 1];
      SignersAre(before, b);
      SignersVoted(before, last.validator);
      var part := Only(b.consensus, Signers(before));
      if last.power == 0 {
        assert Only(b.consensus, Signers(votes)) == part;
      } else {
        NewSigner(votes, b);
        SumUpdate<Address>(part, last.validator, b.consensus[last.validator]);
        assert Only(b.consensus, Signers(votes)) == part[last.validator := b.consensus[last.validator]];
      }
    }
  }

  lemma NewSigner(votes: seq<Vote>, b: Block)
    requires votes != [] && VotesOk(votes, b.inConsensusState) && Matching(b) && VotesOnce(votes)
    requires votes[|votes| - 1].power > 0
    ensures var last := votes[|votes| - 1];
            && last.validator !in Signers(votes[..|votes| - 1])
            && last.validator in b.consensus && Get(b.stakes, last.validator) == b.consensus[last.validator]
  {
    hide Signers;
    var before, last := votes[..|votes| - 1], votes[|votes| - 1];
    SignersVoted(before, last.validator);
    assert VoteOk(votes[|votes| - 1], b.inConsensusState);
    assert forall i | 0 <= i < |before| :: before[i] == votes[i];
  }

  lemma OnlySize(m: map<Address, nat>, s: set<Address>)
    ensures |Only(m, s)| <= |m|
  {
    var part := Only(m, s);
    assert part.Keys <= m.Keys;
    SubsetSize(part.Keys, m.Keys);
  }

  lemma SubsetSize(a: set<Address>, b: set<Address>)
    requires a <= b
    ensures |a| <= |b|
  {
    assert b == a + (b - a);
  }

  lemma ProposerWhole(b: Block, c: Coeffs)
    requires b.proposer in b.consensus && b.consensus[b.proposer] > 0
    ensures Sum<Address>(ProposerPart(b, c)) == c.proposer
  {
    SumWithout<Address>(ProposerPart(b, c), b.proposer);
    assert ProposerPart(b, c) - {b.proposer} == map[];
  }

  /** If the proposer is in the set and nobody votes twice, the fractions of a block miss one by at most four roundings of the
      twelfth decimal place for each validator of the set. */
  lemma FractionsNearOne(b: Block, proposerReward: nat, signerReward: int)
    requires Matching(b) && VotesOnce(b.votes) && b.proposer in b.consensus && b.consensus[b.proposer] > 0
    requires var c := RewardCoeffs(proposerReward, signerReward, SigningStake(b.votes, b.stakes), b.total);
             c.Ok? ==> NonNegative(c.value)
    ensures var r := BlockRewards(b, proposerReward, signerReward);
            r.Ok? ==> DEC_ONE <= Sum<Address>(r.value) + 4 * |b.consensus|
  {
    hide Fractions, Weighted, ProposerPart, BothShares, RewardCoeffs, Matching, Only;
    var r := BlockRewards(b, proposerReward, signerReward);
    if r.Ok? {
      var signing, signers := SigningStake(b.votes, b.stakes), Signers(b.votes);
      var c := RewardCoeffs(proposerReward, signerReward, signing, b.total).value;
      CoeffsSum(proposerReward, signerReward, signing, b.total);
      SignersAre(b.votes, b);
      MatchingTotal(b);
      FractionsSum(b, c, signers, signing);
      BothSharesSum(b, c, signers, signing);
      ProposerWhole(b, c);
      OnlySize(b.consensus, signers);
      WeightedNear(Only(b.consensus, signers), signing, c.signer);
      WeightedNear(b.consensus, b.total, c.active);
    }
  }

  // ---- The blocks of an epoch ----

  function Accumulated(acc: map<Address, int>, values: map<Address, int>): map<Address, int> {
    map v | v in acc.Keys + values.Keys :: GetInt(acc, v) + GetInt(values, v)
  }

  /** The accumulators after the blocks of an epoch; a block that fails logs nothing. */
  function Accumulator(blocks: seq<Block>, proposerReward: nat, signerReward: int): map<Address, int> {
    if blocks == [] then map[]
    else
      var acc := Accumulator(blocks[..|blocks| - 1], proposerReward, signerReward);
      var r := BlockRewards(blocks[|blocks| - 1], proposerReward, signerReward);
      if r.Ok? then Accumulated(acc, r.value) else acc
  }

  ghost predicate Sound(b: Block, proposerReward: nat, signerReward: int) {
    && Matching(b)
    && var c := RewardCoeffs(proposerReward, signerReward, SigningStake(b.votes, b.stakes), b.total);
       c.Ok? ==> NonNegative(c.value)
  }

  lemma {:induction false} AccumulatorBound(blocks: seq<Block>, proposerReward: nat, signerReward: int)
    requires forall i | 0 <= i < |blocks| :: Sound(blocks[i], proposerReward, signerReward)
    ensures var acc := Accumulator(blocks, proposerReward, signerReward);
            Sum<Address>(acc) <= |blocks| * DEC_ONE && forall v | v in acc :: acc[v] >= 0
    decreases |blocks|
  {
    hide BlockRewards;
    if blocks != [] {
      var before, b := blocks[..|blocks| - 1], blocks[|blocks| - 1];
      AccumulatorBound(before, proposerReward, signerReward);
      assert Sound(b, proposerReward, signerReward);
      FractionsAtMostOne(b, proposerReward, signerReward);
      var r := BlockRewards(b, proposerReward, signerReward);
      if r.Ok? {
        var acc := Accumulator(before, proposerReward, signerReward);
        SumPointwise<Address>(acc, r.value, Accumulated(acc, r.value));
      }
    }
  }

  /** Also nobody votes twice and the proposer has stake in the consensus set. */
  ghost predicate Regular(b: Block, proposerReward: nat, signerReward: int) {
    && Sound(b, proposerReward, signerReward)
    && VotesOnce(b.votes) && b.proposer in b.consensus && b.consensus[b.proposer] > 0
  }

  /** What the blocks that log rewards have to share, less four roundings for each validator of their sets. */
  function Shared(blocks: seq<Block>, proposerReward: nat, signerReward: int): int {
    if blocks == [] then 0
    else
      var b := blocks[|blocks| - 1];
      Shared(blocks[..|blocks| - 1], proposerReward, signerReward)
      + if BlockRewards(b, proposerReward, signerReward).Ok? then DEC_ONE - 4 * |b.consensus| else 0
  }

  /** The accumulators of an epoch hold one for each block that logs rewards, but for the roundings. */
  lemma {:induction false} AccumulatorNear(blocks: seq<Block>, proposerReward: nat, signerReward: int)
    requires forall i | 0 <= i < |blocks| :: Regular(blocks[i], proposerReward, signerReward)
    ensures Shared(blocks, proposerReward, signerReward) <= Sum<Address>(Accumulator(blocks, proposerReward, signerReward))
    decreases |blocks|
  {
    hide BlockRewards;
    if blocks != [] {
      var before, b := blocks[..|blocks| - 1], blocks[|blocks| - 1];
      AccumulatorNear(before, proposerReward, signerReward);
      assert Regular(b, proposerReward, signerReward);
      FractionsNearOne(b, proposerReward, signerReward);
      var r := BlockRewards(b, proposerReward, signerReward);
      if r.Ok? {
        var acc := Accumulator(before, proposerReward, signerReward);
        SumPointwise<Address>(acc, r.value, Accumulated(acc, r.value));
      }
    }
  }

  // ---- Minting ----

  /** The share of the inflation for an accumulated value; an epoch with no blocks counts as a share of zero. */
  function RewardTokens(value: nat, numBlocks: nat, inflation: Amount): Amount {
    if numBlocks == 0 then 0 else Part(Floor(value, numBlocks), inflation, DEC_ONE)
  }

  /** What remains of the inflation after the rewards of `rest`. A negative accumulator or remainder is a panic. */
  function RemainingFrom(acc: map<Address, int>, rest: set<Address>, numBlocks: nat, inflation: Amount,
                         remaining: Amount): Option<Amount>
    requires rest <= acc.Keys
    decreases rest
  {
    if rest == {} then Some(remaining)
    else
      var v := MinKey(rest);
      if acc[v] < 0 then None
      else
        var reward := RewardTokens(acc[v], numBlocks, inflation);
        if reward > remaining then None
        else RemainingFrom(acc, rest - {v}, numBlocks, inflation, remaining - reward)
  }

  function AllRewards(acc: map<Address, nat>, numBlocks: nat, inflation: Amount): map<Address, nat> {
    map v | v in acc :: RewardTokens(acc[v], numBlocks, inflation)
  }

  lemma {:induction false} RemainingIs(acc: map<Address, nat>, rest: set<Address>, numBlocks: nat, inflation: Amount,
                                       remaining: Amount)
    requires rest <= acc.Keys
    requires Tally(Only(AllRewards(acc, numBlocks, inflation), rest)) <= remaining
    ensures RemainingFrom(acc, rest, numBlocks, inflation, remaining) ==
            Some(remaining - Tally(Only(AllRewards(acc, numBlocks, inflation), rest)))
    decreases rest
  {
    hide RewardTokens;
    var part := Only(AllRewards(acc, numBlocks, inflation), rest);
    if rest == {} {
      assert part == map[];
    } else {
      var v := MinKey(rest);
      SumWithout<Address>(part, v);
      assert part - {v} == Only(AllRewards(acc, numBlocks, inflation), rest - {v});
      SumNonNegative<Address>(part - {v});
      RemainingIs(acc, rest - {v}, numBlocks, inflation, remaining - RewardTokens(acc[v], numBlocks, inflation));
    }
  }

  /** Accumulators that add up to at most one per block earn at most the inflation. */
  lemma RewardsWithinInflation(acc: map<Address, nat>, numBlocks: nat, inflation: Amount)
    requires Tally(acc) <= numBlocks * DEC_ONE
    ensures Tally(AllRewards(acc, numBlocks, inflation)) <= inflation
  {
    if numBlocks == 0 {
      SumMonotone<Address>(AllRewards(acc, numBlocks, inflation), map[]);
    } else {
      var claims := Scaled(acc, 1, numBlocks);
      PartsAtMost(acc, 1, numBlocks, DEC_ONE);
      PartsAtMost(claims, inflation, DEC_ONE, 1);
      AllRewardsScaled(acc, numBlocks, inflation);
    }
  }

  /** A reward is the share of the inflation by the accumulator per block, rounded down twice. */
  lemma RewardNear(value: nat, numBlocks: nat, inflation: Amount) returns (claim: nat)
    requires numBlocks > 0
    ensures claim * numBlocks <= value < (claim + 1) * numBlocks
    ensures var reward := RewardTokens(value, numBlocks, inflation);
            reward * DEC_ONE <= claim * inflation < (reward + 1) * DEC_ONE
  {
    hide Part, Floor;
    claim := Floor(value, numBlocks);
    FloorLosesLess(value, numBlocks);
    PartLosesLess(claim, inflation, DEC_ONE);
    OneMore(RewardTokens(value, numBlocks, inflation), DEC_ONE);
  }

  lemma FloorLosesLess(a: nat, d: nat)
    requires d > 0
    ensures a < (Floor(a, d) + 1) * d
  {
    FloorIsGreatest(a, d);
  }

  lemma OneMore(a: nat, d: nat)
    ensures (a + 1) * d == a * d + d
  {
  }

  /** All the inflation that the accumulators claim is paid but for the roundings: less than one token and one claim of the
      twelfth decimal place for each validator. */
  lemma RewardsNearInflation(acc: map<Address, nat>, numBlocks: nat, inflation: Amount)
    requires numBlocks > 0 && Tally(acc) == numBlocks * DEC_ONE
    ensures DEC_ONE * inflation <= DEC_ONE * Tally(AllRewards(acc, numBlocks, inflation)) + |acc| * (inflation + DEC_ONE)
  {
    hide Scaled;
    var claims := Scaled(acc, 1, numBlocks);
    FloorSumAtLeast(acc, 1, numBlocks);
    FloorSumAtLeast(claims, inflation, DEC_ONE);
    ScaledSize(acc, 1, numBlocks);
    AllRewardsScaled(acc, numBlocks, inflation);
    var claimed, paid := Tally(claims), Tally(AllRewards(acc, numBlocks, inflation));
    assert numBlocks * (claimed + |acc|) == claimed * numBlocks + |acc| * numBlocks;
    Cancel(numBlocks, DEC_ONE, claimed + |acc|);
    MulMono(inflation, DEC_ONE, claimed + |acc|);
    assert inflation * (claimed + |acc|) == claimed * inflation + |acc| * inflation;
    assert |acc| * (inflation + DEC_ONE) == |acc| * inflation + |acc| * DEC_ONE;
  }

  lemma AllRewardsScaled(acc: map<Address, nat>, numBlocks: nat, inflation: Amount)
    requires numBlocks > 0
    ensures AllRewards(acc, numBlocks, inflation) == Scaled(Scaled(acc, 1, numBlocks), inflation, DEC_ONE)
  {
  }

  /** After at most as many blocks as the epoch is charged for, the running remainder never goes below zero: the rewards are
      paid in full, and what is left is the inflation less their sum. */
  lemma MintIsExact(blocks: seq<Block>, proposerReward: nat, signerReward: int, numBlocks: nat, inflation: Amount)
    requires forall i | 0 <= i < |blocks| :: Sound(blocks[i], proposerReward, signerReward)
    requires |blocks| <= numBlocks
    ensures var acc := Accumulator(blocks, proposerReward, signerReward);
            && (forall v | v in acc :: acc[v] >= 0)
            && Tally(AllRewards(acc, numBlocks, inflation)) <= inflation
            && RemainingFrom(acc, acc.Keys, numBlocks, inflation, inflation) ==
               Some(inflation - Tally(AllRewards(acc, numBlocks, inflation)))
  {
    hide RemainingFrom, AllRewards, Accumulator;
    AccumulatorBound(blocks, proposerReward, signerReward);
    var acc: map<Address, nat> := Accumulator(blocks, proposerReward, signerReward);
    MulMono(DEC_ONE, |blocks|, numBlocks);
    RewardsWithinInflation(acc, numBlocks, inflation);
    RewardKeys(acc, numBlocks, inflation);
    RemainingIs(acc, acc.Keys, numBlocks, inflation, inflation);
  }

  lemma RewardKeys(acc: map<Address, nat>, numBlocks: nat, inflation: Amount)
    ensures Only(AllRewards(acc, numBlocks, inflation), acc.Keys) == AllRewards(acc, numBlocks, inflation)
  {
  }

  // ---- Products and commissions ----

  /** One token in the smallest unit, as a decimal. */
  const UNIT: nat := 1_000_000

  /** The rewards product: what remains of the reward after the commission, per unit of stake. */
  function Product(reward: Amount, rate: nat, stake: Amount): int
    requires stake > 0
  {
    TruncDiv(DecMul(DEC_ONE - rate, reward * UNIT) * DEC_ONE, stake * UNIT)
  }

  function Commission(reward: Amount, rate: nat): Amount {
    Part(rate, reward, DEC_ONE)
  }

  /** However the stake is split into bonds, the bonds' shares by the product and the commission together never exceed the
      validator's reward. */
  lemma SharesWithinReward(bonds: map<Address, nat>, reward: Amount, rate: nat, stake: Amount)
    requires stake > 0 && rate <= DEC_ONE && Tally(bonds) <= stake
    ensures Product(reward, rate, stake) >= 0
    ensures Tally(Scaled(bonds, Product(reward, rate, stake), DEC_ONE)) + Commission(reward, rate) <= reward
  {
    ProductBound(reward, rate, stake);
    var product := Product(reward, rate, stake);
    FloorSum(bonds, product, DEC_ONE);
    MulMono(product, Tally(bonds), stake);
    var shares := Tally(Scaled(bonds, product, DEC_ONE));
    assert product * Tally(bonds) == Tally(bonds) * product;
    assert shares * DEC_ONE <= product * stake;
    ShareArithmetic(shares, product, reward, rate, stake);
  }

  lemma ProductBound(reward: Amount, rate: nat, stake: Amount)
    requires stake > 0 && rate <= DEC_ONE
    ensures var product := Product(reward, rate, stake);
            product >= 0 && product * stake <= (DEC_ONE - rate) * reward
  {
    var rest := DEC_ONE - rate;
    MulMono(rest, 0, reward * UNIT);
    FloorTimes(rest * (reward * UNIT), DEC_ONE);
    var after := DecMul(rest, reward * UNIT);
    assert after * DEC_ONE <= rest * (reward * UNIT);
    FloorTimes(after * DEC_ONE, stake * UNIT);
    var product := Product(reward, rate, stake);
    assert product * (stake * UNIT) <= after * DEC_ONE;
    assert product * (stake * UNIT) == UNIT * (product * stake);
    assert rest * (reward * UNIT) == UNIT * (rest * reward);
  }

  lemma ShareArithmetic(shares: nat, product: nat, reward: Amount, rate: nat, stake: Amount)
    requires rate <= DEC_ONE && shares * DEC_ONE <= product * stake && product * stake <= (DEC_ONE - rate) * reward
    ensures shares + Commission(reward, rate) <= reward
  {
    var commission := Commission(reward, rate);
    assert commission * DEC_ONE <= rate * reward;
    assert (DEC_ONE - rate) * reward == DEC_ONE * reward - rate * reward;
  }

  /** The commission is the rate of the reward, rounded down. */
  lemma CommissionIsFloor(reward: Amount, rate: nat)
    ensures Commission(reward, rate) * DEC_ONE <= rate * reward < (Commission(reward, rate) + 1) * DEC_ONE
  {
    MulMono(rate, 0, reward);
    FloorIsGreatest(rate * reward, DEC_ONE);
  }

  /** The product of the stake misses the reward less the commission by less than one rounding per unit of stake and one of
      the reward. */
  lemma ProductNear(reward: Amount, rate: nat, stake: Amount)
    requires stake > 0 && rate <= DEC_ONE
    ensures var product := Product(reward, rate, stake);
            product * stake <= (DEC_ONE - rate) * reward < (product + 1) * stake + UNIT
  {
    ProductBound(reward, rate, stake);
    var rest, product := DEC_ONE - rate, Product(reward, rate, stake);
    MulMono(rest, 0, reward * UNIT);
    FloorIsGreatest(rest * (reward * UNIT), DEC_ONE);
    var after := DecMul(rest, reward * UNIT);
    assert rest * (reward * UNIT) < (after + 1) * DEC_ONE;
    FloorIsGreatest(after * DEC_ONE, stake * UNIT);
    assert after * DEC_ONE < (product + 1) * (stake * UNIT);
    assert (product + 1) * (stake * UNIT) == UNIT * ((product + 1) * stake);
    assert rest * (reward * UNIT) == UNIT * (rest * reward);
    assert DEC_ONE == UNIT * UNIT;
    assert UNIT * (rest * reward) < UNIT * ((product + 1) * stake + UNIT);
  }

  /** If the bonds make up the stake, their shares and the commission together miss the reward by less than one token for each
      bond, one for the commission, and the roundings of the product. */
  lemma SharesNearReward(bonds: map<Address, nat>, reward: Amount, rate: nat, stake: Amount)
    requires stake > 0 && rate <= DEC_ONE && Tally(bonds) == stake
    ensures var product := Product(reward, rate, stake);
            && product >= 0
            && DEC_ONE * reward <
               DEC_ONE * (Tally(Scaled(bonds, product, DEC_ONE)) + Commission(reward, rate) + |bonds| + 1) + stake + UNIT
  {
    hide Product, Commission, Scaled;
    ProductBound(reward, rate, stake);
    ProductNear(reward, rate, stake);
    CommissionIsFloor(reward, rate);
    var product := Product(reward, rate, stake);
    FloorSumAtLeast(bonds, product, DEC_ONE);
    NearReward(Tally(Scaled(bonds, product, DEC_ONE)), Commission(reward, rate), product, reward, rate, stake, |bonds|);
  }

  lemma NearReward(shares: nat, commission: nat, product: nat, reward: nat, rate: nat, stake: nat, n: nat)
    requires rate <= DEC_ONE && stake * product <= shares * DEC_ONE + n * DEC_ONE
    requires (DEC_ONE - rate) * reward < (product + 1) * stake + UNIT && rate * reward < (commission + 1) * DEC_ONE
    ensures DEC_ONE * reward < DEC_ONE * (shares + commission + n + 1) + stake + UNIT
  {
    assert (DEC_ONE - rate) * reward == DEC_ONE * reward - rate * reward;
    assert (product + 1) * stake == stake * product + stake;
  }

  // ---- The storage operations ----

  /** The loop over the votes. */
  method CountVotes(votes: seq<Vote>, inConsensusState: set<Address>, stakes: map<Address, Amount>)
      returns (bad: Option<nat>, signers: set<Address>, signing: Amount)
    ensures bad.None? <==> VotesOk(votes, inConsensusState)
    ensures bad.Some? ==>
              && bad.value < |votes| && !VoteOk(votes[bad.value], inConsensusState)
              && forall j | 0 <= j < bad.value :: VoteOk(votes[j], inConsensusState)
    ensures bad.None? ==> signers == Signers(votes) && signing == SigningStake(votes, stakes)
  {
    signers, signing := {}, 0;
    for i := 0 to |votes|
      invariant forall j | 0 <= j < i :: VoteOk(votes[j], inConsensusState)
      invariant signers == Signers(votes[..i]) && signing == SigningStake(votes[..i], stakes)
    {
      PrefixNext(votes, i);
      var vote := votes[i];
      if vote.power != 0 {
        if vote.validator !in inConsensusState {
          return Some(i), signers, signing;
        }
        signers := signers + {vote.validator};
        signing := signing + Get(stakes, vote.validator);
      }
    }
    assert votes[..|votes|] == votes;
    return None, signers, signing;
  }

  /** The loop over the consensus set. */
  method ComputeFractions(b: Block, c: Coeffs, signers: set<Address>,
                          signing: Amount) returns (values: map<Address, int>)
    requires b.total > 0 && signing > 0
    ensures values == Fractions(b, c, signers, signing)
  {
    hide DecMul, Ratio;
    values := map[];
    var rest := b.consensus.Keys;
    while rest != {}
      invariant rest <= b.consensus.Keys
      invariant values.Keys == set v | v in b.consensus && v !in rest && b.consensus[v] > 0
      invariant forall v | v in values :: values[v] == Fraction(b, c, signers, signing, v)
      decreases rest
    {
      var v :| v in rest;
      rest := rest - {v};
      var stake := b.consensus[v];
      if stake != 0 {
        var fraction := 0;
        if v == b.proposer {
          fraction := fraction + c.proposer;
        }
        if v in signers {
          fraction := fraction + DecMul(c.signer, Ratio(stake, signing));
        }
        fraction := fraction + DecMul(c.active, Ratio(stake, b.total));
        values := values[v := fraction];
      }
    }
  }

  method AddToAccumulators(acc: map<Address, int>, values: map<Address, int>) returns (sum: map<Address, int>)
    ensures sum == Accumulated(acc, values)
  {
    sum := acc;
    var rest := values.Keys;
    while rest != {}
      invariant rest <= values.Keys
      invariant sum.Keys == acc.Keys + (values.Keys - rest)
      invariant forall v | v in sum && v !in rest :: sum[v] == GetInt(acc, v) + GetInt(values, v)
      invariant forall v | v in rest :: GetInt(sum, v) == GetInt(acc, v)
      decreases rest
    {
      var v :| v in rest;
      rest := rest - {v};
      sum := sum[v := GetInt(sum, v) + values[v]];
    }
  }

  method AddToCounters(counters: map<Address, Amount>,
                       commissions: map<Address, Amount>) returns (sum: map<Address, Amount>)
    ensures forall v: Address :: Get(sum, v) == Get(counters, v) + Get(commissions, v)
  {
    sum := counters;
    var rest := commissions.Keys;
    while rest != {}
      invariant rest <= commissions.Keys
      invariant forall v: Address | v !in rest :: Get(sum, v) == Get(counters, v) + Get(commissions, v)
      invariant forall v: Address | v in rest :: Get(sum, v) == Get(counters, v)
      decreases rest
    {
      var v :| v in rest;
      rest := rest - {v};
      sum := sum[v := Get(sum, v) + commissions[v]];
    }
  }

  /** The loop over the accumulators: the running remainder, the products and the commissions. */
  method ComputeRewards(acc: map<Address, int>, numBlocks: nat, inflation: Amount, stakes: map<Address, Amount>,
                        rates: map<Address, nat>)
      returns (result: Option<Amount>, products: map<Address, int>, commissions: map<Address, Amount>)
    requires forall v | v in acc :: v in rates && v in stakes && stakes[v] > 0
    ensures result == RemainingFrom(acc, acc.Keys, numBlocks, inflation, inflation)
    ensures result.Some? ==> result.value <= inflation && products.Keys == acc.Keys && commissions.Keys == acc.Keys
    ensures result.Some? ==> forall v | v in acc :: Rewarded(acc, numBlocks, inflation, stakes, rates, products, commissions, v)
  {
    hide RewardTokens, Product, Commission;
    products, commissions := map[], map[];
    var remaining: Amount := inflation;
    var rest := acc.Keys;
    while rest != {}
      invariant rest <= acc.Keys && remaining <= inflation
      invariant RemainingFrom(acc, rest, numBlocks, inflation, remaining) ==
                RemainingFrom(acc, acc.Keys, numBlocks, inflation, inflation)
      invariant products.Keys == acc.Keys - rest && commissions.Keys == acc.Keys - rest
      invariant forall v | v in acc.Keys - rest ::
                  Rewarded(acc, numBlocks, inflation, stakes, rates, products, commissions, v)
      decreases rest
    {
      var v := MinKey(rest);
      if acc[v] < 0 {
        return None, products, commissions;
      }
      var reward := RewardTokens(acc[v], numBlocks, inflation);
      products := products[v := Product(reward, rates[v], stakes[v])];
      commissions := commissions[v := Commission(reward, rates[v])];
      if reward > remaining {
        return None, products, commissions;
      }
      remaining := remaining - reward;
      rest := rest - {v};
    }
    return Some(remaining), products, commissions;
  }

  /** What minting computes for one validator. */
  predicate Rewarded(acc: map<Address, int>, numBlocks: nat, inflation: Amount, stakes: map<Address, Amount>,
                     rates: map<Address, nat>,
                     products: map<Address, int>, commissions: map<Address, Amount>, v: Address)
    requires v in acc && v in rates && v in stakes && stakes[v] > 0
  {
    && acc[v] >= 0
    && (var reward := RewardTokens(acc[v], numBlocks, inflation);
        && v in products && products[v] == Product(reward, rates[v], stakes[v])
        && v in commissions && commissions[v] == Commission(reward, rates[v]))
  }

  class Storage {
    var accumulator: map<Address, int>
    var products: map<Address, int>
    var counters: map<Address, Amount>
    var posBalance: Amount
    var govBalance: Amount

    constructor ()
      ensures accumulator == map[] && products == map[] && counters == map[] && posBalance == 0 && govBalance == 0
    {
      accumulator, products, counters, posBalance, govBalance := map[], map[], map[], 0, 0;
    }

    method LogBlockRewards(b: Block, proposerReward: nat, signerReward: int) returns (r: Result<(), Error>)
      modifies this`accumulator
      ensures var values := BlockRewards(b, proposerReward, signerReward);
              && (r.Ok? <==> values.Ok?)
              && (r.Err? ==> r.error == values.error && accumulator == old(accumulator))
              && (r.Ok? ==> accumulator == Accumulated(old(accumulator), values.value))
    {
      var bad, signers, signing := CountVotes(b.votes, b.inConsensusState, b.stakes);
      if bad.Some? {
        return Err(ExpectedValidatorInConsensus(b.votes[bad.value].validator));
      }
      var c := RewardCoeffs(proposerReward, signerReward, signing, b.total);
      if c.Err? {
        return Err(c.error);
      }
      EnoughSigned(signing, b.total);
      var values := ComputeFractions(b, c.value, signers, signing);
      accumulator := AddToAccumulators(accumulator, values);
      return Ok(());
    }

    /** Every validator with an accumulator has a commission rate and some stake in the last epoch. */
    method MintInflation(numBlocks: nat, inflation: Amount, stakes: map<Address, Amount>, rates: map<Address, nat>)
        returns (r: Result<(), Error>)
      requires forall v | v in accumulator :: v in rates && v in stakes && stakes[v] > 0
      modifies this
      ensures var left := RemainingFrom(old(accumulator), old(accumulator).Keys, numBlocks, inflation, inflation);
              && (r.Ok? <==> left.Some?)
              && (r.Ok? ==>
                    && left.value <= inflation
                    && posBalance == old(posBalance) + (inflation - left.value)
                    && govBalance == old(govBalance) + left.value
                    && accumulator == map[]
                    && (forall v | v in old(accumulator) ::
                          && old(accumulator)[v] >= 0
                          && (var reward := RewardTokens(old(accumulator)[v], numBlocks, inflation);
                              && v in products && products[v] == Product(reward, rates[v], stakes[v])
                              && Get(counters, v) == Get(old(counters), v) + Commission(reward, rates[v]))))
              && (r.Err? ==> unchanged(this))
    {
      hide RewardTokens, Product, Commission;
      var result, newProducts, commissions := ComputeRewards(accumulator, numBlocks, inflation, stakes, rates);
      if result.None? {
        return Err(Underflow);
      }
      var remaining := result.value;
      products := products + newProducts;
      counters := AddToCounters(counters, commissions);
      posBalance := posBalance + (inflation - remaining);
      if remaining > 0 {
        govBalance := govBalance + remaining;
      }
      accumulator := map[];
      return Ok(());
    }
  }
}
