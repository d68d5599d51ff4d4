/** packages/crypto/ts/babyjub.ts, generateRandomBabyJubValue: why the sampler is fair, and exactly when one like it would be. */
module RejectionSampling {
  import opened Field
  import opened Powers
  import opened Results

  /** Draws below this are rejected. */
  const MIN: nat := 6350874878119819312338956282401532410528162663560392320966563075034087161851

  const LIM: nat := 0x1_0000000000000000_0000000000000000_0000000000000000_0000000000000000

  /** The place of the first accepted draw, or the length if there is none. */
  function FirstAccepted(draws: seq<nat>): (k: nat)
    ensures k <= |draws| && (k < |draws| ==> draws[k] >= MIN) && forall j :: 0 <= j < k ==> draws[j] < MIN
  {
    if draws == [] || draws[0] >= MIN then 0 else 1 + FirstAccepted(draws[1..])
  }

  /**
   The sampler on a given sequence of 32-byte draws. It returns as soon as a draw is accepted; None stands for the
   source still drawing when the sequence is used up.
   */
  method GenerateRandomBabyJubValue(draws: seq<nat>) returns (r: Option<nat>)
    ensures r.None? <==> forall j :: 0 <= j < |draws| ==> draws[j] < MIN
    ensures r.Some? ==> r.value < SNARK_FIELD_SIZE
    ensures r.Some? ==> r.value == draws[FirstAccepted(draws)] % SNARK_FIELD_SIZE
  {
    var privateKey := SNARK_FIELD_SIZE;
    var i := 0;
    while privateKey >= SNARK_FIELD_SIZE
      invariant 0 <= i <= |draws|
      invariant privateKey == SNARK_FIELD_SIZE ==> forall j :: 0 <= j < i ==> draws[j] < MIN
      invariant privateKey == SNARK_FIELD_SIZE ==> FirstAccepted(draws) == i + FirstAccepted(draws[i..])
      invariant privateKey != SNARK_FIELD_SIZE ==>
        FirstAccepted(draws) < |draws| && privateKey == draws[FirstAccepted(draws)] % SNARK_FIELD_SIZE
      decreases |draws| - i
    {
      if i == |draws| {
        return None;
      }
      var rand := draws[i];
      if rand >= MIN {
        privateKey := rand % SNARK_FIELD_SIZE;
      }
      i := i + 1;
    }
    r := Some(privateKey);
  }

  // ----- counting

  /** The draws from lo on and below hi that reduce to x. */
  function WithResidue(r: nat, x: nat, lo: nat, hi: nat): set<nat>
    requires r >= 1
  {
    set v: nat | lo <= v < hi && v % r == x
  }

  lemma Successor(n: nat, r: nat)
    requires r >= 1
    ensures (n + 1) / r == (if n % r == r - 1 then n / r + 1 else n / r)
    ensures (n + 1) % r == (if n % r == r - 1 then 0 else n % r + 1)
  {
    RoundDown(n, r);
    if n % r == r - 1 {
      assert (n / r + 1) * r == n / r * r + r;
      DivDigit(n / r + 1, 0, r);
    } else {
      DivDigit(n / r, n % r + 1, r);
    }
  }

  /** Below hi there are hi / r values with each residue, and one more for the residues below hi % r. */
  lemma {:induction false} CountBelow(r: nat, x: nat, hi: nat)
    requires x < r
    ensures |WithResidue(r, x, 0, hi)| == hi / r + if x < hi % r then 1 else 0
  {
    if hi == 0 {
      DivDigit(0, 0, r);
    } else {
      CountBelow(r, x, hi - 1);
      Successor(hi - 1, r);
      var before, after := WithResidue(r, x, 0, hi - 1), WithResidue(r, x, 0, hi);
      if (hi - 1) % r == x {
        assert after == before + {hi - 1};
      } else {
        assert after == before;
      }
    }
  }

  lemma CountBetween(r: nat, x: nat, lo: nat, hi: nat)
    requires x < r && lo <= hi
    ensures |WithResidue(r, x, lo, hi)|
         == hi / r - lo / r + (if x < hi % r then 1 else 0) - (if x < lo % r then 1 else 0)
  {
    var below, all := WithResidue(r, x, 0, lo), WithResidue(r, x, 0, hi);
    CountBelow(r, x, lo);
    CountBelow(r, x, hi);
    assert all == below + WithResidue(r, x, lo, hi);
    assert below !! WithResidue(r, x, lo, hi);
  }

  /** Every residue is produced by equally many accepted draws. */
  ghost predicate Fair(r: nat, lo: nat, hi: nat)
    requires r >= 1
  {
    forall x: nat, y: nat :: x < r && y < r ==> |WithResidue(r, x, lo, hi)| == |WithResidue(r, y, lo, hi)|
  }

  /** Rejecting the draws below lo is fair exactly when lo and the number of draws leave the same remainder. */
  lemma FairIff(r: nat, lo: nat, hi: nat)
    requires r >= 1 && lo <= hi
    ensures Fair(r, lo, hi) <==> lo % r == hi % r
  {
    if lo % r == hi % r {
      forall x: nat, y: nat | x < r && y < r
        ensures |WithResidue(r, x, lo, hi)| == |WithResidue(r, y, lo, hi)|
      {
        CountBetween(r, x, lo, hi);
        CountBetween(r, y, lo, hi);
      }
    } else {
      var x := if lo % r < hi % r then lo % r else hi % r;
      CountBetween(r, x, lo, hi);
      CountBetween(r, r - 1, lo, hi);
      assert |WithResidue(r, x, lo, hi)| != |WithResidue(r, r - 1, lo, hi)|;
    }
  }

  /** The threshold of the source's comment, (lim - r) % r, is fair for every field size, and no smaller one is. */
  lemma CommentedThresholdIsLeastFair(r: nat, lim: nat)
    requires 1 <= r <= lim
    ensures Fair(r, (lim - r) % r, lim)
    ensures forall lo: nat :: lo < (lim - r) % r ==> !Fair(r, lo, lim)
  {
    var min := (lim - r) % r;
    SameRemainder(lim, r);
    DivDigit(0, min, r);
    FairIff(r, min, lim);
    forall lo: nat | lo < min
      ensures !Fair(r, lo, lim)
    {
      DivDigit(0, lo, r);
      FairIff(r, lo, lim);
    }
  }

  lemma SameRemainder(lim: nat, r: nat)
    requires 1 <= r <= lim
    ensures (lim - r) % r == lim % r
  {
    RoundDown(lim - r, r);
    assert ((lim - r) / r + 1) * r == (lim - r) / r * r + r;
    DivDigit((lim - r) / r + 1, (lim - r) % r, r);
  }

  /** The coded constant is that threshold for the EIP-197 group order, and leaves exactly five draws per value. */
  lemma CodedConstantIsFair(x: nat)
    requires x < SNARK_FIELD_SIZE
    ensures MIN == (LIM - SNARK_FIELD_SIZE) % SNARK_FIELD_SIZE
    ensures Fair(SNARK_FIELD_SIZE, MIN, LIM)
    ensures |WithResidue(SNARK_FIELD_SIZE, x, MIN, LIM)| == 5
  {
    assert LIM == 5 * SNARK_FIELD_SIZE + MIN;
    DivDigit(5, MIN, SNARK_FIELD_SIZE);
    DivDigit(0, MIN, SNARK_FIELD_SIZE);
    SameRemainder(LIM, SNARK_FIELD_SIZE);
    FairIff(SNARK_FIELD_SIZE, MIN, LIM);
    CountBetween(SNARK_FIELD_SIZE, x, MIN, LIM);
  }
}
