/** The platform fee: what a publisher gets of an amount that an advertiser was charged in full. */
module Fees {
  import opened Books

  const FULL_FEE_BPS := 10_000

  /** The publisher's share in cents, rounded half up. */
  function PublisherShare(raw: nat, feeBps: nat): nat
    requires feeBps <= FULL_FEE_BPS
  {
    (raw * (FULL_FEE_BPS - feeBps) + 5_000_000) / 10_000_000
  }

  /** The share is the whole cent nearest to the exact share, the upper one when two are equally near. */
  lemma ShareIsNearestCent(raw: nat, feeBps: nat)
    requires feeBps <= FULL_FEE_BPS
    ensures var exact := raw * (FULL_FEE_BPS - feeBps);
            var share := PublisherShare(raw, feeBps) * 10_000_000;
            -5_000_000 < share - exact <= 5_000_000
  {
  }

  /** Rounding never pays out more than a whole-cent charge, for any fee. */
  lemma ShareWithinCharge(cents: nat, feeBps: nat)
    requires feeBps <= FULL_FEE_BPS
    ensures PublisherShare(cents * MILLICENTS_PER_CENT, feeBps) <= cents
  {
    var kept := FULL_FEE_BPS - feeBps;
    assert cents * 1000 * kept <= cents * 1000 * FULL_FEE_BPS by {
      MulMonotone(cents * 1000, kept, FULL_FEE_BPS);
    }
  }

  lemma MulMonotone(a: nat, b: nat, c: nat)
    requires b <= c
    ensures a * b <= a * c
  {
  }

  /** The share falls when the fee rises; without a fee it is everything and with the full fee nothing. */
  lemma ShareFallsWithFee(raw: nat, lowFee: nat, highFee: nat)
    requires lowFee <= highFee <= FULL_FEE_BPS
    ensures PublisherShare(raw, highFee) <= PublisherShare(raw, lowFee)
    ensures PublisherShare(raw, FULL_FEE_BPS) == 0
    ensures raw % MILLICENTS_PER_CENT == 0 ==> PublisherShare(raw, 0) * MILLICENTS_PER_CENT == raw
  {
    MulMonotone(raw, FULL_FEE_BPS - highFee, FULL_FEE_BPS - lowFee);
  }
}
