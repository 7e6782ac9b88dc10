/** The second-price auction with a bid-weighted draw.

  Campaign prices are whole cents. Unit bids are millicents: a price per click counts a thousandfold,
  a price per thousand impressions as it is.
 */
module Auction {
  import opened Books

  datatype Candidate = Candidate(
    id: CampaignId,
    maxCpc: nat,
    maxCpm: Option<nat>,
    balance: int,        // the advertiser's available balance, in millicents
    status: CampaignStatus,
    adFormat: string,
    category: string,
    countries: seq<string>,
    devices: seq<string>,
    capLimit: Option<int>,
    capWindow: Option<int>)
  {
    predicate PaysPerMille() {
      maxCpm.Some? && maxCpm.value > 0
    }

    function UnitBid(): nat {
      if PaysPerMille() then maxCpm.value else maxCpc * MILLICENTS_PER_CENT
    }

    /** The price in the unit the campaign is billed in. */
    function Price(): nat {
      if PaysPerMille() then maxCpm.value else maxCpc
    }

    function WithPrice(cents: nat): Candidate {
      if PaysPerMille() then this.(maxCpm := Some(cents)) else this.(maxCpc := cents)
    }
  }

  // --- the weighted draw ---

  /** Where the slice of entry `i` begins on the line of all bids. */
  function Before(bids: seq<nat>, i: nat): nat
    requires i <= |bids|
  {
    if i == 0 then 0 else Before(bids, i - 1) + bids[i - 1]
  }

  function TotalBid(bids: seq<nat>): nat {
    Before(bids, |bids|)
  }

  lemma {:induction false} BeforeGrows(bids: seq<nat>, i: nat, j: nat)
    requires i <= j <= |bids|
    ensures Before(bids, i) <= Before(bids, j)
  {
    if i < j {
      BeforeGrows(bids, i, j - 1);
    }
  }

  /** `target` lies in the slice of entry `i`, which is as wide as its bid. */
  predicate InSlice(bids: seq<nat>, i: nat, target: real) {
    i < |bids| && Before(bids, i) as real <= target < Before(bids, i + 1) as real
  }

  lemma SlicesAreDisjoint(bids: seq<nat>, i: nat, j: nat, target: real)
    requires InSlice(bids, i, target) && InSlice(bids, j, target)
    ensures i == j
  {
    if i < j {
      BeforeGrows(bids, i + 1, j);
    } else if j < i {
      BeforeGrows(bids, j + 1, i);
    }
  }

  /** Walks the line until the target is passed; it never walks off the end. */
  method PickAt(bids: seq<nat>, target: real) returns (winner: nat)
    requires 0.0 <= target < TotalBid(bids) as real
    ensures InSlice(bids, winner, target)
  {
    var cumulative := 0;
    for i := 0 to |bids|
      invariant cumulative == Before(bids, i)
      invariant cumulative as real <= target
    {
      cumulative := cumulative + bids[i];
      if target < cumulative as real {
        return i;
      }
    }
    assert false;
  }

  /** The roll picks `winner`: on the line of all bids, or evenly when nobody bids anything. */
  ghost predicate Drawn(bids: seq<nat>, roll: real, winner: nat)
    requires 0.0 <= roll < 1.0
  {
    if TotalBid(bids) > 0 then InSlice(bids, winner, Scaled(roll, TotalBid(bids)))
    else |bids| > 0 && winner == Scaled(roll, |bids|).Floor
  }

  function Scaled(roll: real, n: nat): (target: real)
    requires 0.0 <= roll < 1.0 && n > 0
    ensures 0.0 <= target < n as real
  {
    roll * n as real
  }

  /** Picks an entry with one roll. */
  method DrawWeightedWinner(bids: seq<nat>, roll: real) returns (winner: nat)
    requires |bids| > 0 && 0.0 <= roll < 1.0
    ensures winner < |bids| && Drawn(bids, roll, winner)
  {
    var totalBid := 0;
    for i := 0 to |bids|
      invariant totalBid == Before(bids, i)
    {
      totalBid := totalBid + bids[i];
    }
    if totalBid <= 0 {
      return Scaled(roll, |bids|).Floor;
    }
    winner := PickAt(bids, Scaled(roll, totalBid));
  }

  /** Main result: over positive bids an entry wins exactly on the targets of its own slice. */
  lemma WinnerIsTheSlice(bids: seq<nat>, winner: nat, i: nat, target: real)
    requires InSlice(bids, winner, target)
    ensures winner == i <==> InSlice(bids, i, target)
  {
    if InSlice(bids, i, target) {
      SlicesAreDisjoint(bids, winner, i, target);
    }
  }

  /** On how many of the first `n` whole-number targets entry `i` wins. */
  function Wins(bids: seq<nat>, i: nat, n: nat): nat {
    if n == 0 then 0 else Wins(bids, i, n - 1) + if InSlice(bids, i, (n - 1) as real) then 1 else 0
  }

  lemma {:induction false} WinsSoFar(bids: seq<nat>, i: nat, n: nat)
    requires i < |bids|
    ensures Wins(bids, i, n) ==
              if n <= Before(bids, i) then 0
              else if n <= Before(bids, i + 1) then n - Before(bids, i)
              else bids[i]
  {
    if n > 0 {
      WinsSoFar(bids, i, n - 1);
    }
  }

  /** Main result: of all whole-number targets exactly as many pick an entry as it bids; a zero bid never wins. */
  lemma DrawIsProportional(bids: seq<nat>, i: nat)
    requires i < |bids|
    ensures Wins(bids, i, TotalBid(bids)) == bids[i]
    ensures bids[i] == 0 ==> forall target: real :: !InSlice(bids, i, target)
  {
    BeforeGrows(bids, i + 1, |bids|);
    WinsSoFar(bids, i, TotalBid(bids));
  }

  /** Every target on the line picks somebody. */
  lemma {:induction false} EveryTargetPicks(bids: seq<nat>, target: real, n: nat) returns (i: nat)
    requires n <= |bids| && 0.0 <= target < Before(bids, n) as real
    ensures i < n && InSlice(bids, i, target)
  {
    if target < Before(bids, n - 1) as real {
      i := EveryTargetPicks(bids, target, n - 1);
    } else {
      i := n - 1;
    }
  }

  // --- the clearing price ---

  function UnitBids(entries: seq<Candidate>): (bids: seq<nat>)
    ensures |bids| == |entries| && forall i | 0 <= i < |entries| :: bids[i] == entries[i].UnitBid()
  {
    seq(|entries|, i requires 0 <= i < |entries| => entries[i].UnitBid())
  }

  predicate IsRival(entries: seq<Candidate>, i: nat, winner: Candidate) {
    i < |entries| && entries[i].id != winner.id
  }

  /** The highest unit bid of the others, zero without any. */
  method RunnerUpUnitBid(entries: seq<Candidate>, winner: Candidate) returns (max: nat)
    ensures forall i: nat | IsRival(entries, i, winner) :: entries[i].UnitBid() <= max
    ensures max > 0 ==> exists i: nat :: IsRival(entries, i, winner) && entries[i].UnitBid() == max
  {
    max := 0;
    for n := 0 to |entries|
      invariant forall i: nat | i < n && IsRival(entries, i, winner) :: entries[i].UnitBid() <= max
      invariant max > 0 ==> exists i: nat :: i < n && IsRival(entries, i, winner) && entries[i].UnitBid() == max
    {
      if entries[n].id != winner.id && entries[n].UnitBid() > max {
        max := entries[n].UnitBid();
        assert IsRival(entries, n, winner);
      }
    }
  }

  /** Rounds millicents to whole cents, half up, but never below one cent. */
  function RoundToBillableCents(millicents: nat): nat {
    var rounded := (millicents + MILLICENTS_PER_CENT / 2) / MILLICENTS_PER_CENT;
    if rounded > 0 then rounded else 1
  }

  function ApplyClearingPrice(c: Candidate, clearing: nat): Candidate {
    c.WithPrice(if c.PaysPerMille() then RoundToBillableCents(clearing * 1000) else RoundToBillableCents(clearing))
  }

  /** `clearing` is the second price for `winner`: its own bid when nobody else bids or
      somebody bids as much, and otherwise the best rival's bid. */
  ghost predicate IsSecondPrice(entries: seq<Candidate>, winner: Candidate, clearing: nat) {
    var own := winner.UnitBid();
    if clearing == own then
      || (forall i: nat | IsRival(entries, i, winner) :: entries[i].UnitBid() == 0)
      || (exists i: nat :: IsRival(entries, i, winner) && entries[i].UnitBid() >= own)
    else
      && 0 < clearing < own
      && (forall i: nat | IsRival(entries, i, winner) :: entries[i].UnitBid() <= clearing)
      && (exists i: nat :: IsRival(entries, i, winner) && entries[i].UnitBid() == clearing)
  }

  /** There is one second price only. */
  lemma SecondPriceIsUnique(entries: seq<Candidate>, winner: Candidate, a: nat, b: nat)
    requires IsSecondPrice(entries, winner, a) && IsSecondPrice(entries, winner, b)
    ensures a == b
  {
    var own := winner.UnitBid();
    if a != own {
      var i: nat :| IsRival(entries, i, winner) && entries[i].UnitBid() == a;
      assert b == own || entries[i].UnitBid() <= b;
    }
    if b != own {
      var j: nat :| IsRival(entries, j, winner) && entries[j].UnitBid() == b;
      assert a == own || entries[j].UnitBid() <= a;
    }
  }

  /** The winner drawn with `roll`, at the second price. */
  method RunSecondPriceAuction(entries: seq<Candidate>, roll: real) returns (winner: nat, selected: Option<Candidate>)
    requires 0.0 <= roll < 1.0
    ensures selected.None? <==> entries == []
    ensures entries != [] ==>
              && winner < |entries| && Drawn(UnitBids(entries), roll, winner)
              && exists clearing: nat :: IsSecondPrice(entries, entries[winner], clearing)
                                         && selected == Some(ApplyClearingPrice(entries[winner], clearing))
  {
    if |entries| == 0 {
      return 0, None;
    }
    winner := DrawWeightedWinner(UnitBids(entries), roll);
    var entry := entries[winner];
    var runnerUp := RunnerUpUnitBid(entries, entry);
    var clearing := if runnerUp > 0 then Min(entry.UnitBid(), runnerUp) else entry.UnitBid();
    selected := Some(ApplyClearingPrice(entry, clearing));
    MinimumIsSecondPrice(entries, entry, runnerUp);
  }

  function Min(a: nat, b: nat): nat {
    if b < a then b else a
  }

  lemma MinimumIsSecondPrice(entries: seq<Candidate>, winner: Candidate, max: nat)
    requires forall i: nat | IsRival(entries, i, winner) :: entries[i].UnitBid() <= max
    requires max > 0 ==> exists i: nat :: IsRival(entries, i, winner) && entries[i].UnitBid() == max
    ensures IsSecondPrice(entries, winner, if max > 0 then Min(winner.UnitBid(), max) else winner.UnitBid())
  {
  }

  /** Clearing changes the price and nothing else. The price is at least a cent; it stays
      within the campaign's own price unless that price is zero. */
  lemma ClearedPriceBound(c: Candidate, clearing: nat)
    requires exists entries :: IsSecondPrice(entries, c, clearing)
    ensures var price := ApplyClearingPrice(c, clearing).Price();
            && price >= 1
            && (price <= c.Price() <==> c.Price() >= 1)
    ensures ApplyClearingPrice(c, clearing).WithPrice(c.Price()) == c
    ensures ApplyClearingPrice(c, clearing).PaysPerMille() == c.PaysPerMille()
    ensures clearing == c.UnitBid() && c.Price() >= 1 ==> ApplyClearingPrice(c, clearing) == c
    ensures c.PaysPerMille() && clearing >= 1 ==> ApplyClearingPrice(c, clearing).Price() == clearing
    ensures clearing < (if c.PaysPerMille() then 1 else MILLICENTS_PER_CENT / 2) ==>
              ApplyClearingPrice(c, clearing).Price() == 1
    ensures !c.PaysPerMille() && clearing >= MILLICENTS_PER_CENT / 2 ==>
              var price := ApplyClearingPrice(c, clearing).Price() * MILLICENTS_PER_CENT;
              -MILLICENTS_PER_CENT / 2 < price - clearing <= MILLICENTS_PER_CENT / 2
  {
  }

  /** A price per click is a thousand millicents for each cent; a price per thousand impressions is a millicent each. */
  lemma PriceOfOne(c: Candidate)
    ensures match c.maxCpm
            case Some(cents) => c.UnitBid() == if cents > 0 then cents else c.maxCpc * 1000
            case None => c.UnitBid() == c.maxCpc * 1000
  {
  }

  /** `k` of `n` equal parts of the unit interval. */
  function Part(k: nat, n: nat): real
    requires n > 0
  {
    k as real / n as real
  }

  lemma ScaleBack(roll: real, n: nat, k: nat)
    requires 0.0 <= roll < 1.0 && n > 0
    ensures Part(k, n) <= roll <==> k as real <= Scaled(roll, n)
  {
    var r := n as real;
    assert k as real == k as real / r * r;
  }

  /** In terms of the roll: an entry is drawn on a part of the unit interval as large as its part of all bids. */
  lemma DrawnOnItsPart(bids: seq<nat>, roll: real, winner: nat)
    requires 0.0 <= roll < 1.0 && winner < |bids| && TotalBid(bids) > 0
    ensures Drawn(bids, roll, winner) <==>
              Part(Before(bids, winner), TotalBid(bids)) <= roll
              && roll < Part(Before(bids, winner) + bids[winner], TotalBid(bids))
  {
    hide Part;
    hide Scaled;
    assert Before(bids, winner + 1) == Before(bids, winner) + bids[winner];
    ScaleBack(roll, TotalBid(bids), Before(bids, winner));
    ScaleBack(roll, TotalBid(bids), Before(bids, winner + 1));
  }

  /** And on an equal part when nobody bids anything. */
  lemma DrawnEvenly(bids: seq<nat>, roll: real, winner: nat)
    requires 0.0 <= roll < 1.0 && winner < |bids| && TotalBid(bids) == 0
    ensures Drawn(bids, roll, winner) <==> Part(winner, |bids|) <= roll < Part(winner + 1, |bids|)
  {
    hide Part;
    hide Scaled;
    ScaleBack(roll, |bids|, winner);
    ScaleBack(roll, |bids|, winner + 1);
    var target := Scaled(roll, |bids|);
    assert target.Floor == winner <==> winner as real <= target < (winner + 1) as real;
  }
}
