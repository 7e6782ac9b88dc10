/** Choosing the campaign for one ad request: eligibility, visitor caps, auction, and the recorded impression. */
module Targeting {
  import opened Books
  import opened VelocityCounter
  import opened FrequencyCap
  import opened Auction

  datatype Request = Request(country: string, device: string, visitor: VisitorId)  // "" for a missing one

  datatype Zone = Zone(layoutType: string, allowedCategories: seq<string>)

  // --- letter case, for the letters a to z ---

  function Upper(s: string): string {
    seq(|s|, i requires 0 <= i < |s| => if 'a' <= s[i] <= 'z' then s[i] - 32 as char else s[i])
  }

  function Lower(s: string): string {
    seq(|s|, i requires 0 <= i < |s| => if 'A' <= s[i] <= 'Z' then s[i] + 32 as char else s[i])
  }

  predicate ListsCountry(countries: seq<string>, country: string) {
    exists i | 0 <= i < |countries| :: Upper(countries[i]) == country
  }

  predicate ListsDevice(devices: seq<string>, device: string) {
    exists i | 0 <= i < |devices| :: Lower(devices[i]) == Lower(device)
  }

  predicate IsEligible(c: Candidate, request: Request, zone: Zone) {
    && c.status == ACTIVE
    && (c.adFormat == "" || zone.layoutType == "" || c.adFormat == zone.layoutType)
    && (zone.allowedCategories == [] || c.category == "" || c.category in zone.allowedCategories)
    && c.balance > c.UnitBid()
    && (request.country == "" || c.countries == [] || ListsCountry(c.countries, request.country))
    && (c.devices == [] || ListsDevice(c.devices, request.device))
  }

  /** Why a campaign is passed over. */
  datatype Reason = NotActive | OtherFormat | OtherCategory | CannotPay | OtherCountry | OtherDevice

  /** A campaign without a format or a category fits everywhere, a zone without a layout or a list of categories takes
      all, and a campaign without targets reaches everybody. */
  predicate Excludes(reason: Reason, c: Candidate, request: Request, zone: Zone) {
    match reason
    case NotActive => c.status in {DRAFT, PENDING_REVIEW, PAUSED, COMPLETED, ARCHIVED}
    case OtherFormat => |c.adFormat| > 0 && |zone.layoutType| > 0 && c.adFormat != zone.layoutType
    case OtherCategory => |c.category| > 0 && |zone.allowedCategories| > 0 && c.category !in zone.allowedCategories
    case CannotPay =>
      c.balance <= if c.maxCpm.Some? && c.maxCpm.value > 0 then c.maxCpm.value else c.maxCpc * 1000
    case OtherCountry =>
      && |request.country| > 0 && |c.countries| > 0
      && forall i | 0 <= i < |c.countries| :: Upper(c.countries[i]) != request.country
    case OtherDevice =>
      && |c.devices| > 0
      && forall i | 0 <= i < |c.devices| :: Lower(c.devices[i]) != Lower(request.device)
  }

  /** Main result: a campaign is eligible exactly when nothing excludes it. */
  lemma EligibleIffNothingExcludes(c: Candidate, request: Request, zone: Zone)
    ensures IsEligible(c, request, zone) <==> forall reason: Reason :: !Excludes(reason, c, request, zone)
  {
    if IsEligible(c, request, zone) {
      forall reason: Reason ensures !Excludes(reason, c, request, zone) {
        match reason
        case OtherCountry =>
          assert request.country == "" || c.countries == [] || ListsCountry(c.countries, request.country);
        case _ =>
      }
    } else {
      assert Excludes(NotActive, c, request, zone) || Excludes(OtherFormat, c, request, zone)
             || Excludes(OtherCategory, c, request, zone) || Excludes(CannotPay, c, request, zone)
             || Excludes(OtherCountry, c, request, zone) || Excludes(OtherDevice, c, request, zone);
    }
  }

  /** Letter case: the two foldings undo each other, and touch nothing but the letters. */
  lemma CaseFolding(s: string, i: nat)
    requires i < |s|
    ensures |Upper(s)| == |Lower(s)| == |s|
    ensures Lower(Upper(s)) == Lower(s) && Upper(Lower(s)) == Upper(s)
    ensures Upper(s)[i] == s[i] || ('a' <= s[i] <= 'z' && 'A' <= Upper(s)[i] <= 'Z')
    ensures Upper("az") == "AZ" && Lower("AZ") == "az"
  {
  }

  /** The device is matched in any letter case. */
  lemma DeviceCaseDoesNotMatter(c: Candidate, request: Request, zone: Zone)
    ensures IsEligible(c, request.(device := Upper(request.device)), zone) <==> IsEligible(c, request, zone)
  {
    assert Lower(Upper(request.device)) == Lower(request.device);
  }

  /** The eligible campaigns, in cache order. */
  function Eligible(campaigns: seq<Candidate>, request: Request, zone: Zone): (r: seq<Candidate>)
    ensures forall c :: c in r <==> c in campaigns && IsEligible(c, request, zone)
  {
    if campaigns == [] then []
    else
      var n := |campaigns| - 1;
      assert campaigns == campaigns[..n] + [campaigns[n]];
      Eligible(campaigns[..n], request, zone) + if IsEligible(campaigns[n], request, zone) then [campaigns[n]] else []
  }

  /** The order of the cache is kept: the eligible part of two lists is that of the first, then that of the second. */
  lemma {:induction false} EligibleKeepsOrder(front: seq<Candidate>, back: seq<Candidate>, request: Request, zone: Zone)
    ensures Eligible(front + back, request, zone) == Eligible(front, request, zone) + Eligible(back, request, zone)
  {
    hide IsEligible;
    if back == [] {
      assert front + back == front;
    } else {
      var n := |back| - 1;
      EligibleKeepsOrder(front, back[..n], request, zone);
      assert (front + back)[..|front + back| - 1] == front + back[..n];
      assert (front + back)[|front + back| - 1] == back[n];
    }
  }

  /** A campaign is kept as often as the cache lists it, or not at all. */
  lemma {:induction false} EligibleKeepsEach(campaigns: seq<Candidate>, request: Request, zone: Zone, c: Candidate)
    ensures multiset(Eligible(campaigns, request, zone))[c] ==
            if IsEligible(c, request, zone) then multiset(campaigns)[c] else 0
  {
    hide IsEligible;
    if campaigns != [] {
      var n := |campaigns| - 1;
      EligibleKeepsEach(campaigns[..n], request, zone, c);
      assert campaigns == campaigns[..n] + [campaigns[n]];
    }
  }

  function OfferOf(c: Candidate): Offer {
    Offer(c.id, c.capLimit, c.capWindow)
  }

  function OffersOf(campaigns: seq<Candidate>): (r: seq<Offer>)
    ensures |r| == |campaigns|
    ensures forall i | 0 <= i < |campaigns| :: r[i] == OfferOf(campaigns[i])
  {
    seq(|campaigns|, i requires 0 <= i < |campaigns| => OfferOf(campaigns[i]))
  }

  /** The campaigns whose flag is down, in order. */
  function Unflagged(campaigns: seq<Candidate>, flags: seq<bool>): (r: seq<Candidate>)
    requires |flags| == |campaigns|
    ensures forall c | c in r :: exists i | 0 <= i < |campaigns| :: campaigns[i] == c && !flags[i]
  {
    if campaigns == [] then []
    else
      var n := |campaigns| - 1;
      Unflagged(campaigns[..n], flags[..n]) + if flags[n] then [] else [campaigns[n]]
  }

  /** The campaigns that are not capped for the visitor, in order. */
  function Uncapped(s: Store, visitor: VisitorId, campaigns: seq<Candidate>): (r: seq<Candidate>)
    ensures forall c :: c in r <==> c in campaigns && !Capped(s, visitor, OfferOf(c))
  {
    if campaigns == [] then []
    else
      var n := |campaigns| - 1;
      assert campaigns == campaigns[..n] + [campaigns[n]];
      Uncapped(s, visitor, campaigns[..n]) + if Capped(s, visitor, OfferOf(campaigns[n])) then [] else [campaigns[n]]
  }

  lemma {:induction false} UnflaggedIsUncapped(s: Store, visitor: VisitorId, campaigns: seq<Candidate>,
      flags: seq<bool>)
    requires |flags| == |campaigns|
    requires forall i | 0 <= i < |campaigns| :: flags[i] == Capped(s, visitor, OfferOf(campaigns[i]))
    ensures Unflagged(campaigns, flags) == Uncapped(s, visitor, campaigns)
  {
    hide Capped;
    if campaigns != [] {
      var n := |campaigns| - 1;
      UnflaggedIsUncapped(s, visitor, campaigns[..n], flags[..n]);
    }
  }

  /** Dropping the capped campaigns from a list is dropping their offers. */
  lemma {:induction false} UnflaggedIsUnderCap(s: Store, visitor: VisitorId, campaigns: seq<Candidate>,
      flags: seq<bool>)
    requires |flags| == |campaigns|
    requires forall i | 0 <= i < |campaigns| :: flags[i] == Capped(s, visitor, OfferOf(campaigns[i]))
    ensures OffersOf(Unflagged(campaigns, flags)) == UnderCap(s, visitor, OffersOf(campaigns))
  {
    if campaigns != [] {
      var n := |campaigns| - 1;
      UnflaggedIsUnderCap(s, visitor, campaigns[..n], flags[..n]);
      assert OffersOf(campaigns)[..n] == OffersOf(campaigns[..n]);
      var kept := Unflagged(campaigns[..n], flags[..n]);
      assert OffersOf(kept + [campaigns[n]]) == OffersOf(kept) + [OfferOf(campaigns[n])];
    }
  }

  /** A click is never sold for more than the advertiser's balance, when that is a whole number of cents. */
  lemma ClickPriceIsAffordable(c: Candidate, request: Request, zone: Zone, entries: seq<Candidate>, clearing: nat)
    requires IsEligible(c, request, zone) && !c.PaysPerMille() && c.balance % MILLICENTS_PER_CENT == 0
    requires IsSecondPrice(entries, c, clearing)
    ensures ApplyClearingPrice(c, clearing).Price() * MILLICENTS_PER_CENT <= c.balance
  {
    ClearedPriceBound(c, clearing);
  }

  class VisitorFrequencyCapService {
    const store: RedisVelocityCounterStore

    constructor (store: RedisVelocityCounterStore)
      ensures this.store == store
    {
      this.store := store;
    }

    /** One campaign; a store that cannot be read caps nothing. */
    method IsCapped(visitor: VisitorId, offer: Offer, up: bool) returns (capped: bool)
      ensures capped == (up && Capped(store.Contents(), visitor, offer))
    {
      if visitor == "" {
        return false;
      }
      var count := store.Get(CapCount(offer.campaign, visitor), up);
      capped := count >= ResolveLimit(offer.limit);
    }

    /** Many campaigns with one read; flag for flag what IsCapped says. */
    method FilterCapped(visitor: VisitorId, offers: seq<Offer>, up: bool) returns (flags: seq<bool>)
      ensures |flags| == |offers|
      ensures forall i | 0 <= i < |offers| :: flags[i] == (up && Capped(store.Contents(), visitor, offers[i]))
    {
      if visitor == "" || |offers| == 0 {
        return seq(|offers|, _ => false);
      }
      var keys := seq(|offers|, i requires 0 <= i < |offers| => CapCount(offers[i].campaign, visitor));
      var counts := store.GetMany(keys, up);
      flags := seq(|offers|, i requires 0 <= i < |offers| => counts[i] >= ResolveLimit(offers[i].limit));
    }

    method RecordImpression(visitor: VisitorId, campaign: CampaignId, window: Option<int>, link: Link)
      modifies store`cells
      ensures store.Contents() == if visitor == "" then old(store.Contents())
                                  else Incremented(old(store.Contents()), CapCount(campaign, visitor),
                                                   ResolveWindow(window), link)
    {
      if visitor != "" {
        var _ := store.Increment(CapCount(campaign, visitor), ResolveWindow(window), link);
      }
    }
  }

  class AdTargetingService {
    const caps: VisitorFrequencyCapService

    constructor (caps: VisitorFrequencyCapService)
      ensures this.caps == caps
    {
      this.caps := caps;
    }

    method FilterUnderFrequencyCap(eligible: seq<Candidate>, visitor: VisitorId, up: bool)
        returns (under: seq<Candidate>)
      ensures forall c | c in under :: c in eligible
      ensures up ==> under == Uncapped(caps.store.Contents(), visitor, eligible)
      ensures up ==> OffersOf(under) == UnderCap(caps.store.Contents(), visitor, OffersOf(eligible))
      ensures !up ==> under == eligible
    {
      if visitor == "" || |eligible| == 0 {
        var none := seq(|eligible|, _ => false);
        NoneFlagged(eligible, none);
        UnflaggedIsUnderCap(caps.store.Contents(), visitor, eligible, none);
        UnflaggedIsUncapped(caps.store.Contents(), visitor, eligible, none);
        return eligible;
      }
      var flags := caps.FilterCapped(visitor, OffersOf(eligible), up);
      under := Unflagged(eligible, flags);
      if up {
        UnflaggedIsUnderCap(caps.store.Contents(), visitor, eligible, flags);
        UnflaggedIsUncapped(caps.store.Contents(), visitor, eligible, flags);
      } else {
        NoneFlagged(eligible, flags);
      }
    }

    lemma {:induction false} NoneFlagged(campaigns: seq<Candidate>, flags: seq<bool>)
      requires |flags| == |campaigns| && forall i | 0 <= i < |flags| :: !flags[i]
      ensures Unflagged(campaigns, flags) == campaigns
    {
      if campaigns != [] {
        var n := |campaigns| - 1;
        NoneFlagged(campaigns[..n], flags[..n]);
      }
    }

    /** Serves the drawn campaign at its second price and counts the impression;
        a null zone or an empty field serves nothing. */
    method SelectCampaign(request: Request, zone: Option<Zone>, campaigns: seq<Candidate>, roll: real, up: bool,
        link: Link)
      returns (selected: Option<Candidate>, ghost under: seq<Candidate>, ghost winner: nat)
      requires 0.0 <= roll < 1.0
      modifies caps.store`cells
      ensures selected.None? ==> caps.store.Contents() == old(caps.store.Contents())
      ensures zone.None? ==> selected.None? && under == []
      ensures selected.None? <==> under == []
      ensures forall c | c in under :: c in campaigns && IsEligible(c, request, zone.value)
      ensures zone.Some? ==>
                var eligible := Eligible(campaigns, request, zone.value);
                under == if up then Uncapped(old(caps.store.Contents()), request.visitor, eligible) else eligible
      ensures up && zone.Some? ==>
                OffersOf(under) == UnderCap(old(caps.store.Contents()), request.visitor,
                                            OffersOf(Eligible(campaigns, request, zone.value)))
      ensures selected.Some? ==>
                && winner < |under| && Drawn(UnitBids(under), roll, winner)
                && (exists clearing: nat :: IsSecondPrice(under, under[winner], clearing)
                                            && selected == Some(ApplyClearingPrice(under[winner], clearing)))
                && caps.store.Contents() ==
                     if request.visitor == "" then old(caps.store.Contents())
                     else Incremented(old(caps.store.Contents()), CapCount(under[winner].id, request.visitor),
                                      ResolveWindow(under[winner].capWindow), link)
    {
      under, winner := [], 0;
      if zone.None? {
        return None, under, winner;
      }
      var eligible := Eligible(campaigns, request, zone.value);
      var underCap := FilterUnderFrequencyCap(eligible, request.visitor, up);
      under := underCap;
      winner, selected := RunSecondPriceAuction(underCap, roll);
      if selected.Some? {
        caps.RecordImpression(request.visitor, selected.value.id, selected.value.capWindow, link);
      }
    }
  }

  /** A request answered on a store without outages is a serve step of the frequency-cap system. */
  lemma SelectionIsServe(w: World, visitor: VisitorId, eligible: seq<Candidate>, under: seq<Candidate>, winner: nat)
    requires OffersOf(under) == UnderCap(w.store, visitor, OffersOf(eligible)) && winner < |under|
    ensures Do(w, Serve(visitor, OffersOf(eligible), winner)) == Shown(w, visitor, OfferOf(under[winner]))
    ensures visitor != "" ==>
              Do(w, Serve(visitor, OffersOf(eligible), winner)).store ==
              Incremented(w.store, CapCount(under[winner].id, visitor), ResolveWindow(under[winner].capWindow), Up)
  {
    SmallRemainder(winner, |under|);
    assert OffersOf(under)[winner] == OfferOf(under[winner]);
    hide Incremented;
  }

  lemma SmallRemainder(a: nat, n: nat)
    requires a < n
    ensures a % n == a
  {
  }
}
