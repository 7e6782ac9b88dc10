/** The conversion postback handler as an object over the wallet service. */
module ConversionService {
  import opened Books
  import opened Fees
  import Accounts
  import opened Conversions
  import opened WalletService

  datatype ConversionResult = Recorded | ClickNotFound | AlreadyConverted

  class ConversionTracking {
    const wallet: WalletManager
    var clicks: seq<AdClick>
    var maxCpa: map<CampaignId, int>  // the conversion bid of the campaigns that have one
    var zones: map<nat, UserId>       // the publisher of each zone

    constructor (wallet: WalletManager)
      ensures this.wallet == wallet && clicks == []
    {
      this.wallet := wallet;
      clicks, maxCpa, zones := [], map[], map[];
    }

    /** Nothing is in flight between two calls. */
    ghost function State(): World
      reads this, wallet
    {
      World(wallet.Tables(), clicks, map[])
    }

    function Bid(c: CampaignId): Option<int>
      reads this
    {
      if c in maxCpa then Some(maxCpa[c]) else None
    }

    function Publisher(zone: nat): Option<UserId>
      reads this
    {
      if zone in zones then Some(zones[zone]) else None
    }

    method RecordClick(campaign: CampaignId, zone: nat)
      modifies this`clicks
      ensures State() == Do(old(State()), Conversions.RecordClick(campaign, zone))
      ensures clicks == old(clicks) + [AdClick(campaign, zone, false)]
    {
      clicks := clicks + [AdClick(campaign, zone, false)];
    }

    /** Claims the click and, only when the claim was won, bills the conversion. */
    method RecordConversion(click: nat, feeBps: nat) returns (result: ConversionResult)
      requires wallet.Valid() && feeBps <= FULL_FEE_BPS
      modifies this`clicks, wallet
      ensures wallet.Valid()
      ensures result == if click >= |old(clicks)| then ClickNotFound
                        else if old(clicks)[click].converted then AlreadyConverted
                        else Recorded
      ensures result != Recorded ==> State() == old(State())
      ensures result == Recorded ==> clicks == old(clicks)[click := old(clicks)[click].(converted := true)]
      ensures result == Recorded ==>
                var ad := old(clicks)[click];
                State() == Do(Do(Do(old(State()), Claim(click)),
                                 Charge(click, Publisher(ad.zone), Bid(ad.campaign))),
                              Credit(click, feeBps))
    {
      hide Spend;
      hide PublisherShare;
      hide Normalize;
      if click >= |clicks| {
        return ClickNotFound;
      }
      if clicks[click].converted {
        return AlreadyConverted;
      }
      result := Recorded;
      var ad := clicks[click];
      ghost var start := State();
      clicks := clicks[click := ad.(converted := true)];
      var bid, publisher := Bid(ad.campaign), Publisher(ad.zone);
      ghost var claimed := Do(start, Claim(click));
      ghost var charged := Do(claimed, Charge(click, publisher, bid));
      if bid.None? || publisher.None? {
        assert charged == State();
        return;
      }
      if Spend(wallet.Tables(), ad.campaign, bid.value, ConversionRef(click)).Commit? {
        Accounts.SpendRowOf(wallet.Tables(), ad.campaign, bid.value, ConversionRef(click));
      }
      var error := wallet.RecordCampaignSpend(ad.campaign, bid.value, ConversionRef(click));
      if error.Some? {
        assert charged == State();
        return;
      }
      assert charged == State().(tasks := map[click := ChargedFor(publisher.value, Normalize(bid.value).cents)]);
      var share := PublisherShare(bid.value, feeBps);
      if share > 0 {
        var _ := wallet.CreditPublisherEarning(publisher.value, share * MILLICENTS_PER_CENT, ConversionRef(click),
          false);
      }
      assert Do(charged, Credit(click, feeBps)) == State();
    }
  }
}
