/** The CPM billing service as an object over the counter store and the wallet service. */
module CpmService {
  import opened Books
  import opened Fees
  import opened CpmCounters
  import opened Cpm
  import opened CpmBatches
  import opened VelocityCounter
  import opened WalletService

  const CPM_COUNTER_TTL_SECONDS := 315_360_000

  datatype ImpressionEvent = ImpressionEvent(campaign: CampaignId, zone: nat, maxCpm: nat,
    uniquePublisherImpression: bool)

  /** An increment as its caller hears it. */
  function HeardAs(s: Store, key: Key, link: Link): Heard {
    if link.IncrRefused? then NotCounted else if Told(s, key, link) == 0 then CountedUnheard else Counted
  }

  /** A state of the step system of campaign `c` that agrees with the stored tables and counts. */
  ghost predicate Shows(w: World, c: CampaignId, db: Db, s: Store) {
    && w.db == db
    && w.raw.count == Live(s, RawCount(c))
    && w.unique.count == Live(s, UniqueCount(c))
  }

  class CpmBillingService {
    const store: RedisVelocityCounterStore
    const wallet: WalletManager
    const zones: map<nat, UserId>
    const feeBps: nat

    constructor (store: RedisVelocityCounterStore, wallet: WalletManager, zones: map<nat, UserId>, feeBps: nat)
      ensures this.store == store && this.wallet == wallet && this.zones == zones && this.feeBps == feeBps
    {
      this.store, this.wallet, this.zones, this.feeBps := store, wallet, zones, feeBps;
    }

    ghost predicate Ready()
      reads wallet
    {
      wallet.Valid() && feeBps <= FULL_FEE_BPS
    }

    function PublisherOf(zone: nat): Option<UserId> {
      if zone in zones then Some(zones[zone]) else None
    }

    /** Counts the raw impression and charges the advertiser when the count is a multiple of a thousand. */
    method RecordAdvertiserBatch(event: ImpressionEvent, link: Link, ghost before: World) returns (ghost after: World)
      requires Ready() && Shows(before, event.campaign, wallet.Tables(), store.Contents()) && event.maxCpm > 0
      modifies store`cells, wallet
      ensures Ready() && Shows(after, event.campaign, wallet.Tables(), store.Contents())
      ensures after == Do(event.campaign,
                          Do(event.campaign, before,
                             Impression(event.maxCpm, event.uniquePublisherImpression,
                                        HeardAs(old(store.Contents()), RawCount(event.campaign), link))),
                          Charge(|before.tasks|))
    {
      ghost var start := store.Contents();
      var c := event.campaign;
      IncrementedIsOneMore(start, RawCount(c), CPM_COUNTER_TTL_SECONDS, link);
      after := Do(c, before, Impression(event.maxCpm, event.uniquePublisherImpression,
        HeardAs(start, RawCount(c), link)));
      var count := store.Increment(RawCount(c), CPM_COUNTER_TTL_SECONDS, link);
      assert count == ToldCount(before.raw, HeardAs(start, RawCount(c), link));
      assert after.tasks[|before.tasks|].Charging? == (count % IMPRESSIONS_PER_CPM_BATCH == 0);
      after := Do(c, after, Charge(|before.tasks|));
      if count % IMPRESSIONS_PER_CPM_BATCH != 0 {
        return;
      }
      var batchNumber := count / IMPRESSIONS_PER_CPM_BATCH;
      var _ := wallet.RecordCampaignSpend(c, event.maxCpm, BatchRef(c, batchNumber));
    }

    /** Counts the impression for the publishers and credits the zone's publisher at a multiple of a thousand. */
    method RecordPublisherBatch(event: ImpressionEvent, link: Link, ghost task: nat, ghost before: World)
        returns (ghost after: World)
      requires Ready() && Shows(before, event.campaign, wallet.Tables(), store.Contents())
      requires task < |before.tasks| && before.tasks[task] == Counting(event.maxCpm)
      modifies store`cells, wallet
      ensures Ready() && Shows(after, event.campaign, wallet.Tables(), store.Contents())
      ensures after == Do(event.campaign,
                          Do(event.campaign, before,
                             CountOnce(task, HeardAs(old(store.Contents()), UniqueCount(event.campaign), link))),
                          Credit(task, PublisherOf(event.zone), feeBps))
    {
      ghost var start := store.Contents();
      var c := event.campaign;
      IncrementedIsOneMore(start, UniqueCount(c), CPM_COUNTER_TTL_SECONDS, link);
      after := Do(c, before, CountOnce(task, HeardAs(start, UniqueCount(c), link)));
      var count := store.Increment(UniqueCount(c), CPM_COUNTER_TTL_SECONDS, link);
      assert count == ToldCount(before.unique, HeardAs(start, UniqueCount(c), link));
      after := Do(c, after, Credit(task, PublisherOf(event.zone), feeBps));
      if count % IMPRESSIONS_PER_CPM_BATCH != 0 || event.zone !in zones {
        return;
      }
      var batchNumber := count / IMPRESSIONS_PER_CPM_BATCH;
      var share := PublisherShare(event.maxCpm, feeBps);
      if share > 0 {
        var _ := wallet.CreditPublisherEarning(zones[event.zone], share * MILLICENTS_PER_CENT,
                                               UniqueBatchRef(c, batchNumber), false);
      }
    }

    /** Every impression counts for the advertiser; only a unique one counts for the publisher. */
    method RecordImpression(event: ImpressionEvent, rawLink: Link, uniqueLink: Link, ghost before: World)
      returns (ghost after: World)
      requires Ready() && Shows(before, event.campaign, wallet.Tables(), store.Contents())
      modifies store`cells, wallet
      ensures Ready() && Shows(after, event.campaign, wallet.Tables(), store.Contents())
      ensures after == Handled(event.campaign, before, event.maxCpm, event.uniquePublisherImpression,
              PublisherOf(event.zone), feeBps,
                               HeardAs(old(store.Contents()), RawCount(event.campaign), rawLink),
                               HeardAs(old(store.Contents()), UniqueCount(event.campaign), uniqueLink))
    {
      after := before;
      if event.maxCpm == 0 {
        return;
      }
      IncrementedIsOneMore(store.Contents(), RawCount(event.campaign), CPM_COUNTER_TTL_SECONDS, rawLink);
      after := RecordAdvertiserBatch(event, rawLink, before);
      if event.uniquePublisherImpression {
        after := RecordPublisherBatch(event, uniqueLink, |before.tasks|, after);
      }
    }
  }
}
