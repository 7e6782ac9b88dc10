/** Where earnings go: each credit of billing is held as pending, and billing never moves an available balance. */
module HeldEarnings {
  import opened Books
  import opened Fees
  import opened Transactions
  import opened LedgerReplay
  import opened Accounts
  import opened ClickBilling
  import ClickWorker
  import ClickSolvency
  import Conversions
  import Cpm

  /** `cents` is the whole cent nearest to what is left of `raw` millicents after the fee, the upper one of two. */
  predicate IsNearestCent(raw: int, feeBps: nat, cents: nat) {
    -5_000_000 < cents * 10_000_000 - raw * (10_000 - feeBps) <= 5_000_000
  }

  lemma ShareIsTheNearestCent(raw: nat, feeBps: nat, cents: nat)
    requires feeBps <= 10_000
    ensures cents == PublisherShare(raw, feeBps) <==> IsNearestCent(raw, feeBps, cents)
  {
    ShareIsNearestCent(raw, feeBps);
  }

  ghost predicate SameBalances(db: Db, after: Db) {
    forall u :: BalanceOf(after, u) == BalanceOf(db, u)
  }

  /** `cents` are added to what the publisher has pending and has earned, and to nothing else; there is a row for them
      unless they are none. */
  ghost predicate HoldsCents(db: Db, after: Db, publisher: UserId, cents: nat, ref: Ref) {
    && Moves(db, after, publisher, 0, NO_CHANGE.(pending := cents, earned := cents))
    && after.ledger == db.ledger + (if cents > 0 then [Row(publisher, PUBLISHER_EARNING, cents, Some(ref))] else [])
    && after.campaigns == db.campaigns && after.payouts == db.payouts
  }

  ghost predicate HoldsShare(db: Db, after: Db, publisher: UserId, raw: int, feeBps: nat, ref: Ref) {
    exists cents: nat :: IsNearestCent(raw, feeBps, cents) && HoldsCents(db, after, publisher, cents, ref)
  }

  /** The database after crediting `cents` in the way that billing does, or without a credit when they are none. */
  function Credited(db: Db, publisher: UserId, cents: nat, ref: Ref): Db {
    if cents == 0 then db else Next(db, OpCredit(publisher, cents * MILLICENTS_PER_CENT, ref, false))
  }

  lemma CreditHoldsCents(db: Db, publisher: UserId, cents: nat, ref: Ref)
    ensures SameBalances(db, Credited(db, publisher, cents, ref))
    ensures publisher in db.balances && Free(db, publisher, PUBLISHER_EARNING, Some(ref)) ==>
              HoldsCents(db, Credited(db, publisher, cents, ref), publisher, cents, ref)
  {
    hide Credit;
    hide Free;
    hide WalletOf;
    hide BalanceOf;
    if cents > 0 {
      var raw := cents * MILLICENTS_PER_CENT;
      var r := Credit(db, publisher, raw, ref, false);
      assert Credited(db, publisher, cents, ref) == if r.Commit? then r.db else db;
      hide Credited;
      WholeCentsOf(cents);
      CreditDoes(db, publisher, raw, ref, false);
      hide WholeCents;
      hide Plus;
    } else {
      assert db.ledger + [] == db.ledger;
    }
  }

  lemma WholeCentsOf(cents: nat)
    ensures WholeCents(cents * MILLICENTS_PER_CENT) <==> cents > 0
    ensures cents * MILLICENTS_PER_CENT / 1000 == cents
  {
  }

  lemma CreditShareHolds(feeBps: nat, db: Db, publisher: UserId, raw: nat, ref: Ref)
    requires feeBps <= 10_000
    ensures var after := CreditShare(feeBps, db, publisher, raw, ref);
            && SameBalances(db, after)
            && (publisher in db.balances && Free(db, publisher, PUBLISHER_EARNING, Some(ref)) ==>
                  HoldsShare(db, after, publisher, raw, feeBps, ref))
  {
    hide PublisherShare;
    hide IsNearestCent;
    hide HoldsCents;
    hide Credit;
    hide Free;
    var share := PublisherShare(raw, feeBps);
    ShareIsTheNearestCent(raw, feeBps, share);
    CreditHoldsCents(db, publisher, share, ref);
  }

  // --- the stream worker ---

  /** Main result: no step of the click worker changes anybody's available balance. */
  lemma WorkerMovesNoBalance(cfg: Config, w: ClickWorker.World, step: ClickWorker.Step)
    requires cfg.Valid() && !step.Other?
    ensures SameBalances(w.db, ClickWorker.Do(cfg, w, step).db)
  {
    if step.ChargeNext? && ClickWorker.AtMessage(w) {
      var id := w.phase.batch[w.phase.next];
      SpendDoes(w.db, w.log[id].campaign, w.log[id].cost, ClickRef(id));
      hide Spend;
    } else if step.CreditNow? && w.phase.Crediting? && w.phase.next < |w.phase.batch| {
      var id := w.phase.batch[w.phase.next];
      if id < |w.log| && Billable(cfg, w.log[id]) {
        CreditShareHolds(cfg.feeBps, w.db, cfg.zones[w.log[id].zone], w.log[id].cost, ClickRef(id));
        hide CreditShare;
      }
    }
  }

  /** Main result: in every run of the worker, crediting the click in flight adds its nearest cent to what the
      publisher of its zone has pending. */
  lemma WorkerHoldsTheShare(cfg: Config, db0: Db, steps: seq<ClickWorker.Step>)
    requires ClickWorker.Ready(cfg, db0) && ClickWorker.Run(cfg, ClickWorker.Start(db0), steps).phase.Crediting?
    ensures var w := ClickWorker.Run(cfg, ClickWorker.Start(db0), steps);
            && w.phase.next < |w.phase.batch| && w.phase.batch[w.phase.next] < |w.log|
            && var id := w.phase.batch[w.phase.next];
               && w.log[id].zone in cfg.zones
               && HoldsShare(w.db, ClickWorker.Do(cfg, w, ClickWorker.CreditNow).db, cfg.zones[w.log[id].zone],
                             w.log[id].cost, cfg.feeBps, ClickRef(id))
  {
    hide HoldsShare;
    hide PublisherShare;
    hide CreditShare;
    hide Free;
    var w := ClickWorker.Run(cfg, ClickWorker.Start(db0), steps);
    ClickWorker.RunStaysOnTrack(cfg, db0, steps);
    var id := w.phase.batch[w.phase.next];
    assert id in ClickWorker.InFlight(w);
    var publisher := cfg.zones[w.log[id].zone];
    forall row | row in ClickCredits(w.db.ledger) ensures row.ref.value.message != id {
      assert row in CreditsFor(cfg, w.log, ViewOf(cfg, w.db).spends, w.lost + ClickWorker.InFlight(w));
    }
    NotYetCredited(w.db.ledger, publisher, id);
    FreeIsNotTaken(w.db, publisher, PUBLISHER_EARNING, Some(ClickRef(id)));
    CreditShareHolds(cfg.feeBps, w.db, publisher, w.log[id].cost, ClickRef(id));
  }

  // --- clicks beside any other transactions ---

  lemma BillingMovesNoBalance(w: ClickSolvency.World, step: ClickSolvency.Step)
    requires !step.Other?
    ensures SameBalances(w.db, ClickSolvency.Do(w, step).db)
  {
    if step.Charge? && step.id < |w.log| {
      SpendDoes(w.db, w.log[step.id].campaign, w.log[step.id].cost, ClickRef(step.id));
      hide Spend;
    } else if step.Credit? && step.id in w.tasks && step.feeBps <= 10_000 {
      CreditShareHolds(step.feeBps, w.db, w.tasks[step.id].publisher, w.tasks[step.id].raw, ClickRef(step.id));
      hide CreditShare;
    }
  }

  lemma NoCreditRowIsFree(db: Db, u: UserId, ref: Ref)
    requires Count(db.ledger, PUBLISHER_EARNING, ref) == 0
    ensures Free(db, u, PUBLISHER_EARNING, Some(ref))
  {
    CountZero(db.ledger, PUBLISHER_EARNING, ref);
  }

  /** Main result: in every run with any other transactions beside it, a credit adds the nearest cent of the charge to
      what the publisher has pending. */
  lemma BillingHoldsTheShare(db: Db, steps: seq<ClickSolvency.Step>, id: nat, feeBps: nat)
    requires NoneYet(Clicks, db) && feeBps <= 10_000 && id in ClickSolvency.Run(ClickSolvency.Start(db), steps).tasks
    requires var w := ClickSolvency.Run(ClickSolvency.Start(db), steps); w.tasks[id].publisher in w.db.balances
    ensures var w := ClickSolvency.Run(ClickSolvency.Start(db), steps);
            HoldsShare(w.db, ClickSolvency.Do(w, ClickSolvency.Credit(id, feeBps)).db, w.tasks[id].publisher,
                       w.tasks[id].raw, feeBps, ClickRef(id))
  {
    hide HoldsShare;
    hide PublisherShare;
    hide CreditShare;
    var w := ClickSolvency.Run(ClickSolvency.Start(db), steps);
    ClickSolvency.EveryClickBilled(db, steps);
    assert ClickSolvency.Billed(w, id);
    NoCreditRowIsFree(w.db, w.tasks[id].publisher, ClickRef(id));
    CreditShareHolds(feeBps, w.db, w.tasks[id].publisher, w.tasks[id].raw, ClickRef(id));
  }

  // --- conversions ---

  lemma ConversionsMoveNoBalance(w: Conversions.World, step: Conversions.Step)
    requires !step.Other?
    ensures SameBalances(w.db, Conversions.Do(w, step).db)
  {
    if step.Charge? && step.click < |w.clicks| && step.maxCpa.Some? {
      SpendDoes(w.db, w.clicks[step.click].campaign, step.maxCpa.value, ConversionRef(step.click));
      hide Spend;
    } else if step.Credit? && step.click in w.tasks && w.tasks[step.click].ChargedFor? && step.feeBps <= 10_000 {
      var raw := w.tasks[step.click].cents * MILLICENTS_PER_CENT;
      CreditDoes(w.db, w.tasks[step.click].publisher, PublisherShare(raw, step.feeBps) * MILLICENTS_PER_CENT,
                 ConversionRef(step.click), false);
      hide Credit;
    }
  }

  /** Main result: in every run a conversion's credit adds the nearest cent of its charge to what the publisher has
      pending. */
  lemma ConversionHoldsTheShare(db: Db, steps: seq<Conversions.Step>, k: nat, feeBps: nat)
    requires NoneYet(Accounts.Conversions, db) && feeBps <= 10_000
    requires k in Conversions.Run(Conversions.Start(db), steps).tasks
    requires Conversions.Run(Conversions.Start(db), steps).tasks[k].ChargedFor?
    requires var w := Conversions.Run(Conversions.Start(db), steps); w.tasks[k].publisher in w.db.balances
    ensures var w := Conversions.Run(Conversions.Start(db), steps);
            HoldsShare(w.db, Conversions.Do(w, Conversions.Credit(k, feeBps)).db, w.tasks[k].publisher,
                       w.tasks[k].cents * 1000, feeBps, ConversionRef(k))
  {
    hide HoldsCents;
    hide IsNearestCent;
    var w := Conversions.Run(Conversions.Start(db), steps);
    Conversions.EveryConversionBilled(db, steps, k);
    NoCreditRowIsFree(w.db, w.tasks[k].publisher, ConversionRef(k));
    CreditShareHolds(feeBps, w.db, w.tasks[k].publisher, w.tasks[k].cents * 1000, ConversionRef(k));
    hide Free;
    hide HoldsShare;
    hide PublisherShare;
  }

  // --- batches of impressions ---

  lemma BatchesMoveNoBalance(c: CampaignId, w: Cpm.World, step: Cpm.Step)
    requires !step.Other?
    ensures SameBalances(w.db, Cpm.Do(c, w, step).db)
  {
    if step.Charge? && step.task < |w.tasks| && w.tasks[step.task].Charging? {
      SpendDoes(w.db, c, w.tasks[step.task].price, BatchRef(c, w.tasks[step.task].batch));
      hide Spend;
    } else if step.Credit? && step.task < |w.tasks| && w.tasks[step.task].Crediting? && step.publisher.Some?
              && step.feeBps <= 10_000 {
      CreditDoes(w.db, step.publisher.value,
                 PublisherShare(w.tasks[step.task].price, step.feeBps) * MILLICENTS_PER_CENT,
                 UniqueBatchRef(c, w.tasks[step.task].batch), false);
      hide Books.Credit;
    }
  }

  /** A batch is charged exactly when the campaign can pay its price and has not paid it, and is missed otherwise. */
  lemma BatchIsChargedIff(c: CampaignId, w: Cpm.World, i: nat)
    requires i < |w.tasks| && w.tasks[i].Charging?
    ensures var batch, price, after := w.tasks[i].batch, w.tasks[i].price, Cpm.Do(c, w, Cpm.Charge(i));
            if WholeCents(price) && c < |w.db.campaigns| && w.db.campaigns[c].status == ACTIVE
               && w.db.campaigns[c].reserved >= price / 1000
               && Free(w.db, w.db.campaigns[c].owner, AD_SPEND, Some(BatchRef(c, batch)))
            then
              && after.db.ledger ==
                   w.db.ledger + [Row(w.db.campaigns[c].owner, AD_SPEND, price / 1000, Some(BatchRef(c, batch)))]
              && after.uncollected == w.uncollected
            else after.db == w.db && after.uncollected == w.uncollected + [batch]
  {
    SpendDoes(w.db, c, w.tasks[i].price, BatchRef(c, w.tasks[i].batch));
    hide Spend;
    hide Free;
  }

  /** A batch is credited exactly when its zone has a publisher who exists and has no credit for it, and the share
      is not nothing; it is then held as pending, and missed otherwise. */
  lemma BatchIsCreditedIff(c: CampaignId, w: Cpm.World, i: nat, publisher: Option<UserId>, feeBps: nat)
    requires i < |w.tasks| && w.tasks[i].Crediting? && feeBps <= 10_000
    ensures var batch, price := w.tasks[i].batch, w.tasks[i].price;
            var after := Cpm.Do(c, w, Cpm.Credit(i, publisher, feeBps));
            if publisher.Some? && publisher.value in w.db.balances && !IsNearestCent(price, feeBps, 0)
               && Free(w.db, publisher.value, PUBLISHER_EARNING, Some(UniqueBatchRef(c, batch)))
            then
              && HoldsShare(w.db, after.db, publisher.value, price, feeBps, UniqueBatchRef(c, batch))
              && after.uncredited == w.uncredited
            else after.db == w.db && after.uncredited == w.uncredited + [batch]
  {
    hide HoldsCents;
    var batch, price := w.tasks[i].batch, w.tasks[i].price;
    ShareIsTheNearestCent(price, feeBps, 0);
    if publisher.Some? {
      CreditShareHolds(feeBps, w.db, publisher.value, price, UniqueBatchRef(c, batch));
      CreditDoes(w.db, publisher.value, PublisherShare(price, feeBps) * MILLICENTS_PER_CENT,
                 UniqueBatchRef(c, batch), false);
    }
    hide HoldsShare;
    hide Books.Credit;
    hide Free;
    hide PublisherShare;
    hide IsNearestCent;
  }

  // --- one click ---

  /** The click costs something, its zone exists, and its campaign is active and can pay for it now. */
  ghost predicate CanBill(cfg: Config, db: Db, click: Click, id: nat) {
    && WholeCents(click.cost) && click.zone in cfg.zones && click.campaign < |db.campaigns|
    && db.campaigns[click.campaign].status == ACTIVE && db.campaigns[click.campaign].reserved >= click.cost / 1000
    && Free(db, db.campaigns[click.campaign].owner, AD_SPEND, Some(ClickRef(id)))
  }

  /** Main result: a click is billed exactly when its campaign can pay: the whole cost to the advertiser, and then the
      nearest cent to what the publisher has pending. */
  lemma ClickIsBilledIff(cfg: Config, db: Db, click: Click, id: nat)
    requires cfg.Valid()
    ensures var charged := Charge(cfg, db, click, id);
            && (charged.Commit? <==> CanBill(cfg, db, click, id))
            && (charged.Commit? ==>
                  var owner, cents := db.campaigns[click.campaign].owner, click.cost / 1000;
                  var publisher := cfg.zones[click.zone];
                  && Moves(db, charged.db, owner, 0, NO_CHANGE.(reserved := -cents, spent := cents))
                  && charged.db.ledger == db.ledger + [Row(owner, AD_SPEND, cents, Some(ClickRef(id)))]
                  && (publisher in db.balances && Free(db, publisher, PUBLISHER_EARNING, Some(ClickRef(id))) ==>
                        HoldsShare(charged.db, BillClick(cfg, db, click, id), publisher, click.cost, cfg.feeBps,
                                   ClickRef(id))))
            && (charged.Rollback? ==> BillClick(cfg, db, click, id) == db)
  {
    SpendDoes(db, click.campaign, click.cost, ClickRef(id));
    var charged := Charge(cfg, db, click, id);
    if charged.Commit? {
      assert charged.db.balances.Keys == db.balances.Keys;
      CreditShareHolds(cfg.feeBps, charged.db, cfg.zones[click.zone], click.cost, ClickRef(id));
    }
    hide Spend;
    hide CreditShare;
    hide HoldsShare;
    hide Moves;
  }
}
