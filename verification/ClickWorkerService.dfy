/** The click ingestion worker and the billing service as objects over the wallet service. */
module ClickWorkerService {
  import opened Books
  import opened Fees
  import opened LedgerReplay
  import opened ClickBilling
  import opened ClickWorker
  import opened WalletService
  import Transactions
  import HeldEarnings

  /** What goes wrong while one click is billed. */
  datatype Luck =
    | Fine
    | LookupThrows     // reading the zone
    | ChargeErrs       // the charge transaction fails for a reason of its own; swallowed
    | FeeLookupThrows  // reading the fee, after the charge
    | CreditErrs       // the credit transaction fails for a reason of its own; swallowed

  /** The database after one click has been billed, and whether the call threw. */
  function Billed(cfg: Config, db: Db, click: Click, id: nat, luck: Luck): (Db, bool)
    requires cfg.Valid()
  {
    if luck.Fine? then (BillClick(cfg, db, click, id), false)
    else if luck.LookupThrows? then (db, click.cost > 0)
    else if luck.ChargeErrs? then (db, false)
    else (AfterCharge(cfg, db, click, id), luck.FeeLookupThrows? && Charge(cfg, db, click, id).Commit?)
  }

  function LuckOf(lucks: map<nat, Luck>, id: nat): Luck {
    if id in lucks then lucks[id] else Fine
  }

  /** The same for the first `n` clicks of a batch, up to the first that throws. */
  function BilledAll(cfg: Config, db: Db, log: seq<Click>, batch: seq<nat>, lucks: map<nat, Luck>, n: nat): (Db, bool)
    requires cfg.Valid() && n <= |batch| && forall i | 0 <= i < |batch| :: batch[i] < |log|
  {
    if n == 0 then (db, false)
    else
      var (before, threw) := BilledAll(cfg, db, log, batch, lucks, n - 1);
      if threw then (before, true)
      else Billed(cfg, before, log[batch[n - 1]], batch[n - 1], LuckOf(lucks, batch[n - 1]))
  }

  lemma {:induction false} NothingAfterThrowing(cfg: Config, db: Db, log: seq<Click>, batch: seq<nat>,
      lucks: map<nat, Luck>, n: nat, m: nat)
    requires cfg.Valid() && n <= m <= |batch| && forall i | 0 <= i < |batch| :: batch[i] < |log|
    requires BilledAll(cfg, db, log, batch, lucks, n).1
    ensures BilledAll(cfg, db, log, batch, lucks, m) == BilledAll(cfg, db, log, batch, lucks, n)
  {
    if n < m {
      NothingAfterThrowing(cfg, db, log, batch, lucks, n, m - 1);
    }
  }

  class AdBillingService {
    const wallet: WalletManager
    const cfg: Config

    constructor (wallet: WalletManager, cfg: Config)
      ensures this.wallet == wallet && this.cfg == cfg
    {
      this.wallet, this.cfg := wallet, cfg;
    }

    /** Charges the advertiser in full, then credits the publisher's share in a second transaction. */
    method BillClick(click: Click, referenceId: nat, luck: Luck) returns (threw: bool)
      requires cfg.Valid() && wallet.Valid()
      modifies wallet
      ensures wallet.Valid()
      ensures (wallet.Tables(), threw) == Billed(cfg, old(wallet.Tables()), click, referenceId, luck)
    {
      threw := false;
      if !(click.cost > 0) {
        return;
      }
      if luck.LookupThrows? {
        return true;
      }
      if click.zone !in cfg.zones || luck.ChargeErrs? {
        return;
      }
      var error := wallet.RecordCampaignSpend(click.campaign, click.cost, ClickRef(referenceId));
      if error.Some? {
        return;
      }
      if luck.FeeLookupThrows? {
        return true;
      }
      CreditPublisherShare(cfg.zones[click.zone], click.cost, ClickRef(referenceId), luck.CreditErrs?);
    }

    /** Holds the publisher's share as pending; nobody's available balance changes. */
    method CreditPublisherShare(publisher: UserId, raw: nat, ref: Ref, errs: bool)
      requires cfg.Valid() && wallet.Valid()
      modifies wallet
      ensures wallet.Valid()
      ensures wallet.Tables() ==
                if errs then old(wallet.Tables())
                else CreditShare(cfg.feeBps, old(wallet.Tables()), publisher, raw, ref)
      ensures HeldEarnings.SameBalances(old(wallet.Tables()), wallet.Tables())
      ensures !errs && publisher in old(wallet.balances)
              && Transactions.Free(old(wallet.Tables()), publisher, PUBLISHER_EARNING, Some(ref)) ==>
                HeldEarnings.HoldsShare(old(wallet.Tables()), wallet.Tables(), publisher, raw, cfg.feeBps, ref)
    {
      HeldEarnings.CreditShareHolds(cfg.feeBps, wallet.Tables(), publisher, raw, ref);
      hide HeldEarnings.HoldsShare;
      hide HeldEarnings.SameBalances;
      hide Transactions.Free;
      var share := PublisherShare(raw, cfg.feeBps);
      if share == 0 || errs {
        return;
      }
      var _ := wallet.CreditPublisherEarning(publisher, share * MILLICENTS_PER_CENT, ref, false);
    }
  }

  /** `after` is reached from `before` by some steps of the worker's step system. */
  ghost predicate Reaches(cfg: Config, before: World, after: World)
    requires cfg.Valid()
  {
    exists steps: seq<Step> :: Run(cfg, before, steps) == after
  }

  lemma ReachesItself(cfg: Config, w: World)
    requires cfg.Valid()
    ensures Reaches(cfg, w, w)
  {
    assert Run(cfg, w, []) == w;
  }

  lemma ReachesOneMore(cfg: Config, before: World, middle: World, step: Step)
    requires cfg.Valid() && Reaches(cfg, before, middle)
    ensures Reaches(cfg, before, Do(cfg, middle, step))
  {
    var steps :| Run(cfg, before, steps) == middle;
    assert (steps + [step])[..|steps|] == steps;
    assert Run(cfg, before, steps + [step]) == Do(cfg, middle, step);
  }

  /** The steps that billing one click takes, with its luck. */
  function StepsFor(cfg: Config, w: World, luck: Luck): seq<Step>
    requires AtMessage(w)
  {
    var click := w.log[w.phase.batch[w.phase.next]];
    if luck.LookupThrows? && click.cost > 0 then [Throw]
    else if luck.ChargeErrs? then [ChargeFails]
    else if Charge(cfg, w.db, click, w.phase.batch[w.phase.next]).Rollback? then [ChargeNext]
    else if luck.CreditErrs? then [ChargeNext, CreditFails]
    else if luck.FeeLookupThrows? then [ChargeNext, Throw]
    else if luck.Fine? then [ChargeNext, CreditNow]
    else [ChargeFails]
  }

  function AfterOne(cfg: Config, w: World, luck: Luck): World
    requires cfg.Valid() && AtMessage(w)
  {
    var steps := StepsFor(cfg, w, luck);
    if |steps| == 1 then Do(cfg, w, steps[0]) else Do(cfg, Do(cfg, w, steps[0]), steps[1])
  }

  /** Billing one click is some steps of the worker. */
  lemma BillingIsSteps(cfg: Config, before: World, w: World, luck: Luck)
    requires cfg.Valid() && Reaches(cfg, before, w) && AtMessage(w)
    ensures Reaches(cfg, before, AfterOne(cfg, w, luck))
  {
    var steps := StepsFor(cfg, w, luck);
    ReachesOneMore(cfg, before, w, steps[0]);
    if |steps| == 2 {
      ReachesOneMore(cfg, before, Do(cfg, w, steps[0]), steps[1]);
    }
  }

  lemma BillingEnds(cfg: Config, w: World, luck: Luck)
    requires cfg.Valid() && AtMessage(w)
    ensures var id := w.phase.batch[w.phase.next];
            var (db, threw) := Billed(cfg, w.db, w.log[id], id, luck);
            var after := AfterOne(cfg, w, luck);
            && after.db == db && after.log == w.log && after.deleted == w.deleted && after.cursor == w.cursor
            && after.phase == if threw then Idle else Billing(w.phase.batch, w.phase.next + 1)
  {
    hide Spend;
    hide CreditShare;
  }

  /** What stops a batch after its clicks have been billed. */
  datatype Fault = NoFault | AnalyticsInsertFails | DeleteFails | DeleteReplyLost

  class ClickHouseClickIngestionWorker {
    const billing: AdBillingService
    var log: seq<Click>        // the stream, as published
    var deleted: set<nat>      // the stream, as deleted
    var lastMessageId: nat     // one past the last message acknowledged
    ghost var world: World     // the state of the step system

    constructor (billing: AdBillingService)
      requires billing.cfg.Valid() && billing.wallet.Valid()
      ensures this.billing == billing && Valid() && world == Start(billing.wallet.Tables())
    {
      this.billing := billing;
      log, deleted, lastMessageId := [], {}, 0;
      world := Start(billing.wallet.Tables());
    }

    /** The worker between two batches is where the step system is. */
    ghost predicate Valid()
      reads this, billing.wallet
    {
      && billing.cfg.Valid() && billing.wallet.Valid()
      && world.db == billing.wallet.Tables() && world.log == log && world.deleted == deleted
      && world.cursor == lastMessageId && world.phase == Idle
    }

    method ReadStream(count: nat) returns (batch: seq<nat>)
      ensures batch == ReadBatch(deleted, lastMessageId, |log|, count)
      ensures forall i | 0 <= i < |batch| :: batch[i] < |log|
    {
      batch := [];
      var from := lastMessageId;
      while from < |log| && |batch| < count
        invariant forall i | 0 <= i < |batch| :: batch[i] < |log|
        invariant |batch| <= count
        invariant ReadBatch(deleted, lastMessageId, |log|, count) ==
                  batch + ReadBatch(deleted, from, |log|, count - |batch|)
        decreases |log| - from
      {
        if from !in deleted {
          batch := batch + [from];
        }
        from := from + 1;
      }
    }

    /** Bills the messages of a batch one after the other, up to the first that throws. */
    method BillAll(batch: seq<nat>, lucks: map<nat, Luck>, ghost start: World) returns (threw: bool)
      requires billing.cfg.Valid() && billing.wallet.Valid()
      requires forall i | 0 <= i < |batch| :: batch[i] < |log|
      requires world == world.(db := billing.wallet.Tables(), log := log, phase := Billing(batch, 0))
      requires Reaches(billing.cfg, start, world)
      modifies this`world, billing.wallet
      ensures billing.wallet.Valid() && Reaches(billing.cfg, start, world)
      ensures (billing.wallet.Tables(), threw) ==
              BilledAll(billing.cfg, old(billing.wallet.Tables()), log, batch, lucks, |batch|)
      ensures world == world.(db := billing.wallet.Tables(), log := log, deleted := old(world).deleted,
              cursor := old(world).cursor,
                              phase := if threw then Idle else Billing(batch, |batch|))
    {
      hide Charge;
      hide Billed;
      hide AfterOne;
      hide Reaches;
      for i := 0 to |batch|
        invariant billing.wallet.Valid() && Reaches(billing.cfg, start, world)
        invariant (billing.wallet.Tables(), false) ==
                  BilledAll(billing.cfg, old(billing.wallet.Tables()), log, batch, lucks, i)
        invariant world == world.(db := billing.wallet.Tables(), log := log, deleted := old(world).deleted,
                                  cursor := old(world).cursor, phase := Billing(batch, i))
      {
        var luck := LuckOf(lucks, batch[i]);
        BillingIsSteps(billing.cfg, start, world, luck);
        BillingEnds(billing.cfg, world, luck);
        world := AfterOne(billing.cfg, world, luck);
        threw := billing.BillClick(log[batch[i]], batch[i], luck);
        if threw {
          NothingAfterThrowing(billing.cfg, old(billing.wallet.Tables()), log, batch, lucks, i + 1, |batch|);
          return;
        }
      }
      threw := false;
    }

    /** Reads the next messages and bills them. */
    method BillNextBatch(lucks: map<nat, Luck>) returns (messages: seq<nat>, threw: bool)
      requires Valid()
      modifies this`world, billing.wallet
      ensures billing.wallet.Valid() && Reaches(billing.cfg, old(world), world)
      ensures messages == ReadBatch(deleted, lastMessageId, |log|, BATCH_SIZE)
      ensures forall i | 0 <= i < |messages| :: messages[i] < |log|
      ensures (billing.wallet.Tables(), threw) ==
              BilledAll(billing.cfg, old(billing.wallet.Tables()), log, messages, lucks, |messages|)
      ensures world == world.(db := billing.wallet.Tables(), log := log, deleted := deleted, cursor := lastMessageId,
                              phase := if threw || messages == [] then Idle else Billing(messages, |messages|))
    {
      ghost var start := world;
      ReachesItself(billing.cfg, start);
      ReachesOneMore(billing.cfg, start, start, Read);
      messages := ReadStream(BATCH_SIZE);
      threw := false;
      if |messages| > 0 {
        world := Do(billing.cfg, world, Read);
        hide Reaches;
        hide ReadBatch;
        hide BilledAll;
        threw := BillAll(messages, lucks, start);
      }
    }

    /** Deletes a billed batch and advances the cursor. */
    method Acknowledge(messages: seq<nat>, fault: Fault, ghost start: World) returns (done: bool)
      requires billing.cfg.Valid() && billing.wallet.Valid() && messages != [] && Reaches(billing.cfg, start, world)
      requires world == world.(db := billing.wallet.Tables(), log := log, deleted := deleted, cursor := lastMessageId,
                               phase := Billing(messages, |messages|))
      modifies this`deleted, this`lastMessageId, this`world
      ensures Valid() && Reaches(billing.cfg, start, world)
      ensures done == (fault == NoFault)
      ensures deleted == old(deleted) + (if done || fault == DeleteReplyLost then set id | id in messages else {})
      ensures lastMessageId == if done then messages[|messages| - 1] + 1 else old(lastMessageId)
    {
      hide Reaches;
      done := false;
      if fault == AnalyticsInsertFails || fault == DeleteFails {
        ReachesOneMore(billing.cfg, start, world, Throw);
        world := Do(billing.cfg, world, Throw);
        return;
      }
      ReachesOneMore(billing.cfg, start, world, Delete);
      world := Do(billing.cfg, world, Delete);
      deleted := deleted + (set id | id in messages);
      if fault == DeleteReplyLost {
        ReachesOneMore(billing.cfg, start, world, Throw);
        world := Do(billing.cfg, world, Throw);
        return;
      }
      ReachesOneMore(billing.cfg, start, world, Advance);
      world := Do(billing.cfg, world, Advance);
      lastMessageId := messages[|messages| - 1] + 1;
      done := true;
    }

    /** Reads, bills, deletes and advances; a fault leaves what is not yet done for the next call. */
    method ProcessNextBatch(lucks: map<nat, Luck>, fault: Fault) returns (inserted: nat, ghost batch: seq<nat>)
      requires Valid()
      modifies this`deleted, this`lastMessageId, this`world, billing.wallet
      ensures Valid() && Reaches(billing.cfg, old(world), world)
      ensures batch == ReadBatch(old(deleted), old(lastMessageId), |log|, BATCH_SIZE)
      ensures forall i | 0 <= i < |batch| :: batch[i] < |log|
      ensures var (db, threw) := BilledAll(billing.cfg, old(billing.wallet.Tables()), log, batch, lucks, |batch|);
              && billing.wallet.Tables() == db
              && inserted == (if !threw && fault == NoFault then |batch| else 0)
              && deleted == old(deleted)
                            + (if !threw && fault in {NoFault, DeleteReplyLost} then set id | id in batch else {})
              && lastMessageId ==
                   (if !threw && fault == NoFault && batch != [] then batch[|batch| - 1] + 1 else old(lastMessageId))
    {
      hide Reaches;
      hide ReadBatch;
      hide BilledAll;
      hide Do;
      ghost var start := world;
      var messages, threw := BillNextBatch(lucks);
      batch := messages;
      inserted := 0;
      if |messages| == 0 || threw {
        return;
      }
      var done := Acknowledge(messages, fault, start);
      inserted := if done then |messages| else 0;
    }
  }
}
