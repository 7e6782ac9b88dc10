/** What the batches of a CPM campaign add up to. */
module CpmBatches {
  import opened Books
  import opened Fees
  import opened LedgerReplay
  import opened CpmCounters
  import opened Cpm

  // --- each batch once ---

  lemma ChargeIsFirst(c: CampaignId, db: Db, task: Task)
    requires OwnersFit(c, db) && task.Charging? && ChargeOf(db, c, task).Some?
    ensures Count(db.ledger, AD_SPEND, BatchRef(c, task.batch)) == 0
  {
    SpendRow(db, c, task.price, BatchRef(c, task.batch));
    forall i | 0 <= i < |db.ledger|
      ensures !(db.ledger[i].kind == AD_SPEND && db.ledger[i].ref == Some(BatchRef(c, task.batch)))
    {
      assert db.ledger[i] in db.ledger;
    }
    CountZero(db.ledger, AD_SPEND, BatchRef(c, task.batch));
  }

  lemma ChargeChargesOnce(c: CampaignId, db: Db, task: Task, batch: nat)
    requires OwnersFit(c, db) && task.Charging? && Count(db.ledger, AD_SPEND, BatchRef(c, batch)) <= 1
    ensures ChargeOf(db, c, task).Some? ==> Count(ChargeOf(db, c, task).value.ledger, AD_SPEND, BatchRef(c, batch)) <= 1
  {
    hide ChargeOf;
    var written := ChargeBills(c, db, task);
    if written.Some? {
      ChargeIsFirst(c, db, task);
      CountAppend(db.ledger, written.value, AD_SPEND, BatchRef(c, batch));
    }
  }

  lemma CreditChargesNothing(c: CampaignId, db: Db, task: Task, publisher: Option<UserId>, feeBps: nat, batch: nat)
    requires OwnersFit(c, db) && task.Crediting?
    ensures CreditOf(db, c, task, publisher, feeBps).Some? ==>
              Count(CreditOf(db, c, task, publisher, feeBps).value.ledger, AD_SPEND, BatchRef(c, batch))
              == Count(db.ledger, AD_SPEND, BatchRef(c, batch))
  {
    hide CreditOf;
    hide OwnersFit;
    hide PublisherShare;
    hide Taken;
    hide Count;
    var written := CreditBills(c, db, task, publisher, feeBps);
    if written.Some? {
      CountAppend(db.ledger, written.value, AD_SPEND, BatchRef(c, batch));
    }
  }

  lemma StepChargesBatchOnce(c: CampaignId, w: World, step: Step, batch: nat)
    requires OwnersFit(c, w.db) && Count(w.db.ledger, AD_SPEND, BatchRef(c, batch)) <= 1
    ensures Count(Do(c, w, step).db.ledger, AD_SPEND, BatchRef(c, batch)) <= 1
  {
    hide ChargeOf;
    hide CreditOf;
    hide OwnersFit;
    hide Count;
    match step
    case Charge(i) =>
      if i < |w.tasks| && w.tasks[i].Charging? {
        ChargeChargesOnce(c, w.db, w.tasks[i], batch);
      }
    case Credit(i, publisher, feeBps) =>
      if i < |w.tasks| && w.tasks[i].Crediting? {
        CreditChargesNothing(c, w.db, w.tasks[i], publisher, feeBps, batch);
      }
    case Other(op) =>
      if LeavesBatchesAlone(c, op) {
        OtherRow(c, w.db, op);
        if RowOf(w.db, op).Some? {
          CountAppend(w.db.ledger, RowOf(w.db, op).value, AD_SPEND, BatchRef(c, batch));
        }
      }
    case _ =>
  }

  lemma {:induction false} EveryBatchChargedOnce(c: CampaignId, db: Db, steps: seq<Step>, batch: nat)
    requires NoBatchesYet(c, db)
    ensures Count(Run(c, Start(db), steps).db.ledger, AD_SPEND, BatchRef(c, batch)) <= 1
  {
    if steps == [] {
      NoRowsYet(c, db.ledger, Advertiser);
      assert KindOf(Advertiser) == AD_SPEND && RefOf(c, Advertiser, batch) == BatchRef(c, batch);
    } else {
      EveryBatchChargedOnce(c, db, steps[..|steps| - 1], batch);
      EveryRunFits(c, db, steps[..|steps| - 1]);
      StepChargesBatchOnce(c, Run(c, Start(db), steps[..|steps| - 1]), steps[|steps| - 1], batch);
    }
  }

  /** No wallet has two rows for one batch of a side. */
  ghost predicate OncePerWallet(ledger: seq<Row>, c: CampaignId, side: Side) {
    forall i, j | 0 <= i < j < |ledger| && IsBatchRow(ledger[i], c, side) && IsBatchRow(ledger[j], c, side) ::
      !(ledger[i].user == ledger[j].user && ledger[i].ref == ledger[j].ref)
  }

  lemma RowKeepsOncePerWallet(ledger: seq<Row>, row: Row, c: CampaignId, side: Side)
    requires OncePerWallet(ledger, c, side)
    requires IsBatchRow(row, c, side) ==> !Taken(ledger, row.user, row.kind, row.ref)
    ensures OncePerWallet(ledger + [row], c, side)
  {
  }

  lemma StepKeepsOncePerWallet(c: CampaignId, w: World, step: Step, side: Side)
    requires OwnersFit(c, w.db) && OncePerWallet(w.db.ledger, c, side)
    ensures OncePerWallet(Do(c, w, step).db.ledger, c, side)
  {
    hide ChargeOf;
    hide CreditOf;
    hide OwnersFit;
    hide OncePerWallet;
    match step
    case Charge(i) =>
      if i < |w.tasks| && w.tasks[i].Charging? {
        var written := ChargeBills(c, w.db, w.tasks[i]);
        if written.Some? {
          RowKeepsOncePerWallet(w.db.ledger, written.value, c, side);
        }
      }
    case Credit(i, publisher, feeBps) =>
      if i < |w.tasks| && w.tasks[i].Crediting? {
        var written := CreditBills(c, w.db, w.tasks[i], publisher, feeBps);
        if written.Some? {
          RowKeepsOncePerWallet(w.db.ledger, written.value, c, side);
        }
      }
    case Other(op) =>
      if LeavesBatchesAlone(c, op) {
        OtherRow(c, w.db, op);
        if RowOf(w.db, op).Some? {
          RowKeepsOncePerWallet(w.db.ledger, RowOf(w.db, op).value, c, side);
        }
      }
    case _ =>
  }

  /** Main result: in every run, outages included, no advertiser is charged and no
      publisher credited twice for one batch number, 0 included. */
  lemma {:induction false} EveryBatchOncePerWallet(c: CampaignId, db: Db, steps: seq<Step>, side: Side)
    requires NoBatchesYet(c, db)
    ensures OncePerWallet(Run(c, Start(db), steps).db.ledger, c, side)
  {
    if steps == [] {
      assert forall i | 0 <= i < |db.ledger| :: db.ledger[i] in db.ledger;
    } else {
      var n := |steps| - 1;
      EveryBatchOncePerWallet(c, db, steps[..n], side);
      EveryRunFits(c, db, steps[..n]);
      StepKeepsOncePerWallet(c, Run(c, Start(db), steps[..n]), steps[n], side);
    }
  }

  /** Main result: exactly which batches any run bills. A numbered batch has one row, or one task, or was missed
      once, if its thousandth impression was counted and heard, and none of these otherwise; batch 0 one for
      every failure. The advertiser's ledger takes each number once at most. */
  lemma BatchRowsOfEveryRun(c: CampaignId, db: Db, steps: seq<Step>, side: Side, batch: nat)
    requires NoBatchesYet(c, db)
    ensures var w := Run(c, Start(db), steps);
            var rows := Count(w.db.ledger, KindOf(side), RefOf(c, side, batch));
            var k := Due(w, side);
            && rows + Owed(w.tasks, OneBatch(side, batch)) + Occurs(Missed(w, side), batch) ==
                 (if batch == 0 then k.failures
                  else if batch * IMPRESSIONS_PER_CPM_BATCH <= k.count
                       && batch * IMPRESSIONS_PER_CPM_BATCH !in k.unheard then 1
                  else 0)
            && (side == Advertiser ==> rows <= 1)
  {
    EveryRunFits(c, db, steps);
    EveryBatchChargedOnce(c, db, steps, batch);
    hide Run;
    BatchFitsCounter(c, Run(c, Start(db), steps), side, batch);
  }

  lemma BatchFitsCounter(c: CampaignId, w: World, side: Side, batch: nat)
    requires SideFits(c, w, side)
    ensures var k := Due(w, side);
            Count(w.db.ledger, KindOf(side), RefOf(c, side, batch)) + Owed(w.tasks, OneBatch(side, batch))
              + Occurs(Missed(w, side), batch)
              == if batch == 0 then k.failures
                 else if batch * IMPRESSIONS_PER_CPM_BATCH <= k.count
                      && batch * IMPRESSIONS_PER_CPM_BATCH !in k.unheard then 1
                 else 0
  {
    hide Count;
    hide Owed;
    hide Rows;
    CounterSays(Due(w, side), batch);
    hide CounterFits;
  }

  lemma CounterSays(k: Counter, batch: nat)
    requires CounterFits(k)
    ensures Occurs(k.due, batch) ==
              if batch == 0 then k.failures
              else if batch * IMPRESSIONS_PER_CPM_BATCH <= k.count
                   && batch * IMPRESSIONS_PER_CPM_BATCH !in k.unheard then 1
              else 0
  {
  }

  /** Main result: without failures the due batches are 1, 2, ... on both sides, each is a row, in flight or
      missed, and the publishers' batches never get ahead of the advertiser's. */
  lemma HealthyBatches(c: CampaignId, db: Db, steps: seq<Step>)
    requires NoBatchesYet(c, db)
    requires Run(c, Start(db), steps).raw.failures == 0 && Run(c, Start(db), steps).unique.failures == 0
    ensures var w := Run(c, Start(db), steps);
            && w.raw.due == FirstBatches(w.raw.count / IMPRESSIONS_PER_CPM_BATCH)
            && w.unique.due == FirstBatches(w.unique.count / IMPRESSIONS_PER_CPM_BATCH)
            && Rows(w.db.ledger, c, Advertiser) + Owed(w.tasks, AnyBatch(Advertiser)) + |w.uncollected| == |w.raw.due|
            && Rows(w.db.ledger, c, Publisher) + Owed(w.tasks, AnyBatch(Publisher)) + |w.uncredited| == |w.unique.due|
            && |w.unique.due| <= |w.raw.due|
  {
    EveryRunFits(c, db, steps);
    var w := Run(c, Start(db), steps);
    assert SideFits(c, w, Advertiser) && SideFits(c, w, Publisher);
  }

  lemma {:induction false} NothingOwed(tasks: seq<Task>, side: Side, batch: nat)
    requires Owed(tasks, AnyBatch(side)) == 0
    ensures Owed(tasks, OneBatch(side, batch)) == 0
  {
    if tasks != [] {
      NothingOwed(tasks[..|tasks| - 1], side, batch);
    }
  }

  /** Main result: with nothing missed or in flight each batch up to a
      thousandth of a healthy count has exactly one row. */
  lemma EveryHealthyBatchHasItsRow(c: CampaignId, db: Db, steps: seq<Step>, side: Side, batch: nat)
    requires NoBatchesYet(c, db) && Due(Run(c, Start(db), steps), side).failures == 0
    requires Owed(Run(c, Start(db), steps).tasks, AnyBatch(side)) == 0 && Missed(Run(c, Start(db), steps), side) == []
    ensures var w := Run(c, Start(db), steps);
            Count(w.db.ledger, KindOf(side), RefOf(c, side, batch))
              == if 1 <= batch <= Due(w, side).count / IMPRESSIONS_PER_CPM_BATCH then 1 else 0
  {
    var w := Run(c, Start(db), steps);
    EveryRunFits(c, db, steps);
    BatchRowsOfEveryRun(c, db, steps, side, batch);
    NothingOwed(w.tasks, side, batch);
    assert Due(w, side).unheard == {} by { assert InOrder(Due(w, side)); }
  }

  // --- which impressions the counters count ---

  /** How many priced impressions a run has seen, all of them or the unique ones. */
  function Arrived(steps: seq<Step>, uniqueOnly: bool): nat {
    if steps == [] then 0
    else
      var last := steps[|steps| - 1];
      Arrived(steps[..|steps| - 1], uniqueOnly)
        + if last.Impression? && last.price > 0 && (last.once || !uniqueOnly) then 1 else 0
  }

  lemma StepCounts(c: CampaignId, w: World, step: Step)
    requires !step.Die? && Do(c, w, step).raw.failures == 0 && Do(c, w, step).unique.failures == 0
    ensures w.raw.failures == 0 && w.unique.failures == 0
    ensures var after := Do(c, w, step);
            var priced := step.Impression? && step.price > 0;
            && after.raw.count == w.raw.count + (if priced then 1 else 0)
            && after.unique.count + Owed(after.tasks, UniqueCounts)
               == w.unique.count + Owed(w.tasks, UniqueCounts) + (if priced && step.once then 1 else 0)
  {
    hide Owed;
    hide ChargeOf;
    hide CreditOf;
    var after := Do(c, w, step);
    if step.Impression? && step.price > 0 {
      OwedAppend(w.tasks, after.tasks[|w.tasks|], UniqueCounts);
    } else if (step.Charge? || step.CountOnce? || step.Credit?) && step.task < |w.tasks| {
      OwedUpdate(w.tasks, step.task, after.tasks[step.task], UniqueCounts);
      assert w.tasks[step.task := w.tasks[step.task]] == w.tasks;
    }
  }

  /** Main result: without failures and crashes the raw count is the number of impressions, and the unique count the
      number of unique ones, less those whose task has not got there yet. */
  lemma {:induction false} HealthyCountsAreExact(c: CampaignId, db: Db, steps: seq<Step>)
    requires forall i | 0 <= i < |steps| :: !steps[i].Die?
    requires Run(c, Start(db), steps).raw.failures == 0 && Run(c, Start(db), steps).unique.failures == 0
    ensures var w := Run(c, Start(db), steps);
            && w.raw.count == Arrived(steps, false)
            && w.unique.count + Owed(w.tasks, UniqueCounts) == Arrived(steps, true)
  {
    assert Owed([], UniqueCounts) == 0;
    hide Do;
    hide Owed;
    if steps != [] {
      var n := |steps| - 1;
      StepCounts(c, Run(c, Start(db), steps[..n]), steps[n]);
      HealthyCountsAreExact(c, db, steps[..n]);
    }
  }

  // --- money ---

  /** Every impression was sold at the same whole-cent price. */
  predicate AtPrice(steps: seq<Step>, cents: nat) {
    forall step | step in steps && step.Impression? :: step.price == cents * MILLICENTS_PER_CENT
  }

  predicate Priced(task: Task, cents: nat) {
    !task.Over? ==> task.price == cents * MILLICENTS_PER_CENT
  }

  /** What `n` batches at `cents` each are worth. */
  function Worth(cents: nat, n: nat): nat {
    if n == 0 then 0 else Worth(cents, n - 1) + cents
  }

  lemma {:induction false} WorthWithin(cents: nat, credited: nat, charged: nat, open: nat)
    requires credited <= charged + open
    ensures Worth(cents, credited) <= Worth(cents, charged) + Worth(cents, open)
  {
    if credited > 0 {
      if charged > 0 {
        WorthWithin(cents, credited - 1, charged - 1, open);
      } else {
        WorthWithin(cents, credited - 1, 0, open - 1);
      }
    }
  }

  ghost predicate TotalsFit(ledger: seq<Row>, c: CampaignId, cents: nat) {
    && Total(ledger, c, Advertiser) == Worth(cents, Rows(ledger, c, Advertiser))
    && Total(ledger, c, Publisher) <= Worth(cents, Rows(ledger, c, Publisher))
  }

  lemma RowKeepsTotals(ledger: seq<Row>, row: Row, c: CampaignId, cents: nat)
    requires TotalsFit(ledger, c, cents)
    requires IsBatchRow(row, c, Advertiser) ==> row.amount == cents
    requires IsBatchRow(row, c, Publisher) ==> row.amount <= cents
    ensures TotalsFit(ledger + [row], c, cents)
  {
    RowsAppend(ledger, row, c, Advertiser);
    RowsAppend(ledger, row, c, Publisher);
  }

  ghost predicate TasksPriced(w: World, cents: nat) {
    forall i | 0 <= i < |w.tasks| :: Priced(w.tasks[i], cents)
  }

  lemma StepKeepsTasksPriced(c: CampaignId, w: World, step: Step, cents: nat)
    requires TasksPriced(w, cents)
    requires step.Impression? ==> step.price == cents * MILLICENTS_PER_CENT
    ensures TasksPriced(Do(c, w, step), cents)
  {
  }

  lemma StepKeepsTotals(c: CampaignId, w: World, step: Step, cents: nat)
    requires Fits(c, w) && TasksPriced(w, cents) && TotalsFit(w.db.ledger, c, cents)
    ensures TotalsFit(Do(c, w, step).db.ledger, c, cents)
  {
    match step
    case Charge(i) =>
      if i < |w.tasks| && w.tasks[i].Charging? {
        assert Priced(w.tasks[i], cents);
        ChargeKeepsTotals(c, w.db, w.tasks[i], cents);
      }
    case Credit(i, publisher, feeBps) =>
      if i < |w.tasks| && w.tasks[i].Crediting? {
        assert Priced(w.tasks[i], cents);
        CreditKeepsTotals(c, w.db, w.tasks[i], publisher, feeBps, cents);
      }
    case Other(op) =>
      if LeavesBatchesAlone(c, op) {
        OtherRow(c, w.db, op);
        if RowOf(w.db, op).Some? {
          RowKeepsTotals(w.db.ledger, RowOf(w.db, op).value, c, cents);
        }
      }
    case _ =>
  }

  lemma ChargeKeepsTotals(c: CampaignId, db: Db, task: Task, cents: nat)
    requires OwnersFit(c, db) && TotalsFit(db.ledger, c, cents)
    requires task.Charging? && task.price == cents * MILLICENTS_PER_CENT
    ensures ChargeOf(db, c, task).Some? ==> TotalsFit(ChargeOf(db, c, task).value.ledger, c, cents)
  {
    var written := ChargeBills(c, db, task);
    if written.Some? {
      RowKeepsTotals(db.ledger, written.value, c, cents);
    }
  }

  lemma CreditKeepsTotals(c: CampaignId, db: Db, task: Task, publisher: Option<UserId>, feeBps: nat, cents: nat)
    requires OwnersFit(c, db) && TotalsFit(db.ledger, c, cents)
    requires task.Crediting? && task.price == cents * MILLICENTS_PER_CENT
    ensures CreditOf(db, c, task, publisher, feeBps).Some? ==>
              TotalsFit(CreditOf(db, c, task, publisher, feeBps).value.ledger, c, cents)
  {
    var written := CreditBills(c, db, task, publisher, feeBps);
    if written.Some? {
      ShareWithinCharge(cents, feeBps);
      RowKeepsTotals(db.ledger, written.value, c, cents);
    }
  }

  lemma {:induction false} EveryRunKeepsMoney(c: CampaignId, db: Db, steps: seq<Step>, cents: nat)
    requires NoBatchesYet(c, db) && AtPrice(steps, cents)
    ensures TasksPriced(Run(c, Start(db), steps), cents) && TotalsFit(Run(c, Start(db), steps).db.ledger, c, cents)
  {
    if steps == [] {
      NoRowsYet(c, db.ledger, Advertiser);
      NoRowsYet(c, db.ledger, Publisher);
    } else {
      var n := |steps| - 1;
      assert steps[n] in steps && forall step | step in steps[..n] :: step in steps;
      EveryRunKeepsMoney(c, db, steps[..n], cents);
      EveryRunFits(c, db, steps[..n]);
      StepKeepsTasksPriced(c, Run(c, Start(db), steps[..n]), steps[n], cents);
      StepKeepsTotals(c, Run(c, Start(db), steps[..n]), steps[n], cents);
    }
  }

  /** How many thousands `n` begins. */
  function Begun(n: nat): nat {
    (n + IMPRESSIONS_PER_CPM_BATCH - 1) / IMPRESSIONS_PER_CPM_BATCH
  }

  lemma ThousandsOfSum(a: nat, b: nat)
    ensures (a + b) / IMPRESSIONS_PER_CPM_BATCH <= a / IMPRESSIONS_PER_CPM_BATCH + Begun(b)
  {
  }

  /** How far the publishers' batches can get ahead of the advertiser's: one for each failure of their own
      counter, and one for each thousand of failures the raw counter begins. */
  lemma PublisherBatchesWithin(c: CampaignId, w: World)
    requires Fits(c, w)
    ensures |w.unique.due| <= |w.raw.due| + w.unique.failures + Begun(w.raw.failures)
  {
    ThousandsOfSum(w.raw.count, w.raw.failures);
  }

  /** Main result: at one price, in every run, what publishers were credited is covered by what the advertiser was
      charged, the batches that could not be collected or are still being charged, and what failures of the
      counters let through; without failures that last part is nothing. */
  lemma CreditedWithinCharged(c: CampaignId, db: Db, steps: seq<Step>, cents: nat)
    requires NoBatchesYet(c, db) && AtPrice(steps, cents)
    ensures var w := Run(c, Start(db), steps);
            Total(w.db.ledger, c, Publisher)
              <= Total(w.db.ledger, c, Advertiser)
                 + Worth(cents, |w.uncollected| + Owed(w.tasks, AnyBatch(Advertiser)) + w.unique.failures
                   + Begun(w.raw.failures))
  {
    var w := Run(c, Start(db), steps);
    EveryRunFits(c, db, steps);
    assert SideFits(c, w, Advertiser) && SideFits(c, w, Publisher);
    PublisherBatchesWithin(c, w);
    EveryRunKeepsMoney(c, db, steps, cents);
    hide Run;
    hide Rows;
    hide Total;
    hide Owed;
    hide Worth;
    hide Fits;
    hide SideFits;
    hide Begun;
    WorthWithin(cents, Rows(w.db.ledger, c, Publisher), Rows(w.db.ledger, c, Advertiser),
                |w.uncollected| + Owed(w.tasks, AnyBatch(Advertiser)) + w.unique.failures + Begun(w.raw.failures));
  }

  // --- what an outage does ---

  /** One impression handled from start to end with nothing in between. */
  function Handled(c: CampaignId, w: World, price: nat, once: bool, publisher: Option<UserId>, feeBps: nat,
      raw: Heard, unique: Heard)
    : World
  {
    var i := |w.tasks|;
    if price == 0 then w
    else
      var charged := Do(c, Do(c, w, Impression(price, once, raw)), Charge(i));
      if once then Do(c, Do(c, charged, CountOnce(i, unique)), Credit(i, publisher, feeBps)) else charged
  }

  lemma TwoMore(c: CampaignId, w: World, steps: seq<Step>, first: Step, second: Step)
    ensures Run(c, w, steps + [first, second]) == Do(c, Do(c, Run(c, w, steps), first), second)
  {
    assert (steps + [first, second])[..|steps| + 1] == steps + [first];
    assert (steps + [first])[..|steps|] == steps;
  }

  /** Handling impressions one after the other is a run of the step system. */
  lemma HandledIsARun(c: CampaignId, start: World, steps: seq<Step>, price: nat, once: bool,
                      publisher: Option<UserId>, feeBps: nat, raw: Heard, unique: Heard)
    returns (longer: seq<Step>)
    ensures steps <= longer
    ensures Run(c, start, longer) == Handled(c, Run(c, start, steps), price, once, publisher, feeBps, raw, unique)
  {
    longer := steps;
    if price > 0 {
      var i := |Run(c, start, steps).tasks|;
      TwoMore(c, start, steps, Impression(price, once, raw), Charge(i));
      longer := steps + [Impression(price, once, raw), Charge(i)];
      if once {
        TwoMore(c, start, longer, CountOnce(i, unique), Credit(i, publisher, feeBps));
        longer := longer + [CountOnce(i, unique), Credit(i, publisher, feeBps)];
      }
    }
  }

  const SHOP := Db(map[0 := 0, 1 := 0, 2 := 0], map[0 := Wallet(2000, 0, 2000, 0, 0, 0)],
    [Campaign(0, ACTIVE, 2000, 2000, 0)], [], [])

  const OUTAGE_SPEND := Row(0, AD_SPEND, 1000, Some(BatchRef(0, 0)))

  function OutageCredit(publisher: UserId): Row {
    Row(publisher, PUBLISHER_EARNING, 800, Some(UniqueBatchRef(0, 0)))
  }

  /** An impression of campaign 0 at ten dollars in the zone of `publisher`, while the store refuses everything. */
  function DuringOutage(w: World, publisher: UserId): World {
    Handled(0, w, 1_000_000, true, Some(publisher), 2000, NotCounted, NotCounted)
  }

  lemma OutageAlwaysCredits(w: World, publisher: UserId)
    requires publisher in w.db.balances
    requires !Taken(w.db.ledger, publisher, PUBLISHER_EARNING, Some(UniqueBatchRef(0, 0)))
    ensures var charged := Spend(w.db, 0, 1_000_000, BatchRef(0, 0));
            DuringOutage(w, publisher).db.ledger ==
              (if charged.Commit? then charged.db.ledger else w.db.ledger)
              + [OutageCredit(publisher)]
    ensures DuringOutage(w, publisher).db.balances.Keys == w.db.balances.Keys
    ensures |DuringOutage(w, publisher).db.campaigns| == |w.db.campaigns|
    ensures 0 < |w.db.campaigns| ==> DuringOutage(w, publisher).db.campaigns[0].owner == w.db.campaigns[0].owner
  {
    var i := |w.tasks|;
    var counted := Do(0, w, Impression(1_000_000, true, NotCounted));
    assert counted.tasks[i] == Charging(0, 1_000_000, true) && counted.db == w.db;
    SpendRow(w.db, 0, 1_000_000, BatchRef(0, 0));
    var charged := Do(0, counted, Charge(i));
    assert charged.tasks[i] == Counting(1_000_000);
    var again := Do(0, charged, CountOnce(i, NotCounted));
    assert again.tasks[i] == Crediting(0, 1_000_000) && again.db == charged.db;
    CreditRow(again.db, publisher, 800_000, UniqueBatchRef(0, 0));
    assert PublisherShare(1_000_000, 2000) == 800;
  }

  lemma FirstOutageCharges()
    ensures var w1 := DuringOutage(Start(SHOP), 1);
            && w1.db.ledger == [OUTAGE_SPEND, OutageCredit(1)]
            && w1.db.balances.Keys == {0, 1, 2} && |w1.db.campaigns| == 1 && w1.db.campaigns[0].owner == 0
  {
    OutageAlwaysCredits(Start(SHOP), 1);
    SpendRow(SHOP, 0, 1_000_000, BatchRef(0, 0));
    assert Spend(SHOP, 0, 1_000_000, BatchRef(0, 0)).Commit?;
    assert [] + [OUTAGE_SPEND] + [OutageCredit(1)] == [OUTAGE_SPEND, OutageCredit(1)];
  }

  lemma SecondOutageDoesNot()
    ensures DuringOutage(DuringOutage(Start(SHOP), 1), 2).db.ledger == [OUTAGE_SPEND, OutageCredit(1), OutageCredit(2)]
  {
    FirstOutageCharges();
    hide Handled;
    var w1 := DuringOutage(Start(SHOP), 1);
    OutageAlwaysCredits(w1, 2);
    assert w1.db.ledger[0] == OUTAGE_SPEND;
    SpendRow(w1.db, 0, 1_000_000, BatchRef(0, 0));
    assert Spend(w1.db, 0, 1_000_000, BatchRef(0, 0)).Rollback?;
  }

  lemma OutageTotals()
    ensures Total([OUTAGE_SPEND, OutageCredit(1), OutageCredit(2)], 0, Advertiser) == 1000
    ensures Total([OUTAGE_SPEND, OutageCredit(1), OutageCredit(2)], 0, Publisher) == 1600
  {
    forall side: Side
      ensures Total([OUTAGE_SPEND, OutageCredit(1), OutageCredit(2)], 0, side) ==
              if side == Advertiser then 1000 else 1600
    {
      RowsAppend([], OUTAGE_SPEND, 0, side);
      RowsAppend([OUTAGE_SPEND], OutageCredit(1), 0, side);
      RowsAppend([OUTAGE_SPEND, OutageCredit(1)], OutageCredit(2), 0, side);
      assert [] + [OUTAGE_SPEND] == [OUTAGE_SPEND];
      assert [OUTAGE_SPEND] + [OutageCredit(1)] == [OUTAGE_SPEND, OutageCredit(1)];
      assert [OUTAGE_SPEND, OutageCredit(1)] + [OutageCredit(2)] == [OUTAGE_SPEND, OutageCredit(1), OutageCredit(2)];
    }
  }

  /** Two impressions during an outage: the advertiser is charged for batch 0
      once, but each publisher is credited for it. */
  lemma OutageCreditsMoreThanItCharges()
    ensures NoBatchesYet(0, SHOP)
    ensures exists steps ::
              && Total(Run(0, Start(SHOP), steps).db.ledger, 0, Advertiser) == 1000
              && Total(Run(0, Start(SHOP), steps).db.ledger, 0, Publisher) == 1600
  {
    hide Handled;
    hide Total;
    var w0 := Start(SHOP);
    assert Run(0, w0, []) == w0;
    hide Run;
    SecondOutageDoesNot();
    OutageTotals();
    var steps := HandledIsARun(0, w0, [], 1_000_000, true, Some(1), 2000, NotCounted, NotCounted);
    steps := HandledIsARun(0, w0, steps, 1_000_000, true, Some(2), 2000, NotCounted, NotCounted);
    assert Run(0, w0, steps) == DuringOutage(DuringOutage(w0, 1), 2);
  }

  /** What handling one impression does to the counters: it counts raw once, and for the publishers once if it is
      unique; an impression without a price counts nowhere. Money only moves at multiples of a thousand. */
  lemma HandledCounts(c: CampaignId, w: World, price: nat, once: bool, publisher: Option<UserId>, feeBps: nat,
                      raw: Heard, unique: Heard)
    ensures var after := Handled(c, w, price, once, publisher, feeBps, raw, unique);
            var between := raw == Counted && (w.raw.count + 1) % 1000 != 0
                           && unique == Counted && (w.unique.count + 1) % 1000 != 0;
            && after.raw == (if price > 0 then Tally(w.raw, raw) else w.raw)
            && after.unique == (if price > 0 && once then Tally(w.unique, unique) else w.unique)
            && after.tasks == (if price > 0 then w.tasks + [Over] else w.tasks)
            && (between ==> after.db == w.db)
  {
    hide ChargeOf;
    hide CreditOf;
  }

  /** The thousandth raw impression is charged at its price, before it counts for the publishers. */
  lemma ThousandthIsCharged(c: CampaignId, w: World, price: nat, once: bool)
    requires price > 0 && (w.raw.count + 1) % 1000 == 0
    ensures var after := Do(c, w, Impression(price, once, Counted));
            after.tasks == w.tasks + [Charging((w.raw.count + 1) / 1000, price, once)]
  {
  }

  /** The thousandth unique impression is credited at its price under its batch number. */
  lemma ThousandthIsCredited(c: CampaignId, w: World, i: nat)
    requires i < |w.tasks| && w.tasks[i].Counting? && (w.unique.count + 1) % 1000 == 0
    ensures Do(c, w, CountOnce(i, Counted)).tasks ==
            w.tasks[i := Crediting((w.unique.count + 1) / 1000, w.tasks[i].price)]
  {
  }
}
