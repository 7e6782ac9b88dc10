/** On the click stream the platform never pays out more than it took in, whatever else runs beside it.

  Here zones, fees and campaigns change at any time, any number of workers bill the same clicks, and every other
  transaction may run in between, as long as it writes no row for a click.
 */
module ClickSolvency {
  import opened Books
  import opened Fees
  import opened LedgerReplay
  import opened Accounts
  import opened ClickBilling
  import ClickWorker

  /** A charged click whose publisher has not been credited yet. */
  datatype Charged = Charged(publisher: UserId, raw: nat)

  datatype World = World(db: Db, log: seq<Click>, tasks: map<nat, Charged>)

  datatype Step =
    | Publish(click: Click)
    | Charge(id: nat, publisher: Option<UserId>)  // `publisher` is what the zone says by now, none if it is gone
    | ChargeFails(id: nat)                        // an error inside the transaction, swallowed
    | Credit(id: nat, feeBps: nat)
    | GiveUp(id: nat)                             // the worker dies, or anything between charge and credit throws
    | Idle                                        // reading, deleting, moving the cursor
    | Other(op: Op)

  function Do(w: World, step: Step): World {
    match step
    case Publish(click) => w.(log := w.log + [click])
    case Charge(id, publisher) =>
      if id >= |w.log| || w.log[id].cost <= 0 || publisher.None? then w
      else
        (match Spend(w.db, w.log[id].campaign, w.log[id].cost, ClickRef(id))
         case Rollback(_) => w
         case Commit(d) => w.(db := d, tasks := w.tasks[id := Charged(publisher.value, w.log[id].cost)]))
    case ChargeFails(_) => w
    case Idle => w
    case Credit(id, feeBps) =>
      if id !in w.tasks || feeBps > FULL_FEE_BPS then w
      else
        w.(db := CreditShare(feeBps, w.db, w.tasks[id].publisher, w.tasks[id].raw, ClickRef(id)),
           tasks := w.tasks - {id})
    case GiveUp(id) => w.(tasks := w.tasks - {id})
    case Other(op) => if LeavesAlone(Clicks, op) then w.(db := Next(w.db, op)) else w
  }

  function Run(w: World, steps: seq<Step>): World {
    if steps == [] then w else Do(Run(w, steps[..|steps| - 1]), steps[|steps| - 1])
  }

  function Start(db: Db): World {
    World(db, [], map[])
  }

  /** Each charge for a click sits in the wallet of the owner of its campaign. */
  ghost predicate SpendsAtHome(w: World) {
    forall i | 0 <= i < |w.db.ledger| && IsClickSpend(w.db.ledger[i]) ::
      var id := w.db.ledger[i].ref.value.message;
      id < |w.log| && w.log[id].campaign < |w.db.campaigns|
      && w.db.ledger[i].user == w.db.campaigns[w.log[id].campaign].owner
  }

  /** A click has been billed no further than its task says. */
  ghost predicate Billed(w: World, k: nat) {
    var a := AccountOf(w.db.ledger, ClickRef(k));
    if k in w.tasks then Normalize(w.tasks[k].raw).Cents? && a == Account(1, Normalize(w.tasks[k].raw).cents, 0, 0)
    else a.InOrder()
  }

  lemma OwnersStay(db: Db, op: Op)
    ensures |db.campaigns| <= |Next(db, op).campaigns|
    ensures forall i | 0 <= i < |db.campaigns| :: Next(db, op).campaigns[i].owner == db.campaigns[i].owner
  {
  }

  /** A charge that goes through is the first for its click. */
  lemma ChargeIsFirst(w: World, id: nat)
    requires SpendsAtHome(w) && id < |w.log| && Spend(w.db, w.log[id].campaign, w.log[id].cost, ClickRef(id)).Commit?
    ensures Count(w.db.ledger, AD_SPEND, ClickRef(id)) == 0 && Sum(w.db.ledger, AD_SPEND, ClickRef(id)) == 0
  {
    SpendRowOf(w.db, w.log[id].campaign, w.log[id].cost, ClickRef(id));
    CountZero(w.db.ledger, AD_SPEND, ClickRef(id));
    SumOfNone(w.db.ledger, AD_SPEND, ClickRef(id));
  }

  lemma ChargeKeeps(w: World, step: Step, k: nat)
    requires SpendsAtHome(w) && Billed(w, k) && step.Charge?
    ensures SpendsAtHome(Do(w, step)) && Billed(Do(w, step), k)
  {
    var id := step.id;
    if id < |w.log| && w.log[id].cost > 0 && step.publisher.Some? {
      var c, raw := w.log[id].campaign, w.log[id].cost;
      OwnersStay(w.db, OpSpend(c, raw, ClickRef(id)));
      if Spend(w.db, c, raw, ClickRef(id)).Commit? {
        ChargeIsFirst(w, id);
        SpendRowOf(w.db, c, raw, ClickRef(id));
        var row := Row(w.db.campaigns[c].owner, AD_SPEND, Normalize(raw).cents, Some(ClickRef(id)));
        assert Do(w, step).db == Next(w.db, OpSpend(c, raw, ClickRef(id)));
        assert Do(w, step).db.ledger == w.db.ledger + [row];
        AccountAppend(w.db.ledger, row, ClickRef(k));
        hide Spend;
        hide Next;
      }
    }
  }

  lemma CreditRows(db: Db, publisher: UserId, raw: nat, id: nat, feeBps: nat)
    requires feeBps <= FULL_FEE_BPS && Normalize(raw).Cents?
    ensures var after := CreditShare(feeBps, db, publisher, raw, ClickRef(id));
            && after.campaigns == db.campaigns
            && (after.ledger == db.ledger || exists share: nat ::
                  share <= Normalize(raw).cents
                  && after.ledger == db.ledger + [Row(publisher, PUBLISHER_EARNING, share, Some(ClickRef(id)))])
  {
    ShareWithinCharge(Normalize(raw).cents, feeBps);
    var share := PublisherShare(raw, feeBps);
    hide PublisherShare;
    if share > 0 {
      CreditRowOf(db, publisher, share, ClickRef(id));
    }
  }

  lemma CreditKeeps(w: World, step: Step, k: nat)
    requires SpendsAtHome(w) && (forall j: nat :: Billed(w, j)) && step.Credit?
    ensures SpendsAtHome(Do(w, step)) && Billed(Do(w, step), k)
  {
    var id := step.id;
    if id in w.tasks && step.feeBps <= FULL_FEE_BPS {
      assert Billed(w, id) && Billed(w, k);
      CreditRows(w.db, w.tasks[id].publisher, w.tasks[id].raw, id, step.feeBps);
      hide CreditShare;
      var after := Do(w, step);
      if after.db.ledger != w.db.ledger {
        var share: nat :| share <= Normalize(w.tasks[id].raw).cents
                          && after.db.ledger ==
                             w.db.ledger + [Row(w.tasks[id].publisher, PUBLISHER_EARNING, share, Some(ClickRef(id)))];
        AccountAppend(w.db.ledger, Row(w.tasks[id].publisher, PUBLISHER_EARNING, share, Some(ClickRef(id))),
          ClickRef(k));
      }
    }
  }

  lemma OtherKeeps(w: World, op: Op, k: nat)
    requires SpendsAtHome(w) && Billed(w, k) && LeavesAlone(Clicks, op)
    ensures SpendsAtHome(Do(w, Other(op))) && Billed(Do(w, Other(op)), k)
  {
    OwnersStay(w.db, op);
    OtherRow(Clicks, w.db, op);
    OtherKeepsAccount(Clicks, w.db, op, k);
    hide Next;
  }

  lemma StepKeeps(w: World, step: Step, k: nat)
    requires SpendsAtHome(w) && forall j: nat :: Billed(w, j)
    ensures SpendsAtHome(Do(w, step)) && Billed(Do(w, step), k)
  {
    assert Billed(w, k);
    match step
    case Charge(_, _) => ChargeKeeps(w, step, k);
    case Credit(_, _) => CreditKeeps(w, step, k);
    case Other(op) => if LeavesAlone(Clicks, op) { OtherKeeps(w, op, k); }
    case _ =>
  }

  lemma {:induction false} EveryClickBilled(db: Db, steps: seq<Step>)
    requires NoneYet(Clicks, db)
    ensures SpendsAtHome(Run(Start(db), steps)) && forall k: nat :: Billed(Run(Start(db), steps), k)
  {
    if steps == [] {
      forall k: nat ensures Billed(Start(db), k) {
        EmptyAccount(Clicks, db.ledger, k);
      }
      assert forall i | 0 <= i < |db.ledger| :: !IsEventRow(Clicks, db.ledger[i]);
    } else {
      var n := |steps| - 1;
      EveryClickBilled(db, steps[..n]);
      forall k: nat ensures Billed(Run(Start(db), steps), k) && SpendsAtHome(Run(Start(db), steps)) {
        StepKeeps(Run(Start(db), steps[..n]), steps[n], k);
      }
      StepKeeps(Run(Start(db), steps[..n]), steps[n], 0);
    }
  }

  /** Main result: in every run a click is charged at most once, credited only if charged, and never for more. */
  lemma EveryClickInOrder(db: Db, steps: seq<Step>, k: nat)
    requires NoneYet(Clicks, db)
    ensures AccountOf(Run(Start(db), steps).db.ledger, ClickRef(k)).InOrder()
  {
    EveryClickBilled(db, steps);
    assert Billed(Run(Start(db), steps), k);
  }

  /** Main result: a publisher row for a click stands beside exactly one AD_SPEND
      row with its reference, which is at least as large. */
  lemma ClickCreditHasItsSpend(db: Db, steps: seq<Step>, row: Row)
    requires NoneYet(Clicks, db) && row in Run(Start(db), steps).db.ledger && IsClickCredit(row)
    ensures var ledger := Run(Start(db), steps).db.ledger;
            && Count(ledger, AD_SPEND, row.ref.value) == 1
            && exists spend | spend in ledger ::
                 spend.kind == AD_SPEND && spend.ref == row.ref && spend.amount >= row.amount
  {
    EveryClickInOrder(db, steps, row.ref.value.message);
    CreditHasItsCharge(Run(Start(db), steps).db.ledger, row.ref.value, row);
  }

  /** Main result: over all clicks together, in every run and for any fees,
      publishers get no more than advertisers paid. */
  lemma PlatformNeverLosesOnClicks(db: Db, steps: seq<Step>, n: nat)
    requires NoneYet(Clicks, db)
    ensures TakeBelow(Clicks, Run(Start(db), steps).db.ledger, n) >= 0
  {
    forall k: nat | k < n ensures AccountOf(Run(Start(db), steps).db.ledger, RefOf(Clicks, k)).InOrder() {
      EveryClickInOrder(db, steps, k);
    }
    OrderLeavesNoLoss(Clicks, Run(Start(db), steps).db.ledger, n);
  }

  // --- the stream worker is one such system ---

  /** The click the worker has charged and not yet credited. */
  function Flying(cfg: Config, w: ClickWorker.World): Option<nat> {
    if w.phase.Crediting? && w.phase.next < |w.phase.batch| && w.phase.batch[w.phase.next] < |w.log|
       && Billable(cfg, w.log[w.phase.batch[w.phase.next]])
    then Some(w.phase.batch[w.phase.next])
    else None
  }

  function TaskOf(cfg: Config, click: Click): Charged
    requires Billable(cfg, click)
  {
    Charged(cfg.zones[click.zone], click.cost)
  }

  /** The worker's state, as billing sees it. */
  function Seen(cfg: Config, w: ClickWorker.World): World {
    World(w.db, w.log, match Flying(cfg, w)
                       case Some(id) => map[id := TaskOf(cfg, w.log[id])]
                       case None => map[])
  }

  /** The billing step that a worker's step is. */
  function BillingStep(cfg: Config, w: ClickWorker.World, step: ClickWorker.Step): Step {
    if step.Publish? && step.click.campaign in cfg.campaigns then Publish(step.click)
    else if step.Other? && ClickWorker.LeavesStreamAlone(cfg, w.db, step.op) then Other(step.op)
    else if step.ChargeNext? && ClickWorker.AtMessage(w) then
      var id := w.phase.batch[w.phase.next];
      Charge(id, if w.log[id].zone in cfg.zones then Some(cfg.zones[w.log[id].zone]) else None)
    else if step.CreditNow? && Flying(cfg, w).Some? then Credit(Flying(cfg, w).value, cfg.feeBps)
    else if (step.CreditFails? || step.Throw? || step.Crash?) && Flying(cfg, w).Some? then GiveUp(Flying(cfg, w).value)
    else Idle
  }

  lemma WorkerChargeIsBillingStep(cfg: Config, w: ClickWorker.World)
    requires cfg.Valid()
    ensures Seen(cfg, ClickWorker.Do(cfg, w, ClickWorker.ChargeNext)) ==
            Do(Seen(cfg, w), BillingStep(cfg, w, ClickWorker.ChargeNext))
  {
    hide Spend;
  }

  lemma WorkerOtherIsBillingStep(cfg: Config, w: ClickWorker.World, op: Op)
    requires cfg.Valid()
    ensures Seen(cfg, ClickWorker.Do(cfg, w, ClickWorker.Other(op))) ==
            Do(Seen(cfg, w), BillingStep(cfg, w, ClickWorker.Other(op)))
  {
    hide Next;
    if ClickWorker.LeavesStreamAlone(cfg, w.db, op) {
      assert LeavesAlone(Clicks, op);
      hide LeavesAlone;
    }
    hide ClickWorker.LeavesStreamAlone;
  }

  lemma WorkerCreditIsBillingStep(cfg: Config, w: ClickWorker.World)
    requires cfg.Valid() && (w.phase.Crediting? ==> Flying(cfg, w).Some?)
    ensures Seen(cfg, ClickWorker.Do(cfg, w, ClickWorker.CreditNow)) ==
            Do(Seen(cfg, w), BillingStep(cfg, w, ClickWorker.CreditNow))
  {
    hide CreditShare;
    if w.phase.Crediting? {
      var id := Flying(cfg, w).value;
      assert map[id := TaskOf(cfg, w.log[id])] - {id} == map[];
    }
  }

  lemma WorkerQuietIsBillingStep(cfg: Config, w: ClickWorker.World, step: ClickWorker.Step)
    requires cfg.Valid() && (w.phase.Crediting? ==> Flying(cfg, w).Some?)
    requires !step.Other? && !step.ChargeNext? && !step.CreditNow?
    ensures Seen(cfg, ClickWorker.Do(cfg, w, step)) == Do(Seen(cfg, w), BillingStep(cfg, w, step))
  {
    if w.phase.Crediting? {
      var id := Flying(cfg, w).value;
      assert map[id := TaskOf(cfg, w.log[id])] - {id} == map[];
    }
  }

  /** Every step of the worker is a billing step. */
  lemma WorkerStepIsBillingStep(cfg: Config, db0: Db, w: ClickWorker.World, step: ClickWorker.Step)
    requires ClickWorker.Ready(cfg, db0) && ClickWorker.OnTrack(cfg, db0, w)
    ensures Seen(cfg, ClickWorker.Do(cfg, w, step)) == Do(Seen(cfg, w), BillingStep(cfg, w, step))
  {
    if w.phase.Crediting? {
      assert w.phase.next < |w.phase.batch| && w.phase.batch[w.phase.next] in ClickWorker.InFlight(w);
      assert Flying(cfg, w).Some?;
    }
    hide ClickWorker.OnTrack;
    hide ClickWorker.Do;
    hide Do;
    hide Seen;
    hide BillingStep;
    if step.ChargeNext? {
      WorkerChargeIsBillingStep(cfg, w);
    } else if step.CreditNow? {
      WorkerCreditIsBillingStep(cfg, w);
    } else if step.Other? {
      WorkerOtherIsBillingStep(cfg, w, step.op);
    } else {
      WorkerQuietIsBillingStep(cfg, w, step);
    }
  }

  /** Main result: so every run of the worker is a run of billing, and the results above hold of it. */
  lemma {:induction false} WorkerRunIsBillingRun(cfg: Config, db0: Db, steps: seq<ClickWorker.Step>)
      returns (billing: seq<Step>)
    requires ClickWorker.Ready(cfg, db0)
    ensures Seen(cfg, ClickWorker.Run(cfg, ClickWorker.Start(db0), steps)) == Run(Start(db0), billing)
  {
    billing := [];
    if steps != [] {
      var n := |steps| - 1;
      var before := WorkerRunIsBillingRun(cfg, db0, steps[..n]);
      var w := ClickWorker.Run(cfg, ClickWorker.Start(db0), steps[..n]);
      ClickWorker.RunStaysOnTrack(cfg, db0, steps[..n]);
      WorkerStepIsBillingStep(cfg, db0, w, steps[n]);
      billing := before + [BillingStep(cfg, w, steps[n])];
      assert billing[..|before|] == before;
    }
  }
}
