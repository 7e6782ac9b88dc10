/** Conversion postbacks: claimed once, charged at most once, and credited within the charge.

  Any number of postbacks, for the same or different clicks, run at the same time as any other wallet
  transactions. The claim of a click, the charge and the credit are three separate steps; between them
  the caller can fail.
 */
module Conversions {
  import opened Books
  import opened Fees
  import opened LedgerReplay
  import opened Accounts

  datatype AdClick = AdClick(campaign: CampaignId, zone: nat, converted: bool)

  /** Where the one postback that claimed a click has got to. */
  datatype Stage = Claimed | ChargedFor(publisher: UserId, cents: nat)

  datatype World = World(db: Db, clicks: seq<AdClick>, tasks: map<nat, Stage>)

  datatype Step =
    | RecordClick(campaign: CampaignId, zone: nat)
    | Claim(click: nat)
    | Charge(click: nat, publisher: Option<UserId>, maxCpa: Option<int>)  // what campaign and zone say by now
    | Credit(click: nat, feeBps: nat)
    | GiveUp(click: nat)
    | Other(op: Op)

  function Do(w: World, step: Step): World {
    match step
    case RecordClick(campaign, zone) => w.(clicks := w.clicks + [AdClick(campaign, zone, false)])
    case Claim(k) =>
      if k < |w.clicks| && !w.clicks[k].converted
      then w.(clicks := w.clicks[k := w.clicks[k].(converted := true)], tasks := w.tasks[k := Claimed])
      else w
    case Charge(k, publisher, maxCpa) =>
      if k !in w.tasks || k >= |w.clicks| || !w.tasks[k].Claimed? then w
      else if publisher.None? || maxCpa.None? then w.(tasks := w.tasks - {k})
      else
        (match Spend(w.db, w.clicks[k].campaign, maxCpa.value, ConversionRef(k))
         case Rollback(_) => w.(tasks := w.tasks - {k})
         case Commit(d) => w.(db := d,
                              tasks := w.tasks[k := ChargedFor(publisher.value, Normalize(maxCpa.value).cents)]))
    case Credit(k, feeBps) =>
      if k !in w.tasks || !w.tasks[k].ChargedFor? || feeBps > FULL_FEE_BPS then w
      else
        var share := PublisherShare(w.tasks[k].cents * MILLICENTS_PER_CENT, feeBps);
        w.(db := if share == 0 then w.db
                 else Next(w.db, OpCredit(w.tasks[k].publisher, share * MILLICENTS_PER_CENT, ConversionRef(k), false)),
           tasks := w.tasks - {k})
    case GiveUp(k) => w.(tasks := w.tasks - {k})
    case Other(op) => if LeavesAlone(Conversions, op) then w.(db := Next(w.db, op)) else w
  }

  function Run(w: World, steps: seq<Step>): World {
    if steps == [] then w else Do(Run(w, steps[..|steps| - 1]), steps[|steps| - 1])
  }

  /** Conversion `k` has been billed no further than its click and its task say. */
  ghost predicate Billed(w: World, k: nat) {
    var a := AccountOf(w.db.ledger, ConversionRef(k));
    if k >= |w.clicks| || !w.clicks[k].converted then k !in w.tasks && a == NOTHING
    else if k in w.tasks && w.tasks[k].Claimed? then a == NOTHING
    else if k in w.tasks then a == Account(1, w.tasks[k].cents, 0, 0)
    else a.InOrder()
  }

  lemma ChargeStaysBilled(w: World, step: Step, k: nat)
    requires Billed(w, k) && step.Charge?
    ensures Billed(Do(w, step), k)
  {
    var j := step.click;
    if j in w.tasks && j < |w.clicks| && w.tasks[j].Claimed? && step.publisher.Some? && step.maxCpa.Some? {
      var c, raw := w.clicks[j].campaign, step.maxCpa.value;
      if Spend(w.db, c, raw, ConversionRef(j)).Commit? {
        SpendRowOf(w.db, c, raw, ConversionRef(j));
        var row := Row(w.db.campaigns[c].owner, AD_SPEND, Normalize(raw).cents, Some(ConversionRef(j)));
        assert Do(w, step).db.ledger == w.db.ledger + [row];
        AccountAppend(w.db.ledger, row, ConversionRef(k));
      }
    }
  }

  lemma CreditStaysBilled(w: World, step: Step, k: nat)
    requires Billed(w, k) && step.Credit?
    ensures Billed(Do(w, step), k)
  {
    var j := step.click;
    if j in w.tasks && w.tasks[j].ChargedFor? && step.feeBps <= FULL_FEE_BPS {
      var share := PublisherShare(w.tasks[j].cents * MILLICENTS_PER_CENT, step.feeBps);
      ShareWithinCharge(w.tasks[j].cents, step.feeBps);
      hide PublisherShare;
      if share > 0 {
        CreditRowOf(w.db, w.tasks[j].publisher, share, ConversionRef(j));
        AccountAppend(w.db.ledger, Row(w.tasks[j].publisher, PUBLISHER_EARNING, share, Some(ConversionRef(j))),
          ConversionRef(k));
      }
    }
  }

  lemma StepStaysBilled(w: World, step: Step, k: nat)
    requires Billed(w, k)
    ensures Billed(Do(w, step), k)
  {
    match step
    case Charge(_, _, _) => ChargeStaysBilled(w, step, k);
    case Credit(_, _) => CreditStaysBilled(w, step, k);
    case Other(op) =>
      if LeavesAlone(Conversions, op) {
        OtherKeepsAccount(Conversions, w.db, op, k);
      }
    case _ =>
  }

  function Start(db: Db): World {
    World(db, [], map[])
  }

  lemma {:induction false} EveryConversionBilled(db: Db, steps: seq<Step>, k: nat)
    requires NoneYet(Conversions, db)
    ensures Billed(Run(Start(db), steps), k)
  {
    if steps == [] {
      EmptyAccount(Conversions, db.ledger, k);
    } else {
      var n := |steps| - 1;
      EveryConversionBilled(db, steps[..n], k);
      StepStaysBilled(Run(Start(db), steps[..n]), steps[n], k);
    }
  }

  /** Main result: however postbacks interleave, a click is charged at most
      once, credited only if charged, and never for more. */
  lemma EveryConversionInOrder(db: Db, steps: seq<Step>, k: nat)
    requires NoneYet(Conversions, db)
    ensures AccountOf(Run(Start(db), steps).db.ledger, ConversionRef(k)).InOrder()
  {
    EveryConversionBilled(db, steps, k);
  }

  /** Main result: over all conversions together the platform never pays out more than it took in, for any fees. */
  lemma PlatformNeverLosesOnConversions(db: Db, steps: seq<Step>, n: nat)
    requires NoneYet(Conversions, db)
    ensures TakeBelow(Conversions, Run(Start(db), steps).db.ledger, n) >= 0
  {
    forall k: nat | k < n ensures AccountOf(Run(Start(db), steps).db.ledger, RefOf(Conversions, k)).InOrder() {
      EveryConversionInOrder(db, steps, k);
    }
    OrderLeavesNoLoss(Conversions, Run(Start(db), steps).db.ledger, n);
  }
}
