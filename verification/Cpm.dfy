/** CPM billing of one campaign: impressions are counted twice, raw for the advertiser and deduplicated for the
  publishers, and each counter bills a batch whenever it crosses a thousand.

  Every impression is handled by a task of its own; tasks, crashes and all other wallet transactions interleave
  in any order.
 */
module Cpm {
  import opened Books
  import opened Fees
  import opened LedgerReplay
  import opened CpmCounters

  datatype Task =
    | Charging(batch: nat, price: nat, once: bool)  // about to charge; `once` if the publisher's count follows
    | Counting(price: nat)                          // about to count the impression for the publishers
    | Crediting(batch: nat, price: nat)             // about to credit the publisher of its zone
    | Over

  datatype World = World(
    db: Db,
    raw: Counter,
    unique: Counter,
    tasks: seq<Task>,
    uncollected: seq<nat>,  // due advertiser batches that billing tried or died on without a charge
    uncredited: seq<nat>)   // the same for publisher batches

  datatype Step =
    | Impression(price: nat, once: bool, heard: Heard)
    | Charge(task: nat)
    | CountOnce(task: nat, heard: Heard)
    | Credit(task: nat, publisher: Option<UserId>, feeBps: nat)
    | Die(task: nat)
    | Other(op: Op)

  function AfterCount(price: nat, once: bool): Task {
    if once then Counting(price) else Over
  }

  /** No other transaction uses the batch references of campaign `c`. */
  predicate LeavesBatchesAlone(c: CampaignId, op: Op) {
    && (op.OpSpend? ==> !(op.ref.BatchRef? && op.ref.campaign == c))
    && (op.OpCredit? ==> !(op.ref.UniqueBatchRef? && op.ref.campaign == c))
  }

  /** The credit of one publisher batch: no row when the share rounds to zero or the wallet refuses it. */
  function CreditOf(db: Db, c: CampaignId, task: Task, publisher: Option<UserId>, feeBps: nat): Option<Db>
    requires task.Crediting?
  {
    if publisher.None? || feeBps > FULL_FEE_BPS || PublisherShare(task.price, feeBps) == 0 then None
    else
      match Books.Credit(db, publisher.value, PublisherShare(task.price, feeBps) * MILLICENTS_PER_CENT,
                         UniqueBatchRef(c, task.batch), false)
      case Commit(d) => Some(d)
      case Rollback(_) => None
  }

  function ChargeOf(db: Db, c: CampaignId, task: Task): Option<Db>
    requires task.Charging?
  {
    match Spend(db, c, task.price, BatchRef(c, task.batch))
    case Commit(d) => Some(d)
    case Rollback(_) => None
  }

  function Do(c: CampaignId, w: World, step: Step): World {
    match step
    case Impression(price, once, heard) =>
      if price == 0 then w
      else
        var told := ToldCount(w.raw, heard);
        var task :=
          if told % IMPRESSIONS_PER_CPM_BATCH == 0 then Charging(told / IMPRESSIONS_PER_CPM_BATCH, price, once)
                    else AfterCount(price, once);
        w.(raw := Tally(w.raw, heard), tasks := w.tasks + [task])
    case Charge(i) =>
      if i >= |w.tasks| || !w.tasks[i].Charging? then w
      else
        var next := w.(tasks := w.tasks[i := AfterCount(w.tasks[i].price, w.tasks[i].once)]);
        (match ChargeOf(w.db, c, w.tasks[i])
         case Some(d) => next.(db := d)
         case None => next.(uncollected := w.uncollected + [w.tasks[i].batch]))
    case CountOnce(i, heard) =>
      if i >= |w.tasks| || !w.tasks[i].Counting? then w
      else
        var told := ToldCount(w.unique, heard);
        var task :=
          if told % IMPRESSIONS_PER_CPM_BATCH == 0 then Crediting(told / IMPRESSIONS_PER_CPM_BATCH, w.tasks[i].price)
                    else Over;
        w.(unique := Tally(w.unique, heard), tasks := w.tasks[i := task])
    case Credit(i, publisher, feeBps) =>
      if i >= |w.tasks| || !w.tasks[i].Crediting? then w
      else
        var next := w.(tasks := w.tasks[i := Over]);
        (match CreditOf(w.db, c, w.tasks[i], publisher, feeBps)
         case Some(d) => next.(db := d)
         case None => next.(uncredited := w.uncredited + [w.tasks[i].batch]))
    case Die(i) =>
      if i >= |w.tasks| then w
      else w.(tasks := w.tasks[i := Over],
              uncollected := if w.tasks[i].Charging? then w.uncollected + [w.tasks[i].batch] else w.uncollected,
              uncredited := if w.tasks[i].Crediting? then w.uncredited + [w.tasks[i].batch] else w.uncredited)
    case Other(op) => if LeavesBatchesAlone(c, op) then w.(db := Next(w.db, op)) else w
  }

  function Run(c: CampaignId, w: World, steps: seq<Step>): World {
    if steps == [] then w else Do(c, Run(c, w, steps[..|steps| - 1]), steps[|steps| - 1])
  }

  // --- counting tasks and rows ---

  datatype Side = Advertiser | Publisher

  function RefOf(c: CampaignId, side: Side, batch: nat): Ref {
    if side == Advertiser then BatchRef(c, batch) else UniqueBatchRef(c, batch)
  }

  function KindOf(side: Side): Kind {
    if side == Advertiser then AD_SPEND else PUBLISHER_EARNING
  }

  predicate IsBatchRow(row: Row, c: CampaignId, side: Side) {
    row.kind == KindOf(side) && row.ref.Some?
    && if side == Advertiser then row.ref.value.BatchRef? && row.ref.value.campaign == c
       else row.ref.value.UniqueBatchRef? && row.ref.value.campaign == c
  }

  predicate IsRowOfBatch(row: Row, c: CampaignId, side: Side, batch: nat) {
    row.kind == KindOf(side) && row.ref == Some(RefOf(c, side, batch))
  }

  /** How many batch rows a ledger holds, and what they add up to in cents. */
  function Rows(ledger: seq<Row>, c: CampaignId, side: Side): nat {
    if ledger == [] then 0
    else Rows(ledger[..|ledger| - 1], c, side) + if IsBatchRow(ledger[|ledger| - 1], c, side) then 1 else 0
  }

  function Total(ledger: seq<Row>, c: CampaignId, side: Side): nat {
    if ledger == [] then 0
    else
      var last := ledger[|ledger| - 1];
      Total(ledger[..|ledger| - 1], c, side) + if IsBatchRow(last, c, side) then last.amount else 0
  }

  lemma RowsAppend(ledger: seq<Row>, row: Row, c: CampaignId, side: Side)
    ensures Rows(ledger + [row], c, side) == Rows(ledger, c, side) + if IsBatchRow(row, c, side) then 1 else 0
    ensures Total(ledger + [row], c, side) ==
            Total(ledger, c, side) + if IsBatchRow(row, c, side) then row.amount else 0
  {
    assert (ledger + [row])[..|ledger|] == ledger;
  }

  /** What a count of tasks is about: one batch of a side, all batches of a side, or impressions still to be counted. */
  datatype Debt = OneBatch(side: Side, batch: nat) | AnyBatch(side: Side) | UniqueCounts

  function Owes(task: Task, debt: Debt): nat {
    match debt
    case OneBatch(side, batch) =>
      if (if side == Advertiser then task.Charging? else task.Crediting?) && task.batch == batch then 1 else 0
    case AnyBatch(side) => if (if side == Advertiser then task.Charging? else task.Crediting?) then 1 else 0
    case UniqueCounts => if task.Counting? || (task.Charging? && task.once) then 1 else 0
  }

  function Owed(tasks: seq<Task>, debt: Debt): nat {
    if tasks == [] then 0 else Owed(tasks[..|tasks| - 1], debt) + Owes(tasks[|tasks| - 1], debt)
  }

  lemma OwedAppend(tasks: seq<Task>, task: Task, debt: Debt)
    ensures Owed(tasks + [task], debt) == Owed(tasks, debt) + Owes(task, debt)
  {
    assert (tasks + [task])[..|tasks|] == tasks;
  }

  lemma {:induction false} OwedUpdate(tasks: seq<Task>, i: nat, task: Task, debt: Debt)
    requires i < |tasks|
    ensures Owed(tasks[i := task], debt) == Owed(tasks, debt) - Owes(tasks[i], debt) + Owes(task, debt)
    ensures Owed(tasks, debt) >= Owes(tasks[i], debt)
  {
    var n := |tasks| - 1;
    if i < n {
      assert tasks[i := task][..n] == tasks[..n][i := task];
      OwedUpdate(tasks[..n], i, task, debt);
    } else {
      assert tasks[i := task][..n] == tasks[..n];
    }
  }

  // --- what every step keeps ---

  function Due(w: World, side: Side): Counter {
    if side == Advertiser then w.raw else w.unique
  }

  function Missed(w: World, side: Side): seq<nat> {
    if side == Advertiser then w.uncollected else w.uncredited
  }

  /** Every due batch is a row, or in the hands of a task, or missed: altogether, and batch by batch. */
  ghost predicate SideFits(c: CampaignId, w: World, side: Side) {
    && CounterFits(Due(w, side))
    && Rows(w.db.ledger, c, side) + Owed(w.tasks, AnyBatch(side)) + |Missed(w, side)| == |Due(w, side).due|
    && forall batch: nat {:trigger Occurs(Due(w, side).due, batch)} ::
         Count(w.db.ledger, KindOf(side), RefOf(c, side, batch)) + Owed(w.tasks, OneBatch(side, batch))
           + Occurs(Missed(w, side), batch)
           == Occurs(Due(w, side).due, batch)
  }

  /** No impression is counted for a publisher before it was counted, or failed to be, for the advertiser. */
  ghost predicate CountsFit(w: World) {
    w.unique.count + Owed(w.tasks, UniqueCounts) <= w.raw.count + w.raw.failures
  }

  ghost predicate OwnersFit(c: CampaignId, db: Db) {
    && ForeignKeys(db)
    && forall row | row in db.ledger && IsBatchRow(row, c, Advertiser) ::
         c < |db.campaigns| && row.user == db.campaigns[c].owner
  }

  ghost predicate Fits(c: CampaignId, w: World) {
    && SideFits(c, w, Advertiser) && SideFits(c, w, Publisher) && CountsFit(w) && OwnersFit(c, w.db)
    && InOrder(w.raw) && InOrder(w.unique)
  }

  /** What a step does on one side: a batch that falls due, a row it writes, a batch it misses. */
  datatype Move = Move(due: Option<nat>, written: Option<Row>, missed: Option<nat>)

  /** The side's counter, ledger and missed batches move as `m` says. */
  ghost predicate MovesBy(w: World, after: World, side: Side, m: Move) {
    && Due(after, side).due == (if m.due.Some? then Due(w, side).due + [m.due.value] else Due(w, side).due)
    && after.db.ledger == (if m.written.Some? then w.db.ledger + [m.written.value] else w.db.ledger)
    && Missed(after, side) == (if m.missed.Some? then Missed(w, side) + [m.missed.value] else Missed(w, side))
  }

  /** What a side's tasks owe moves along, altogether and for one batch. */
  predicate OwedKept(c: CampaignId, w: World, after: World, side: Side, m: Move) {
    Owed(after.tasks, AnyBatch(side)) + (if m.written.Some? && IsBatchRow(m.written.value, c, side) then 1 else 0)
      + (if m.missed.Some? then 1 else 0)
      == Owed(w.tasks, AnyBatch(side)) + if m.due.Some? then 1 else 0
  }

  predicate OneBatchKept(c: CampaignId, w: World, after: World, side: Side, m: Move, batch: nat) {
    Owed(after.tasks, OneBatch(side, batch))
    + (if m.written.Some? && IsRowOfBatch(m.written.value, c, side, batch) then 1 else 0)
      + (if m.missed == Some(batch) then 1 else 0)
      == Owed(w.tasks, OneBatch(side, batch)) + if m.due == Some(batch) then 1 else 0
  }

  lemma OneBatchFits(c: CampaignId, w: World, after: World, side: Side, m: Move, batch: nat)
    requires SideFits(c, w, side) && MovesBy(w, after, side, m) && OneBatchKept(c, w, after, side, m, batch)
    ensures Count(after.db.ledger, KindOf(side), RefOf(c, side, batch)) + Owed(after.tasks, OneBatch(side, batch))
              + Occurs(Missed(after, side), batch)
              == Occurs(Due(after, side).due, batch)
  {
    hide Owed;
    hide Count;
    hide CounterFits;
    assert Occurs(Due(w, side).due, batch) == Occurs(Due(w, side).due, batch);
    if m.written.Some? {
      CountAppend(w.db.ledger, m.written.value, KindOf(side), RefOf(c, side, batch));
    }
    if m.due.Some? {
      OccursAppend(Due(w, side).due, m.due.value, batch);
    }
    if m.missed.Some? {
      OccursAppend(Missed(w, side), m.missed.value, batch);
    }
  }

  lemma SameSide(c: CampaignId, w: World, after: World, side: Side, m: Move)
    requires SideFits(c, w, side) && CounterFits(Due(after, side))
    requires MovesBy(w, after, side, m) && OwedKept(c, w, after, side, m)
    requires forall batch: nat :: OneBatchKept(c, w, after, side, m, batch)
    ensures SideFits(c, after, side)
  {
    if m.written.Some? {
      RowsAppend(w.db.ledger, m.written.value, c, side);
    }
    forall batch: nat
      ensures Count(after.db.ledger, KindOf(side), RefOf(c, side, batch)) + Owed(after.tasks, OneBatch(side, batch))
                + Occurs(Missed(after, side), batch)
                == Occurs(Due(after, side).due, batch)
    {
      assert OneBatchKept(c, w, after, side, m, batch);
      OneBatchFits(c, w, after, side, m, batch);
    }
  }

  lemma SpendRow(db: Db, c: CampaignId, raw: int, ref: Ref)
    ensures var outcome := Spend(db, c, raw, ref);
            outcome.Commit? ==>
              && c < |db.campaigns| && Normalize(raw).Cents?
              && outcome.db.ledger ==
                   db.ledger + [Row(db.campaigns[c].owner, AD_SPEND, Normalize(raw).cents, Some(ref))]
              && !Taken(db.ledger, db.campaigns[c].owner, AD_SPEND, Some(ref))
              && |outcome.db.campaigns| == |db.campaigns| && outcome.db.campaigns[c].owner == db.campaigns[c].owner
  {
  }

  lemma CreditRow(db: Db, u: UserId, raw: int, ref: Ref)
    ensures var outcome := Books.Credit(db, u, raw, ref, false);
            outcome.Commit? ==>
              && Normalize(raw).Cents?
              && outcome.db.ledger == db.ledger + [Row(u, PUBLISHER_EARNING, Normalize(raw).cents, Some(ref))]
              && !Taken(db.ledger, u, PUBLISHER_EARNING, Some(ref))
              && outcome.db.campaigns == db.campaigns
  {
  }

  /** Other transactions write no batch row of `c` and never change who owns a campaign. */
  lemma OtherRow(c: CampaignId, db: Db, op: Op)
    requires LeavesBatchesAlone(c, op)
    ensures match RowOf(db, op)
            case None => Next(db, op).ledger == db.ledger
            case Some(row) => Next(db, op).ledger == db.ledger + [row]
                              && !IsBatchRow(row, c, Advertiser) && !IsBatchRow(row, c, Publisher)
  {
  }

  lemma CampaignOwnersKept(db: Db, op: Op)
    ensures |db.campaigns| <= |Next(db, op).campaigns|
    ensures forall i | 0 <= i < |db.campaigns| :: Next(db, op).campaigns[i].owner == db.campaigns[i].owner
  {
  }

  lemma ImpressionFits(c: CampaignId, w: World, price: nat, once: bool, heard: Heard)
    requires Fits(c, w)
    ensures Fits(c, Do(c, w, Impression(price, once, heard)))
  {
    hide CounterFits;
    hide InOrder;
    hide Owed;
    hide Rows;
    hide OwnersFit;
    if price > 0 {
      var after := Do(c, w, Impression(price, once, heard));
      var told := ToldCount(w.raw, heard);
      var task := after.tasks[|w.tasks|];
      var due := if told % IMPRESSIONS_PER_CPM_BATCH == 0 then Some(told / IMPRESSIONS_PER_CPM_BATCH) else None;
      TallyFits(w.raw, heard);
      TallyInOrder(w.raw, heard);
      OwedAppend(w.tasks, task, UniqueCounts);
      forall side: Side ensures SideFits(c, after, side) {
        OwedAppend(w.tasks, task, AnyBatch(side));
        var mine := Move(if side == Advertiser then due else None, None, None);
        forall batch: nat ensures OneBatchKept(c, w, after, side, mine, batch) {
          OwedAppend(w.tasks, task, OneBatch(side, batch));
        }
        SameSide(c, w, after, side, mine);
      }
    }
  }

  lemma CountOnceFits(c: CampaignId, w: World, i: nat, heard: Heard)
    requires Fits(c, w)
    ensures Fits(c, Do(c, w, CountOnce(i, heard)))
  {
    hide CounterFits;
    hide InOrder;
    hide Owed;
    hide Rows;
    hide OwnersFit;
    if i < |w.tasks| && w.tasks[i].Counting? {
      var after := Do(c, w, CountOnce(i, heard));
      var told := ToldCount(w.unique, heard);
      var task := after.tasks[i];
      var due := if told % IMPRESSIONS_PER_CPM_BATCH == 0 then Some(told / IMPRESSIONS_PER_CPM_BATCH) else None;
      TallyFits(w.unique, heard);
      TallyInOrder(w.unique, heard);
      OwedUpdate(w.tasks, i, task, UniqueCounts);
      forall side: Side ensures SideFits(c, after, side) {
        OwedUpdate(w.tasks, i, task, AnyBatch(side));
        var mine := Move(if side == Publisher then due else None, None, None);
        forall batch: nat ensures OneBatchKept(c, w, after, side, mine, batch) {
          OwedUpdate(w.tasks, i, task, OneBatch(side, batch));
        }
        SameSide(c, w, after, side, mine);
      }
    }
  }

  lemma DieFits(c: CampaignId, w: World, i: nat)
    requires Fits(c, w)
    ensures Fits(c, Do(c, w, Die(i)))
  {
    if i < |w.tasks| {
      var after := Do(c, w, Die(i));
      OwedUpdate(w.tasks, i, Over, UniqueCounts);
      forall side: Side ensures SideFits(c, after, side) {
        OwedUpdate(w.tasks, i, Over, AnyBatch(side));
        var mine := Move(None, None, if Owes(w.tasks[i], AnyBatch(side)) == 1 then Some(w.tasks[i].batch) else None);
        forall batch: nat ensures OneBatchKept(c, w, after, side, mine, batch) {
          OwedUpdate(w.tasks, i, Over, OneBatch(side, batch));
        }
        SameSide(c, w, after, side, mine);
      }
    }
  }

  /** What the billing of a task did to the database: nothing, or one row of its own batch. */
  ghost predicate Billed(c: CampaignId, before: Db, after: Db, side: Side, batch: nat, written: Option<Row>) {
    && OwnersFit(c, after)
    && after.ledger == (if written.Some? then before.ledger + [written.value] else before.ledger)
    && (written.Some? ==> IsRowOfBatch(written.value, c, side, batch))
  }

  lemma ChargeBills(c: CampaignId, db: Db, task: Task) returns (written: Option<Row>)
    requires OwnersFit(c, db) && task.Charging?
    ensures written.Some? == ChargeOf(db, c, task).Some?
    ensures written.Some? ==> Normalize(task.price).Cents? && written.value.amount == Normalize(task.price).cents
    ensures written.Some? ==> !Taken(db.ledger, written.value.user, written.value.kind, written.value.ref)
    ensures Billed(c, db, if written.Some? then ChargeOf(db, c, task).value else db, Advertiser, task.batch, written)
  {
    var ref := BatchRef(c, task.batch);
    SpendRow(db, c, task.price, ref);
    ForeignKeysKept(db, OpSpend(c, task.price, ref));
    written := if ChargeOf(db, c, task).None? then None
               else Some(Row(db.campaigns[c].owner, AD_SPEND, Normalize(task.price).cents, Some(ref)));
  }

  lemma CreditBills(c: CampaignId, db: Db, task: Task, publisher: Option<UserId>, feeBps: nat)
      returns (written: Option<Row>)
    requires OwnersFit(c, db) && task.Crediting?
    ensures written.Some? == CreditOf(db, c, task, publisher, feeBps).Some?
    ensures written.Some? ==> feeBps <= FULL_FEE_BPS && written.value.amount == PublisherShare(task.price, feeBps)
    ensures written.Some? ==> !Taken(db.ledger, written.value.user, written.value.kind, written.value.ref)
    ensures Billed(c, db, if written.Some? then CreditOf(db, c, task, publisher, feeBps).value else db,
                   Publisher, task.batch, written)
  {
    written := None;
    if CreditOf(db, c, task, publisher, feeBps).Some? {
      var ref := UniqueBatchRef(c, task.batch);
      var raw := PublisherShare(task.price, feeBps) * MILLICENTS_PER_CENT;
      CreditRow(db, publisher.value, raw, ref);
      ForeignKeysKept(db, OpCredit(publisher.value, raw, ref, false));
      written := Some(Row(publisher.value, PUBLISHER_EARNING, Normalize(raw).cents, Some(ref)));
    }
  }

  /** What a task that billed its batch, or tried to, did on side `s`. */
  function BillingMove(c: CampaignId, task: Task, s: Side, written: Option<Row>): Move {
    Move(None, written, if Owes(task, AnyBatch(s)) == 1 && written.None? then Some(task.batch) else None)
  }

  lemma BillingKeepsSide(c: CampaignId, w: World, after: World, i: nat, next: Task, s: Side, written: Option<Row>)
    requires SideFits(c, w, s) && i < |w.tasks|
    requires after.tasks == w.tasks[i := next] && !next.Charging? && !next.Crediting?
    requires Due(after, s) == Due(w, s) && MovesBy(w, after, s, BillingMove(c, w.tasks[i], s, written))
    requires written.Some? ==> (IsBatchRow(written.value, c, s) <==> Owes(w.tasks[i], AnyBatch(s)) == 1)
    requires written.Some? && IsBatchRow(written.value, c, s) ==> IsRowOfBatch(written.value, c, s, w.tasks[i].batch)
    ensures SideFits(c, after, s)
  {
    var m := BillingMove(c, w.tasks[i], s, written);
    OwedUpdate(w.tasks, i, next, AnyBatch(s));
    forall batch: nat ensures OneBatchKept(c, w, after, s, m, batch) {
      OwedUpdate(w.tasks, i, next, OneBatch(s, batch));
    }
    SameSide(c, w, after, s, m);
  }

  lemma ChargeFits(c: CampaignId, w: World, i: nat)
    requires Fits(c, w)
    ensures Fits(c, Do(c, w, Charge(i)))
  {
    hide CounterFits;
    hide Count;
    hide Rows;
    hide InOrder;
    if i < |w.tasks| && w.tasks[i].Charging? {
      var after, next := Do(c, w, Charge(i)), AfterCount(w.tasks[i].price, w.tasks[i].once);
      var written := ChargeBills(c, w.db, w.tasks[i]);
      OwedUpdate(w.tasks, i, next, UniqueCounts);
      BillingKeepsSide(c, w, after, i, next, Advertiser, written);
      BillingKeepsSide(c, w, after, i, next, Publisher, written);
    }
  }

  lemma CreditFits(c: CampaignId, w: World, i: nat, publisher: Option<UserId>, feeBps: nat)
    requires Fits(c, w)
    ensures Fits(c, Do(c, w, Credit(i, publisher, feeBps)))
  {
    hide PublisherShare;
    hide CounterFits;
    hide Count;
    hide Rows;
    hide InOrder;
    if i < |w.tasks| && w.tasks[i].Crediting? {
      var after := Do(c, w, Credit(i, publisher, feeBps));
      var written := CreditBills(c, w.db, w.tasks[i], publisher, feeBps);
      OwedUpdate(w.tasks, i, Over, UniqueCounts);
      BillingKeepsSide(c, w, after, i, Over, Advertiser, written);
      BillingKeepsSide(c, w, after, i, Over, Publisher, written);
    }
  }

  lemma OtherFits(c: CampaignId, w: World, op: Op)
    requires Fits(c, w) && LeavesBatchesAlone(c, op)
    ensures Fits(c, Do(c, w, Other(op)))
  {
    var after := Do(c, w, Other(op));
    ForeignKeysKept(w.db, op);
    CampaignOwnersKept(w.db, op);
    OtherRow(c, w.db, op);
    var written := RowOf(w.db, op);
    forall side: Side ensures SideFits(c, after, side) {
      forall batch: nat ensures OneBatchKept(c, w, after, side, Move(None, written, None), batch) {
      }
      SameSide(c, w, after, side, Move(None, written, None));
    }
  }

  lemma StepFits(c: CampaignId, w: World, step: Step)
    requires Fits(c, w)
    ensures Fits(c, Do(c, w, step))
  {
    match step
    case Impression(price, once, heard) => ImpressionFits(c, w, price, once, heard);
    case Charge(i) => ChargeFits(c, w, i);
    case CountOnce(i, heard) => CountOnceFits(c, w, i, heard);
    case Credit(i, publisher, feeBps) => CreditFits(c, w, i, publisher, feeBps);
    case Die(i) => DieFits(c, w, i);
    case Other(op) => if LeavesBatchesAlone(c, op) { OtherFits(c, w, op); }
  }

  function Start(db: Db): World {
    World(db, FRESH, FRESH, [], [], [])
  }

  /** The campaign has not billed a batch yet. */
  ghost predicate NoBatchesYet(c: CampaignId, db: Db) {
    ForeignKeys(db)
    && forall row | row in db.ledger :: !IsBatchRow(row, c, Advertiser) && !IsBatchRow(row, c, Publisher)
  }

  lemma {:induction false} NoRowsYet(c: CampaignId, ledger: seq<Row>, side: Side)
    requires forall row | row in ledger :: !IsBatchRow(row, c, side)
    ensures Rows(ledger, c, side) == 0 && Total(ledger, c, side) == 0
    ensures forall batch: nat :: Count(ledger, KindOf(side), RefOf(c, side, batch)) == 0
  {
    if ledger != [] {
      var n := |ledger| - 1;
      assert forall row | row in ledger[..n] :: row in ledger;
      assert ledger[n] in ledger;
      NoRowsYet(c, ledger[..n], side);
    }
  }

  lemma {:induction false} EveryRunFits(c: CampaignId, db: Db, steps: seq<Step>)
    requires NoBatchesYet(c, db)
    ensures Fits(c, Run(c, Start(db), steps))
  {
    if steps == [] {
      NoRowsYet(c, db.ledger, Advertiser);
      NoRowsYet(c, db.ledger, Publisher);
    } else {
      EveryRunFits(c, db, steps[..|steps| - 1]);
      StepFits(c, Run(c, Start(db), steps[..|steps| - 1]), steps[|steps| - 1]);
    }
  }
}
