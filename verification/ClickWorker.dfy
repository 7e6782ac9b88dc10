/** The click stream worker as a step system with crashes, exceptions and re-reads.

  Stream messages are numbered in id order. The worker reads the messages behind its cursor, bills
  them one by one, deletes them and advances the cursor. Every database transaction is one step;
  between any two steps other transactions can run, the batch can be abandoned by an exception, or
  the process can die and start again with its cursor at the beginning.
 */
module ClickWorker {
  import opened Books
  import opened Fees
  import opened LedgerReplay
  import opened ClickBilling

  const BATCH_SIZE := 2_000

  datatype Phase =
    | Idle
    | Billing(batch: seq<nat>, next: nat)    // about to charge batch[next], or done with all of them
    | Crediting(batch: seq<nat>, next: nat)  // batch[next] has been charged, its publisher not yet credited
    | Acknowledged(batch: seq<nat>)          // deleted from the stream, cursor not yet advanced

  datatype World = World(
    db: Db,
    log: seq<Click>,      // every message ever published
    deleted: set<nat>,    // the messages removed from the stream
    cursor: nat,          // the first message the worker would read
    phase: Phase,
    high: nat,            // how many messages billing has come to, at least once
    decided: set<nat>,    // the messages whose charge has been decided: committed, or refused by the wallet
    lost: set<nat>)       // charged clicks whose publisher credit was given up

  datatype Step =
    | Publish(click: Click)
    | Other(op: Op)        // any transaction that leaves the stream's campaigns and click rows alone
    | Read
    | ChargeNext
    | ChargeFails          // the charge transaction throws for a reason of its own; swallowed, the next message follows
    | CreditNow
    | CreditFails          // the credit throws, or the charge did after its commit; either is swallowed
    | Delete
    | Advance
    | Throw                // anything else throws: the batch is abandoned, the cursor stays
    | Crash                // the process dies and restarts

  /** Up to `count` undeleted messages from `from` on. */
  function ReadBatch(deleted: set<nat>, from: nat, end: nat, count: nat): seq<nat>
    decreases end - from
  {
    if from >= end || count == 0 then []
    else if from in deleted then ReadBatch(deleted, from + 1, end, count)
    else [from] + ReadBatch(deleted, from + 1, end, count - 1)
  }

  /** The transaction writes no click row and leaves owner, status and reserve of the stream's campaigns alone. */
  predicate LeavesStreamAlone(cfg: Config, db: Db, op: Op) {
    match op
    case OpCreateCampaign(_, _) => |db.campaigns| !in cfg.campaigns
    case OpSetStatus(c, _) => c !in cfg.campaigns
    case OpReserve(_, c, _, _) => c !in cfg.campaigns
    case OpRelease(_, c, _, _) => c !in cfg.campaigns
    case OpSpend(c, _, ref) => c !in cfg.campaigns && !ref.ClickRef?
    case OpCredit(_, _, ref, _) => !ref.ClickRef?
    case _ => true
  }

  function Abandoned(w: World): set<nat> {
    if w.phase.Crediting? && w.phase.next < |w.phase.batch| then w.lost + {w.phase.batch[w.phase.next]} else w.lost
  }

  /** A message of the batch is about to be charged. */
  predicate AtMessage(w: World) {
    w.phase.Billing? && w.phase.next < |w.phase.batch| && w.phase.batch[w.phase.next] < |w.log|
  }

  /** How far billing has come once that message is done. */
  function Reached(w: World): nat
    requires AtMessage(w)
  {
    if w.phase.batch[w.phase.next] == w.high then w.high + 1 else w.high
  }

  /** What a step does; a step that is not possible now does nothing. */
  function Do(cfg: Config, w: World, step: Step): World
    requires cfg.Valid()
  {
    match step
    case Publish(click) => if click.campaign in cfg.campaigns then w.(log := w.log + [click]) else w
    case Other(op) => if LeavesStreamAlone(cfg, w.db, op) then w.(db := Next(w.db, op)) else w
    case Read =>
      if !w.phase.Idle? then w
      else
        var batch := ReadBatch(w.deleted, w.cursor, |w.log|, BATCH_SIZE);
        if batch == [] then w else w.(phase := Billing(batch, 0))
    case ChargeNext =>
      if !AtMessage(w) then w
      else
        var id := w.phase.batch[w.phase.next];
        var after := w.(high := Reached(w), decided := w.decided + {id});
        (match Charge(cfg, w.db, w.log[id], id)
         case Commit(d) => after.(db := d, phase := Crediting(w.phase.batch, w.phase.next))
         case Rollback(_) => after.(phase := Billing(w.phase.batch, w.phase.next + 1)))
    case ChargeFails =>
      if !AtMessage(w) then w else w.(high := Reached(w), phase := Billing(w.phase.batch, w.phase.next + 1))
    case CreditNow =>
      if !w.phase.Crediting? || w.phase.next >= |w.phase.batch| || w.phase.batch[w.phase.next] >= |w.log| then w
      else
        var id := w.phase.batch[w.phase.next];
        if !Billable(cfg, w.log[id]) then w
        else
          w.(db := CreditShare(cfg.feeBps, w.db, cfg.zones[w.log[id].zone], w.log[id].cost, ClickRef(id)),
             phase := Billing(w.phase.batch, w.phase.next + 1))
    case CreditFails =>
      if !w.phase.Crediting? then w else w.(lost := Abandoned(w), phase := Billing(w.phase.batch, w.phase.next + 1))
    case Delete =>
      if !w.phase.Billing? || w.phase.next < |w.phase.batch| then w
      else w.(deleted := w.deleted + (set id | id in w.phase.batch), phase := Acknowledged(w.phase.batch))
    case Advance =>
      if !w.phase.Acknowledged? || w.phase.batch == [] then w
      else w.(cursor := w.phase.batch[|w.phase.batch| - 1] + 1, phase := Idle)
    case Throw => w.(lost := Abandoned(w), phase := Idle)
    case Crash => w.(lost := Abandoned(w), phase := Idle, cursor := 0)
  }

  function Run(cfg: Config, w: World, steps: seq<Step>): World
    requires cfg.Valid()
  {
    if steps == [] then w else Do(cfg, Run(cfg, w, steps[..|steps| - 1]), steps[|steps| - 1])
  }

  function Start(db: Db): World {
    World(db, [], {}, 0, Idle, 0, {}, {})
  }

  /** A database in which billing of a stream can begin. */
  ghost predicate Ready(cfg: Config, db: Db) {
    cfg.Valid() && ForeignKeys(db) && PublishersExist(cfg, db) && NoClickRows(db)
  }

  /** The rest of a batch climbs past the billed messages without a gap. */
  ghost predicate NoGap(batch: seq<nat>, next: nat, high: nat, end: nat) {
    && (forall j | 0 <= j < |batch| :: batch[j] < end)
    && (forall j | 0 <= j < next && j < |batch| :: batch[j] < high)
    && (forall j | next <= j < |batch| && batch[j] > high :: j > next && batch[j - 1] == batch[j] - 1)
  }

  ghost predicate PhaseFits(w: World) {
    match w.phase
    case Idle => true
    case Billing(batch, next) => NoGap(batch, next, w.high, |w.log|)
    case Crediting(batch, next) => next < |batch| && batch[next] < w.high && NoGap(batch, next + 1, w.high, |w.log|)
    case Acknowledged(batch) => NoGap(batch, |batch|, w.high, |w.log|)
  }

  /** The clicks charged so far that have neither been credited nor given up: at most the one in flight. */
  ghost function InFlight(w: World): set<nat> {
    if w.phase.Crediting? && w.phase.next < |w.phase.batch| then {w.phase.batch[w.phase.next]} else {}
  }

  /** Cursor, batch and bookkeeping sets agree with how far billing has come. */
  ghost predicate BookkeepingFits(cfg: Config, w: World) {
    && Named(cfg, w.log)
    && w.cursor <= w.high <= |w.log|
    && (forall id | id in w.deleted :: id < w.high)
    && (forall id | id in w.decided :: id < w.high)
    && (forall id | id in w.lost :: id in w.decided)
    && (forall id | id in InFlight(w) :: id in w.decided)
    && PhaseFits(w)
    && InFlight(w) !! w.lost
  }

  /** The database is what its click rows say: only decided clicks have been charged, no decided click can be charged
      again, and the publishers have their shares but for the clicks in `missing`. */
  ghost predicate DataFits(cfg: Config, db0: Db, db: Db, log: seq<Click>, decided: set<nat>, missing: set<nat>)
    requires cfg.Valid()
  {
    var v := ViewOf(cfg, db);
    && ForeignKeys(db) && PublishersExist(cfg, db)
    && FromLog(log, v.spends) && v.purses == Redone(ViewOf(cfg, db0).purses, log, v.spends)
    && (forall i | 0 <= i < |v.spends| :: v.spends[i].ref.value.message in decided)
    && (forall id | id in decided :: id < |log| && !Chargeable(cfg, v, log[id], id))
    && ClickCredits(db.ledger) == CreditsFor(cfg, log, v.spends, missing)
  }

  /** A click in flight has been charged. */
  ghost predicate FlightFits(cfg: Config, w: World) {
    forall id | id in InFlight(w) ::
      && id < |w.log| && Billable(cfg, w.log[id]) && Normalize(w.log[id].cost).Cents?
      && exists i | 0 <= i < |ViewOf(cfg, w.db).spends| :: ViewOf(cfg, w.db).spends[i].ref == Some(ClickRef(id))
  }

  ghost predicate OnTrack(cfg: Config, db0: Db, w: World)
    requires cfg.Valid()
  {
    && BookkeepingFits(cfg, w)
    && DataFits(cfg, db0, w.db, w.log, w.decided, w.lost + InFlight(w))
    && FlightFits(cfg, w)
  }

  // --- every step stays on track ---

  predicate Within(batch: seq<nat>, from: nat, end: nat) {
    forall j | 0 <= j < |batch| :: from <= batch[j] < end
  }

  predicate Consecutive(batch: seq<nat>, from: nat) {
    forall j | 0 <= j < |batch| :: batch[j] == from + j
  }

  lemma ConsHasNoGap(from: nat, rest: seq<nat>, high: nat, end: nat)
    requires from < end && Within(rest, from + 1, end)
    requires if from < high then NoGap(rest, 0, high, end) else Consecutive(rest, from + 1)
    ensures Within([from] + rest, from, end)
    ensures if from <= high then NoGap([from] + rest, 0, high, end) else Consecutive([from] + rest, from)
  {
    var batch := [from] + rest;
    assert forall j | 1 <= j < |batch| :: batch[j] == rest[j - 1];
    if from < high {
      forall j | 0 <= j < |batch| && batch[j] > high ensures j > 0 && batch[j - 1] == batch[j] - 1 {
        assert rest[j - 1] > high;
      }
    }
  }

  lemma {:induction false} ReadBatchHasNoGap(deleted: set<nat>, from: nat, end: nat, count: nat, high: nat)
    requires forall id | id in deleted :: id < high
    ensures Within(ReadBatch(deleted, from, end, count), from, end)
    ensures if from <= high then NoGap(ReadBatch(deleted, from, end, count), 0, high, end)
            else Consecutive(ReadBatch(deleted, from, end, count), from)
    decreases end - from
  {
    if from < end && count > 0 {
      if from in deleted {
        ReadBatchHasNoGap(deleted, from + 1, end, count, high);
      } else {
        ReadBatchHasNoGap(deleted, from + 1, end, count - 1, high);
        ConsHasNoGap(from, ReadBatch(deleted, from + 1, end, count - 1), high, end);
      }
    }
  }

  /** What another transaction may do to the stream: nothing. */
  lemma OtherRow(cfg: Config, db: Db, op: Op)
    requires LeavesStreamAlone(cfg, db, op)
    ensures match RowOf(db, op)
            case None => Next(db, op).ledger == db.ledger
            case Some(row) => Next(db, op).ledger == db.ledger + [row] && !IsClickSpend(row) && !IsClickCredit(row)
  {
  }

  lemma OtherKeepsPurses(cfg: Config, db: Db, op: Op)
    requires LeavesStreamAlone(cfg, db, op)
    ensures PursesOf(cfg, Next(db, op).campaigns) == PursesOf(cfg, db.campaigns)
  {
  }

  lemma OtherKeepsView(cfg: Config, db: Db, op: Op)
    requires LeavesStreamAlone(cfg, db, op)
    ensures ViewOf(cfg, Next(db, op)) == ViewOf(cfg, db)
    ensures ClickCredits(Next(db, op).ledger) == ClickCredits(db.ledger)
  {
    OtherRow(cfg, db, op);
    OtherKeepsPurses(cfg, db, op);
    if RowOf(db, op).Some? {
      SpendsAppend(db.ledger, RowOf(db, op).value);
      CreditsAppend(db.ledger, RowOf(db, op).value);
    }
  }

  lemma OtherStaysOnTrack(cfg: Config, db0: Db, w: World, op: Op)
    requires cfg.Valid() && OnTrack(cfg, db0, w)
    ensures OnTrack(cfg, db0, Do(cfg, w, Other(op)))
  {
    hide CreditsFor;
    hide Redone;
    hide FromLog;
    hide Next;
    hide ForeignKeys;
    hide NoGap;
    hide ViewOf;
    hide ClickCredits;
    hide Chargeable;
    if LeavesStreamAlone(cfg, w.db, op) {
      ForeignKeysKept(w.db, op);
      OtherKeepsView(cfg, w.db, op);
      hide LeavesStreamAlone;
    }
  }

  lemma PublishStaysOnTrack(cfg: Config, db0: Db, w: World, click: Click)
    requires cfg.Valid() && OnTrack(cfg, db0, w)
    ensures OnTrack(cfg, db0, Do(cfg, w, Publish(click)))
  {
    var longer := w.log + [click];
    RedoneOnLongerLog(ViewOf(cfg, db0).purses, w.log, longer, ViewOf(cfg, w.db).spends);
    CreditsForLongerLog(cfg, w.log, longer, ViewOf(cfg, w.db).spends, w.lost + InFlight(w));
    hide Redone;
    hide CreditsFor;
    hide ForeignKeys;
    hide Chargeable;
  }

  /** Going on with a batch, past its next message, leaves no gap. */
  lemma NoGapGoesOn(batch: seq<nat>, next: nat, high: nat, end: nat)
    requires NoGap(batch, next, high, end) && next < |batch|
    ensures batch[next] <= high
    ensures NoGap(batch, next + 1, if batch[next] == high then high + 1 else high, end)
  {
  }

  function AfterCharge(cfg: Config, db: Db, click: Click, id: nat): Db {
    match Charge(cfg, db, click, id)
    case Commit(d) => d
    case Rollback(_) => db
  }

  lemma AfterChargeKeepsKeys(cfg: Config, db: Db, click: Click, id: nat)
    requires ForeignKeys(db)
    ensures ForeignKeys(AfterCharge(cfg, db, click, id))
    ensures db.balances.Keys <= AfterCharge(cfg, db, click, id).balances.Keys
  {
    var op := OpSpend(click.campaign, click.cost, ClickRef(id));
    ForeignKeysKept(db, op);
    hide ForeignKeys;
    hide Spend;
    assert AfterCharge(cfg, db, click, id) == if Billable(cfg, click) then Next(db, op) else db;
  }

  /** Deciding a click, by charging it or by a refusal. */
  lemma DecidingFits(cfg: Config, db0: Db, db: Db, log: seq<Click>, decided: set<nat>, missing: set<nat>, id: nat)
    requires cfg.Valid() && DataFits(cfg, db0, db, log, decided, missing) && id < |log| && Named(cfg, log)
    ensures var charged := Charge(cfg, db, log[id], id).Commit?;
            DataFits(cfg, db0, AfterCharge(cfg, db, log[id], id), log, decided + {id},
                     if charged then missing + {id} else missing)
  {
    hide Redone;
    hide CreditsFor;
    hide Spend;
    hide ForeignKeys;
    var v := ViewOf(cfg, db);
    ChargeSeenInView(cfg, db, log[id], id);
    AfterChargeKeepsKeys(cfg, db, log[id], id);
    ChargeFollows(cfg, v, log[id], id);
    DecidedIsRefused(cfg, v, ChargeView(cfg, v, log[id], id), log[id], id) by {
      assert Follows(ChargeView(cfg, v, log[id], id), ChargeView(cfg, v, log[id], id));
    }
    forall j | j in decided ensures !Chargeable(cfg, ChargeView(cfg, v, log[id], id), log[j], j) {
      RefusalLasts(cfg, v, ChargeView(cfg, v, log[id], id), log[j], j);
    }
    if Charge(cfg, db, log[id], id).Commit? {
      var row := SpendRow(v, log[id], id);
      RedoneOneMore(cfg, ViewOf(cfg, db0), v, log, id);
      CreditsAppend(db.ledger, row);
      assert forall i | 0 <= i < |v.spends| :: v.spends[i].ref != row.ref;
      CreditsForOneMore(cfg, log, v.spends, row, id, missing);
    }
  }

  lemma ChargeKeepsBooks(cfg: Config, w: World)
    requires cfg.Valid() && BookkeepingFits(cfg, w) && AtMessage(w)
    requires var id := w.phase.batch[w.phase.next]; id in w.decided ==> Charge(cfg, w.db, w.log[id], id).Rollback?
    ensures BookkeepingFits(cfg, Do(cfg, w, ChargeNext))
  {
    hide Charge;
    NoGapGoesOn(w.phase.batch, w.phase.next, w.high, |w.log|);
    hide NoGap;
  }

  lemma ChargeKeepsFlight(cfg: Config, w: World)
    requires cfg.Valid() && AtMessage(w) && Named(cfg, w.log)
    ensures FlightFits(cfg, Do(cfg, w, ChargeNext))
  {
    hide Charge;
    hide ViewOf;
    var id, after := w.phase.batch[w.phase.next], Do(cfg, w, ChargeNext);
    ChargeSeenInView(cfg, w.db, w.log[id], id);
    if after.phase.Crediting? {
      var spends := ViewOf(cfg, after.db).spends;
      assert spends[|spends| - 1].ref == Some(ClickRef(id));
    }
  }

  lemma DecidedIsNotCharged(cfg: Config, db0: Db, w: World, id: nat)
    requires cfg.Valid() && OnTrack(cfg, db0, w) && id in w.decided
    ensures id < |w.log| && Charge(cfg, w.db, w.log[id], id).Rollback?
  {
    ChargeSeenInView(cfg, w.db, w.log[id], id);
  }

  lemma ChargeKeepsData(cfg: Config, db0: Db, w: World)
    requires cfg.Valid() && OnTrack(cfg, db0, w) && AtMessage(w)
    ensures var after := Do(cfg, w, ChargeNext);
            DataFits(cfg, db0, after.db, after.log, after.decided, after.lost + InFlight(after))
  {
    hide DataFits;
    hide FlightFits;
    hide PhaseFits;
    hide Charge;
    var id, after := w.phase.batch[w.phase.next], Do(cfg, w, ChargeNext);
    assert id < |w.log|;
    assert w.lost + InFlight(w) == w.lost;
    DecidingFits(cfg, db0, w.db, w.log, w.decided, w.lost, id);
    hide BookkeepingFits;
    assert after.lost + InFlight(after) == if Charge(cfg, w.db, w.log[id], id).Commit? then w.lost + {id} else w.lost;
    assert after.db == AfterCharge(cfg, w.db, w.log[id], id);
  }

  lemma ChargeStaysOnTrack(cfg: Config, db0: Db, w: World)
    requires Ready(cfg, db0) && OnTrack(cfg, db0, w)
    ensures OnTrack(cfg, db0, Do(cfg, w, ChargeNext))
  {
    hide DataFits;
    hide FlightFits;
    hide PhaseFits;
    hide Charge;
    if AtMessage(w) {
      var id := w.phase.batch[w.phase.next];
      if id in w.decided {
        DecidedIsNotCharged(cfg, db0, w, id);
      }
      ChargeKeepsBooks(cfg, w);
      ChargeKeepsFlight(cfg, w);
      ChargeKeepsData(cfg, db0, w);
      hide BookkeepingFits;
      hide Do;
    }
  }

  lemma CreditStaysOnTrack(cfg: Config, db0: Db, w: World)
    requires Ready(cfg, db0) && OnTrack(cfg, db0, w)
    ensures OnTrack(cfg, db0, Do(cfg, w, CreditNow))
  {
    if w.phase.Crediting? && w.phase.next < |w.phase.batch| {
      var id := w.phase.batch[w.phase.next];
      assert id in InFlight(w);
      var rows := ViewOf(cfg, w.db).spends;
      forall row | row in ClickCredits(w.db.ledger) ensures row.ref.value.message != id {
        assert row in CreditsFor(cfg, w.log, rows, w.lost + InFlight(w));
      }
      CreditShareSeen(cfg, w.db, w.log[id], id);
      CreditShareKeepsForeignKeys(cfg.feeBps, w.db, cfg.zones[w.log[id].zone], w.log[id].cost, ClickRef(id));
      CreditsForOneLess(cfg, w.log, rows, id, w.lost);
      hide ForeignKeys;
      hide NoGap;
      hide CreditShare;
      hide CreditsFor;
      var after := Do(cfg, w, CreditNow);
      assert after.lost + InFlight(after) == w.lost;
      assert w.lost + InFlight(w) == w.lost + {id};
    }
  }

  /** The steps that leave the database alone. */
  lemma QuietStepStaysOnTrack(cfg: Config, db0: Db, w: World, step: Step)
    requires Ready(cfg, db0) && OnTrack(cfg, db0, w)
    requires !step.Publish? && !step.Other? && !step.ChargeNext? && !step.CreditNow?
    ensures OnTrack(cfg, db0, Do(cfg, w, step))
  {
    hide DataFits;
    hide ViewOf;
    hide ForeignKeys;
    hide PublishersExist;
    hide NoClickRows;
    hide Charge;
    hide CreditShare;
    hide Next;
    var after := Do(cfg, w, step);
    if step.Read? {
      ReadBatchHasNoGap(w.deleted, w.cursor, |w.log|, BATCH_SIZE, w.high);
    } else if step.ChargeFails? && AtMessage(w) {
      NoGapGoesOn(w.phase.batch, w.phase.next, w.high, |w.log|);
    }
    assert after.lost + InFlight(after) == w.lost + InFlight(w);
  }

  lemma StepStaysOnTrack(cfg: Config, db0: Db, w: World, step: Step)
    requires Ready(cfg, db0) && OnTrack(cfg, db0, w)
    ensures OnTrack(cfg, db0, Do(cfg, w, step))
  {
    hide OnTrack;
    hide Do;
    match step
    case Publish(click) => PublishStaysOnTrack(cfg, db0, w, click);
    case Other(op) => OtherStaysOnTrack(cfg, db0, w, op);
    case ChargeNext => ChargeStaysOnTrack(cfg, db0, w);
    case CreditNow => CreditStaysOnTrack(cfg, db0, w);
    case _ => QuietStepStaysOnTrack(cfg, db0, w, step);
  }

  lemma {:induction false} RunStaysOnTrack(cfg: Config, db0: Db, steps: seq<Step>)
    requires Ready(cfg, db0)
    ensures OnTrack(cfg, db0, Run(cfg, Start(db0), steps))
  {
    if steps != [] {
      var n := |steps| - 1;
      RunStaysOnTrack(cfg, db0, steps[..n]);
      StepStaysOnTrack(cfg, db0, Run(cfg, Start(db0), steps[..n]), steps[n]);
    }
  }

  /** What a read returns: undeleted messages from the cursor on, in order, no more than asked for, and leaving out
      none of them unless there are as many as asked for before it. */
  lemma {:induction false} ReadBatchIsTheFirst(deleted: set<nat>, from: nat, end: nat, count: nat, id: nat)
    ensures var batch := ReadBatch(deleted, from, end, count);
            && |batch| <= count
            && (forall i | 0 <= i < |batch| :: from <= batch[i] < end && batch[i] !in deleted)
            && (forall i, j | 0 <= i < j < |batch| :: batch[i] < batch[j])
            && (from <= id < end && id !in deleted && id !in batch ==>
                  |batch| == count && forall i | 0 <= i < |batch| :: batch[i] < id)
    decreases end - from
  {
    if from < end && count > 0 {
      ReadBatchIsTheFirst(deleted, from + 1, end, if from in deleted then count else count - 1, id);
    }
  }
}
