/** Top-up orders are credited exactly once, however confirm calls and webhooks race.

  Every confirm call and every webhook delivery is a caller with its own program counter; any number of
  them, for any number of orders, run at the same time as any other wallet transactions.
 */
module Payments {
  import opened Books
  import opened LedgerReplay

  datatype OrderStatus = CREATED | PAID | FAILED

  /** `published` is false while the row still carries its placeholder provider order id; `returned` says that
      the request which created it answered the browser with that id. */
  datatype Order = Order(
    user: UserId,
    creditCents: nat,
    status: OrderStatus,
    payment: Option<nat>,
    published: bool,
    returned: bool)

  datatype Caller =
    | Creating(order: nat)                // inserted the row, waits for the provider and for the update of the row
    | Failing(order: nat)                 // creating it threw, is about to mark the row FAILED
    | Checked(order: nat)                 // saw the order CREATED, asks the provider to capture
    | Captured(order: nat, payment: nat)  // knows the payment id, is about to compare and swap
    | Won(order: nat, payment: nat)       // won the compare-and-swap, has not deposited yet
    | Answered(order: nat)                // its call ended without an error: a confirm call answered PAID
    | Done                                // it ended in any other way

  datatype World = World(
    db: Db,
    orders: seq<Order>,
    callers: seq<Caller>,
    dropped: set<nat>)  // paid orders whose winner died or could not deposit

  datatype Step =
    | CreateOrder(user: UserId, creditCents: nat)
    | PublishOrder(caller: nat, heard: bool)  // the update commits, and its reply may be lost
    | CreateFails(caller: nat)            // no answer of the provider, or no update
    | FailDangling(caller: nat)           // this write checks no status
    | Check(order: nat)                   // confirm call, or webhook "approved"
    | Capture(caller: nat, answer: Option<nat>)
    | CaptureWebhook(order: nat, payment: nat)
    | CompareAndSwap(caller: nat)
    | CreditWallet(caller: nat)
    | Decline(order: nat)                 // webhook "denied", "declined" or "failed"
    | Die(caller: nat)
    | Other(op: Op)

  /** The unique key on the provider's payment id. */
  predicate PaymentUsed(orders: seq<Order>, payment: nat) {
    exists o | 0 <= o < |orders| :: orders[o].payment == Some(payment)
  }

  predicate LeavesPaymentsAlone(op: Op) {
    op.OpDeposit? && op.depositRef.Some? ==> !op.depositRef.value.PaymentRef?
  }

  function DepositOf(w: World, caller: nat): Op
    requires caller < |w.callers| && w.callers[caller].Won? && w.callers[caller].order < |w.orders|
  {
    var order := w.orders[w.callers[caller].order];
    OpDeposit(order.user, order.creditCents * MILLICENTS_PER_CENT, Some(PaymentRef(w.callers[caller].payment)))
  }

  function Do(w: World, step: Step): World {
    match step
    case CreateOrder(u, cents) =>
      if u !in w.db.balances then w
      else w.(orders := w.orders + [Order(u, cents, CREATED, None, false, false)],
              callers := w.callers + [Creating(|w.orders|)])
    case PublishOrder(i, heard) =>
      if i >= |w.callers| || !w.callers[i].Creating? || w.callers[i].order >= |w.orders| then w
      else
        var o := w.callers[i].order;
        w.(orders := w.orders[o := w.orders[o].(published := true, returned := heard)],
           callers := w.callers[i := if heard then Done else Failing(o)])
    case CreateFails(i) =>
      if i >= |w.callers| || !w.callers[i].Creating? then w
      else w.(callers := w.callers[i := Failing(w.callers[i].order)])
    case FailDangling(i) =>
      if i >= |w.callers| || !w.callers[i].Failing? || w.callers[i].order >= |w.orders| then w
      else
        var o := w.callers[i].order;
        w.(orders := w.orders[o := w.orders[o].(status := FAILED)], callers := w.callers[i := Done])
    case Check(o) =>
      if o >= |w.orders| || !w.orders[o].published || w.orders[o].status == FAILED then w
      else w.(callers := w.callers + [if w.orders[o].status == PAID then Answered(o) else Checked(o)])
    case Capture(i, answer) =>
      if i >= |w.callers| || !w.callers[i].Checked? then w
      else w.(callers := w.callers[i := if answer.None? then Done else Captured(w.callers[i].order, answer.value)])
    case CaptureWebhook(o, p) =>
      if o >= |w.orders| || !w.orders[o].published then w else w.(callers := w.callers + [Captured(o, p)])
    case CompareAndSwap(i) =>
      if i >= |w.callers| || !w.callers[i].Captured? || w.callers[i].order >= |w.orders| then w
      else
        var o, p := w.callers[i].order, w.callers[i].payment;
        if w.orders[o].status != CREATED then w.(callers := w.callers[i := Answered(o)])
        else if PaymentUsed(w.orders, p) then w.(callers := w.callers[i := Done])
        else w.(orders := w.orders[o := w.orders[o].(status := PAID, payment := Some(p))],
             callers := w.callers[i := Won(o, p)])
    case CreditWallet(i) =>
      if i >= |w.callers| || !w.callers[i].Won? || w.callers[i].order >= |w.orders| then w
      else
        (match Apply(w.db, DepositOf(w, i))
         case Commit(d) => w.(db := d, callers := w.callers[i := Answered(w.callers[i].order)])
         case Rollback(_) => w.(callers := w.callers[i := Done], dropped := w.dropped + {w.callers[i].order}))
    case Decline(o) =>
      if o >= |w.orders| || !w.orders[o].published || w.orders[o].status != CREATED then w
      else w.(orders := w.orders[o := w.orders[o].(status := FAILED)])
    case Die(i) =>
      if i >= |w.callers| then w
      else w.(callers := w.callers[i := Done],
              dropped := if w.callers[i].Won? then w.dropped + {w.callers[i].order} else w.dropped)
    case Other(op) => if LeavesPaymentsAlone(op) then w.(db := Next(w.db, op)) else w
  }

  function Run(w: World, steps: seq<Step>): World {
    if steps == [] then w else Do(Run(w, steps[..|steps| - 1]), steps[|steps| - 1])
  }

  /** The step is the failure write that order `o` gets from the request which created it. */
  predicate FailsOrder(w: World, step: Step, o: nat) {
    step.FailDangling? && step.caller < |w.callers| && w.callers[step.caller] == Failing(o)
  }

  /** Caller `i` has won order `o` and is on its way to the deposit. */
  predicate IsWinner(w: World, i: nat, o: nat) {
    i < |w.callers| && w.callers[i].Won? && w.callers[i].order == o
  }

  predicate HasWinner(w: World, o: nat) {
    exists i: nat | i < |w.callers| :: IsWinner(w, i, o)
  }

  function Deposits(w: World, payment: nat): nat {
    Count(w.db.ledger, DEPOSIT, PaymentRef(payment))
  }

  /** An order with a payment has been credited, or has one winner on the way, or was dropped by its
      winner, and only one of these; an order without one has none of them. */
  ghost predicate OrderFits(w: World, o: nat) {
    if o < |w.orders| && w.orders[o].payment.Some? then
      && w.orders[o].status != CREATED
      && Deposits(w, w.orders[o].payment.value) + (if HasWinner(w, o) then 1 else 0)
           + (if o in w.dropped then 1 else 0) == 1
    else (o < |w.orders| ==> w.orders[o].status != PAID) && !HasWinner(w, o) && o !in w.dropped
  }

  predicate Active(caller: Caller) {
    !caller.Done?
  }

  ghost predicate CallersFit(w: World) {
    && (forall i | 0 <= i < |w.callers| && Active(w.callers[i]) ::
          w.callers[i].order < |w.orders|)
    && (forall i: nat, o: nat | IsWinner(w, i, o) ::
          o < |w.orders| && w.orders[o].payment == Some(w.callers[i].payment))
    && (forall i: nat, j: nat, o: nat | IsWinner(w, i, o) && IsWinner(w, j, o) :: i == j)
  }

  ghost predicate PaymentsUnique(orders: seq<Order>) {
    forall o, q | 0 <= o < q < |orders| && orders[o].payment.Some? :: orders[o].payment != orders[q].payment
  }

  predicate IsTopUp(row: Row) {
    row.kind == DEPOSIT && row.ref.Some? && row.ref.value.PaymentRef?
  }

  /** Order `o` is the one that `row` pays in: same payment, its user, its amount. */
  predicate PaysIn(w: World, o: nat, row: Row) {
    o < |w.orders| && row.ref == Some(PaymentRef(if w.orders[o].payment.Some? then w.orders[o].payment.value else 0))
    && w.orders[o].payment.Some? && row.user == w.orders[o].user && row.amount == w.orders[o].creditCents
  }

  ghost predicate TopUpsGenuine(w: World) {
    forall row | row in w.db.ledger && IsTopUp(row) :: exists o: nat :: PaysIn(w, o, row)
  }

  ghost predicate UsersExist(w: World) {
    forall o | 0 <= o < |w.orders| :: w.orders[o].user in w.db.balances
  }

  ghost predicate Fits(w: World) {
    && ForeignKeys(w.db) && UsersExist(w) && CallersFit(w) && PaymentsUnique(w.orders) && TopUpsGenuine(w)
    && forall o: nat :: OrderFits(w, o)
  }

  // --- every step keeps the fit ---

  /** An order with a payment keeps payment, user and amount; only the unchecked failure write changes its status. */
  lemma PaymentIsKept(w: World, step: Step, o: nat)
    requires Fits(w) && o < |w.orders|
    ensures o < |Do(w, step).orders|
    ensures w.orders[o].payment.Some? ==>
              && Do(w, step).orders[o].payment == w.orders[o].payment
              && Do(w, step).orders[o].user == w.orders[o].user
              && Do(w, step).orders[o].creditCents == w.orders[o].creditCents
    ensures Do(w, step).orders[o].status ==
              if FailsOrder(w, step, o) then FAILED
              else if w.orders[o].status == CREATED then Do(w, step).orders[o].status
              else w.orders[o].status
  {
    assert OrderFits(w, o);
  }

  lemma SameWinners(w: World, after: World, o: nat)
    requires forall i: nat :: IsWinner(after, i, o) <==> IsWinner(w, i, o)
    ensures HasWinner(after, o) == HasWinner(w, o)
  {
    if HasWinner(w, o) {
      var i: nat :| i < |w.callers| && IsWinner(w, i, o);
      assert IsWinner(after, i, o);
    }
    if HasWinner(after, o) {
      var i: nat :| i < |after.callers| && IsWinner(after, i, o);
      assert IsWinner(w, i, o);
    }
  }

  predicate OnOrders(step: Step) {
    step.CreateOrder? || step.PublishOrder? || step.CreateFails? || step.FailDangling? || step.Decline?
  }

  predicate OnLosers(step: Step) {
    step.Check? || step.Capture? || step.CaptureWebhook?
  }

  lemma OrderStepFits(w: World, step: Step)
    requires Fits(w) && OnOrders(step)
    ensures Fits(Do(w, step))
  {
    hide ForeignKeys;
    hide Count;
    var after := Do(w, step);
    forall i: nat, o: nat ensures IsWinner(after, i, o) <==> IsWinner(w, i, o) {
    }
    forall o: nat ensures OrderFits(after, o) {
      assert OrderFits(w, o);
      SameWinners(w, after, o);
    }
    forall row | row in after.db.ledger && IsTopUp(row) ensures exists o: nat :: PaysIn(after, o, row) {
      var o: nat :| PaysIn(w, o, row);
      PaymentIsKept(w, step, o);
      assert PaysIn(after, o, row);
    }
  }

  lemma LoserStepFits(w: World, step: Step)
    requires Fits(w) && OnLosers(step)
    ensures Fits(Do(w, step))
  {
    var after := Do(w, step);
    forall i: nat, o: nat ensures IsWinner(after, i, o) <==> IsWinner(w, i, o) {
    }
    forall o: nat ensures OrderFits(after, o) {
      assert OrderFits(w, o);
      SameWinners(w, after, o);
    }
    forall row | row in after.db.ledger && IsTopUp(row) ensures exists o: nat :: PaysIn(after, o, row) {
      var o: nat :| PaysIn(w, o, row);
      assert PaysIn(after, o, row);
    }
  }

  lemma UnusedPaymentHasNoDeposit(w: World, payment: nat)
    requires TopUpsGenuine(w) && !PaymentUsed(w.orders, payment)
    ensures Deposits(w, payment) == 0
  {
    CountZero(w.db.ledger, DEPOSIT, PaymentRef(payment));
    forall i | 0 <= i < |w.db.ledger|
      ensures !(w.db.ledger[i].kind == DEPOSIT && w.db.ledger[i].ref == Some(PaymentRef(payment)))
    {
      var row := w.db.ledger[i];
      assert row in w.db.ledger;
      assert IsTopUp(row) ==> exists o: nat :: PaysIn(w, o, row);
    }
  }

  lemma SwapFits(w: World, i: nat)
    requires Fits(w)
    ensures Fits(Do(w, CompareAndSwap(i)))
  {
    var after := Do(w, CompareAndSwap(i));
    if i < |w.callers| && w.callers[i].Captured? {
      var c, p := w.callers[i].order, w.callers[i].payment;
      var won := after.callers[i].Won?;
      assert OrderFits(w, c);
      if won {
        UnusedPaymentHasNoDeposit(w, p);
      }
      forall j: nat, o: nat ensures IsWinner(after, j, o) <==> (IsWinner(w, j, o) || (won && j == i && o == c)) {
      }
      forall o: nat ensures OrderFits(after, o) {
        assert OrderFits(w, o);
        if won && o == c {
          assert IsWinner(after, i, o);
        } else {
          SameWinners(w, after, o);
        }
      }
      forall row | row in after.db.ledger && IsTopUp(row) ensures exists o: nat :: PaysIn(after, o, row) {
        var o: nat :| PaysIn(w, o, row);
        assert PaysIn(after, o, row);
      }
    }
  }

  /** After a winner is gone nobody else is on the way to that order's deposit. */
  lemma WinnerLeaves(w: World, after: World, i: nat, last: Caller, o: nat)
    requires CallersFit(w) && i < |w.callers| && after.callers == w.callers[i := last] && !last.Won?
    ensures HasWinner(after, o) == (HasWinner(w, o) && !IsWinner(w, i, o))
  {
    forall j: nat ensures IsWinner(after, j, o) <==> (IsWinner(w, j, o) && j != i) {
    }
    if HasWinner(w, o) && !IsWinner(w, i, o) {
      var j: nat :| j < |w.callers| && IsWinner(w, j, o);
      assert IsWinner(after, j, o);
    }
  }

  lemma DieFits(w: World, i: nat)
    requires Fits(w)
    ensures Fits(Do(w, Die(i)))
  {
    var after := Do(w, Die(i));
    if i < |w.callers| {
      forall j: nat, o: nat ensures IsWinner(after, j, o) ==> IsWinner(w, j, o) {
      }
      forall o: nat ensures OrderFits(after, o) {
        assert OrderFits(w, o);
        WinnerLeaves(w, after, i, after.callers[i], o);
        assert IsWinner(w, i, o) ==> HasWinner(w, o);
      }
      forall row | row in after.db.ledger && IsTopUp(row) ensures exists o: nat :: PaysIn(after, o, row) {
        var o: nat :| PaysIn(w, o, row);
        assert PaysIn(after, o, row);
      }
    }
  }

  lemma DepositRow(db: Db, u: UserId, cents: nat, payment: nat)
    ensures match Apply(db, OpDeposit(u, cents * MILLICENTS_PER_CENT, Some(PaymentRef(payment))))
            case Commit(d) => d.ledger == db.ledger + [Row(u, DEPOSIT, cents, Some(PaymentRef(payment)))]
            case Rollback(_) => true
  {
  }

  lemma CreditFits(w: World, i: nat)
    requires Fits(w)
    ensures Fits(Do(w, CreditWallet(i)))
  {
    var after := Do(w, CreditWallet(i));
    if i < |w.callers| && w.callers[i].Won? {
      var c, p := w.callers[i].order, w.callers[i].payment;
      assert IsWinner(w, i, c);
      assert OrderFits(w, c);
      var order := w.orders[c];
      var row := Row(order.user, DEPOSIT, order.creditCents, Some(PaymentRef(p)));
      DepositRow(w.db, order.user, order.creditCents, p);
      ForeignKeysKept(w.db, DepositOf(w, i));
      var committed := Apply(w.db, DepositOf(w, i)).Commit?;
      assert after.db.ledger == if committed then w.db.ledger + [row] else w.db.ledger;
      forall j: nat, o: nat ensures IsWinner(after, j, o) ==> IsWinner(w, j, o) {
      }
      forall o: nat ensures OrderFits(after, o) {
        assert OrderFits(w, o);
        WinnerLeaves(w, after, i, after.callers[i], o);
        if o < |w.orders| && w.orders[o].payment.Some? {
          CountAppend(w.db.ledger, row, DEPOSIT, PaymentRef(w.orders[o].payment.value));
        }
      }
      forall r | r in after.db.ledger && IsTopUp(r) ensures exists o: nat :: PaysIn(after, o, r) {
        if r in w.db.ledger {
          var o: nat :| PaysIn(w, o, r);
          assert PaysIn(after, o, r);
        } else {
          assert PaysIn(after, c, r);
        }
      }
    }
  }

  lemma OtherKeepsDeposits(db: Db, op: Op, payment: nat)
    requires LeavesPaymentsAlone(op)
    ensures Count(Next(db, op).ledger, DEPOSIT, PaymentRef(payment)) == Count(db.ledger, DEPOSIT, PaymentRef(payment))
    ensures forall row | row in Next(db, op).ledger && IsTopUp(row) :: row in db.ledger
  {
    OtherRow(db, op);
    if RowOf(db, op).Some? {
      CountAppend(db.ledger, RowOf(db, op).value, DEPOSIT, PaymentRef(payment));
    }
  }

  lemma OtherRow(db: Db, op: Op)
    requires LeavesPaymentsAlone(op)
    ensures match RowOf(db, op)
            case None => Next(db, op).ledger == db.ledger
            case Some(row) => Next(db, op).ledger == db.ledger + [row] && !IsTopUp(row)
  {
  }

  lemma OtherFits(w: World, op: Op)
    requires Fits(w) && LeavesPaymentsAlone(op)
    ensures Fits(Do(w, Other(op)))
  {
    var after := Do(w, Other(op));
    ForeignKeysKept(w.db, op);
    OtherKeepsDeposits(w.db, op, 0);
    forall i: nat, o: nat ensures IsWinner(after, i, o) <==> IsWinner(w, i, o) {
    }
    forall o: nat ensures OrderFits(after, o) {
      assert OrderFits(w, o);
      SameWinners(w, after, o);
      if o < |w.orders| && w.orders[o].payment.Some? {
        OtherKeepsDeposits(w.db, op, w.orders[o].payment.value);
      }
    }
    forall row | row in after.db.ledger && IsTopUp(row) ensures exists o: nat :: PaysIn(after, o, row) {
      var o: nat :| PaysIn(w, o, row);
      assert PaysIn(after, o, row);
    }
  }

  lemma StepFits(w: World, step: Step)
    requires Fits(w)
    ensures Fits(Do(w, step))
  {
    if OnOrders(step) {
      OrderStepFits(w, step);
    } else if OnLosers(step) {
      LoserStepFits(w, step);
    } else {
      match step
      case CompareAndSwap(i) => SwapFits(w, i);
      case CreditWallet(i) => CreditFits(w, i);
      case Die(i) => DieFits(w, i);
      case Other(op) => if LeavesPaymentsAlone(op) { OtherFits(w, op); }
    }
  }

  function Start(db: Db): World {
    World(db, [], [], {})
  }

  ghost predicate NoTopUpsYet(db: Db) {
    ForeignKeys(db) && forall row | row in db.ledger :: !IsTopUp(row)
  }

  lemma {:induction false} EveryRunFits(db: Db, steps: seq<Step>)
    requires NoTopUpsYet(db)
    ensures Fits(Run(Start(db), steps))
  {
    if steps != [] {
      EveryRunFits(db, steps[..|steps| - 1]);
      StepFits(Run(Start(db), steps[..|steps| - 1]), steps[|steps| - 1]);
    }
  }

  /** Main result: an order is deposited at most once, only if some payment won it, to its user and for its credit
      amount; a won order is credited, or in the hands of its one winner, or was dropped by it. */
  lemma CreditedExactlyOnce(db: Db, steps: seq<Step>, o: nat)
    requires NoTopUpsYet(db) && o < |Run(Start(db), steps).orders|
    ensures var w := Run(Start(db), steps);
            var order := w.orders[o];
            if order.payment.Some? then
              && Deposits(w, order.payment.value) + (if HasWinner(w, o) then 1 else 0)
                   + (if o in w.dropped then 1 else 0) == 1
              && forall row | row in w.db.ledger && row.kind == DEPOSIT
                   && row.ref == Some(PaymentRef(order.payment.value)) ::
                   row.user == order.user && row.amount == order.creditCents
            else order.status != PAID && !HasWinner(w, o)
  {
    var w := Run(Start(db), steps);
    EveryRunFits(db, steps);
    assert OrderFits(w, o);
    forall row | w.orders[o].payment.Some? && row in w.db.ledger && row.kind == DEPOSIT
                 && row.ref == Some(PaymentRef(w.orders[o].payment.value))
      ensures row.user == w.orders[o].user && row.amount == w.orders[o].creditCents
    {
      assert IsTopUp(row);
      var q: nat :| PaysIn(w, q, row);
      assert q == o;
    }
  }

  /** Main result: no money comes from nowhere: every top-up row pays in one order, and no two pay in the same one. */
  lemma EveryTopUpIsPaidFor(db: Db, steps: seq<Step>, row: Row)
    requires NoTopUpsYet(db) && row in Run(Start(db), steps).db.ledger && IsTopUp(row)
    ensures exists o: nat :: PaysIn(Run(Start(db), steps), o, row)
    ensures Count(Run(Start(db), steps).db.ledger, DEPOSIT, row.ref.value) == 1
  {
    var w := Run(Start(db), steps);
    EveryRunFits(db, steps);
    var o: nat :| PaysIn(w, o, row);
    assert OrderFits(w, o);
    CountPositive(w.db.ledger, row);
  }

  lemma {:induction false} CountPositive(ledger: seq<Row>, row: Row)
    requires row in ledger && row.ref.Some?
    ensures Count(ledger, row.kind, row.ref.value) >= 1
  {
    var n := |ledger| - 1;
    assert ledger == ledger[..n] + [ledger[n]];
    CountAppend(ledger[..n], ledger[n], row.kind, row.ref.value);
    if ledger[n] != row {
      CountPositive(ledger[..n], row);
    }
  }

  /** No failure write for order `o` came after the order had been paid. */
  ghost predicate Guarded(db: Db, steps: seq<Step>, o: nat) {
    forall k | 0 <= k < |steps| && FailsOrder(Run(Start(db), steps[..k]), steps[k], o) ::
      o < |Run(Start(db), steps[..k]).orders| ==> Run(Start(db), steps[..k]).orders[o].status != PAID
  }

  lemma GuardedOneMore(db: Db, steps: seq<Step>, o: nat)
    requires steps != []
    ensures var n := |steps| - 1;
            Guarded(db, steps, o) <==>
            Guarded(db, steps[..n], o)
            && (FailsOrder(Run(Start(db), steps[..n]), steps[n], o) && o < |Run(Start(db), steps[..n]).orders| ==>
                  Run(Start(db), steps[..n]).orders[o].status != PAID)
  {
    hide Do;
    hide FailsOrder;
    var n := |steps| - 1;
    forall k | 0 <= k < n ensures steps[..n][..k] == steps[..k] && steps[..n][k] == steps[k] {
    }
    if Guarded(db, steps, o) {
      forall k | 0 <= k < n && FailsOrder(Run(Start(db), steps[..n][..k]), steps[..n][k], o)
        ensures o < |Run(Start(db), steps[..n][..k]).orders| ==>
                Run(Start(db), steps[..n][..k]).orders[o].status != PAID
      {
        assert FailsOrder(Run(Start(db), steps[..k]), steps[k], o);
      }
    }
  }

  lemma OneStepOfOrder(w: World, step: Step, o: nat)
    requires Fits(w) && Fits(Do(w, step))
    ensures o >= |Do(w, step).orders| ==> o >= |w.orders|
    ensures o < |w.orders| ==> o < |Do(w, step).orders|
    ensures o >= |w.orders| && o < |Do(w, step).orders| ==>
              Do(w, step).orders[o].payment == None && !FailsOrder(w, step, o)
    ensures o < |w.orders| && w.orders[o].payment.Some? ==>
              && Do(w, step).orders[o].payment.Some?
              && Do(w, step).orders[o].status == if FailsOrder(w, step, o) then FAILED else w.orders[o].status
    ensures o < |w.orders| && w.orders[o].payment == None ==>
              w.orders[o].status != PAID
              && (Do(w, step).orders[o].payment.Some? ==> Do(w, step).orders[o].status == PAID)
  {
    hide TopUpsGenuine;
    hide CallersFit;
    hide ForeignKeys;
    assert OrderFits(w, o);
    assert OrderFits(Do(w, step), o);
  }

  /** Main result: a won order reads PAID exactly when no failure write came after it was paid; so FAILED
      orders are never credited, and PAID is final, in exactly those runs. */
  lemma {:induction false} WonReadsPaidIffGuarded(db: Db, steps: seq<Step>, o: nat)
    requires NoTopUpsYet(db)
    ensures o < |Run(Start(db), steps).orders| && Run(Start(db), steps).orders[o].payment.Some? ==>
              (Run(Start(db), steps).orders[o].status == PAID <==> Guarded(db, steps, o))
    ensures o >= |Run(Start(db), steps).orders| || Run(Start(db), steps).orders[o].payment == None ==>
            Guarded(db, steps, o)
  {
    if steps != [] {
      var n := |steps| - 1;
      WonReadsPaidIffGuarded(db, steps[..n], o);
      GuardedOneMore(db, steps, o);
      EveryRunFits(db, steps[..n]);
      EveryRunFits(db, steps);
      OneStepOfOrder(Run(Start(db), steps[..n]), steps[n], o);
    }
  }

  lemma RunOneMore(w: World, steps: seq<Step>, step: Step)
    ensures Run(w, steps + [step]) == Do(Run(w, steps), step)
  {
    assert (steps + [step])[..|steps|] == steps;
  }

  /** One user with an empty account. */
  const ONE_USER := GENESIS.(balances := map[0 := 0])

  /** The row gets the provider's id but the reply to that update is lost,
      and the provider takes a payment for the order. */
  const PAYMENT_WEBHOOK: seq<Step> := [CreateOrder(0, 500), PublishOrder(0, false), CaptureWebhook(0, 7),
    CompareAndSwap(1)]

  const WON := World(ONE_USER, [Order(0, 500, PAID, Some(7), true, false)], [Failing(0), Won(0, 7)], {})

  lemma WebhookWins()
    ensures Run(Start(ONE_USER), PAYMENT_WEBHOOK) == WON
  {
    var w := Start(ONE_USER);
    var created := [CreateOrder(0, 500)];
    assert Run(w, []) == w;
    RunOneMore(w, [], CreateOrder(0, 500));
    assert [] + created == created;
    assert Run(w, created).orders == [Order(0, 500, CREATED, None, false, false)];
    RunOneMore(w, created, PublishOrder(0, false));
    var published := created + [PublishOrder(0, false)];
    assert Run(w, published) == World(ONE_USER, [Order(0, 500, CREATED, None, true, false)], [Failing(0)], {});
    RunOneMore(w, published, CaptureWebhook(0, 7));
    assert Run(w, published + [CaptureWebhook(0, 7)]).callers == [Failing(0), Captured(0, 7)];
    RunOneMore(w, published + [CaptureWebhook(0, 7)], CompareAndSwap(1));
    assert PAYMENT_WEBHOOK == published + [CaptureWebhook(0, 7)] + [CompareAndSwap(1)];
  }

  lemma WinnerDeposits()
    ensures Do(WON, CreditWallet(1)).orders == WON.orders
    ensures Do(WON, CreditWallet(1)).callers == [Failing(0), Answered(0)]
    ensures Do(WON, CreditWallet(1)).db.ledger == [Row(0, DEPOSIT, 500, Some(PaymentRef(7)))]
  {
    DepositRow(ONE_USER, 0, 500, 7);
  }

  /** The guard can fail: the update that published the order commits but its reply is lost, the provider takes a
      payment for it, and the failure write comes last, so a credited order reads FAILED. */
  lemma FailureWriteAfterCredit()
    ensures exists steps, o: nat ::
              && !Guarded(ONE_USER, steps, o)
              && o < |Run(Start(ONE_USER), steps).orders|
              && Run(Start(ONE_USER), steps).orders[o].status == FAILED
              && Deposits(Run(Start(ONE_USER), steps), 7) == 1
  {
    var w := Start(ONE_USER);
    WebhookWins();
    var credited := PAYMENT_WEBHOOK + [CreditWallet(1)];
    RunOneMore(w, PAYMENT_WEBHOOK, CreditWallet(1));
    WinnerDeposits();
    var all := credited + [FailDangling(0)];
    RunOneMore(w, credited, FailDangling(0));
    var row := Row(0, DEPOSIT, 500, Some(PaymentRef(7)));
    CountAppend([], row, DEPOSIT, PaymentRef(7));
    assert [] + [row] == [row];
    assert all[..|credited|] == credited && all[|credited|] == FailDangling(0);
    assert FailsOrder(Run(w, credited), all[|credited|], 0);
    assert !Guarded(ONE_USER, all, 0);
    assert Run(w, all).orders[0].status == FAILED;
    assert Deposits(Run(w, all), 7) == 1;
  }

  // --- orders whose id reached the browser ---

  predicate Creates(caller: Caller) {
    caller.Creating? || caller.Failing?
  }

  /** A request that is still creating an order has not answered the browser,
      and only a published order meets anyone else. */
  predicate CallerFits(w: World, caller: Caller) {
    Active(caller) ==>
      && caller.order < |w.orders|
      && var order := w.orders[caller.order];
         if caller.Creating? then !order.published && !order.returned
         else if caller.Failing? then !order.returned
         else order.published
  }

  /** Only a published order is ever paid, and one whose id was returned to the browser then reads PAID. */
  predicate ReturnedFits(order: Order) {
    && (order.payment.Some? || order.returned ==> order.published)
    && (order.returned && order.payment.Some? ==> order.status == PAID)
  }

  ghost predicate CreatorsFit(w: World) {
    && (forall i | 0 <= i < |w.callers| :: CallerFits(w, w.callers[i]))
    && (forall i, j | 0 <= i < j < |w.callers| && Creates(w.callers[i]) && Creates(w.callers[j]) ::
          w.callers[i].order != w.callers[j].order)
    && (forall o | 0 <= o < |w.orders| :: ReturnedFits(w.orders[o]))
  }

  lemma OrdersStayReturned(w: World, step: Step)
    requires Fits(w) && CreatorsFit(w)
    ensures forall o | 0 <= o < |Do(w, step).orders| :: ReturnedFits(Do(w, step).orders[o])
  {
    hide TopUpsGenuine;
    hide ForeignKeys;
    hide UsersExist;
    hide PaymentsUnique;
    hide Count;
    hide Apply;
    hide Next;
    var after := Do(w, step);
    forall o | 0 <= o < |after.orders| ensures ReturnedFits(after.orders[o]) {
      assert OrderFits(w, o);
    }
  }

  lemma CallersStayFit(w: World, step: Step)
    requires CreatorsFit(w)
    ensures forall i | 0 <= i < |Do(w, step).callers| :: CallerFits(Do(w, step), Do(w, step).callers[i])
  {
    hide Apply;
    hide Next;
    hide DepositOf;
    hide PaymentUsed;
    hide ReturnedFits;
  }

  lemma CreatorsStayDistinct(w: World, step: Step)
    requires CreatorsFit(w)
    ensures forall i, j | 0 <= i < j < |Do(w, step).callers|
                          && Creates(Do(w, step).callers[i]) && Creates(Do(w, step).callers[j]) ::
              Do(w, step).callers[i].order != Do(w, step).callers[j].order
  {
    hide Apply;
    hide Next;
    hide DepositOf;
    hide PaymentUsed;
    hide ReturnedFits;
  }

  lemma CreatorsStayFit(w: World, step: Step)
    requires Fits(w) && CreatorsFit(w)
    ensures CreatorsFit(Do(w, step))
  {
    OrdersStayReturned(w, step);
    CallersStayFit(w, step);
    CreatorsStayDistinct(w, step);
    hide Do;
    hide Fits;
    hide CallerFits;
    hide ReturnedFits;
    hide Creates;
  }

  lemma {:induction false} EveryRunsCreatorsFit(db: Db, steps: seq<Step>)
    requires NoTopUpsYet(db)
    ensures CreatorsFit(Run(Start(db), steps))
  {
    if steps != [] {
      EveryRunsCreatorsFit(db, steps[..|steps| - 1]);
      EveryRunFits(db, steps[..|steps| - 1]);
      CreatorsStayFit(Run(Start(db), steps[..|steps| - 1]), steps[|steps| - 1]);
    }
  }

  /** Main result: an order whose id reached the browser reads PAID exactly when a payment won it, in every run; so a
      credited order that reads FAILED is one that the provider was paid for although nobody was given its id. */
  lemma ReturnedReadsPaidIffWon(db: Db, steps: seq<Step>, o: nat)
    requires NoTopUpsYet(db) && o < |Run(Start(db), steps).orders| && Run(Start(db), steps).orders[o].returned
    ensures Run(Start(db), steps).orders[o].status == PAID <==> Run(Start(db), steps).orders[o].payment.Some?
  {
    EveryRunFits(db, steps);
    EveryRunsCreatorsFit(db, steps);
    assert OrderFits(Run(Start(db), steps), o);
    assert ReturnedFits(Run(Start(db), steps).orders[o]);
  }

  /** FAILED is final whatever happens. */
  lemma {:induction false} FailedIsFinal(db: Db, steps: seq<Step>, k: nat, o: nat)
    requires NoTopUpsYet(db) && k <= |steps| && o < |Run(Start(db), steps[..k]).orders|
    requires Run(Start(db), steps[..k]).orders[o].status == FAILED
    ensures o < |Run(Start(db), steps).orders| && Run(Start(db), steps).orders[o].status == FAILED
  {
    hide Do;
    hide Fits;
    hide FailsOrder;
    if k == |steps| {
      assert steps[..k] == steps;
    } else {
      var n := |steps| - 1;
      assert steps[..n][..k] == steps[..k];
      FailedIsFinal(db, steps[..n], k, o);
      EveryRunFits(db, steps[..n]);
      PaymentIsKept(Run(Start(db), steps[..n]), steps[n], o);
    }
  }

  /** Main result: the deposit of a winner goes through exactly when the credit amount is not zero. */
  lemma WinnerCanDeposit(db: Db, steps: seq<Step>, i: nat)
    requires NoTopUpsYet(db) && i < |Run(Start(db), steps).callers| && Run(Start(db), steps).callers[i].Won?
    ensures var w := Run(Start(db), steps);
            var o := w.callers[i].order;
            o < |w.orders| && (o in Do(w, CreditWallet(i)).dropped <==> w.orders[o].creditCents == 0)
  {
    hide Run;
    hide Count;
    var w := Run(Start(db), steps);
    EveryRunFits(db, steps);
    var o := w.callers[i].order;
    assert IsWinner(w, i, o);
    assert OrderFits(w, o);
    CountZero(w.db.ledger, DEPOSIT, PaymentRef(w.callers[i].payment));
  }

  /** Some step created order `o` for this user and amount. */
  predicate CreatedAt(db: Db, steps: seq<Step>, j: int, o: nat, user: UserId, creditCents: nat) {
    && 0 <= j < |steps| && steps[j] == CreateOrder(user, creditCents)
    && |Run(Start(db), steps[..j]).orders| == o && user in Run(Start(db), steps[..j]).db.balances
  }

  lemma OrderKeepsItsTerms(w: World, step: Step)
    ensures |w.orders| <= |Do(w, step).orders| <= |w.orders| + 1
    ensures forall o | 0 <= o < |w.orders| ::
              && Do(w, step).orders[o].user == w.orders[o].user
              && Do(w, step).orders[o].creditCents == w.orders[o].creditCents
    ensures |Do(w, step).orders| > |w.orders| ==>
              && step.CreateOrder? && step.user in w.db.balances
              && Do(w, step).orders[|w.orders|] == Order(step.user, step.creditCents, CREATED, None, false, false)
  {
    hide Apply;
    hide Next;
    hide DepositOf;
  }

  /** Every order is for the user and the amount that it was created with. */
  lemma {:induction false} OrdersAreAsCreated(db: Db, steps: seq<Step>, o: nat)
    requires o < |Run(Start(db), steps).orders|
    ensures var order := Run(Start(db), steps).orders[o];
            exists j :: CreatedAt(db, steps, j, o, order.user, order.creditCents)
  {
    hide Do;
    var n := |steps| - 1;
    var before := Run(Start(db), steps[..n]);
    OrderKeepsItsTerms(before, steps[n]);
    if o < |before.orders| {
      OrdersAreAsCreated(db, steps[..n], o);
      var j :| CreatedAt(db, steps[..n], j, o, before.orders[o].user, before.orders[o].creditCents);
      assert steps[..n][..j] == steps[..j];
      assert CreatedAt(db, steps, j, o, before.orders[o].user, before.orders[o].creditCents);
    } else {
      assert CreatedAt(db, steps, n, o, steps[n].user, steps[n].creditCents);
    }
  }
}
