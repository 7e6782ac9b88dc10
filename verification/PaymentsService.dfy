/** The payment service as an object over the wallet service: each method is one request handled from start to end. */
module PaymentsService {
  import opened Books
  import opened Payments
  import opened WalletService

  datatype MarkResult = Credited | AlreadySettled | PaymentUsedBefore | CreditFailed(error: WalletError)

  datatype ConfirmResult = Confirmed | OrderNotFound | CannotBePaid | NotCompleted | Threw(mark: MarkResult)

  /** Caller `i`, who knows the payment id, goes from the compare-and-swap to the deposit. */
  function Marked(w: World, i: nat): World {
    Do(Do(w, CompareAndSwap(i)), CreditWallet(i))
  }

  class PaymentsService {
    const wallet: WalletManager
    var orders: seq<Order>
    ghost var callers: seq<Caller>
    ghost var dropped: set<nat>

    constructor (wallet: WalletManager)
      ensures this.wallet == wallet && orders == [] && callers == [] && dropped == {}
    {
      this.wallet := wallet;
      orders, callers, dropped := [], [], {};
    }

    ghost function State(): World
      reads this, wallet
    {
      World(wallet.Tables(), orders, callers, dropped)
    }

    /** The conditional update: only the caller that finds the order CREATED wins it. */
    method TryMarkPaid(o: nat, payment: nat, ghost i: nat) returns (result: Option<MarkResult>)
      requires o < |orders| && i < |callers| && callers[i] == Captured(o, payment)
      modifies this
      ensures result == if old(orders[o].status) != CREATED then Some(AlreadySettled)
                        else if PaymentUsed(old(orders), payment) then Some(PaymentUsedBefore) else None
      ensures callers == old(callers)[i := if result == None then Won(o, payment)
                                          else if result == Some(AlreadySettled) then Answered(o) else Done]
      ensures orders == if result == None then
                          old(orders)[o := old(orders)[o].(status := PAID, payment := Some(payment))]
                        else old(orders)
      ensures dropped == old(dropped)
      ensures State() == Do(old(State()), CompareAndSwap(i))
    {
      if orders[o].status != CREATED {
        callers := callers[i := Answered(o)];
        result := Some(AlreadySettled);
      } else if PaymentUsed(orders, payment) {
        callers := callers[i := Done];
        result := Some(PaymentUsedBefore);
      } else {
        orders := orders[o := orders[o].(status := PAID, payment := Some(payment))];
        callers := callers[i := Won(o, payment)];
        result := None;
      }
    }

    /** Marks the order paid if it is still CREATED, and only then deposits. */
    method MarkPaidAndCredit(o: nat, payment: nat, ghost i: nat) returns (result: MarkResult)
      requires wallet.Valid() && o < |orders| && i < |callers| && callers[i] == Captured(o, payment)
      modifies this, wallet
      ensures wallet.Valid()
      ensures State() == Marked(old(State()), i)
      ensures result == AlreadySettled <==> old(orders[o].status) != CREATED
      ensures result == PaymentUsedBefore <==> old(orders[o].status) == CREATED && PaymentUsed(old(orders), payment)
      ensures result.CreditFailed? ==>
                && orders[o].status == PAID && o in dropped
                && wallet.Tables() == old(wallet.Tables())
      ensures result == Credited ==>
                && orders[o].status == PAID
                && wallet.ledger == old(wallet.ledger)
                   + [Row(orders[o].user, DEPOSIT, orders[o].creditCents, Some(PaymentRef(payment)))]
      ensures callers == old(callers)[i := if result == Credited || result == AlreadySettled then Answered(o) else Done]
    {
      var lost := TryMarkPaid(o, payment, i);
      ghost var swapped := State();
      if lost.Some? {
        return lost.value;
      }
      var order := orders[o];
      DepositRow(wallet.Tables(), order.user, order.creditCents, payment);
      var error := wallet.Deposit(order.user, order.creditCents * MILLICENTS_PER_CENT, Some(PaymentRef(payment)));
      if error.Some? {
        callers := callers[i := Done];
        dropped := dropped + {o};
        result := CreditFailed(error.value);
      } else {
        callers := callers[i := Answered(o)];
        result := Credited;
      }
      assert State() == Do(swapped, CreditWallet(i));
    }

    /** The first half of a confirm call: it looks the order up, and answers at once unless the order is CREATED. */
    method StartConfirm(u: UserId, o: nat) returns (answer: Option<ConfirmResult>)
      modifies this`callers
      ensures answer == Some(OrderNotFound) <==>
              o >= |orders| || !orders[o].published || orders[o].user != u
      ensures answer != Some(OrderNotFound) ==>
                answer == match orders[o].status
                          case CREATED => None
                          case PAID => Some(Confirmed)
                          case FAILED => Some(CannotBePaid)
      ensures State() == if answer == Some(OrderNotFound) then old(State()) else Do(old(State()), Check(o))
    {
      if o >= |orders| || !orders[o].published || orders[o].user != u {
        return Some(OrderNotFound);
      }
      if orders[o].status == PAID {
        callers := callers + [Answered(o)];
        return Some(Confirmed);
      }
      if orders[o].status == FAILED {
        return Some(CannotBePaid);
      }
      callers := callers + [Checked(o)];
      answer := None;
    }

    /** The second half, whatever happened to the order meanwhile; `captured` is the payment id the provider reports,
        if any. The call is answered with PAID exactly when its caller ends as one that is. */
    method FinishConfirm(o: nat, captured: Option<nat>, ghost i: nat) returns (answer: ConfirmResult)
      requires wallet.Valid() && o < |orders| && i < |callers| && callers[i] == Checked(o)
      modifies this, wallet
      ensures wallet.Valid()
      ensures State() == Marked(Do(old(State()), Capture(i, captured)), i)
      ensures answer == NotCompleted <==> captured.None?
      ensures answer == Confirmed || answer == NotCompleted || answer.Threw?
      ensures answer == Confirmed <==> callers[i] == Answered(o)
      ensures captured.Some? && old(orders[o].status) != CREATED ==>
                answer == Confirmed && orders == old(orders) && wallet.Tables() == old(wallet.Tables())
      ensures answer == Confirmed && old(orders[o].status) == CREATED ==>
                orders[o].status == PAID && |wallet.ledger| == |old(wallet.ledger)| + 1
    {
      if captured.None? {
        callers := callers[i := Done];
        return NotCompleted;
      }
      callers := callers[i := Captured(o, captured.value)];
      var mark := MarkPaidAndCredit(o, captured.value, i);
      answer := if mark.Credited? || mark.AlreadySettled? then Confirmed else Threw(mark);
    }

    /** A confirm call with nothing in between. */
    method ConfirmPayment(u: UserId, o: nat, captured: Option<nat>) returns (answer: ConfirmResult)
      requires wallet.Valid()
      modifies this, wallet
      ensures wallet.Valid()
      ensures answer == OrderNotFound <==>
              o >= |old(orders)| || !old(orders)[o].published || old(orders)[o].user != u
      ensures answer == OrderNotFound || answer == CannotBePaid ==> State() == old(State())
      ensures answer != OrderNotFound && old(orders)[o].status == PAID ==>
                answer == Confirmed && orders == old(orders) && wallet.Tables() == old(wallet.Tables())
      ensures answer != OrderNotFound && old(orders)[o].status == FAILED ==> answer == CannotBePaid
      ensures answer != OrderNotFound && old(orders)[o].status == CREATED ==>
                var i := |old(callers)|;
                && State() == Marked(Do(Do(old(State()), Check(o)), Capture(i, captured)), i)
                && (answer == NotCompleted <==> captured.None?)
                && (answer == Confirmed ==> orders[o].status == PAID && |wallet.ledger| == |old(wallet.ledger)| + 1)
    {
      hide Apply;
      hide Next;
      ghost var i := |callers|;
      var early := StartConfirm(u, o);
      if early.Some? {
        return early.value;
      }
      answer := FinishConfirm(o, captured, i);
    }

    /** A capture webhook. */
    method HandleCaptured(o: nat, payment: nat)
      requires wallet.Valid()
      modifies this, wallet
      ensures wallet.Valid()
      ensures o < |old(orders)| && old(orders)[o].published ==>
                State() == Marked(Do(old(State()), CaptureWebhook(o, payment)), |old(callers)|)
      ensures o >= |old(orders)| || !old(orders)[o].published ==> State() == old(State())
    {
      if o < |orders| && orders[o].published {
        ghost var i := |callers|;
        callers := callers + [Captured(o, payment)];
        var _ := MarkPaidAndCredit(o, payment, i);
      }
    }

    /** A declined or failed webhook: fails the order only while it is CREATED. */
    method HandleDeclined(o: nat)
      modifies this`orders
      ensures State() == Do(old(State()), Decline(o))
    {
      if o < |orders| && orders[o].published && orders[o].status == CREATED {
        orders := orders[o := orders[o].(status := FAILED)];
      }
    }

    /** Creates the order row and asks the provider. `taken` says that the provider answered and the row got its id,
        `heard` that the reply to that update arrived. */
    method CreateOrder(u: UserId, creditCents: nat, taken: bool, heard: bool) returns (returned: Option<nat>)
      requires u in wallet.balances
      modifies this`orders, this`callers
      ensures returned == if taken && heard then Some(|old(orders)|) else None
      ensures var inserted, i := Do(old(State()), Step.CreateOrder(u, creditCents)), |old(callers)|;
              State() == if taken && heard then Do(inserted, PublishOrder(i, true))
                         else if taken then Do(Do(inserted, PublishOrder(i, false)), FailDangling(i))
                         else Do(Do(inserted, CreateFails(i)), FailDangling(i))
    {
      var o, i := |orders|, |callers|;
      orders := orders + [Order(u, creditCents, CREATED, None, false, false)];
      callers := callers + [Creating(o)];
      if taken {
        orders := orders[o := orders[o].(published := true, returned := heard)];
      }
      if taken && heard {
        callers := callers[i := Done];
        return Some(o);
      }
      callers := callers[i := Failing(o)];
      orders := orders[o := orders[o].(status := FAILED)];
      callers := callers[i := Done];
      returned := None;
    }
  }
}
