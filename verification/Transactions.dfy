/** When each wallet transaction goes through, and what everybody owns afterwards.

  Everything is said about balances, wallets, campaigns, payouts and ledger rows, in millicents and cents written
  out; none of it mentions how a transaction is put together.
 */
module Transactions {
  import opened Books

  const NO_CHANGE := EMPTY_WALLET

  function Plus(w: Wallet, change: Wallet): Wallet {
    Wallet(w.reserved + change.reserved, w.pending + change.pending, w.deposited + change.deposited,
           w.spent + change.spent, w.earned + change.earned, w.withdrawn + change.withdrawn)
  }

  /** The balance of user `u` rises by `balance` and its wallet by `change`; nobody else's money moves. */
  ghost predicate Moves(db: Db, after: Db, u: UserId, balance: int, change: Wallet) {
    && after.balances.Keys == db.balances.Keys
    && BalanceOf(after, u) == BalanceOf(db, u) + balance
    && WalletOf(after, u) == Plus(WalletOf(db, u), change)
    && (forall v | v != u :: BalanceOf(after, v) == BalanceOf(db, v))
    && (forall v | v != u :: WalletOf(after, v) == WalletOf(db, v))
  }

  ghost predicate SameMoney(db: Db, after: Db) {
    forall u :: BalanceOf(after, u) == BalanceOf(db, u) && WalletOf(after, u) == WalletOf(db, u)
  }

  /** A positive whole number of cents. */
  predicate WholeCents(raw: int) {
    raw > 0 && raw % 1000 == 0
  }

  /** No row of the user has this kind and reference; a missing reference is always free. */
  ghost predicate Free(db: Db, u: UserId, kind: Kind, ref: Option<Ref>) {
    ref.Some? ==> forall row | row in db.ledger :: !(row.user == u && row.kind == kind && row.ref == ref)
  }

  lemma FreeIsNotTaken(db: Db, u: UserId, kind: Kind, ref: Option<Ref>)
    ensures Free(db, u, kind, ref) <==> !Taken(db.ledger, u, kind, ref)
  {
  }

  lemma DepositDoes(db: Db, u: UserId, raw: int, ref: Option<Ref>)
    ensures var r, cents := Deposit(db, u, raw, ref), raw / 1000;
            && (r.Commit? <==> WholeCents(raw) && u in db.balances && Free(db, u, DEPOSIT, ref))
            && (r.Commit? ==>
                  && Moves(db, r.db, u, cents, NO_CHANGE.(deposited := cents))
                  && r.db.ledger == db.ledger + [Row(u, DEPOSIT, cents, ref)]
                  && r.db.campaigns == db.campaigns && r.db.payouts == db.payouts)
  {
    FreeIsNotTaken(db, u, DEPOSIT, ref);
    hide Taken;
    hide Free;
  }

  lemma ReserveDoes(db: Db, u: UserId, c: CampaignId, raw: int, minBalance: nat)
    ensures var r, cents := Reserve(db, u, c, raw, minBalance), raw / 1000;
            && (r.Commit? <==>
                  && WholeCents(raw) && u in db.balances && c < |db.campaigns| && db.campaigns[c].owner == u
                  && BalanceOf(db, u) >= cents && BalanceOf(db, u) >= minBalance
                  && Free(db, u, CAMPAIGN_RESERVATION, Some(CampaignRef(c))))
            && (r.Commit? ==>
                  && Moves(db, r.db, u, -cents, NO_CHANGE.(reserved := cents))
                  && r.db.ledger == db.ledger + [Row(u, CAMPAIGN_RESERVATION, cents, Some(CampaignRef(c)))]
                  && r.db.campaigns ==
                       db.campaigns[c := db.campaigns[c].(reserved := db.campaigns[c].reserved + cents)]
                  && r.db.payouts == db.payouts)
  {
    FreeIsNotTaken(db, u, CAMPAIGN_RESERVATION, Some(CampaignRef(c)));
    hide Taken;
    hide Free;
  }

  lemma ReleaseDoes(db: Db, u: UserId, c: CampaignId, raw: int, now: nat)
    ensures var r, cents := Release(db, u, c, raw, now), raw / 1000;
            && (r.Commit? <==>
                  && WholeCents(raw) && u in db.balances && c < |db.campaigns| && db.campaigns[c].owner == u
                  && db.campaigns[c].reserved >= cents && Free(db, u, REFUND, Some(ReleaseRef(c, now))))
            && (r.Commit? ==>
                  && Moves(db, r.db, u, cents, NO_CHANGE.(reserved := -cents))
                  && r.db.ledger == db.ledger + [Row(u, REFUND, cents, Some(ReleaseRef(c, now)))]
                  && r.db.campaigns ==
                       db.campaigns[c := db.campaigns[c].(reserved := db.campaigns[c].reserved - cents)]
                  && r.db.payouts == db.payouts)
  {
    FreeIsNotTaken(db, u, REFUND, Some(ReleaseRef(c, now)));
    hide Taken;
    hide Free;
  }

  lemma SpendDoes(db: Db, c: CampaignId, raw: int, ref: Ref)
    ensures var r, cents := Spend(db, c, raw, ref), raw / 1000;
            && (r.Commit? <==>
                  && WholeCents(raw) && c < |db.campaigns| && db.campaigns[c].status == ACTIVE
                  && db.campaigns[c].reserved >= cents && Free(db, db.campaigns[c].owner, AD_SPEND, Some(ref)))
            && (r.Commit? ==>
                  var before := db.campaigns[c];
                  && Moves(db, r.db, before.owner, 0, NO_CHANGE.(reserved := -cents, spent := cents))
                  && r.db.ledger == db.ledger + [Row(before.owner, AD_SPEND, cents, Some(ref))]
                  && r.db.campaigns ==
                       db.campaigns[c := before.(reserved := before.reserved - cents, spent := before.spent + cents)]
                  && r.db.payouts == db.payouts)
  {
    if c < |db.campaigns| {
      FreeIsNotTaken(db, db.campaigns[c].owner, AD_SPEND, Some(ref));
    }
    hide Taken;
    hide Free;
  }

  /** Earnings are held as pending, unless they are credited at once. */
  lemma CreditDoes(db: Db, u: UserId, raw: int, ref: Ref, immediate: bool)
    ensures var r, cents := Credit(db, u, raw, ref, immediate), raw / 1000;
            && (r.Commit? <==> WholeCents(raw) && u in db.balances && Free(db, u, PUBLISHER_EARNING, Some(ref)))
            && (r.Commit? ==>
                  && (if immediate then Moves(db, r.db, u, cents, NO_CHANGE.(earned := cents))
                      else Moves(db, r.db, u, 0, NO_CHANGE.(pending := cents, earned := cents)))
                  && r.db.ledger == db.ledger + [Row(u, PUBLISHER_EARNING, cents, Some(ref))]
                  && r.db.campaigns == db.campaigns && r.db.payouts == db.payouts)
  {
    FreeIsNotTaken(db, u, PUBLISHER_EARNING, Some(ref));
    hide Taken;
    hide Free;
  }

  lemma PromoteDoes(db: Db, u: UserId, raw: int)
    ensures var r, cents := Promote(db, u, raw), raw / 1000;
            && (r.Commit? <==> WholeCents(raw) && u in db.balances && WalletOf(db, u).pending >= cents)
            && (r.Commit? ==>
                  && Moves(db, r.db, u, cents, NO_CHANGE.(pending := -cents))
                  && r.db.ledger == db.ledger && r.db.campaigns == db.campaigns && r.db.payouts == db.payouts)
  {
  }

  /** A payout can be requested from twenty dollars on. */
  lemma RequestPayoutDoes(db: Db, u: UserId, raw: int, key: Option<Ref>)
    ensures var r, cents := RequestPayout(db, u, raw, key), raw / 1000;
            var ref := if key.Some? then key else Some(PayoutRef(|db.payouts|));
            && (r.Commit? <==>
                  && WholeCents(raw) && raw >= 2_000_000 && u in db.balances && BalanceOf(db, u) >= cents
                  && Free(db, u, PAYOUT_REQUEST, ref))
            && (r == Rollback(BelowMinimumPayout) <==> WholeCents(raw) && raw < 2_000_000)
            && (r.Commit? ==>
                  && Moves(db, r.db, u, -cents, NO_CHANGE.(reserved := cents))
                  && r.db.ledger == db.ledger + [Row(u, PAYOUT_REQUEST, cents, ref)]
                  && r.db.campaigns == db.campaigns && r.db.payouts == db.payouts + [Payout(u, cents, Requested)])
  {
    FreeIsNotTaken(db, u, PAYOUT_REQUEST, if key.Some? then key else Some(PayoutRef(|db.payouts|)));
    hide Taken;
    hide Free;
  }

  /** A payout that is completed already is left as it is, and one that failed is an error. */
  lemma CompletePayoutDoes(db: Db, p: PayoutId)
    ensures var r := CompletePayout(db, p);
            if p >= |db.payouts| then r == Rollback(NotFound)
            else
              var payout := db.payouts[p];
              var u: UserId, cents: int := payout.owner, payout.amount;
              match payout.status
              case Completed => r == Commit(db)
              case Failed => r == Rollback(PayoutAlreadyFailed)
              case _ =>
                && (r.Commit? <==> Free(db, u, PAYOUT_COMPLETED, Some(PayoutRef(p))))
                && (r.Commit? ==>
                      && Moves(db, r.db, u, 0, NO_CHANGE.(reserved := -cents, withdrawn := cents))
                      && r.db.ledger == db.ledger + [Row(u, PAYOUT_COMPLETED, cents, Some(PayoutRef(p)))]
                      && r.db.campaigns == db.campaigns
                      && r.db.payouts == db.payouts[p := payout.(status := Completed)])
  {
    if p < |db.payouts| {
      FreeIsNotTaken(db, db.payouts[p].owner, PAYOUT_COMPLETED, Some(PayoutRef(p)));
    }
    hide Taken;
    hide Free;
  }

  /** A payout that failed already is left as it is, and one that is completed is an error. */
  lemma FailPayoutDoes(db: Db, p: PayoutId)
    ensures var r := FailPayout(db, p);
            if p >= |db.payouts| then r == Rollback(NotFound)
            else
              var payout := db.payouts[p];
              var u: UserId, cents: int := payout.owner, payout.amount;
              match payout.status
              case Completed => r == Rollback(PayoutAlreadyCompleted)
              case Failed => r == Commit(db)
              case _ =>
                && (r.Commit? <==> Free(db, u, PAYOUT_FAILED, Some(PayoutRef(p))))
                && (r.Commit? && u in db.balances ==>
                      && Moves(db, r.db, u, cents, NO_CHANGE.(reserved := -cents))
                      && r.db.ledger == db.ledger + [Row(u, PAYOUT_FAILED, cents, Some(PayoutRef(p)))]
                      && r.db.campaigns == db.campaigns
                      && r.db.payouts == db.payouts[p := payout.(status := Failed)])
  {
    if p < |db.payouts| {
      FreeIsNotTaken(db, db.payouts[p].owner, PAYOUT_FAILED, Some(PayoutRef(p)));
    }
    hide Taken;
    hide Free;
  }

  /** The amount a transaction is asked for, if any. */
  function Asked(op: Op): Option<int> {
    match op
    case OpDeposit(_, raw, _) => Some(raw)
    case OpReserve(_, _, raw, _) => Some(raw)
    case OpRelease(_, _, raw, _) => Some(raw)
    case OpSpend(_, raw, _) => Some(raw)
    case OpCredit(_, raw, _, _) => Some(raw)
    case OpPromote(_, raw) => Some(raw)
    case OpRequestPayout(_, raw, _) => Some(raw)
    case _ => None
  }

  predicate Owns(db: Db, u: UserId, c: CampaignId) {
    u in db.balances && c < |db.campaigns| && db.campaigns[c].owner == u
  }

  /** The user, campaign or payout that a transaction is about is there, and is the user's. */
  predicate Found(db: Db, op: Op) {
    match op
    case OpRegister(_) => true
    case OpCreateCampaign(u, _) => u in db.balances
    case OpSetStatus(c, _) => c < |db.campaigns|
    case OpSetBudget(c, _) => c < |db.campaigns|
    case OpDeposit(u, _, _) => u in db.balances
    case OpReserve(u, c, _, _) => Owns(db, u, c)
    case OpRelease(u, c, _, _) => Owns(db, u, c)
    case OpSpend(c, _, _) => c < |db.campaigns|
    case OpCredit(u, _, _, _) => u in db.balances
    case OpPromote(u, _) => u in db.balances
    case OpRequestPayout(u, _, _) => u in db.balances
    case OpMarkProcessing(p) => p < |db.payouts|
    case OpCompletePayout(p) => p < |db.payouts|
    case OpFailPayout(p) => p < |db.payouts|
  }

  /** What is wrong when a transaction is refused with `e`. */
  ghost predicate Cause(db: Db, op: Op, e: WalletError) {
    match e
    case AmountNotPositive => Asked(op).Some? && Asked(op).value <= 0
    case TooManyDecimals => Asked(op).Some? && Asked(op).value > 0 && Asked(op).value % 1000 != 0
    case BelowMinimumPayout => op.OpRequestPayout? && op.raw < 2_000_000
    case NotFound => !Found(db, op)
    case AlreadyExists => op.OpRegister? && op.user in db.balances
    case InsufficientAvailable =>
      || (op.OpReserve? && (BalanceOf(db, op.user) * 1000 < op.raw || BalanceOf(db, op.user) < op.minBalance))
      || (op.OpRequestPayout? && BalanceOf(db, op.user) * 1000 < op.raw)
    case ReservationExceedsHeld => op.OpRelease? && Found(db, op) && db.campaigns[op.campaign].reserved * 1000 < op.raw
    case CampaignNotActive => op.OpSpend? && Found(db, op) && db.campaigns[op.campaign].status != ACTIVE
    case InsufficientReserved => op.OpSpend? && Found(db, op) && db.campaigns[op.campaign].reserved * 1000 < op.raw
    case InsufficientPending => op.OpPromote? && WalletOf(db, op.user).pending * 1000 < op.raw
    case PayoutAlreadyFailed => op.OpCompletePayout? && Found(db, op) && db.payouts[op.payout].status == Failed
    case PayoutAlreadyCompleted => op.OpFailPayout? && Found(db, op) && db.payouts[op.payout].status == Completed
    case DuplicateTransaction =>
      exists row | row in db.ledger :: row.ref.Some? && IsRowFor(db, op, row)
  }

  /** The row is the one that the transaction would write, up to its amount. */
  predicate IsRowFor(db: Db, op: Op, row: Row) {
    match op
    case OpDeposit(u, _, ref) => row.user == u && row.kind == DEPOSIT && row.ref == ref
    case OpReserve(u, c, _, _) => row.user == u && row.kind == CAMPAIGN_RESERVATION && row.ref == Some(CampaignRef(c))
    case OpRelease(u, c, _, now) => row.user == u && row.kind == REFUND && row.ref == Some(ReleaseRef(c, now))
    case OpSpend(c, _, ref) =>
      Found(db, op) && row.user == db.campaigns[c].owner && row.kind == AD_SPEND && row.ref == Some(ref)
    case OpCredit(u, _, ref, _) => row.user == u && row.kind == PUBLISHER_EARNING && row.ref == Some(ref)
    case OpRequestPayout(u, _, key) =>
      row.user == u && row.kind == PAYOUT_REQUEST && row.ref == if key.Some? then key else Some(PayoutRef(|db.payouts|))
    case OpCompletePayout(p) =>
      Found(db, op) && row.user == db.payouts[p].owner && row.kind == PAYOUT_COMPLETED && row.ref == Some(PayoutRef(p))
    case OpFailPayout(p) =>
      Found(db, op) && row.user == db.payouts[p].owner && row.kind == PAYOUT_FAILED && row.ref == Some(PayoutRef(p))
    case _ => false
  }

  /** A refusal names something that is wrong with the request. */
  lemma EveryErrorHasItsCause(db: Db, op: Op)
    ensures Apply(db, op).Rollback? ==> Cause(db, op, Apply(db, op).error)
  {
    if Apply(db, op) == Rollback(DuplicateTransaction) {
      DuplicateHasItsRow(db, op);
    }
  }

  lemma DuplicateHasItsRow(db: Db, op: Op)
    requires Apply(db, op) == Rollback(DuplicateTransaction)
    ensures exists row | row in db.ledger :: row.ref.Some? && IsRowFor(db, op, row)
  {
    var i :| 0 <= i < |db.ledger| && db.ledger[i].ref.Some? && IsRowFor(db, op, db.ledger[i]);
    assert db.ledger[i] in db.ledger;
  }

  /** Users, campaigns and the plain writes. */
  lemma PlainWriteDoes(db: Db, op: Op)
    requires op.OpRegister? || op.OpCreateCampaign? || op.OpSetStatus? || op.OpSetBudget? || op.OpMarkProcessing?
    ensures var r := Apply(db, op);
            && (r.Commit? <==> if op.OpRegister? then op.user !in db.balances else Found(db, op))
            && (r.Commit? ==>
                  && SameMoney(db, r.db) && r.db.ledger == db.ledger
                  && r.db.balances.Keys == db.balances.Keys + (if op.OpRegister? then {op.user} else {})
                  && |r.db.campaigns| == |db.campaigns| + (if op.OpCreateCampaign? then 1 else 0)
                  && |r.db.payouts| == |db.payouts|)
    ensures match op
            case OpRegister(u) => Apply(db, op).Commit? ==> u in Next(db, op).balances && Next(db, op).balances[u] == 0
            case OpCreateCampaign(u, budget) =>
              Apply(db, op).Commit? ==>
                Next(db, op).campaigns == db.campaigns + [Campaign(u, PENDING_REVIEW, budget, 0, 0)]
            case OpSetStatus(c, status) =>
              Found(db, op) ==> Next(db, op).campaigns == db.campaigns[c := db.campaigns[c].(status := status)]
            case OpSetBudget(c, budget) =>
              Found(db, op) ==> Next(db, op).campaigns == db.campaigns[c := db.campaigns[c].(totalBudget := budget)]
            case OpMarkProcessing(p) =>
              Found(db, op) ==> Next(db, op).payouts == db.payouts[p := db.payouts[p].(status := Processing)]
            case _ => true
  {
  }

  /** Main result: in every reachable state every payout, whatever became of it, is of twenty dollars or more. */
  lemma {:induction false} EveryPayoutReachesTheMinimum(ops: seq<Op>)
    ensures forall p | 0 <= p < |Exec(GENESIS, ops).payouts| :: Exec(GENESIS, ops).payouts[p].amount >= 2000
  {
    if ops != [] {
      var n := |ops| - 1;
      EveryPayoutReachesTheMinimum(ops[..n]);
      PayoutAmountsStay(Exec(GENESIS, ops[..n]), ops[n]);
    }
  }

  lemma PayoutAmountsStay(db: Db, op: Op)
    ensures |db.payouts| <= |Next(db, op).payouts|
    ensures forall p | 0 <= p < |db.payouts| ::
              && Next(db, op).payouts[p].amount == db.payouts[p].amount
              && Next(db, op).payouts[p].owner == db.payouts[p].owner
    ensures forall p | |db.payouts| <= p < |Next(db, op).payouts| ::
              Next(db, op).payouts[p].amount >= 2000 && Next(db, op).payouts[p].status == Requested
  {
  }
}
