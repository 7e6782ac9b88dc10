/** Every row that a wallet transaction changes is one that it has locked. */
module LockCoverage {
  import opened Books
  import Locks

  /** The kind, user and target row under which a wallet transaction takes its locks. */
  datatype Locked = Locked(kind: Locks.TxKind, user: UserId, target: nat)

  function LockedBy(db: Db, op: Op): Option<Locked> {
    match op
    case OpDeposit(u, _, _) => Some(Locked(Locks.Deposit, u, 0))
    case OpReserve(u, c, _, _) => Some(Locked(Locks.Reserve, u, c))
    case OpRelease(u, c, _, _) => Some(Locked(Locks.Release, u, c))
    case OpSpend(c, _, _) =>
      if c < |db.campaigns| then Some(Locked(Locks.Spend, db.campaigns[c].owner, c)) else None
    case OpCredit(u, _, _, _) => Some(Locked(Locks.Credit, u, 0))
    case OpPromote(u, _) => Some(Locked(Locks.Promote, u, 0))
    case OpRequestPayout(u, _, _) => Some(Locked(Locks.RequestPayout, u, 0))
    case OpCompletePayout(p) =>
      if p < |db.payouts| then Some(Locked(Locks.Complete, db.payouts[p].owner, p)) else None
    case OpFailPayout(p) =>
      if p < |db.payouts| then Some(Locked(Locks.Fail, db.payouts[p].owner, p)) else None
    case _ => None
  }

  predicate Takes(locked: Locked, table: Locks.Table, row: nat) {
    Locks.Lock(table, row) in Locks.LockPlan(locked.kind, locked.user, locked.target)
  }

  /** Main result: a wallet transaction changes no balance, wallet, campaign or payout that it has not locked. */
  lemma ChangedRowsAreLocked(db: Db, op: Op)
    requires LockedBy(db, op).Some?
    ensures var locked, after := LockedBy(db, op).value, Next(db, op);
            && (forall u | BalanceOf(after, u) != BalanceOf(db, u) :: Takes(locked, Locks.UserTable, u))
            && (forall u | WalletOf(after, u) != WalletOf(db, u) :: Takes(locked, Locks.WalletTable, u))
            && |after.campaigns| == |db.campaigns|
            && (forall c | 0 <= c < |db.campaigns| && after.campaigns[c] != db.campaigns[c] ::
                  Takes(locked, Locks.CampaignTable, c))
            && |db.payouts| <= |after.payouts|
            && (forall p | 0 <= p < |db.payouts| && after.payouts[p] != db.payouts[p] ::
                  Takes(locked, Locks.PayoutTable, p))
  {
    var locked, after := LockedBy(db, op).value, Next(db, op);
    var plan := Locks.LockPlan(locked.kind, locked.user, locked.target);
    assert |plan| >= 2;
    PlanRows(locked);
  }

  /** Which rows each kind of transaction locks. */
  lemma PlanRows(locked: Locked)
    ensures Takes(locked, Locks.WalletTable, locked.user)
    ensures locked.kind !in {Locks.Spend, Locks.Complete} ==> Takes(locked, Locks.UserTable, locked.user)
    ensures locked.kind in {Locks.Reserve, Locks.Release, Locks.Spend} ==>
              Takes(locked, Locks.CampaignTable, locked.target)
    ensures locked.kind in {Locks.Complete, Locks.Fail} ==> Takes(locked, Locks.PayoutTable, locked.target)
  {
    var plan := Locks.LockPlan(locked.kind, locked.user, locked.target);
    assert |plan| >= 2 && plan[0] in plan && plan[1] in plan && plan[|plan| - 1] in plan;
  }
}
