/** How often a payout's amount can leave the reserve, and where it can go. */
module PayoutLifecycle {
  import opened Books
  import opened Holdings
  import opened LedgerReplay

  predicate Settles(kind: Kind) {
    kind == PAYOUT_COMPLETED || kind == PAYOUT_FAILED
  }

  /** Every settlement row is for an existing payout, by its owner, of its amount. */
  ghost predicate SettlementRowsGenuine(db: Db) {
    forall i | 0 <= i < |db.ledger| && Settles(db.ledger[i].kind) ::
      && db.ledger[i].ref.Some? && db.ledger[i].ref.value.PayoutRef?
      && db.ledger[i].ref.value.payout < |db.payouts|
      && db.ledger[i].user == db.payouts[db.ledger[i].ref.value.payout].owner
      && db.ledger[i].amount == db.payouts[db.ledger[i].ref.value.payout].amount
  }

  lemma StepKeepsRowsGenuine(db: Db, op: Op)
    requires SettlementRowsGenuine(db)
    ensures SettlementRowsGenuine(Next(db, op))
  {
  }

  /** Even with the unguarded PROCESSING write, a payout is completed at most once and failed at most once. */
  ghost predicate AtMostOnceEach(db: Db, p: PayoutId) {
    Count(db.ledger, PAYOUT_COMPLETED, PayoutRef(p)) <= 1 && Count(db.ledger, PAYOUT_FAILED, PayoutRef(p)) <= 1
  }

  lemma StepKeepsAtMostOnce(db: Db, op: Op, p: PayoutId, kind: Kind)
    requires ForeignKeys(db) && SettlementRowsGenuine(db) && Settles(kind)
    requires Count(db.ledger, kind, PayoutRef(p)) <= 1
    ensures Count(Next(db, op).ledger, kind, PayoutRef(p)) <= 1
  {
    FundsOnlyMoveByPosting(db, op, 0);
    match RowOf(db, op)
    case None =>
    case Some(row) =>
      CountAppend(db.ledger, row, kind, PayoutRef(p));
      if row.kind == kind && row.ref == Some(PayoutRef(p)) {
        StepKeepsRowsGenuine(db, op);
        CountZero(db.ledger, kind, PayoutRef(p));
      }
  }

  lemma {:induction false} EveryRunSettlesAtMostOnceEach(ops: seq<Op>, p: PayoutId)
    ensures SettlementRowsGenuine(Exec(GENESIS, ops)) && AtMostOnceEach(Exec(GENESIS, ops), p)
  {
    if ops != [] {
      var init, op := ops[..|ops| - 1], ops[|ops| - 1];
      EveryRunSettlesAtMostOnceEach(init, p);
      RunKeepsForeignKeys(init);
      StepKeepsRowsGenuine(Exec(GENESIS, init), op);
      StepKeepsAtMostOnce(Exec(GENESIS, init), op, p, PAYOUT_COMPLETED);
      StepKeepsAtMostOnce(Exec(GENESIS, init), op, p, PAYOUT_FAILED);
    }
  }

  /** The ledger and the status of payout `p` tell the same story. */
  ghost predicate SettledAsStatusSays(db: Db, p: PayoutId) {
    && Count(db.ledger, PAYOUT_COMPLETED, PayoutRef(p)) ==
         (if p < |db.payouts| && db.payouts[p].status == Completed then 1 else 0)
    && Count(db.ledger, PAYOUT_FAILED, PayoutRef(p)) ==
         (if p < |db.payouts| && db.payouts[p].status == Failed then 1 else 0)
  }

  /** What a step does to payout `p`, and the only way a settlement row for it can appear. */
  lemma StepOnPayout(db: Db, op: Op, p: PayoutId)
    ensures |db.payouts| <= |Next(db, op).payouts|
    ensures p < |db.payouts| && Next(db, op).payouts[p] != db.payouts[p] ==>
              && OnPayouts(op) && op.payout == p
              && Next(db, op).payouts[p] == db.payouts[p].(status := Next(db, op).payouts[p].status)
              && (op.OpMarkProcessing? || db.payouts[p].Open())
              && Next(db, op).payouts[p].status == (match op
                                                    case OpMarkProcessing(_) => Processing
                                                    case OpCompletePayout(_) => Completed
                                                    case _ => Failed)
    ensures |db.payouts| <= p < |Next(db, op).payouts| ==> Next(db, op).payouts[p].status == Requested
  {
  }

  lemma SettlementRowMeansSettled(db: Db, op: Op, p: PayoutId)
    ensures match RowOf(db, op)
            case None => !(p < |db.payouts| && db.payouts[p].Open() && !Next(db, op).payouts[p].Open())
            case Some(row) =>
              && (row.kind == PAYOUT_COMPLETED && row.ref == Some(PayoutRef(p)) <==>
                  p < |db.payouts| && db.payouts[p].Open() && Next(db, op).payouts[p].status == Completed)
              && (row.kind == PAYOUT_FAILED && row.ref == Some(PayoutRef(p)) <==>
                  p < |db.payouts| && db.payouts[p].Open() && Next(db, op).payouts[p].status == Failed)
  {
    hide MoveBalance;
    hide MoveWallet;
    hide WalletOf;
  }

  lemma StepSettlesAsStatusSays(db: Db, op: Op, p: PayoutId)
    requires ForeignKeys(db) && SettledAsStatusSays(db, p) && Guarded(db, op)
    ensures SettledAsStatusSays(Next(db, op), p)
  {
    StepOnPayout(db, op, p);
    SettlementRowMeansSettled(db, op, p);
    FundsOnlyMoveByPosting(db, op, 0);
    var after := Next(db, op);
    match RowOf(db, op)
    case None => assert after.ledger == db.ledger;
    case Some(row) =>
      assert after.ledger == db.ledger + [row];
      CountAppend(db.ledger, row, PAYOUT_COMPLETED, PayoutRef(p));
      CountAppend(db.ledger, row, PAYOUT_FAILED, PayoutRef(p));
  }

  /** Main result: with guarded PROCESSING writes a payout's amount leaves the
      reserve once if it is settled and never otherwise. */
  lemma {:induction false} GuardedRunSettlesAsStatusSays(ops: seq<Op>, p: PayoutId)
    requires RunGuarded(GENESIS, ops)
    ensures SettledAsStatusSays(Exec(GENESIS, ops), p)
  {
    if ops != [] {
      var init, op := ops[..|ops| - 1], ops[|ops| - 1];
      assert RunGuarded(GENESIS, init) && Guarded(Exec(GENESIS, init), op) by {
        PrefixGuarded(ops, |init|);
      }
      GuardedRunSettlesAsStatusSays(init, p);
      RunKeepsForeignKeys(init);
      StepSettlesAsStatusSays(Exec(GENESIS, init), op, p);
    }
  }

  /** A PROCESSING write on a settled payout makes its status disagree with the ledger. */
  lemma UnguardedWriteDisagrees(db: Db, p: PayoutId)
    requires p < |db.payouts| && !db.payouts[p].Open()
    ensures !SettledAsStatusSays(db, p) || !SettledAsStatusSays(Next(db, OpMarkProcessing(p)), p)
  {
    assert Next(db, OpMarkProcessing(p)).ledger == db.ledger;
  }

  /** Main result: status and ledger agree about every payout at every step exactly when the run is guarded. */
  lemma RunSettlesAsStatusSaysIffGuarded(ops: seq<Op>)
    ensures (forall k, p: PayoutId | 0 <= k <= |ops| :: SettledAsStatusSays(Exec(GENESIS, ops[..k]), p))
            <==> RunGuarded(GENESIS, ops)
  {
    hide SettledAsStatusSays;
    hide Next;
    hide Exec;
    if RunGuarded(GENESIS, ops) {
      forall k, p: PayoutId | 0 <= k <= |ops| ensures SettledAsStatusSays(Exec(GENESIS, ops[..k]), p) {
        PrefixGuarded(ops, k);
        GuardedRunSettlesAsStatusSays(ops[..k], p);
      }
    } else {
      var k :| 0 <= k < |ops| && !Guarded(Exec(GENESIS, ops[..k]), ops[k]);
      var p := ops[k].payout;
      ExecOneMore(GENESIS, ops, k);
      UnguardedWriteDisagrees(Exec(GENESIS, ops[..k]), p);
      assert !SettledAsStatusSays(Exec(GENESIS, ops[..k]), p) || !SettledAsStatusSays(Exec(GENESIS, ops[..k + 1]), p);
    }
  }

  lemma PrefixGuarded(ops: seq<Op>, k: nat)
    requires RunGuarded(GENESIS, ops) && k <= |ops|
    ensures RunGuarded(GENESIS, ops[..k])
    ensures k < |ops| ==> Guarded(Exec(GENESIS, ops[..k]), ops[k])
  {
    forall j | 0 <= j < k ensures Guarded(Exec(GENESIS, ops[..k][..j]), ops[..k][j]) {
      assert ops[..k][..j] == ops[..j];
      assert Guarded(Exec(GENESIS, ops[..j]), ops[j]);
    }
  }

  /** An open payout can be settled either way: its first settlement row is never a duplicate. */
  lemma OpenPayoutCanBeSettled(db: Db, p: PayoutId)
    requires SettledAsStatusSays(db, p) && p < |db.payouts| && db.payouts[p].Open()
    ensures CompletePayout(db, p).Commit? && CompletePayout(db, p).db.payouts[p].status == Completed
    ensures FailPayout(db, p).Commit? && FailPayout(db, p).db.payouts[p].status == Failed
  {
    CountZero(db.ledger, PAYOUT_COMPLETED, PayoutRef(p));
    CountZero(db.ledger, PAYOUT_FAILED, PayoutRef(p));
  }

  /** How far a payout has come. */
  function Stage(s: PayoutStatus): nat {
    match s
    case Requested => 0
    case Processing => 1
    case _ => 2
  }

  /** `after` continues `before`: same owner and amount, no earlier stage, and a settled outcome is kept. */
  ghost predicate Continues(before: Payout, after: Payout) {
    && before.owner == after.owner && before.amount == after.amount
    && Stage(before.status) <= Stage(after.status)
    && (!before.Open() ==> after.status == before.status)
  }

  /** Main result: along a guarded run a payout never goes back, and a settled one keeps its outcome. */
  lemma {:induction false} GuardedRunNeverGoesBack(ops: seq<Op>, k: nat, p: PayoutId)
    requires RunGuarded(GENESIS, ops) && k <= |ops| && p < |Exec(GENESIS, ops[..k]).payouts|
    ensures p < |Exec(GENESIS, ops).payouts|
    ensures Continues(Exec(GENESIS, ops[..k]).payouts[p], Exec(GENESIS, ops).payouts[p])
  {
    if k == |ops| {
      assert ops[..k] == ops;
    } else {
      var init, op := ops[..|ops| - 1], ops[|ops| - 1];
      PrefixGuarded(ops, |init|);
      assert init[..k] == ops[..k];
      GuardedRunNeverGoesBack(init, k, p);
      StepOnPayout(Exec(GENESIS, init), op, p);
      assert Continues(Exec(GENESIS, init).payouts[p], Next(Exec(GENESIS, init), op).payouts[p]);
    }
  }

  /** A run in which an administrator completes the payout before the provider's answer is written. */
  const LATE_ANSWER: seq<Op> := [
    OpRegister(0), OpDeposit(0, 5_000_000, None), OpRequestPayout(0, 2_000_000, None),
    OpCompletePayout(0), OpMarkProcessing(0), OpFailPayout(0)]

  const LATE_LEDGER: seq<Row> := [
    Row(0, DEPOSIT, 5000, None), Row(0, PAYOUT_REQUEST, 2000, Some(PayoutRef(0))),
    Row(0, PAYOUT_COMPLETED, 2000, Some(PayoutRef(0))), Row(0, PAYOUT_FAILED, 2000, Some(PayoutRef(0)))]

  function LateDb(balance: int, w: Wallet, status: PayoutStatus, rows: nat): Db
    requires rows <= 4
  {
    Db(map[0 := balance], map[0 := w], [], [Payout(0, 2000, status)], LATE_LEDGER[..rows])
  }

  lemma LateDeposit()
    ensures Exec(GENESIS, LATE_ANSWER[..2]) ==
            Db(map[0 := 5000], map[0 := Wallet(0, 0, 5000, 0, 0, 0)], [], [], LATE_LEDGER[..1])
  {
    ExecOneMore(GENESIS, LATE_ANSWER, 0);
    ExecOneMore(GENESIS, LATE_ANSWER, 1);
  }

  lemma LateRequestStep()
    ensures Next(Db(map[0 := 5000], map[0 := Wallet(0, 0, 5000, 0, 0, 0)], [], [], LATE_LEDGER[..1]),
            OpRequestPayout(0, 2_000_000, None))
         == LateDb(3000, Wallet(2000, 0, 5000, 0, 0, 0), Requested, 2)
  {
    assert LATE_LEDGER[..2] == LATE_LEDGER[..1] + [LATE_LEDGER[1]];
    assert !Taken(LATE_LEDGER[..1], 0, PAYOUT_REQUEST, Some(PayoutRef(0)));
  }

  lemma LateRequest()
    ensures Exec(GENESIS, LATE_ANSWER[..3]) == LateDb(3000, Wallet(2000, 0, 5000, 0, 0, 0), Requested, 2)
  {
    hide Next;
    hide Exec;
    LateDeposit();
    ExecOneMore(GENESIS, LATE_ANSWER, 2);
    LateRequestStep();
  }

  lemma LateCompleteStep()
    ensures Next(LateDb(3000, Wallet(2000, 0, 5000, 0, 0, 0), Requested, 2), OpCompletePayout(0))
         == LateDb(3000, Wallet(0, 0, 5000, 0, 0, 2000), Completed, 3)
  {
    assert LATE_LEDGER[..3] == LATE_LEDGER[..2] + [LATE_LEDGER[2]];
    assert !Taken(LATE_LEDGER[..2], 0, PAYOUT_COMPLETED, Some(PayoutRef(0)));
  }

  lemma LateComplete()
    ensures Exec(GENESIS, LATE_ANSWER[..4]) == LateDb(3000, Wallet(0, 0, 5000, 0, 0, 2000), Completed, 3)
  {
    hide Next;
    hide Exec;
    LateRequest();
    ExecOneMore(GENESIS, LATE_ANSWER, 3);
    LateCompleteStep();
  }

  lemma LateProcessing()
    ensures Exec(GENESIS, LATE_ANSWER[..5]) == LateDb(3000, Wallet(0, 0, 5000, 0, 0, 2000), Processing, 3)
  {
    LateComplete();
    ExecOneMore(GENESIS, LATE_ANSWER, 4);
  }

  lemma LateFail()
    ensures Exec(GENESIS, LATE_ANSWER) == LateDb(5000, Wallet(-2000, 0, 5000, 0, 0, 2000), Failed, 4)
  {
    LateProcessing();
    ExecOneMore(GENESIS, LATE_ANSWER, 5);
    assert !Taken(LATE_LEDGER[..3], 0, PAYOUT_FAILED, Some(PayoutRef(0)));
    assert LATE_ANSWER[..6] == LATE_ANSWER;
    assert LATE_LEDGER[..4] == LATE_LEDGER[..3] + [LATE_LEDGER[3]];
  }

  /** The unguarded write is not harmless: the amount is paid out and also returned, and the reserve goes below zero. */
  lemma LateAnswerPaysTwice()
    ensures !RunGuarded(GENESIS, LATE_ANSWER)
    ensures var db := Exec(GENESIS, LATE_ANSWER);
            && BalanceOf(db, 0) == 5000
            && WalletOf(db, 0).withdrawn == 2000
            && WalletOf(db, 0).reserved == -2000
            && Count(db.ledger, PAYOUT_COMPLETED, PayoutRef(0)) == 1
            && Count(db.ledger, PAYOUT_FAILED, PayoutRef(0)) == 1
  {
    hide Exec;
    hide Next;
    LateComplete();
    LateFail();
    var ledger := Exec(GENESIS, LATE_ANSWER).ledger;
    assert ledger[2] == LATE_LEDGER[2] && ledger[3] == LATE_LEDGER[3];
    EveryRunSettlesAtMostOnceEach(LATE_ANSWER, 0);
    CountZero(ledger, PAYOUT_COMPLETED, PayoutRef(0));
    CountZero(ledger, PAYOUT_FAILED, PayoutRef(0));
    assert !Guarded(Exec(GENESIS, LATE_ANSWER[..4]), LATE_ANSWER[4]);
  }
}
