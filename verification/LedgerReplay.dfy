/** Every stored total is a replay of the append-only ledger, and money is conserved. */
module LedgerReplay {
  import opened Books

  datatype Column = Balance | Reserved | Pending | Deposited | Spent | Earned | Withdrawn

  /** What one ledger row adds to a column, read off the row alone. */
  function Signed(col: Column, row: Row): int {
    var amount: int := row.amount;
    match col
    case Balance =>
      if row.kind == DEPOSIT || row.kind == REFUND || row.kind == PAYOUT_FAILED then amount
      else if row.kind == CAMPAIGN_RESERVATION || row.kind == PAYOUT_REQUEST then -amount
      else 0
    case Reserved =>
      if row.kind == CAMPAIGN_RESERVATION || row.kind == PAYOUT_REQUEST then amount
      else if row.kind == AD_SPEND || row.kind == REFUND || row.kind == PAYOUT_COMPLETED
              || row.kind == PAYOUT_FAILED then -amount
      else 0
    case Pending => if row.kind == PUBLISHER_EARNING then amount else 0
    case Deposited => if row.kind == DEPOSIT then amount else 0
    case Spent => if row.kind == AD_SPEND then amount else 0
    case Earned => if row.kind == PUBLISHER_EARNING then amount else 0
    case Withdrawn => if row.kind == PAYOUT_COMPLETED then amount else 0
  }

  /** The signed sum of a column over the rows of one wallet. */
  function Replay(ledger: seq<Row>, u: UserId, col: Column): int {
    if ledger == [] then 0
    else
      var last := ledger[|ledger| - 1];
      Replay(ledger[..|ledger| - 1], u, col) + if last.user == u then Signed(col, last) else 0
  }

  lemma ReplayAppend(ledger: seq<Row>, row: Row, u: UserId, col: Column)
    ensures Replay(ledger + [row], u, col) == Replay(ledger, u, col) + if row.user == u then Signed(col, row) else 0
  {
    assert (ledger + [row])[..|ledger|] == ledger;
  }

  /** The stored figures of user `u` agree with the ledger. */
  ghost predicate Replayed(db: Db, u: UserId) {
    var w := WalletOf(db, u);
    && w.reserved == Replay(db.ledger, u, Reserved)
    && w.deposited == Replay(db.ledger, u, Deposited)
    && w.spent == Replay(db.ledger, u, Spent)
    && w.earned == Replay(db.ledger, u, Earned)
    && w.withdrawn == Replay(db.ledger, u, Withdrawn)
    && BalanceOf(db, u) + w.pending == Replay(db.ledger, u, Balance) + Replay(db.ledger, u, Pending)
  }

  /** Posting a row moves each figure by what the row alone says. */
  lemma PostMovesBySign(balance: int, w: Wallet, row: Row)
    ensures var after := MoveWallet(w, row);
            && after.reserved == w.reserved + Signed(Reserved, row)
            && after.deposited == w.deposited + Signed(Deposited, row)
            && after.spent == w.spent + Signed(Spent, row)
            && after.earned == w.earned + Signed(Earned, row)
            && after.withdrawn == w.withdrawn + Signed(Withdrawn, row)
            && MoveBalance(balance, row) == balance + Signed(Balance, row)
            && after.pending == w.pending + Signed(Pending, row)
  {
  }

  lemma PostReplayed(db: Db, row: Row, u: UserId)
    requires row.user in db.balances && Replayed(db, u)
    ensures Replayed(Post(db, row), u)
  {
    forall col: Column
      ensures Replay(db.ledger + [row], u, col) == Replay(db.ledger, u, col)
              + if row.user == u then Signed(col, row) else 0
    {
      ReplayAppend(db.ledger, row, u, col);
    }
    PostMovesBySign(BalanceOf(db, u), WalletOf(db, u), row);
  }

  /** The row a transaction appends, if it appends one. */
  function RowOf(db: Db, op: Op): Option<Row> {
    match Apply(db, op)
    case Rollback(_) => None
    case Commit(d) => if |d.ledger| == |db.ledger| + 1 then Some(d.ledger[|db.ledger|]) else None
  }

  /** Two databases agree on what `u` owns and on the ledger. */
  ghost predicate SameFunds(a: Db, b: Db, u: UserId) {
    BalanceOf(a, u) == BalanceOf(b, u) && WalletOf(a, u) == WalletOf(b, u) && a.ledger == b.ledger
  }

  /** Every transaction either posts one row, clears pending earnings, does both, or moves no money at all. */
  lemma FundsOnlyMoveByPosting(db: Db, op: Op, u: UserId)
    requires ForeignKeys(db)
    ensures match RowOf(db, op)
            case Some(row) =>
              && row.user in db.balances
              && !Taken(db.ledger, row.user, row.kind, row.ref)
              && Next(db, op).ledger == db.ledger + [row]
              && (SameFunds(Next(db, op), Post(db, row), u) ||
                  SameFunds(Next(db, op), Clear(Post(db, row), row.user, row.amount), u))
            case None =>
              || SameFunds(Next(db, op), db, u)
              || exists cents: nat :: op.OpPromote? && SameFunds(Next(db, op), Clear(db, op.user, cents), u)
  {
    if op.OpPromote? && Apply(db, op).Commit? {
      assert SameFunds(Next(db, op), Clear(db, op.user, Normalize(op.raw).cents), u);
    }
  }

  lemma StepReplayed(db: Db, op: Op, u: UserId)
    requires ForeignKeys(db) && Replayed(db, u)
    ensures Replayed(Next(db, op), u)
  {
    hide RowOf;
    hide Next;
    hide Replay;
    hide ForeignKeys;
    FundsOnlyMoveByPosting(db, op, u);
    match RowOf(db, op)
    case None =>
    case Some(row) => PostReplayed(db, row, u);
  }

  lemma {:induction false} RunKeepsForeignKeys(ops: seq<Op>)
    ensures ForeignKeys(Exec(GENESIS, ops))
  {
    if ops != [] {
      RunKeepsForeignKeys(ops[..|ops| - 1]);
      ForeignKeysKept(Exec(GENESIS, ops[..|ops| - 1]), ops[|ops| - 1]);
    }
  }

  /** Main result: in every reachable state each wallet's totals and holdings are folds over its ledger rows. */
  lemma {:induction false} LedgerReplaysEveryRun(ops: seq<Op>, u: UserId)
    ensures Replayed(Exec(GENESIS, ops), u)
  {
    if ops != [] {
      var before := Exec(GENESIS, ops[..|ops| - 1]);
      LedgerReplaysEveryRun(ops[..|ops| - 1], u);
      RunKeepsForeignKeys(ops[..|ops| - 1]);
      StepReplayed(before, ops[|ops| - 1], u);
    }
  }

  lemma {:induction false} ColumnsBalance(ledger: seq<Row>, u: UserId)
    ensures Replay(ledger, u, Balance) + Replay(ledger, u, Reserved) + Replay(ledger, u, Pending)
         == Replay(ledger, u, Deposited) + Replay(ledger, u, Earned)
            - Replay(ledger, u, Spent) - Replay(ledger, u, Withdrawn)
  {
    if ledger != [] {
      ColumnsBalance(ledger[..|ledger| - 1], u);
    }
  }

  /** Main result: what a user holds is what came in minus what went out, in every reachable state. */
  lemma MoneyIsConserved(ops: seq<Op>, u: UserId)
    ensures var db := Exec(GENESIS, ops);
            var w := WalletOf(db, u);
            BalanceOf(db, u) + w.reserved + w.pending == w.deposited + w.earned - w.spent - w.withdrawn
  {
    LedgerReplaysEveryRun(ops, u);
    ColumnsBalance(Exec(GENESIS, ops).ledger, u);
  }

  lemma ExecOneMore(db: Db, ops: seq<Op>, k: nat)
    requires k < |ops|
    ensures Exec(db, ops[..k + 1]) == Next(Exec(db, ops[..k]), ops[k])
  {
    assert ops[..k + 1][..k] == ops[..k];
  }

  /** How many ledger rows of one kind carry one reference. */
  function Count(ledger: seq<Row>, kind: Kind, ref: Ref): nat {
    if ledger == [] then 0
    else
      var last := ledger[|ledger| - 1];
      Count(ledger[..|ledger| - 1], kind, ref) + if last.kind == kind && last.ref == Some(ref) then 1 else 0
  }

  lemma CountAppend(ledger: seq<Row>, row: Row, kind: Kind, ref: Ref)
    ensures Count(ledger + [row], kind, ref)
         == Count(ledger, kind, ref) + if row.kind == kind && row.ref == Some(ref) then 1 else 0
  {
    assert (ledger + [row])[..|ledger|] == ledger;
  }

  lemma {:induction false} CountZero(ledger: seq<Row>, kind: Kind, ref: Ref)
    ensures Count(ledger, kind, ref) == 0 <==>
            forall i | 0 <= i < |ledger| :: !(ledger[i].kind == kind && ledger[i].ref == Some(ref))
  {
    if ledger != [] {
      var n := |ledger| - 1;
      CountZero(ledger[..n], kind, ref);
      assert forall i | 0 <= i < n :: ledger[..n][i] == ledger[i];
    }
  }

  /** No two ledger rows share a key (wallet, type, reference). */
  ghost predicate UniqueKeys(ledger: seq<Row>) {
    forall i, j | 0 <= i < j < |ledger| && ledger[i].ref.Some? ::
      !(ledger[i].user == ledger[j].user && ledger[i].kind == ledger[j].kind && ledger[i].ref == ledger[j].ref)
  }

  /** Main result: over any run the ledger only grows at its end, and its keys stay unique. */
  lemma {:induction false} LedgerIsAppendOnly(ops: seq<Op>, k: nat)
    requires k <= |ops|
    ensures UniqueKeys(Exec(GENESIS, ops).ledger)
    ensures Exec(GENESIS, ops[..k]).ledger <= Exec(GENESIS, ops).ledger
  {
    if k == |ops| {
      assert ops[..k] == ops;
    }
    if ops != [] {
      var init, op := ops[..|ops| - 1], ops[|ops| - 1];
      var before := Exec(GENESIS, init);
      LedgerIsAppendOnly(init, if k == |ops| then 0 else k);
      RunKeepsForeignKeys(init);
      FundsOnlyMoveByPosting(before, op, 0);
      if k < |ops| {
        assert init[..k] == ops[..k];
      }
    }
  }
}
