/** The wallet service as an object whose fields are the money tables.

  Each method is one `$transaction`: it writes the tables statement by statement and, when a
  statement throws, puts back the tables it started from. Its contract ties the tables after
  the call to the transaction of the same name in Books.
 */
module WalletService {
  import opened Books

  /** `error` and `after` are how a transaction started at `before` ends when it behaves as `spec` says. */
  ghost predicate Settles(before: Db, spec: Outcome, after: Db, error: Option<WalletError>) {
    match spec
    case Commit(d) => error == None && after == d
    case Rollback(e) => error == Some(e) && after == before
  }

  /** Posting a row for an existing user, table by table. */
  lemma RecordOutcome(db: Db, row: Row)
    requires row.user in db.balances
    ensures Record(db, row) ==
            if Taken(db.ledger, row.user, row.kind, row.ref) then Rollback(DuplicateTransaction)
            else Commit(db.(balances := db.balances[row.user := MoveBalance(db.balances[row.user], row)],
                            wallets := db.wallets[row.user := MoveWallet(WalletOf(db, row.user), row)],
                            ledger := db.ledger + [row]))
  {
  }

  lemma ReserveOutcome(db: Db, u: UserId, c: CampaignId, raw: int, minBalance: nat)
    requires ForeignKeys(db)
    requires Normalize(raw).Cents? && u in db.balances && c < |db.campaigns| && db.campaigns[c].owner == u
    requires db.balances[u] >= minBalance && db.balances[u] >= Normalize(raw).cents
    ensures var cents, camp, w := Normalize(raw).cents, db.campaigns[c], WalletOf(db, u);
            var row := Row(u, CAMPAIGN_RESERVATION, cents, Some(CampaignRef(c)));
            Reserve(db, u, c, raw, minBalance) ==
              if Taken(db.ledger, u, CAMPAIGN_RESERVATION, Some(CampaignRef(c))) then Rollback(DuplicateTransaction)
              else Commit(Db(db.balances[u := db.balances[u] - cents],
                             db.wallets[u := w.(reserved := w.reserved + cents)],
                             db.campaigns[c := camp.(reserved := camp.reserved + cents)],
                             db.payouts, db.ledger + [row]))
    ensures Reserve(db, u, c, raw, minBalance).Commit? ==> ForeignKeys(Reserve(db, u, c, raw, minBalance).db)
  {
    ForeignKeysKept(db, OpReserve(u, c, raw, minBalance));
    hide ForeignKeys;
    RecordOutcome(db, Row(u, CAMPAIGN_RESERVATION, Normalize(raw).cents, Some(CampaignRef(c))));
    hide Record;
  }

  lemma ReleaseOutcome(db: Db, u: UserId, c: CampaignId, raw: int, now: nat)
    requires ForeignKeys(db)
    requires Normalize(raw).Cents? && u in db.balances && c < |db.campaigns| && db.campaigns[c].owner == u
    requires db.campaigns[c].reserved >= Normalize(raw).cents
    ensures var cents, camp, w := Normalize(raw).cents, db.campaigns[c], WalletOf(db, u);
            var row := Row(u, REFUND, cents, Some(ReleaseRef(c, now)));
            Release(db, u, c, raw, now) ==
              if Taken(db.ledger, u, REFUND, Some(ReleaseRef(c, now))) then Rollback(DuplicateTransaction)
              else Commit(Db(db.balances[u := db.balances[u] + cents],
                             db.wallets[u := w.(reserved := w.reserved - cents)],
                             db.campaigns[c := camp.(reserved := camp.reserved - cents)],
                             db.payouts, db.ledger + [row]))
    ensures Release(db, u, c, raw, now).Commit? ==> ForeignKeys(Release(db, u, c, raw, now).db)
  {
    ForeignKeysKept(db, OpRelease(u, c, raw, now));
    hide ForeignKeys;
    RecordOutcome(db, Row(u, REFUND, Normalize(raw).cents, Some(ReleaseRef(c, now))));
    hide Record;
  }

  lemma SpendOutcome(db: Db, c: CampaignId, raw: int, ref: Ref)
    requires ForeignKeys(db)
    requires Normalize(raw).Cents? && c < |db.campaigns| && db.campaigns[c].owner in db.balances
    requires db.campaigns[c].status == ACTIVE && db.campaigns[c].reserved >= Normalize(raw).cents
    ensures var cents, camp := Normalize(raw).cents, db.campaigns[c];
            var u, w := camp.owner, WalletOf(db, camp.owner);
            Spend(db, c, raw, ref) ==
              if Taken(db.ledger, u, AD_SPEND, Some(ref)) then Rollback(DuplicateTransaction)
              else Commit(Db(db.balances, db.wallets[u := w.(reserved := w.reserved - cents, spent := w.spent + cents)],
                             db.campaigns[c := camp.(reserved := camp.reserved - cents, spent := camp.spent + cents)],
                             db.payouts, db.ledger + [Row(u, AD_SPEND, cents, Some(ref))]))
    ensures Spend(db, c, raw, ref).Commit? ==> ForeignKeys(Spend(db, c, raw, ref).db)
  {
    ForeignKeysKept(db, OpSpend(c, raw, ref));
    hide ForeignKeys;
    RecordOutcome(db, Row(db.campaigns[c].owner, AD_SPEND, Normalize(raw).cents, Some(ref)));
    hide Record;
    assert db.balances[db.campaigns[c].owner := db.balances[db.campaigns[c].owner]] == db.balances;
  }

  lemma RequestOutcome(db: Db, u: UserId, raw: int, key: Option<Ref>)
    requires ForeignKeys(db)
    requires Normalize(raw).Cents? && u in db.balances
    requires MIN_PAYOUT_CENTS <= Normalize(raw).cents <= db.balances[u]
    ensures var cents, w := Normalize(raw).cents, WalletOf(db, u);
            var ref := if key.Some? then key else Some(PayoutRef(|db.payouts|));
            RequestPayout(db, u, raw, key) ==
              if Taken(db.ledger, u, PAYOUT_REQUEST, ref) then Rollback(DuplicateTransaction)
              else Commit(Db(db.balances[u := db.balances[u] - cents],
                             db.wallets[u := w.(reserved := w.reserved + cents)],
                             db.campaigns, db.payouts + [Payout(u, cents, Requested)],
                             db.ledger + [Row(u, PAYOUT_REQUEST, cents, ref)]))
    ensures RequestPayout(db, u, raw, key).Commit? ==> ForeignKeys(RequestPayout(db, u, raw, key).db)
  {
    ForeignKeysKept(db, OpRequestPayout(u, raw, key));
    hide ForeignKeys;
    var ref := if key.Some? then key else Some(PayoutRef(|db.payouts|));
    RecordOutcome(db, Row(u, PAYOUT_REQUEST, Normalize(raw).cents, ref));
    hide Record;
  }

  lemma CompleteOutcome(db: Db, p: PayoutId)
    requires ForeignKeys(db)
    requires p < |db.payouts| && db.payouts[p].Open() && db.payouts[p].owner in db.balances
    ensures var payout, u, w := db.payouts[p], db.payouts[p].owner, WalletOf(db, db.payouts[p].owner);
            var cents := payout.amount;
            Books.CompletePayout(db, p) ==
              if Taken(db.ledger, u, PAYOUT_COMPLETED, Some(PayoutRef(p))) then Rollback(DuplicateTransaction)
              else Commit(Db(db.balances,
                             db.wallets[u := w.(reserved := w.reserved - cents, withdrawn := w.withdrawn + cents)],
                             db.campaigns, db.payouts[p := payout.(status := Completed)],
                             db.ledger + [Row(u, PAYOUT_COMPLETED, cents, Some(PayoutRef(p)))]))
    ensures Books.CompletePayout(db, p).Commit? ==> ForeignKeys(Books.CompletePayout(db, p).db)
  {
    ForeignKeysKept(db, OpCompletePayout(p));
    hide ForeignKeys;
    var u := db.payouts[p].owner;
    RecordOutcome(db, Row(u, PAYOUT_COMPLETED, db.payouts[p].amount, Some(PayoutRef(p))));
    hide Record;
    assert db.balances[u := db.balances[u]] == db.balances;
  }

  lemma FailOutcome(db: Db, p: PayoutId)
    requires ForeignKeys(db)
    requires p < |db.payouts| && db.payouts[p].Open() && db.payouts[p].owner in db.balances
    ensures var payout, u, w := db.payouts[p], db.payouts[p].owner, WalletOf(db, db.payouts[p].owner);
            var cents := payout.amount;
            Books.FailPayout(db, p) ==
              if Taken(db.ledger, u, PAYOUT_FAILED, Some(PayoutRef(p))) then Rollback(DuplicateTransaction)
              else Commit(Db(db.balances[u := db.balances[u] + cents],
                             db.wallets[u := w.(reserved := w.reserved - cents)],
                             db.campaigns, db.payouts[p := payout.(status := Failed)],
                             db.ledger + [Row(u, PAYOUT_FAILED, cents, Some(PayoutRef(p)))]))
    ensures Books.FailPayout(db, p).Commit? ==> ForeignKeys(Books.FailPayout(db, p).db)
  {
    ForeignKeysKept(db, OpFailPayout(p));
    hide ForeignKeys;
    RecordOutcome(db, Row(db.payouts[p].owner, PAYOUT_FAILED, db.payouts[p].amount, Some(PayoutRef(p))));
    hide Record;
  }

  lemma CreditOutcome(db: Db, u: UserId, raw: int, ref: Ref, immediate: bool)
    requires ForeignKeys(db) && Normalize(raw).Cents? && u in db.balances
    ensures var cents, w := Normalize(raw).cents, WalletOf(db, u);
            Credit(db, u, raw, ref, immediate) ==
              if Taken(db.ledger, u, PUBLISHER_EARNING, Some(ref)) then Rollback(DuplicateTransaction)
              else Commit(Db(if immediate then db.balances[u := db.balances[u] + cents] else db.balances,
                             db.wallets[u := w.(earned := w.earned + cents,
                                                pending := if immediate then w.pending else w.pending + cents)],
                             db.campaigns, db.payouts, db.ledger + [Row(u, PUBLISHER_EARNING, cents, Some(ref))]))
    ensures Credit(db, u, raw, ref, immediate).Commit? ==> ForeignKeys(Credit(db, u, raw, ref, immediate).db)
  {
    ForeignKeysKept(db, OpCredit(u, raw, ref, immediate));
    hide ForeignKeys;
    RecordOutcome(db, Row(u, PUBLISHER_EARNING, Normalize(raw).cents, Some(ref)));
    hide Record;
    assert db.balances[u := db.balances[u]] == db.balances;
  }

  class WalletManager {
    var balances: map<UserId, int>
    var wallets: map<UserId, Wallet>
    var campaigns: seq<Campaign>
    var payouts: seq<Payout>
    var ledger: seq<Row>

    function Tables(): Db
      reads this
    {
      Db(balances, wallets, campaigns, payouts, ledger)
    }

    ghost predicate Valid()
      reads this
    {
      ForeignKeys(Tables())
    }

    constructor ()
      ensures Valid() && Tables() == GENESIS
    {
      balances, wallets, campaigns, payouts, ledger := map[], map[], [], [], [];
    }

    /** ROLLBACK: every table gets back the rows it had when the transaction began. */
    method Restore(start: Db)
      modifies this
      ensures Tables() == start
    {
      balances, wallets, campaigns, payouts, ledger :=
        start.balances, start.wallets, start.campaigns, start.payouts, start.ledger;
    }

    method LockOrCreateWallet(u: UserId)
      modifies this`wallets
      ensures wallets == old(wallets)[u := WalletOf(old(Tables()), u)]
    {
      if u !in wallets {
        wallets := wallets[u := EMPTY_WALLET];
      }
    }

    /** Inserts a ledger row unless the unique key is already there. */
    method RecordTransaction(row: Row) returns (recorded: bool)
      modifies this`ledger
      ensures recorded == !Taken(old(ledger), row.user, row.kind, row.ref)
      ensures ledger == if recorded then old(ledger) + [row] else old(ledger)
    {
      recorded := true;
      for i := 0 to |ledger|
        invariant ledger == old(ledger)
        invariant recorded <==> row.ref == None || forall j | 0 <= j < i ::
                                  !(ledger[j].user == row.user && ledger[j].kind == row.kind
                                    && ledger[j].ref == row.ref)
      {
        if row.ref.Some? && ledger[i].user == row.user && ledger[i].kind == row.kind && ledger[i].ref == row.ref {
          recorded := false;
        }
      }
      if recorded {
        ledger := ledger + [row];
      }
    }

    method Deposit(u: UserId, raw: int, ref: Option<Ref>) returns (error: Option<WalletError>)
      requires Valid()
      modifies this
      ensures Valid()
      ensures Settles(old(Tables()), Books.Deposit(old(Tables()), u, raw, ref), Tables(), error)
    {
      var amount := Normalize(raw);
      if amount.Invalid? {
        return Some(amount.error);
      }
      var start := Tables();
      hide ForeignKeys;
      hide Taken;
      if u !in balances {
        return Some(NotFound);
      }
      LockOrCreateWallet(u);
      var recorded := RecordTransaction(Row(u, DEPOSIT, amount.cents, ref));
      if !recorded {
        Restore(start);
        return Some(DuplicateTransaction);
      }
      wallets := wallets[u := wallets[u].(deposited := wallets[u].deposited + amount.cents)];
      balances := balances[u := balances[u] + amount.cents];
      error := None;
      assert wallets == Books.Deposit(start, u, raw, ref).db.wallets;
      ForeignKeysKept(start, OpDeposit(u, raw, ref));
    }

    method ReserveCampaignBudget(u: UserId, c: CampaignId, raw: int, minBalance: nat)
      returns (error: Option<WalletError>)
      requires Valid()
      modifies this
      ensures Valid()
      ensures Settles(old(Tables()), Reserve(old(Tables()), u, c, raw, minBalance), Tables(), error)
    {
      hide Record;
      hide Taken;
      var amount := Normalize(raw);
      if amount.Invalid? {
        return Some(amount.error);
      }
      var cents := amount.cents;
      var start := Tables();
      hide ForeignKeys;
      if u !in balances {
        return Some(NotFound);
      }
      LockOrCreateWallet(u);
      if c >= |campaigns| || campaigns[c].owner != u {
        Restore(start);
        return Some(NotFound);
      }
      var required := if minBalance < cents then cents else minBalance;
      if balances[u] < required {
        Restore(start);
        return Some(InsufficientAvailable);
      }
      ReserveOutcome(start, u, c, raw, minBalance);
      hide Reserve;
      hide WalletOf;
      var recorded := RecordTransaction(Row(u, CAMPAIGN_RESERVATION, cents, Some(CampaignRef(c))));
      if !recorded {
        Restore(start);
        return Some(DuplicateTransaction);
      }
      balances := balances[u := balances[u] - cents];
      wallets := wallets[u := wallets[u].(reserved := wallets[u].reserved + cents)];
      campaigns := campaigns[c := campaigns[c].(reserved := campaigns[c].reserved + cents)];
      error := None;
    }

    method ReleaseCampaignReservation(u: UserId, c: CampaignId, raw: int, now: nat) returns (error: Option<WalletError>)
      requires Valid()
      modifies this
      ensures Valid()
      ensures Settles(old(Tables()), Release(old(Tables()), u, c, raw, now), Tables(), error)
    {
      hide Record;
      var amount := Normalize(raw);
      if amount.Invalid? {
        return Some(amount.error);
      }
      var cents := amount.cents;
      var start := Tables();
      hide ForeignKeys;
      hide Taken;
      if u !in balances {
        return Some(NotFound);
      }
      LockOrCreateWallet(u);
      if c >= |campaigns| || campaigns[c].owner != u {
        Restore(start);
        return Some(NotFound);
      }
      if campaigns[c].reserved < cents {
        Restore(start);
        return Some(ReservationExceedsHeld);
      }
      ReleaseOutcome(start, u, c, raw, now);
      hide Release;
      hide WalletOf;
      var recorded := RecordTransaction(Row(u, REFUND, cents, Some(ReleaseRef(c, now))));
      if !recorded {
        Restore(start);
        return Some(DuplicateTransaction);
      }
      balances := balances[u := balances[u] + cents];
      wallets := wallets[u := wallets[u].(reserved := wallets[u].reserved - cents)];
      campaigns := campaigns[c := campaigns[c].(reserved := campaigns[c].reserved - cents)];
      error := None;
    }

    method RecordCampaignSpend(c: CampaignId, raw: int, ref: Ref) returns (error: Option<WalletError>)
      requires Valid()
      modifies this
      ensures Valid()
      ensures Settles(old(Tables()), Spend(old(Tables()), c, raw, ref), Tables(), error)
    {
      hide Record;
      var amount := Normalize(raw);
      if amount.Invalid? {
        return Some(amount.error);
      }
      var cents := amount.cents;
      var start := Tables();
      assert c < |campaigns| ==> campaigns[c].owner in balances;
      hide ForeignKeys;
      hide Taken;
      if c >= |campaigns| {
        return Some(NotFound);
      }
      var campaign := campaigns[c];
      if campaign.status != ACTIVE {
        return Some(CampaignNotActive);
      }
      var u := campaign.owner;
      LockOrCreateWallet(u);
      if campaign.reserved < cents {
        Restore(start);
        return Some(InsufficientReserved);
      }
      SpendOutcome(start, c, raw, ref);
      hide Spend;
      hide WalletOf;
      var recorded := RecordTransaction(Row(u, AD_SPEND, cents, Some(ref)));
      if !recorded {
        Restore(start);
        return Some(DuplicateTransaction);
      }
      wallets := wallets[u := wallets[u].(reserved := wallets[u].reserved - cents, spent := wallets[u].spent + cents)];
      campaigns := campaigns[c := campaigns[c].(reserved := campaigns[c].reserved - cents,
                                                spent := campaigns[c].spent + cents)];
      error := None;
    }

    method CreditPublisherEarning(u: UserId, raw: int, ref: Ref, immediate: bool) returns (error: Option<WalletError>)
      requires Valid()
      modifies this
      ensures Valid()
      ensures Settles(old(Tables()), Credit(old(Tables()), u, raw, ref, immediate), Tables(), error)
    {
      hide Record;
      var amount := Normalize(raw);
      if amount.Invalid? {
        return Some(amount.error);
      }
      var cents := amount.cents;
      var start := Tables();
      hide ForeignKeys;
      hide Taken;
      if u !in balances {
        return Some(NotFound);
      }
      LockOrCreateWallet(u);
      CreditOutcome(start, u, raw, ref, immediate);
      hide Credit;
      hide WalletOf;
      var recorded := RecordTransaction(Row(u, PUBLISHER_EARNING, cents, Some(ref)));
      if !recorded {
        Restore(start);
        return Some(DuplicateTransaction);
      }
      var w := wallets[u];
      wallets := wallets[u := w.(earned := w.earned + cents,
                                 pending := if immediate then w.pending else w.pending + cents)];
      if immediate {
        balances := balances[u := balances[u] + cents];
      }
      error := None;
    }

    method PromotePendingEarnings(u: UserId, raw: int) returns (error: Option<WalletError>)
      requires Valid()
      modifies this
      ensures Valid()
      ensures Settles(old(Tables()), Promote(old(Tables()), u, raw), Tables(), error)
    {
      var amount := Normalize(raw);
      if amount.Invalid? {
        return Some(amount.error);
      }
      var cents := amount.cents;
      var start := Tables();
      hide ForeignKeys;
      hide Taken;
      if u !in balances {
        return Some(NotFound);
      }
      LockOrCreateWallet(u);
      if wallets[u].pending < cents {
        Restore(start);
        return Some(InsufficientPending);
      }
      wallets := wallets[u := wallets[u].(pending := wallets[u].pending - cents)];
      balances := balances[u := balances[u] + cents];
      error := None;
      assert wallets == Promote(start, u, raw).db.wallets;
      ForeignKeysKept(start, OpPromote(u, raw));
    }

    method HoldPayout(u: UserId, raw: int, key: Option<Ref>) returns (error: Option<WalletError>, created: PayoutId)
      requires Valid()
      modifies this
      ensures Valid()
      ensures Settles(old(Tables()), RequestPayout(old(Tables()), u, raw, key), Tables(), error)
      ensures created == |old(payouts)|
    {
      hide Record;
      hide Taken;
      created := |payouts|;
      var amount := Normalize(raw);
      if amount.Invalid? {
        return Some(amount.error), created;
      }
      var cents := amount.cents;
      if cents < MIN_PAYOUT_CENTS {
        return Some(BelowMinimumPayout), created;
      }
      var start := Tables();
      hide ForeignKeys;
      if u !in balances {
        return Some(NotFound), created;
      }
      LockOrCreateWallet(u);
      if balances[u] < cents {
        Restore(start);
        return Some(InsufficientAvailable), created;
      }
      payouts := payouts + [Payout(u, cents, Requested)];
      balances := balances[u := balances[u] - cents];
      wallets := wallets[u := wallets[u].(reserved := wallets[u].reserved + cents)];
      RequestOutcome(start, u, raw, key);
      hide RequestPayout;
      hide WalletOf;
      var ref := if key.Some? then key else Some(PayoutRef(created));
      var recorded := RecordTransaction(Row(u, PAYOUT_REQUEST, cents, ref));
      if !recorded {
        Restore(start);
        return Some(DuplicateTransaction), created;
      }
      error := None;
    }

    method CompletePayout(p: PayoutId) returns (error: Option<WalletError>)
      requires Valid()
      modifies this
      ensures Valid()
      ensures Settles(old(Tables()), Books.CompletePayout(old(Tables()), p), Tables(), error)
    {
      hide Record;
      var start := Tables();
      if p >= |payouts| {
        return Some(NotFound);
      }
      var payout := payouts[p];
      assert payout.owner in balances;
      hide ForeignKeys;
      hide Taken;
      if payout.status == Completed {
        return None;
      }
      if payout.status == Failed {
        return Some(PayoutAlreadyFailed);
      }
      var u := payout.owner;
      LockOrCreateWallet(u);
      wallets := wallets[u := wallets[u].(reserved := wallets[u].reserved - payout.amount,
                                          withdrawn := wallets[u].withdrawn + payout.amount)];
      CompleteOutcome(start, p);
      hide Books.CompletePayout;
      hide WalletOf;
      var recorded := RecordTransaction(Row(u, PAYOUT_COMPLETED, payout.amount, Some(PayoutRef(p))));
      if !recorded {
        Restore(start);
        return Some(DuplicateTransaction);
      }
      payouts := payouts[p := payout.(status := Completed)];
      error := None;
    }

    method FailPayout(p: PayoutId) returns (error: Option<WalletError>)
      requires Valid()
      modifies this
      ensures Valid()
      ensures Settles(old(Tables()), Books.FailPayout(old(Tables()), p), Tables(), error)
    {
      hide Record;
      var start := Tables();
      if p >= |payouts| {
        return Some(NotFound);
      }
      var payout := payouts[p];
      assert payout.owner in balances;
      hide ForeignKeys;
      hide Taken;
      if payout.status == Completed {
        return Some(PayoutAlreadyCompleted);
      }
      if payout.status == Failed {
        return None;
      }
      var u := payout.owner;
      LockOrCreateWallet(u);
      wallets := wallets[u := wallets[u].(reserved := wallets[u].reserved - payout.amount)];
      balances := balances[u := balances[u] + payout.amount];
      FailOutcome(start, p);
      hide Books.FailPayout;
      hide WalletOf;
      var recorded := RecordTransaction(Row(u, PAYOUT_FAILED, payout.amount, Some(PayoutRef(p))));
      if !recorded {
        Restore(start);
        return Some(DuplicateTransaction);
      }
      payouts := payouts[p := payout.(status := Failed)];
      error := None;
    }

    /** What the payout provider answered; `Processing` is written without looking at the row again. */
    method SubmitToProvider(p: PayoutId, answer: PayoutStatus) returns (error: Option<WalletError>)
      requires Valid()
      modifies this
      ensures Valid()
      ensures Settles(old(Tables()), match answer
                                     case Processing => MarkProcessing(old(Tables()), p)
                                     case Completed => Books.CompletePayout(old(Tables()), p)
                                     case _ => Books.FailPayout(old(Tables()), p),
                      Tables(), error)
    {
      if answer == Processing {
        if p >= |payouts| {
          return Some(NotFound);
        }
        ForeignKeysKept(Tables(), OpMarkProcessing(p));
        payouts := payouts[p := payouts[p].(status := Processing)];
        error := None;
      } else if answer == Completed {
        error := CompletePayout(p);
      } else {
        error := FailPayout(p);
      }
    }
  }
}
