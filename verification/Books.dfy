/** The rows that hold money, and what each wallet transaction does to them.

  Amounts handed to the wallet are integers in millicents (thousandths of a cent); every
  amount stored in a row is a whole number of cents. A transaction either commits a new
  database or rolls back with an error and leaves the old one.
 */
module Books {
  datatype Option<+T> = None | Some(value: T)

  type UserId = nat
  type CampaignId = nat  // a campaign's position in the campaign table
  type PayoutId = nat    // a payout's position in the payout table

  const MILLICENTS_PER_CENT := 1000
  const MIN_PAYOUT_CENTS := 2000  // MIN_PAYOUT_USD, default 20

  datatype Kind =
    | DEPOSIT
    | CAMPAIGN_RESERVATION
    | AD_SPEND
    | REFUND
    | PUBLISHER_EARNING
    | PAYOUT_REQUEST
    | PAYOUT_COMPLETED
    | PAYOUT_FAILED

  /** The reference ids the callers build; each constructor is one string template. */
  datatype Ref =
    | CampaignRef(campaign: CampaignId)
    | ReleaseRef(campaign: CampaignId, time: nat)
    | ClickRef(message: nat)
    | ConversionRef(click: nat)
    | BatchRef(campaign: CampaignId, batch: nat)
    | UniqueBatchRef(campaign: CampaignId, batch: nat)
    | PayoutRef(payout: PayoutId)
    | PaymentRef(payment: nat)
    | KeyRef(key: string)  // a client's own idempotency key

  /** One immutable ledger row. A wallet belongs to one user, so `user` also names the wallet. */
  datatype Row = Row(user: UserId, kind: Kind, amount: nat, ref: Option<Ref>)

  datatype Wallet = Wallet(reserved: int, pending: int, deposited: int, spent: int, earned: int, withdrawn: int)

  const EMPTY_WALLET := Wallet(0, 0, 0, 0, 0, 0)

  datatype CampaignStatus = DRAFT | PENDING_REVIEW | ACTIVE | PAUSED | COMPLETED | ARCHIVED

  datatype Campaign = Campaign(owner: UserId, status: CampaignStatus, totalBudget: nat, reserved: int, spent: int)

  datatype PayoutStatus = Requested | Processing | Completed | Failed

  datatype Payout = Payout(owner: UserId, amount: nat, status: PayoutStatus) {
    /** The amount is still held in the owner's reserve. */
    predicate Open() {
      status == Requested || status == Processing
    }
  }

  datatype Db = Db(
    balances: map<UserId, int>,
    wallets: map<UserId, Wallet>,
    campaigns: seq<Campaign>,
    payouts: seq<Payout>,
    ledger: seq<Row>)

  const GENESIS := Db(map[], map[], [], [], [])

  datatype WalletError =
    | AmountNotPositive
    | TooManyDecimals
    | BelowMinimumPayout
    | NotFound
    | AlreadyExists
    | InsufficientAvailable
    | ReservationExceedsHeld
    | CampaignNotActive
    | InsufficientReserved
    | InsufficientPending
    | PayoutAlreadyFailed
    | PayoutAlreadyCompleted
    | DuplicateTransaction

  datatype Outcome = Commit(db: Db) | Rollback(error: WalletError)

  datatype Amount = Cents(cents: nat) | Invalid(error: WalletError)

  function Normalize(raw: int): (a: Amount)
    ensures a.Cents? <==> exists c: nat :: c > 0 && raw == c * MILLICENTS_PER_CENT
    ensures a.Cents? ==> a.cents > 0 && raw == a.cents * MILLICENTS_PER_CENT
  {
    if raw <= 0 then Invalid(AmountNotPositive)
    else if raw % MILLICENTS_PER_CENT != 0 then Invalid(TooManyDecimals)
    else
      assert raw == raw / MILLICENTS_PER_CENT * MILLICENTS_PER_CENT;
      Cents(raw / MILLICENTS_PER_CENT)
  }

  function BalanceOf(db: Db, u: UserId): int {
    if u in db.balances then db.balances[u] else 0
  }

  function WalletOf(db: Db, u: UserId): Wallet {
    if u in db.wallets then db.wallets[u] else EMPTY_WALLET
  }

  /** The unique key (walletId, type, referenceId); a missing reference never collides. */
  predicate Taken(ledger: seq<Row>, u: UserId, kind: Kind, ref: Option<Ref>) {
    ref.Some? && exists i | 0 <= i < |ledger| :: ledger[i].user == u && ledger[i].kind == kind && ledger[i].ref == ref
  }

  /** What a ledger row does to the available balance of its user. */
  function MoveBalance(balance: int, row: Row): int {
    match row.kind
    case DEPOSIT => balance + row.amount
    case REFUND => balance + row.amount
    case PAYOUT_FAILED => balance + row.amount
    case CAMPAIGN_RESERVATION => balance - row.amount
    case PAYOUT_REQUEST => balance - row.amount
    case _ => balance
  }

  /** What a ledger row does to the wallet it is written for. */
  function MoveWallet(w: Wallet, row: Row): Wallet {
    match row.kind
    case DEPOSIT => w.(deposited := w.deposited + row.amount)
    case CAMPAIGN_RESERVATION => w.(reserved := w.reserved + row.amount)
    case AD_SPEND => w.(reserved := w.reserved - row.amount, spent := w.spent + row.amount)
    case REFUND => w.(reserved := w.reserved - row.amount)
    case PUBLISHER_EARNING => w.(pending := w.pending + row.amount, earned := w.earned + row.amount)
    case PAYOUT_REQUEST => w.(reserved := w.reserved + row.amount)
    case PAYOUT_COMPLETED => w.(reserved := w.reserved - row.amount, withdrawn := w.withdrawn + row.amount)
    case PAYOUT_FAILED => w.(reserved := w.reserved - row.amount)
  }

  /** The database after appending `row` and moving its amount. */
  function Post(db: Db, row: Row): Db {
    db.(balances := if row.user in db.balances
                    then db.balances[row.user := MoveBalance(db.balances[row.user], row)]
                    else db.balances,
        wallets := db.wallets[row.user := MoveWallet(WalletOf(db, row.user), row)],
        ledger := db.ledger + [row])
  }

  /** The database after `cents` of pending earnings become available; no ledger row is written. */
  function Clear(db: Db, u: UserId, cents: nat): Db {
    var w := WalletOf(db, u);
    db.(balances := db.balances[u := BalanceOf(db, u) + cents],
        wallets := db.wallets[u := w.(pending := w.pending - cents)])
  }

  function Record(db: Db, row: Row): Outcome {
    if Taken(db.ledger, row.user, row.kind, row.ref) then Rollback(DuplicateTransaction) else Commit(Post(db, row))
  }

  function Deposit(db: Db, u: UserId, raw: int, ref: Option<Ref>): Outcome {
    match Normalize(raw)
    case Invalid(e) => Rollback(e)
    case Cents(cents) =>
      if u !in db.balances then Rollback(NotFound)
      else Record(db, Row(u, DEPOSIT, cents, ref))
  }

  function Reserve(db: Db, u: UserId, c: CampaignId, raw: int, minBalance: nat): Outcome {
    match Normalize(raw)
    case Invalid(e) => Rollback(e)
    case Cents(cents) =>
      if u !in db.balances || c >= |db.campaigns| || db.campaigns[c].owner != u then Rollback(NotFound)
      else if BalanceOf(db, u) < minBalance || BalanceOf(db, u) < cents then Rollback(InsufficientAvailable)
      else
        match Record(db, Row(u, CAMPAIGN_RESERVATION, cents, Some(CampaignRef(c))))
        case Rollback(e) => Rollback(e)
        case Commit(d) =>
          var camp := db.campaigns[c];
          Commit(d.(campaigns := d.campaigns[c := camp.(reserved := camp.reserved + cents)]))
  }

  function Release(db: Db, u: UserId, c: CampaignId, raw: int, now: nat): Outcome {
    match Normalize(raw)
    case Invalid(e) => Rollback(e)
    case Cents(cents) =>
      if u !in db.balances || c >= |db.campaigns| || db.campaigns[c].owner != u then Rollback(NotFound)
      else if db.campaigns[c].reserved < cents then Rollback(ReservationExceedsHeld)
      else
        match Record(db, Row(u, REFUND, cents, Some(ReleaseRef(c, now))))
        case Rollback(e) => Rollback(e)
        case Commit(d) =>
          var camp := db.campaigns[c];
          Commit(d.(campaigns := d.campaigns[c := camp.(reserved := camp.reserved - cents)]))
  }

  function Spend(db: Db, c: CampaignId, raw: int, ref: Ref): Outcome {
    match Normalize(raw)
    case Invalid(e) => Rollback(e)
    case Cents(cents) =>
      if c >= |db.campaigns| then Rollback(NotFound)
      else if db.campaigns[c].status != ACTIVE then Rollback(CampaignNotActive)
      else if db.campaigns[c].reserved < cents then Rollback(InsufficientReserved)
      else
        match Record(db, Row(db.campaigns[c].owner, AD_SPEND, cents, Some(ref)))
        case Rollback(e) => Rollback(e)
        case Commit(d) =>
          var camp := db.campaigns[c];
          var after := camp.(reserved := camp.reserved - cents, spent := camp.spent + cents);
          Commit(d.(campaigns := d.campaigns[c := after]))
  }

  function Credit(db: Db, u: UserId, raw: int, ref: Ref, immediate: bool): Outcome {
    match Normalize(raw)
    case Invalid(e) => Rollback(e)
    case Cents(cents) =>
      if u !in db.balances then Rollback(NotFound)
      else
        match Record(db, Row(u, PUBLISHER_EARNING, cents, Some(ref)))
        case Rollback(e) => Rollback(e)
        case Commit(d) => Commit(if immediate then Clear(d, u, cents) else d)
  }

  function Promote(db: Db, u: UserId, raw: int): Outcome {
    match Normalize(raw)
    case Invalid(e) => Rollback(e)
    case Cents(cents) =>
      if u !in db.balances then Rollback(NotFound)
      else if WalletOf(db, u).pending < cents then Rollback(InsufficientPending)
      else Commit(Clear(db, u, cents))
  }

  function RequestPayout(db: Db, u: UserId, raw: int, key: Option<Ref>): Outcome {
    match Normalize(raw)
    case Invalid(e) => Rollback(e)
    case Cents(cents) =>
      if cents < MIN_PAYOUT_CENTS then Rollback(BelowMinimumPayout)
      else if u !in db.balances then Rollback(NotFound)
      else if BalanceOf(db, u) < cents then Rollback(InsufficientAvailable)
      else
        var ref := if key.Some? then key else Some(PayoutRef(|db.payouts|));
        match Record(db, Row(u, PAYOUT_REQUEST, cents, ref))
        case Rollback(e) => Rollback(e)
        case Commit(d) => Commit(d.(payouts := d.payouts + [Payout(u, cents, Requested)]))
  }

  /** The provider accepted the payout: the row is written whatever its status is by then. */
  function MarkProcessing(db: Db, p: PayoutId): Outcome {
    if p >= |db.payouts| then Rollback(NotFound)
    else Commit(db.(payouts := db.payouts[p := db.payouts[p].(status := Processing)]))
  }

  function CompletePayout(db: Db, p: PayoutId): Outcome {
    if p >= |db.payouts| then Rollback(NotFound)
    else
      var payout := db.payouts[p];
      match payout.status
      case Completed => Commit(db)
      case Failed => Rollback(PayoutAlreadyFailed)
      case _ =>
        match Record(db, Row(payout.owner, PAYOUT_COMPLETED, payout.amount, Some(PayoutRef(p))))
        case Rollback(e) => Rollback(e)
        case Commit(d) => Commit(d.(payouts := d.payouts[p := payout.(status := Completed)]))
  }

  function FailPayout(db: Db, p: PayoutId): Outcome {
    if p >= |db.payouts| then Rollback(NotFound)
    else
      var payout := db.payouts[p];
      match payout.status
      case Completed => Rollback(PayoutAlreadyCompleted)
      case Failed => Commit(db)
      case _ =>
        match Record(db, Row(payout.owner, PAYOUT_FAILED, payout.amount, Some(PayoutRef(p))))
        case Rollback(e) => Rollback(e)
        case Commit(d) => Commit(d.(payouts := d.payouts[p := payout.(status := Failed)]))
  }

  /** Everything that writes to the database, one transaction or single-row write each. */
  datatype Op =
    | OpRegister(user: UserId)
    | OpCreateCampaign(user: UserId, budget: nat)
    | OpSetStatus(campaign: CampaignId, status: CampaignStatus)
    | OpSetBudget(campaign: CampaignId, budget: nat)
    | OpDeposit(user: UserId, raw: int, depositRef: Option<Ref>)
    | OpReserve(user: UserId, campaign: CampaignId, raw: int, minBalance: nat)
    | OpRelease(user: UserId, campaign: CampaignId, raw: int, now: nat)
    | OpSpend(campaign: CampaignId, raw: int, ref: Ref)
    | OpCredit(user: UserId, raw: int, ref: Ref, immediate: bool)
    | OpPromote(user: UserId, raw: int)
    | OpRequestPayout(user: UserId, raw: int, key: Option<Ref>)
    | OpMarkProcessing(payout: PayoutId)
    | OpCompletePayout(payout: PayoutId)
    | OpFailPayout(payout: PayoutId)

  function Apply(db: Db, op: Op): Outcome {
    match op
    case OpRegister(u) =>
      if u in db.balances then Rollback(AlreadyExists) else Commit(db.(balances := db.balances[u := 0]))
    case OpCreateCampaign(u, budget) =>
      if u !in db.balances then Rollback(NotFound)
      else Commit(db.(campaigns := db.campaigns + [Campaign(u, PENDING_REVIEW, budget, 0, 0)]))
    case OpSetStatus(c, s) =>
      if c >= |db.campaigns| then Rollback(NotFound)
      else Commit(db.(campaigns := db.campaigns[c := db.campaigns[c].(status := s)]))
    case OpSetBudget(c, budget) =>
      if c >= |db.campaigns| then Rollback(NotFound)
      else Commit(db.(campaigns := db.campaigns[c := db.campaigns[c].(totalBudget := budget)]))
    case OpDeposit(u, raw, ref) => Deposit(db, u, raw, ref)
    case OpReserve(u, c, raw, minBalance) => Reserve(db, u, c, raw, minBalance)
    case OpRelease(u, c, raw, now) => Release(db, u, c, raw, now)
    case OpSpend(c, raw, ref) => Spend(db, c, raw, ref)
    case OpCredit(u, raw, ref, immediate) => Credit(db, u, raw, ref, immediate)
    case OpPromote(u, raw) => Promote(db, u, raw)
    case OpRequestPayout(u, raw, key) => RequestPayout(db, u, raw, key)
    case OpMarkProcessing(p) => MarkProcessing(db, p)
    case OpCompletePayout(p) => CompletePayout(db, p)
    case OpFailPayout(p) => FailPayout(db, p)
  }

  /** A rolled-back transaction leaves the database as it was. */
  function Next(db: Db, op: Op): Db {
    match Apply(db, op)
    case Commit(d) => d
    case Rollback(_) => db
  }

  /** The database after a run of transactions, each of which may commit or roll back. */
  function Exec(db: Db, ops: seq<Op>): Db {
    if ops == [] then db else Next(Exec(db, ops[..|ops| - 1]), ops[|ops| - 1])
  }

  /** The foreign keys: wallets, campaigns, payouts and ledger rows belong to existing users. */
  ghost predicate ForeignKeys(db: Db) {
    && (forall u | u in db.wallets :: u in db.balances)
    && (forall i | 0 <= i < |db.campaigns| :: db.campaigns[i].owner in db.balances)
    && (forall i | 0 <= i < |db.payouts| :: db.payouts[i].owner in db.balances)
    && (forall i | 0 <= i < |db.ledger| :: db.ledger[i].user in db.balances)
  }

  lemma CampaignKeysKept(db: Db, op: Op)
    requires ForeignKeys(db) && (op.OpCreateCampaign? || op.OpReserve? || op.OpRelease? || op.OpSpend?)
    ensures ForeignKeys(Next(db, op)) && db.balances.Keys <= Next(db, op).balances.Keys
  {
  }

  lemma PayoutKeysKept(db: Db, op: Op)
    requires ForeignKeys(db)
             && (op.OpRequestPayout? || op.OpMarkProcessing? || op.OpCompletePayout? || op.OpFailPayout?)
    ensures ForeignKeys(Next(db, op)) && db.balances.Keys <= Next(db, op).balances.Keys
  {
  }

  lemma UserKeysKept(db: Db, op: Op)
    requires ForeignKeys(db)
    requires op.OpRegister? || op.OpSetStatus? || op.OpSetBudget? || op.OpDeposit? || op.OpCredit? || op.OpPromote?
    ensures ForeignKeys(Next(db, op)) && db.balances.Keys <= Next(db, op).balances.Keys
  {
  }

  lemma ForeignKeysKept(db: Db, op: Op)
    requires ForeignKeys(db)
    ensures ForeignKeys(Next(db, op))
    ensures db.balances.Keys <= Next(db, op).balances.Keys
  {
    hide Next;
    hide ForeignKeys;
    if op.OpCreateCampaign? || op.OpReserve? || op.OpRelease? || op.OpSpend? {
      CampaignKeysKept(db, op);
    } else if op.OpRequestPayout? || op.OpMarkProcessing? || op.OpCompletePayout? || op.OpFailPayout? {
      PayoutKeysKept(db, op);
    } else {
      UserKeysKept(db, op);
    }
  }
}
