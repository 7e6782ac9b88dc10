/** A campaign never spends more than was reserved for it when it was approved. */
module CampaignBudget {
  import opened Books
  import opened LedgerReplay

  predicate ReservesFor(row: Row, c: CampaignId) {
    row.kind == CAMPAIGN_RESERVATION && row.ref == Some(CampaignRef(c))
  }

  predicate ReleasesFor(row: Row, c: CampaignId) {
    row.kind == REFUND && row.ref.Some? && row.ref.value.ReleaseRef? && row.ref.value.campaign == c
  }

  /** What the ledger says was reserved for campaign `c`. */
  function ReservedFor(ledger: seq<Row>, c: CampaignId): nat {
    if ledger == [] then 0
    else
      var last := ledger[|ledger| - 1];
      ReservedFor(ledger[..|ledger| - 1], c) + if ReservesFor(last, c) then last.amount else 0
  }

  /** What the ledger says was given back from campaign `c`. */
  function ReleasedFor(ledger: seq<Row>, c: CampaignId): nat {
    if ledger == [] then 0
    else
      var last := ledger[|ledger| - 1];
      ReleasedFor(ledger[..|ledger| - 1], c) + if ReleasesFor(last, c) then last.amount else 0
  }

  lemma SumsAppend(ledger: seq<Row>, row: Row, c: CampaignId)
    ensures ReservedFor(ledger + [row], c) == ReservedFor(ledger, c) + if ReservesFor(row, c) then row.amount else 0
    ensures ReleasedFor(ledger + [row], c) == ReleasedFor(ledger, c) + if ReleasesFor(row, c) then row.amount else 0
  {
    assert (ledger + [row])[..|ledger|] == ledger;
  }

  /** With one reservation row, the reserved sum is that row's amount. */
  lemma {:induction false} OneReservationIsTheSum(ledger: seq<Row>, c: CampaignId, i: nat)
    requires i < |ledger| && ReservesFor(ledger[i], c) && Count(ledger, CAMPAIGN_RESERVATION, CampaignRef(c)) <= 1
    ensures ReservedFor(ledger, c) == ledger[i].amount
  {
    var n := |ledger| - 1;
    if i == n {
      CountZero(ledger[..n], CAMPAIGN_RESERVATION, CampaignRef(c));
      NothingReserved(ledger[..n], c);
    } else {
      assert ledger[..n][i] == ledger[i];
      CountZero(ledger[..n], CAMPAIGN_RESERVATION, CampaignRef(c));
      OneReservationIsTheSum(ledger[..n], c, i);
    }
  }

  lemma {:induction false} NothingReserved(ledger: seq<Row>, c: CampaignId)
    requires forall i | 0 <= i < |ledger| :: !ReservesFor(ledger[i], c)
    ensures ReservedFor(ledger, c) == 0
  {
    if ledger != [] {
      NothingReserved(ledger[..|ledger| - 1], c);
    }
  }

  lemma {:induction false} NothingReleased(ledger: seq<Row>, c: CampaignId)
    requires forall i | 0 <= i < |ledger| :: !ReleasesFor(ledger[i], c)
    ensures ReleasedFor(ledger, c) == 0
  {
    if ledger != [] {
      NothingReleased(ledger[..|ledger| - 1], c);
    }
  }

  /** Reservation and release rows name an existing campaign, and a reservation sits in its owner's wallet. */
  ghost predicate CampaignRowsGenuine(db: Db) {
    forall i | 0 <= i < |db.ledger| ::
      && (db.ledger[i].kind == CAMPAIGN_RESERVATION ==>
          && db.ledger[i].ref.Some? && db.ledger[i].ref.value.CampaignRef?
          && db.ledger[i].ref.value.campaign < |db.campaigns|
          && db.ledger[i].user == db.campaigns[db.ledger[i].ref.value.campaign].owner)
      && (db.ledger[i].kind == REFUND ==>
          && db.ledger[i].ref.Some? && db.ledger[i].ref.value.ReleaseRef?
          && db.ledger[i].ref.value.campaign < |db.campaigns|)
  }

  lemma StepKeepsRowsGenuine(db: Db, op: Op)
    requires CampaignRowsGenuine(db)
    ensures CampaignRowsGenuine(Next(db, op))
  {
  }

  /** Held, spent and released money of campaign `c` add up to what was reserved, once. */
  ghost predicate BudgetKept(db: Db, c: CampaignId) {
    && Count(db.ledger, CAMPAIGN_RESERVATION, CampaignRef(c)) <= 1
    && (c < |db.campaigns| ==>
        && db.campaigns[c].reserved >= 0 && db.campaigns[c].spent >= 0
        && db.campaigns[c].reserved + db.campaigns[c].spent + ReleasedFor(db.ledger, c) == ReservedFor(db.ledger, c))
  }

  /** How campaign `c` may change in a step that appends `row`, or no row: only its own rows touch its money. */
  ghost predicate MovedBy(before: Campaign, after: Campaign, row: Option<Row>, c: CampaignId) {
    match row
    case None => after.reserved == before.reserved && after.spent == before.spent
    case Some(r) =>
      if ReservesFor(r, c) then after.reserved == before.reserved + r.amount && after.spent == before.spent
      else if ReleasesFor(r, c) then
        0 <= after.reserved == before.reserved - r.amount && after.spent == before.spent
      else
        && after.reserved + after.spent == before.reserved + before.spent
        && (after.reserved != before.reserved ==> 0 <= after.reserved < before.reserved)
  }

  lemma StepOnCampaign(db: Db, op: Op, c: CampaignId)
    ensures c < |db.campaigns| ==>
              c < |Next(db, op).campaigns| && MovedBy(db.campaigns[c], Next(db, op).campaigns[c], RowOf(db, op), c)
    ensures |db.campaigns| <= c < |Next(db, op).campaigns| ==>
              RowOf(db, op) == None && Next(db, op).campaigns[c].reserved == Next(db, op).campaigns[c].spent == 0
  {
  }

  /** The two sums follow the campaign when a row is appended. */
  lemma RowKeepsBudget(db: Db, after: Db, row: Row, c: CampaignId)
    requires BudgetKept(db, c) && CampaignRowsGenuine(db) && CampaignRowsGenuine(after)
    requires after.ledger == db.ledger + [row] && !Taken(db.ledger, row.user, row.kind, row.ref)
    requires |after.campaigns| == |db.campaigns|
    requires forall i | 0 <= i < |db.campaigns| :: after.campaigns[i].owner == db.campaigns[i].owner
    requires c < |db.campaigns| ==> MovedBy(db.campaigns[c], after.campaigns[c], Some(row), c)
    ensures BudgetKept(after, c)
  {
    CountAppend(db.ledger, row, CAMPAIGN_RESERVATION, CampaignRef(c));
    SumsAppend(db.ledger, row, c);
    if ReservesFor(row, c) {
      assert after.ledger[|db.ledger|] == row;
      CountZero(db.ledger, CAMPAIGN_RESERVATION, CampaignRef(c));
    }
  }

  lemma StepKeepsOwners(db: Db, op: Op)
    ensures |db.campaigns| <= |Next(db, op).campaigns|
    ensures RowOf(db, op).Some? ==> |Next(db, op).campaigns| == |db.campaigns|
    ensures forall i | 0 <= i < |db.campaigns| :: Next(db, op).campaigns[i].owner == db.campaigns[i].owner
  {
  }

  lemma NewCampaignHasNothing(db: Db, c: CampaignId)
    requires CampaignRowsGenuine(db) && c >= |db.campaigns|
    ensures ReservedFor(db.ledger, c) == 0 && ReleasedFor(db.ledger, c) == 0
  {
    NothingReserved(db.ledger, c);
    NothingReleased(db.ledger, c);
  }

  lemma StepKeepsBudget(db: Db, op: Op, c: CampaignId)
    requires ForeignKeys(db) && CampaignRowsGenuine(db) && BudgetKept(db, c)
    ensures BudgetKept(Next(db, op), c)
  {
    var after, row := Next(db, op), RowOf(db, op);
    FundsOnlyMoveByPosting(db, op, 0);
    StepKeepsRowsGenuine(db, op);
    StepOnCampaign(db, op, c);
    StepKeepsOwners(db, op);
    if row.Some? {
      RowKeepsBudget(db, after, row.value, c);
    } else if c >= |db.campaigns| {
      NewCampaignHasNothing(db, c);
    }
  }

  lemma {:induction false} EveryRunKeepsBudgets(ops: seq<Op>, c: CampaignId)
    ensures CampaignRowsGenuine(Exec(GENESIS, ops)) && BudgetKept(Exec(GENESIS, ops), c)
  {
    if ops != [] {
      var init := Exec(GENESIS, ops[..|ops| - 1]);
      EveryRunKeepsBudgets(ops[..|ops| - 1], c);
      RunKeepsForeignKeys(ops[..|ops| - 1]);
      StepKeepsRowsGenuine(init, ops[|ops| - 1]);
      StepKeepsBudget(init, ops[|ops| - 1], c);
    }
  }

  /** Main result: whatever happens, a campaign's spend stays within the one amount reserved at its approval. */
  lemma SpendStaysWithinReservation(ops: seq<Op>, c: CampaignId, i: nat)
    requires var db := Exec(GENESIS, ops);
             c < |db.campaigns| && i < |db.ledger| && ReservesFor(db.ledger[i], c)
    ensures var db := Exec(GENESIS, ops);
            && (forall j | 0 <= j < |db.ledger| && ReservesFor(db.ledger[j], c) :: j == i)
            && db.campaigns[c].spent + db.campaigns[c].reserved + ReleasedFor(db.ledger, c) == db.ledger[i].amount
            && db.campaigns[c].spent <= db.ledger[i].amount
  {
    var db := Exec(GENESIS, ops);
    EveryRunKeepsBudgets(ops, c);
    OneReservationIsTheSum(db.ledger, c, i);
    LedgerIsAppendOnly(ops, 0);
  }

  /** A campaign for which nothing was reserved has spent nothing and holds nothing. */
  lemma NoReservationNoSpend(ops: seq<Op>, c: CampaignId)
    requires c < |Exec(GENESIS, ops).campaigns|
    requires forall j | 0 <= j < |Exec(GENESIS, ops).ledger| :: !ReservesFor(Exec(GENESIS, ops).ledger[j], c)
    ensures Exec(GENESIS, ops).campaigns[c].spent == 0 && Exec(GENESIS, ops).campaigns[c].reserved == 0
  {
    EveryRunKeepsBudgets(ops, c);
    NothingReserved(Exec(GENESIS, ops).ledger, c);
  }
}
