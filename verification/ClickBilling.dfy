/** Billing one click: a charge transaction, then a separate credit transaction. */
module ClickBilling {
  import opened Books
  import opened Fees
  import opened LedgerReplay

  /** The part of a click event that billing reads; `cost` is in millicents. */
  datatype Click = Click(zone: nat, campaign: CampaignId, cost: int)

  /** What stays fixed while a stream is drained: the zones, the fee, and which campaigns its clicks name. */
  datatype Config = Config(zones: map<nat, UserId>, feeBps: nat, campaigns: set<CampaignId>) {
    predicate Valid() {
      feeBps <= FULL_FEE_BPS
    }
  }

  /** The click is worth billing and its zone still exists. */
  predicate Billable(cfg: Config, click: Click) {
    click.cost > 0 && click.zone in cfg.zones
  }

  function Charge(cfg: Config, db: Db, click: Click, id: nat): Outcome {
    if !Billable(cfg, click) then Rollback(NotFound) else Spend(db, click.campaign, click.cost, ClickRef(id))
  }

  /** `creditPublisherShare`: nothing when the share rounds to zero, and never an error to the caller. */
  function CreditShare(feeBps: nat, db: Db, publisher: UserId, raw: nat, ref: Ref): Db
    requires feeBps <= FULL_FEE_BPS
  {
    var share := PublisherShare(raw, feeBps);
    if share == 0 then db
    else
      match Credit(db, publisher, share * MILLICENTS_PER_CENT, ref, false)
      case Commit(d) => d
      case Rollback(_) => db
  }

  function BillClick(cfg: Config, db: Db, click: Click, id: nat): Db
    requires cfg.Valid()
  {
    match Charge(cfg, db, click, id)
    case Rollback(_) => db
    case Commit(d) => CreditShare(cfg.feeBps, d, cfg.zones[click.zone], click.cost, ClickRef(id))
  }

  /** The reference: every click billed once, in id order, with no fault. */
  function BillAll(cfg: Config, db: Db, log: seq<Click>): Db
    requires cfg.Valid()
  {
    if log == [] then db
    else
      var n := |log| - 1;
      BillClick(cfg, BillAll(cfg, db, log[..n]), log[n], n)
  }

  /** Every click names one of the campaigns of the stream. */
  predicate Named(cfg: Config, log: seq<Click>) {
    forall i | 0 <= i < |log| :: log[i].campaign in cfg.campaigns
  }

  // --- the advertiser side ---

  predicate IsClickSpend(row: Row) {
    row.kind == AD_SPEND && row.ref.Some? && row.ref.value.ClickRef?
  }

  function Spends(ledger: seq<Row>): seq<Row> {
    if ledger == [] then []
    else
      var last := ledger[|ledger| - 1];
      Spends(ledger[..|ledger| - 1]) + if IsClickSpend(last) then [last] else []
  }

  lemma SpendsAppend(ledger: seq<Row>, row: Row)
    ensures Spends(ledger + [row]) == Spends(ledger) + if IsClickSpend(row) then [row] else []
  {
    assert (ledger + [row])[..|ledger|] == ledger;
  }

  lemma {:induction false} SpendsContains(ledger: seq<Row>, row: Row)
    ensures row in Spends(ledger) <==> row in ledger && IsClickSpend(row)
  {
    if ledger != [] {
      var n := |ledger| - 1;
      SpendsContains(ledger[..n], row);
      assert ledger == ledger[..n] + [ledger[n]];
    }
  }

  lemma TakenInSpends(ledger: seq<Row>, u: UserId, id: nat)
    ensures Taken(Spends(ledger), u, AD_SPEND, Some(ClickRef(id))) <==> Taken(ledger, u, AD_SPEND, Some(ClickRef(id)))
  {
    var ref := Some(ClickRef(id));
    if Taken(ledger, u, AD_SPEND, ref) {
      var i :| 0 <= i < |ledger| && ledger[i].user == u && ledger[i].kind == AD_SPEND && ledger[i].ref == ref;
      SpendsContains(ledger, ledger[i]);
      var k :| 0 <= k < |Spends(ledger)| && Spends(ledger)[k] == ledger[i];
    }
    if Taken(Spends(ledger), u, AD_SPEND, ref) {
      var k :| 0 <= k < |Spends(ledger)| && Spends(ledger)[k].user == u && Spends(ledger)[k].kind == AD_SPEND
               && Spends(ledger)[k].ref == ref;
      SpendsContains(ledger, Spends(ledger)[k]);
      var i :| 0 <= i < |ledger| && ledger[i] == Spends(ledger)[k];
    }
  }

  /** What billing reads and writes of a campaign. */
  datatype Purse = Purse(owner: UserId, status: CampaignStatus, reserved: int, spent: int)

  /** What the advertisers of the stream see: their campaigns, and the AD_SPEND rows for clicks. */
  datatype View = View(purses: map<CampaignId, Purse>, spends: seq<Row>)

  function PurseOf(c: Campaign): Purse {
    Purse(c.owner, c.status, c.reserved, c.spent)
  }

  function PursesOf(cfg: Config, campaigns: seq<Campaign>): map<CampaignId, Purse> {
    map c | c in cfg.campaigns && c < |campaigns| :: PurseOf(campaigns[c])
  }

  function ViewOf(cfg: Config, db: Db): View {
    View(PursesOf(cfg, db.campaigns), Spends(db.ledger))
  }

  /** The click would be charged now. */
  predicate Chargeable(cfg: Config, v: View, click: Click, id: nat) {
    && Billable(cfg, click)
    && Normalize(click.cost).Cents?
    && click.campaign in v.purses
    && v.purses[click.campaign].status == ACTIVE
    && v.purses[click.campaign].reserved >= Normalize(click.cost).cents
    && !Taken(v.spends, v.purses[click.campaign].owner, AD_SPEND, Some(ClickRef(id)))
  }

  function SpendRow(v: View, click: Click, id: nat): Row
    requires click.campaign in v.purses && Normalize(click.cost).Cents?
  {
    Row(v.purses[click.campaign].owner, AD_SPEND, Normalize(click.cost).cents, Some(ClickRef(id)))
  }

  function Paying(p: Purse, cents: nat): Purse {
    p.(reserved := p.reserved - cents, spent := p.spent + cents)
  }

  function ChargeView(cfg: Config, v: View, click: Click, id: nat): View {
    if !Chargeable(cfg, v, click, id) then v
    else
      View(v.purses[click.campaign := Paying(v.purses[click.campaign], Normalize(click.cost).cents)],
           v.spends + [SpendRow(v, click, id)])
  }

  /** The advertiser side of billing the clicks in `decided` once, in id order. */
  function PassOn(cfg: Config, v: View, log: seq<Click>, decided: set<nat>): View {
    if log == [] then v
    else
      var n := |log| - 1;
      var before := PassOn(cfg, v, log[..n], decided);
      if n in decided then ChargeView(cfg, before, log[n], n) else before
  }

  /** The advertiser side of billing every click once. */
  function Pass(cfg: Config, v: View, log: seq<Click>): View {
    if log == [] then v
    else
      var n := |log| - 1;
      ChargeView(cfg, Pass(cfg, v, log[..n]), log[n], n)
  }

  lemma ChargeSeenInView(cfg: Config, db: Db, click: Click, id: nat)
    requires click.campaign in cfg.campaigns
    ensures Charge(cfg, db, click, id).Commit? <==> Chargeable(cfg, ViewOf(cfg, db), click, id)
    ensures Charge(cfg, db, click, id).Commit? ==>
              && ViewOf(cfg, Charge(cfg, db, click, id).db) == ChargeView(cfg, ViewOf(cfg, db), click, id)
              && Charge(cfg, db, click, id).db.ledger == db.ledger + [SpendRow(ViewOf(cfg, db), click, id)]
  {
    hide MoveBalance;
    hide MoveWallet;
    hide WalletOf;
    if Billable(cfg, click) && Normalize(click.cost).Cents? && click.campaign < |db.campaigns| {
      TakenInSpends(db.ledger, db.campaigns[click.campaign].owner, id);
      SpendsAppend(db.ledger, SpendRow(ViewOf(cfg, db), click, id));
    }
  }

  /** `later` is a view after more charges: nobody gained reserve, nobody changed status, no row went away. */
  ghost predicate Follows(v: View, later: View) {
    && v.purses.Keys == later.purses.Keys
    && (forall c | c in v.purses ::
          && later.purses[c].owner == v.purses[c].owner
          && later.purses[c].status == v.purses[c].status
          && later.purses[c].reserved <= v.purses[c].reserved
          && later.purses[c].spent >= v.purses[c].spent)
    && v.spends <= later.spends
  }

  lemma FollowsBothWays(v: View, w: View)
    requires Follows(v, w) && Follows(w, v)
    ensures v == w
  {
    assert v.purses == w.purses;
  }

  lemma ChargeFollows(cfg: Config, v: View, click: Click, id: nat)
    ensures Follows(v, ChargeView(cfg, v, click, id))
    ensures ChargeView(cfg, v, click, id) == v <==> !Chargeable(cfg, v, click, id)
  {
    if Chargeable(cfg, v, click, id) {
      assert |ChargeView(cfg, v, click, id).spends| == |v.spends| + 1;
    }
  }

  /** A click that could not be charged stays uncharged. */
  lemma RefusalLasts(cfg: Config, v: View, later: View, click: Click, id: nat)
    requires Follows(v, later) && !Chargeable(cfg, v, click, id)
    ensures !Chargeable(cfg, later, click, id)
  {
  }

  /** A click that has been charged is a duplicate for ever after. */
  lemma ChargeHappensOnce(cfg: Config, v: View, later: View, click: Click, id: nat)
    requires Chargeable(cfg, v, click, id) && Follows(ChargeView(cfg, v, click, id), later)
    ensures !Chargeable(cfg, later, click, id)
  {
    var row := SpendRow(v, click, id);
    assert later.spends[|v.spends|] == row;
  }

  /** After a click's turn, charged or not, it cannot be charged. */
  lemma DecidedIsRefused(cfg: Config, v: View, later: View, click: Click, id: nat)
    requires Follows(ChargeView(cfg, v, click, id), later)
    ensures !Chargeable(cfg, later, click, id)
  {
    if Chargeable(cfg, v, click, id) {
      ChargeHappensOnce(cfg, v, later, click, id);
    } else {
      RefusalLasts(cfg, v, later, click, id);
    }
  }

  lemma {:induction false} PassFollows(cfg: Config, v: View, log: seq<Click>, k: nat)
    requires k <= |log|
    ensures Follows(Pass(cfg, v, log[..k]), Pass(cfg, v, log))
  {
    if k == |log| {
      assert log[..k] == log;
    } else {
      var n := |log| - 1;
      assert log[..n][..k] == log[..k];
      PassFollows(cfg, v, log[..n], k);
      ChargeFollows(cfg, Pass(cfg, v, log[..n]), log[n], n);
    }
  }

  /** Key lemma: billing again any click of an already billed prefix changes nothing on the advertiser side. */
  lemma ReplayChangesNothing(cfg: Config, v: View, log: seq<Click>, j: nat)
    requires j < |log|
    ensures !Chargeable(cfg, Pass(cfg, v, log), log[j], j)
  {
    var before := Pass(cfg, v, log[..j]);
    assert log[..j + 1][..j] == log[..j];
    PassFollows(cfg, v, log, j + 1);
    DecidedIsRefused(cfg, before, Pass(cfg, v, log), log[j], j);
  }

  // --- a view is what its rows say ---

  /** The purses after the charges that `rows` record. */
  function Redone(purses: map<CampaignId, Purse>, log: seq<Click>, rows: seq<Row>): map<CampaignId, Purse> {
    if rows == [] then purses
    else
      var last := rows[|rows| - 1];
      var before := Redone(purses, log, rows[..|rows| - 1]);
      if IsClickSpend(last) && last.ref.value.message < |log| && log[last.ref.value.message].campaign in before
      then before[log[last.ref.value.message].campaign := Paying(before[log[last.ref.value.message].campaign],
        last.amount)]
      else before
  }

  /** All rows record clicks of the log. */
  ghost predicate FromLog(log: seq<Click>, rows: seq<Row>) {
    forall i | 0 <= i < |rows| :: IsClickSpend(rows[i]) && rows[i].ref.value.message < |log|
  }

  /** Two logs that agree on the clicks recorded agree on the purses. */
  lemma {:induction false} RedoneOnLongerLog(purses: map<CampaignId, Purse>, log: seq<Click>, longer: seq<Click>,
      rows: seq<Row>)
    requires log <= longer && FromLog(log, rows)
    ensures Redone(purses, longer, rows) == Redone(purses, log, rows)
  {
    if rows != [] {
      RedoneOnLongerLog(purses, log, longer, rows[..|rows| - 1]);
    }
  }

  lemma RedoneOneMore(cfg: Config, v0: View, v: View, log: seq<Click>, id: nat)
    requires id < |log| && Chargeable(cfg, v, log[id], id)
    requires v.purses == Redone(v0.purses, log, v.spends) && FromLog(log, v.spends)
    ensures var after := ChargeView(cfg, v, log[id], id);
            after.purses == Redone(v0.purses, log, after.spends) && FromLog(log, after.spends)
  {
    var row := SpendRow(v, log[id], id);
    assert (v.spends + [row])[..|v.spends|] == v.spends;
  }

  /** The view of a pass is what its rows say, and each row was written at its click's turn. */
  lemma {:induction false} PassIsRedone(cfg: Config, v: View, log: seq<Click>)
    requires v.spends == []
    ensures FromLog(log, Pass(cfg, v, log).spends)
    ensures Pass(cfg, v, log).purses == Redone(v.purses, log, Pass(cfg, v, log).spends)
  {
    if log != [] {
      var n := |log| - 1;
      var before := Pass(cfg, v, log[..n]);
      PassIsRedone(cfg, v, log[..n]);
      RedoneOnLongerLog(v.purses, log[..n], log, before.spends);
      if Chargeable(cfg, before, log[n], n) {
        RedoneOneMore(cfg, v, before, log, n);
      }
    }
  }

  lemma {:induction false} PassRowAt(cfg: Config, v: View, log: seq<Click>, p: nat)
    requires v.spends == [] && p < |Pass(cfg, v, log).spends|
    ensures IsClickSpend(Pass(cfg, v, log).spends[p])
    ensures var id := Pass(cfg, v, log).spends[p].ref.value.message;
            id < |log| && Pass(cfg, v, log[..id]).spends == Pass(cfg, v, log).spends[..p]
  {
    var n := |log| - 1;
    var before := Pass(cfg, v, log[..n]);
    if p < |before.spends| {
      PassRowAt(cfg, v, log[..n], p);
      var id := before.spends[p].ref.value.message;
      assert Pass(cfg, v, log).spends[p] == before.spends[p];
      assert log[..n][..id] == log[..id];
      assert before.spends[..p] == Pass(cfg, v, log).spends[..p];
    } else {
      assert Chargeable(cfg, before, log[n], n);
      assert Pass(cfg, v, log).spends[..p] == before.spends;
    }
  }

  // --- a pass over some of the clicks ---

  lemma {:induction false} PassOnFollows(cfg: Config, v: View, log: seq<Click>, decided: set<nat>, k: nat)
    requires k <= |log|
    ensures Follows(PassOn(cfg, v, log[..k], decided), PassOn(cfg, v, log, decided))
  {
    if k == |log| {
      assert log[..k] == log;
    } else {
      var n := |log| - 1;
      assert log[..n][..k] == log[..k];
      PassOnFollows(cfg, v, log[..n], decided, k);
      ChargeFollows(cfg, PassOn(cfg, v, log[..n], decided), log[n], n);
    }
  }

  /** Nothing later than `j` was charged, or `j` could not be charged at its own turn. */
  ghost predicate FreeAt(cfg: Config, v: View, log: seq<Click>, decided: set<nat>, j: nat)
    requires j < |log|
  {
    || PassOn(cfg, v, log[..j], decided) == PassOn(cfg, v, log, decided)
    || !Chargeable(cfg, PassOn(cfg, v, log[..j], decided), log[j], j)
  }

  /** Deciding one more click that its own turn would refuse changes no part of the pass. */
  lemma {:induction false} DecideRefused(cfg: Config, v: View, log: seq<Click>, decided: set<nat>, k: nat, m: nat)
    requires k < |log| && k !in decided && m <= |log|
    requires !Chargeable(cfg, PassOn(cfg, v, log[..k], decided), log[k], k)
    ensures PassOn(cfg, v, log[..m], decided + {k}) == PassOn(cfg, v, log[..m], decided)
  {
    if m > 0 {
      DecideRefused(cfg, v, log, decided, k, m - 1);
      assert log[..m][..m - 1] == log[..m - 1];
    }
  }

  /** When no later click was charged, nothing of the pass happens after `k`. */
  lemma QuietAfter(cfg: Config, v: View, log: seq<Click>, decided: set<nat>, k: nat, m: nat)
    requires k <= m <= |log| && PassOn(cfg, v, log[..k], decided) == PassOn(cfg, v, log, decided)
    ensures PassOn(cfg, v, log[..m], decided) == PassOn(cfg, v, log[..k], decided)
  {
    PassOnFollows(cfg, v, log, decided, m);
    assert log[..m][..k] == log[..k];
    PassOnFollows(cfg, v, log[..m], decided, k);
    FollowsBothWays(PassOn(cfg, v, log[..m], decided), PassOn(cfg, v, log[..k], decided));
  }

  /** Deciding one more click that is charged, when no later one was: it is
      charged at its turn, and the others are as they were. */
  lemma {:induction false} DecideCharged(cfg: Config, v: View, log: seq<Click>, decided: set<nat>, k: nat, m: nat)
    requires k < |log| && k !in decided && m <= |log|
    requires PassOn(cfg, v, log[..k], decided) == PassOn(cfg, v, log, decided)
    ensures PassOn(cfg, v, log[..m], decided + {k})
         == if m <= k then PassOn(cfg, v, log[..m], decided)
            else ChargeView(cfg, PassOn(cfg, v, log[..k], decided), log[k], k)
  {
    hide Chargeable;
    hide Follows;
    hide ChargeView;
    if m > 0 {
      DecideCharged(cfg, v, log, decided, k, m - 1);
      assert log[..m][..m - 1] == log[..m - 1];
      if m - 1 > k && m - 1 in decided {
        var at := PassOn(cfg, v, log[..k], decided);
        QuietAfter(cfg, v, log, decided, k, m - 1);
        QuietAfter(cfg, v, log, decided, k, m);
        ChargeFollows(cfg, at, log[m - 1], m - 1);
        ChargeFollows(cfg, at, log[k], k);
        RefusalLasts(cfg, at, ChargeView(cfg, at, log[k], k), log[m - 1], m - 1);
        ChargeFollows(cfg, ChargeView(cfg, at, log[k], k), log[m - 1], m - 1);
      }
    }
  }

  /** When every undecided click would be refused at its turn, the pass over the decided ones is the pass over all. */
  lemma {:induction false} UndecidedDoNotMatter(cfg: Config, v: View, log: seq<Click>, decided: set<nat>)
    requires forall j: nat | j < |log| && j !in decided ::
               !Chargeable(cfg, PassOn(cfg, v, log[..j], decided), log[j], j)
    ensures Pass(cfg, v, log) == PassOn(cfg, v, log, decided)
  {
    if log != [] {
      var n := |log| - 1;
      forall j: nat | j < n && j !in decided
        ensures !Chargeable(cfg, PassOn(cfg, v, log[..n][..j], decided), log[..n][j], j)
      {
        assert log[..n][..j] == log[..j];
      }
      UndecidedDoNotMatter(cfg, v, log[..n], decided);
    }
  }

  // --- the publisher side ---

  predicate IsClickCredit(row: Row) {
    row.kind == PUBLISHER_EARNING && row.ref.Some? && row.ref.value.ClickRef?
  }

  /** The publisher rows for clicks. */
  ghost function ClickCredits(ledger: seq<Row>): set<Row> {
    set row | row in ledger && IsClickCredit(row)
  }

  lemma CreditsAppend(ledger: seq<Row>, row: Row)
    ensures ClickCredits(ledger + [row]) == ClickCredits(ledger) + (if IsClickCredit(row) then {row} else {})
  {
  }

  /** Without a credit row for click `id`, its credit is no duplicate. */
  lemma NotYetCredited(ledger: seq<Row>, u: UserId, id: nat)
    requires forall row | row in ClickCredits(ledger) :: row.ref.value.message != id
    ensures !Taken(ledger, u, PUBLISHER_EARNING, Some(ClickRef(id)))
  {
    assert forall i | 0 <= i < |ledger| && IsClickCredit(ledger[i]) :: ledger[i] in ClickCredits(ledger);
  }

  /** The publisher row that belongs to click `j`, when its share is not zero. */
  function CreditRow(cfg: Config, click: Click, j: nat): Row
    requires cfg.Valid() && Billable(cfg, click)
  {
    Row(cfg.zones[click.zone], PUBLISHER_EARNING, PublisherShare(click.cost, cfg.feeBps), Some(ClickRef(j)))
  }

  /** Click `j` of the log has been charged and leaves something for its publisher. */
  predicate Earns(cfg: Config, log: seq<Click>, rows: seq<Row>, j: nat)
    requires cfg.Valid()
  {
    && j < |log| && Billable(cfg, log[j]) && PublisherShare(log[j].cost, cfg.feeBps) > 0
    && exists i | 0 <= i < |rows| :: rows[i].ref == Some(ClickRef(j))
  }

  /** The publisher rows for the charges that `rows` record, without those of the clicks in `missing`. */
  ghost function CreditsFor(cfg: Config, log: seq<Click>, rows: seq<Row>, missing: set<nat>): set<Row>
    requires cfg.Valid()
  {
    set j: nat | j < |log| && Earns(cfg, log, rows, j) && j !in missing :: CreditRow(cfg, log[j], j)
  }

  /** Every zone's publisher is a user. */
  ghost predicate PublishersExist(cfg: Config, db: Db) {
    forall z | z in cfg.zones :: cfg.zones[z] in db.balances
  }

  lemma CreditShareSeen(cfg: Config, db: Db, click: Click, id: nat)
    requires cfg.Valid() && Billable(cfg, click) && PublishersExist(cfg, db)
    requires forall row | row in ClickCredits(db.ledger) :: row.ref.value.message != id
    ensures var after := CreditShare(cfg.feeBps, db, cfg.zones[click.zone], click.cost, ClickRef(id));
            && ViewOf(cfg, after) == ViewOf(cfg, db)
            && ClickCredits(after.ledger) == ClickCredits(db.ledger)
                 + (if PublisherShare(click.cost, cfg.feeBps) > 0 then {CreditRow(cfg, click, id)} else {})
            && after.balances.Keys == db.balances.Keys
  {
    hide MoveBalance;
    hide MoveWallet;
    hide WalletOf;
    hide Spends;
    var share := PublisherShare(click.cost, cfg.feeBps);
    if share > 0 {
      var row := CreditRow(cfg, click, id);
      assert Normalize(share * MILLICENTS_PER_CENT) == Cents(share);
      NotYetCredited(db.ledger, row.user, id);
      CreditsAppend(db.ledger, row);
      SpendsAppend(db.ledger, row);
    }
  }

  lemma CreditShareKeepsForeignKeys(feeBps: nat, db: Db, publisher: UserId, raw: nat, ref: Ref)
    requires feeBps <= FULL_FEE_BPS && ForeignKeys(db)
    ensures ForeignKeys(CreditShare(feeBps, db, publisher, raw, ref))
  {
    ForeignKeysKept(db, OpCredit(publisher, PublisherShare(raw, feeBps) * MILLICENTS_PER_CENT, ref, false));
  }

  /** A charge adds its click to those that earn; leaving it out again gives the credits from before. */
  lemma CreditsForOneMore(cfg: Config, log: seq<Click>, rows: seq<Row>, row: Row, id: nat, missing: set<nat>)
    requires cfg.Valid() && row.ref == Some(ClickRef(id))
    requires forall i | 0 <= i < |rows| :: rows[i].ref != row.ref
    ensures CreditsFor(cfg, log, rows + [row], missing + {id}) == CreditsFor(cfg, log, rows, missing)
  {
    forall j: nat | j != id ensures Earns(cfg, log, rows + [row], j) == Earns(cfg, log, rows, j) {
      if Earns(cfg, log, rows, j) {
        var i :| 0 <= i < |rows| && rows[i].ref == Some(ClickRef(j));
        assert (rows + [row])[i].ref == Some(ClickRef(j));
      }
    }
    assert !Earns(cfg, log, rows, id);
  }

  /** Crediting one of the missing clicks. */
  lemma CreditsForOneLess(cfg: Config, log: seq<Click>, rows: seq<Row>, id: nat, missing: set<nat>)
    requires cfg.Valid() && id < |log| && Billable(cfg, log[id]) && id !in missing
    requires exists i | 0 <= i < |rows| :: rows[i].ref == Some(ClickRef(id))
    ensures CreditsFor(cfg, log, rows, missing)
         == CreditsFor(cfg, log, rows, missing + {id})
            + (if PublisherShare(log[id].cost, cfg.feeBps) > 0 then {CreditRow(cfg, log[id], id)} else {})
  {
    assert Earns(cfg, log, rows, id) <==> PublisherShare(log[id].cost, cfg.feeBps) > 0;
  }

  /** A longer log changes no credits of the charges recorded. */
  lemma CreditsForLongerLog(cfg: Config, log: seq<Click>, longer: seq<Click>, rows: seq<Row>, missing: set<nat>)
    requires cfg.Valid() && log <= longer && FromLog(log, rows)
    ensures CreditsFor(cfg, longer, rows, missing) == CreditsFor(cfg, log, rows, missing)
  {
    forall j: nat ensures Earns(cfg, longer, rows, j) == Earns(cfg, log, rows, j) {
    }
  }

  /** A database before the first click of a stream is billed. */
  ghost predicate NoClickRows(db: Db) {
    Spends(db.ledger) == [] && ClickCredits(db.ledger) == {}
  }

  /** The reference pass does to the advertisers what `Pass` says and credits exactly the charged clicks. */
  lemma {:induction false} BillAllSeen(cfg: Config, db: Db, log: seq<Click>)
    requires cfg.Valid() && PublishersExist(cfg, db) && ForeignKeys(db) && NoClickRows(db) && Named(cfg, log)
    ensures ViewOf(cfg, BillAll(cfg, db, log)) == Pass(cfg, ViewOf(cfg, db), log)
    ensures ClickCredits(BillAll(cfg, db, log).ledger) ==
            CreditsFor(cfg, log, Pass(cfg, ViewOf(cfg, db), log).spends, {})
    ensures PublishersExist(cfg, BillAll(cfg, db, log)) && ForeignKeys(BillAll(cfg, db, log))
  {
    hide Spend;
    hide ForeignKeys;
    if log != [] {
      var n := |log| - 1;
      var before, v := BillAll(cfg, db, log[..n]), ViewOf(cfg, db);
      BillAllSeen(cfg, db, log[..n]);
      PassIsRedone(cfg, v, log[..n]);
      var rows := Pass(cfg, v, log[..n]).spends;
      CreditsForLongerLog(cfg, log[..n], log, rows, {});
      BillOneSeen(cfg, before, log, n, rows);
    }
  }

  /** Billing one more click, on both sides. */
  lemma BillOneSeen(cfg: Config, db: Db, log: seq<Click>, n: nat, rows: seq<Row>)
    requires cfg.Valid() && PublishersExist(cfg, db) && ForeignKeys(db) && n < |log| && log[n].campaign in cfg.campaigns
    requires rows == ViewOf(cfg, db).spends && FromLog(log[..n], rows)
    requires ClickCredits(db.ledger) == CreditsFor(cfg, log, rows, {})
    ensures var after := BillClick(cfg, db, log[n], n);
            && ViewOf(cfg, after) == ChargeView(cfg, ViewOf(cfg, db), log[n], n)
            && ClickCredits(after.ledger) == CreditsFor(cfg, log, ViewOf(cfg, after).spends, {})
            && PublishersExist(cfg, after) && ForeignKeys(after)
  {
    hide Spend;
    ChargeSeenInView(cfg, db, log[n], n);
    if Charge(cfg, db, log[n], n).Commit? {
      ForeignKeysKept(db, OpSpend(log[n].campaign, log[n].cost, ClickRef(n)));
      var d := Charge(cfg, db, log[n], n).db;
      assert d == Next(db, OpSpend(log[n].campaign, log[n].cost, ClickRef(n)));
      hide ForeignKeys;
      var row := SpendRow(ViewOf(cfg, db), log[n], n);
      CreditsAppend(db.ledger, row);
      CreditsForOneMore(cfg, log, rows, row, n, {});
      assert {} + {n} == {n};
      CreditsForOneLess(cfg, log, rows + [row], n, {}) by {
        assert (rows + [row])[|rows|] == row;
      }
      forall r | r in ClickCredits(d.ledger) ensures r.ref.value.message != n {
        assert r in CreditsFor(cfg, log, rows, {});
      }
      CreditShareSeen(cfg, d, log[n], n);
      CreditShareKeepsForeignKeys(cfg.feeBps, d, cfg.zones[log[n].zone], log[n].cost, ClickRef(n));
    }
  }
}
