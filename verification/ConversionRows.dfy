/** Which rows a conversion gets: exactly when it is charged, and exactly when its publisher is credited. */
module ConversionRows {
  import opened Books
  import opened LedgerReplay
  import opened Accounts
  import opened Transactions
  import opened HeldEarnings
  import opened Conversions
  import opened Fees

  /** The campaign of click `k` is active and holds the bid, which is a positive whole number of cents. */
  predicate CanPay(w: World, k: nat, bid: int) {
    && k < |w.clicks| && w.clicks[k].campaign < |w.db.campaigns| && WholeCents(bid)
    && w.db.campaigns[w.clicks[k].campaign].status == ACTIVE
    && w.db.campaigns[w.clicks[k].campaign].reserved >= bid / 1000
  }

  /** The step charges conversion `k`: it has been claimed, its bid and zone are there, and the campaign can pay. */
  predicate Charges(w: World, step: Step, k: nat) {
    && step.Charge? && step.click == k && k in w.tasks && w.tasks[k].Claimed?
    && step.publisher.Some? && step.maxCpa.Some? && CanPay(w, k, step.maxCpa.value)
  }

  /** The step credits conversion `k`: it has been charged, its publisher exists, and the share is not nothing. */
  predicate Credits(w: World, step: Step, k: nat) {
    && step.Credit? && step.click == k && step.feeBps <= 10_000 && k in w.tasks && w.tasks[k].ChargedFor?
    && w.tasks[k].publisher in w.db.balances && !IsNearestCent(w.tasks[k].cents * 1000, step.feeBps, 0)
  }

  lemma NoChargeRowIsFree(db: Db, u: UserId, ref: Ref)
    requires Count(db.ledger, AD_SPEND, ref) == 0
    ensures Free(db, u, AD_SPEND, Some(ref))
  {
    CountZero(db.ledger, AD_SPEND, ref);
  }

  /** A charge step takes the whole bid from the campaign's reserve and goes on to the publisher, or ends the
      conversion's billing and changes nothing. */
  lemma ChargeDoes(w: World, step: Step, k: nat)
    requires Billed(w, k) && step.Charge? && step.click == k && k in w.tasks && w.tasks[k].Claimed?
    ensures var after := Do(w, step);
            if Charges(w, step, k) then
              var c, cents := w.clicks[k].campaign, step.maxCpa.value / 1000;
              && after.db.ledger ==
                   w.db.ledger + [Row(w.db.campaigns[c].owner, AD_SPEND, cents, Some(ConversionRef(k)))]
              && after.db.campaigns[c].reserved == w.db.campaigns[c].reserved - cents
              && k in after.tasks && after.tasks[k] == ChargedFor(step.publisher.value, cents)
            else after.db == w.db && (k < |w.clicks| ==> k !in after.tasks)
  {
    if k < |w.clicks| && step.maxCpa.Some? {
      var c := w.clicks[k].campaign;
      SpendDoes(w.db, c, step.maxCpa.value, ConversionRef(k));
      if c < |w.db.campaigns| {
        NoChargeRowIsFree(w.db, w.db.campaigns[c].owner, ConversionRef(k));
      }
    }
    hide Spend;
    hide Free;
  }

  /** A credit step adds the nearest cent of the charge to what the publisher has pending, or changes nothing; either
      way the conversion's billing is over. */
  lemma CreditDoesOrEnds(w: World, step: Step, k: nat)
    requires Billed(w, k) && step.Credit? && step.click == k && step.feeBps <= 10_000
    requires k in w.tasks && w.tasks[k].ChargedFor?
    ensures var after, task := Do(w, step), w.tasks[k];
            && k !in after.tasks
            && if Credits(w, step, k)
               then HoldsShare(w.db, after.db, task.publisher, task.cents * 1000, step.feeBps, ConversionRef(k))
               else after.db == w.db
  {
    var raw, publisher := w.tasks[k].cents * 1000, w.tasks[k].publisher;
    if k < |w.clicks| && w.clicks[k].converted {
      NoCreditRowIsFree(w.db, publisher, ConversionRef(k));
    }
    ShareIsTheNearestCent(raw, step.feeBps, 0);
    CreditShareHolds(step.feeBps, w.db, publisher, raw, ConversionRef(k));
    var share := PublisherShare(raw, step.feeBps);
    if share > 0 {
      Transactions.CreditDoes(w.db, publisher, share * MILLICENTS_PER_CENT, ConversionRef(k), false);
    }
    hide Books.Credit;
    hide HoldsShare;
    hide Free;
    hide PublisherShare;
    hide IsNearestCent;
  }

  // --- every run ---

  predicate ChargesAt(db: Db, steps: seq<Step>, j: int, k: nat) {
    0 <= j < |steps| && Charges(Run(Start(db), steps[..j]), steps[j], k)
  }

  predicate CreditsAt(db: Db, steps: seq<Step>, j: int, k: nat) {
    0 <= j < |steps| && Credits(Run(Start(db), steps[..j]), steps[j], k)
  }

  /** What one step adds to the ledger: at most one row. */
  lemma StepAppends(w: World, step: Step)
    ensures Do(w, step).db.ledger == w.db.ledger
            || exists row :: Do(w, step).db.ledger == w.db.ledger + [row]
  {
    match step
    case Charge(k, publisher, maxCpa) =>
      if k < |w.clicks| && maxCpa.Some? && Spend(w.db, w.clicks[k].campaign, maxCpa.value, ConversionRef(k)).Commit? {
        SpendRowOf(w.db, w.clicks[k].campaign, maxCpa.value, ConversionRef(k));
      }
      hide Spend;
    case Credit(k, feeBps) =>
      if k in w.tasks && w.tasks[k].ChargedFor? && feeBps <= 10_000 {
        var share := PublisherShare(w.tasks[k].cents * MILLICENTS_PER_CENT, feeBps);
        if share > 0 {
          CreditRowOf(w.db, w.tasks[k].publisher, share, ConversionRef(k));
        }
      }
      hide PublisherShare;
    case Other(op) =>
      if LeavesAlone(Accounts.Conversions, op) {
        OtherRow(Accounts.Conversions, w.db, op);
      }
    case _ =>
  }

  lemma CountsOfCharge(w: World, step: Step, k: nat)
    requires Billed(w, k) && step.Charge?
    ensures var before := AccountOf(w.db.ledger, ConversionRef(k));
            var after := AccountOf(Do(w, step).db.ledger, ConversionRef(k));
            && after.charges == before.charges + (if Charges(w, step, k) then 1 else 0)
            && after.credits == before.credits
  {
    var j := step.click;
    if j in w.tasks && j < |w.clicks| && w.tasks[j].Claimed? && step.maxCpa.Some? {
      if j == k {
        ChargeDoes(w, step, k);
      }
      var c, raw := w.clicks[j].campaign, step.maxCpa.value;
      if Spend(w.db, c, raw, ConversionRef(j)).Commit? {
        SpendRowOf(w.db, c, raw, ConversionRef(j));
        var row := Row(w.db.campaigns[c].owner, AD_SPEND, Normalize(raw).cents, Some(ConversionRef(j)));
        AccountAppend(w.db.ledger, row, ConversionRef(k));
      }
    }
    hide Spend;
  }

  lemma CountsOfCredit(w: World, step: Step, k: nat)
    requires Billed(w, k) && step.Credit?
    ensures var before := AccountOf(w.db.ledger, ConversionRef(k));
            var after := AccountOf(Do(w, step).db.ledger, ConversionRef(k));
            && after.charges == before.charges
            && after.credits == before.credits + (if Credits(w, step, k) then 1 else 0)
  {
    var j := step.click;
    if j in w.tasks && w.tasks[j].ChargedFor? && step.feeBps <= 10_000 {
      var raw, publisher := w.tasks[j].cents * 1000, w.tasks[j].publisher;
      var share := PublisherShare(raw, step.feeBps);
      ShareIsTheNearestCent(raw, step.feeBps, 0);
      if j == k {
        CreditDoesOrEnds(w, step, k);
        NoCreditRowIsFree(w.db, publisher, ConversionRef(k));
        CreditHoldsCents(w.db, publisher, share, ConversionRef(k));
      }
      if share > 0 {
        CreditRowOf(w.db, publisher, share, ConversionRef(j));
        AccountAppend(w.db.ledger, Row(publisher, PUBLISHER_EARNING, share, Some(ConversionRef(j))), ConversionRef(k));
      }
    }
  }

  lemma StepCounts(w: World, step: Step, k: nat)
    requires Billed(w, k)
    ensures var before := AccountOf(w.db.ledger, ConversionRef(k));
            var after := AccountOf(Do(w, step).db.ledger, ConversionRef(k));
            && after.charges == before.charges + (if Charges(w, step, k) then 1 else 0)
            && after.credits == before.credits + (if Credits(w, step, k) then 1 else 0)
  {
    match step
    case Charge(_, _, _) => CountsOfCharge(w, step, k);
    case Credit(_, _) => CountsOfCredit(w, step, k);
    case Other(op) =>
      if LeavesAlone(Accounts.Conversions, op) {
        OtherKeepsAccount(Accounts.Conversions, w.db, op, k);
      }
    case _ =>
  }

  ghost predicate WasCharged(db: Db, steps: seq<Step>, k: nat) {
    exists j :: ChargesAt(db, steps, j, k)
  }

  ghost predicate WasCredited(db: Db, steps: seq<Step>, k: nat) {
    exists j :: CreditsAt(db, steps, j, k)
  }

  lemma AtInPrefix(db: Db, steps: seq<Step>, n: nat, j: int, k: nat)
    requires j < n <= |steps|
    ensures ChargesAt(db, steps[..n], j, k) == ChargesAt(db, steps, j, k)
    ensures CreditsAt(db, steps[..n], j, k) == CreditsAt(db, steps, j, k)
  {
    hide Charges;
    hide Credits;
    if 0 <= j {
      assert steps[..n][..j] == steps[..j];
    }
  }

  lemma AtTheEnd(db: Db, steps: seq<Step>, j: int, k: nat)
    requires steps != [] && j >= |steps| - 1
    ensures var n, before := |steps| - 1, Run(Start(db), steps[..|steps| - 1]);
            && Run(Start(db), steps) == Do(before, steps[n])
            && ChargesAt(db, steps, j, k) == (j == n && Charges(before, steps[n], k))
            && CreditsAt(db, steps, j, k) == (j == n && Credits(before, steps[n], k))
            && !ChargesAt(db, steps[..n], j, k) && !CreditsAt(db, steps[..n], j, k)
  {
    hide Charges;
    hide Credits;
    hide Do;
  }

  lemma WasOneMore(db: Db, steps: seq<Step>, k: nat)
    requires steps != []
    ensures var n := |steps| - 1;
            var before := Run(Start(db), steps[..n]);
            && Run(Start(db), steps) == Do(before, steps[n])
            && (WasCharged(db, steps, k) <==> WasCharged(db, steps[..n], k) || Charges(before, steps[n], k))
            && (WasCredited(db, steps, k) <==> WasCredited(db, steps[..n], k) || Credits(before, steps[n], k))
  {
    hide ChargesAt;
    hide CreditsAt;
    hide Charges;
    hide Credits;
    hide Run;
    hide Do;
    var n := |steps| - 1;
    AtTheEnd(db, steps, n, k);
    forall j
      ensures j < n ==> ChargesAt(db, steps[..n], j, k) == ChargesAt(db, steps, j, k)
      ensures j < n ==> CreditsAt(db, steps[..n], j, k) == CreditsAt(db, steps, j, k)
      ensures j > n ==> !ChargesAt(db, steps, j, k) && !CreditsAt(db, steps, j, k)
      ensures j >= n ==> !ChargesAt(db, steps[..n], j, k) && !CreditsAt(db, steps[..n], j, k)
    {
      if j < n {
        AtInPrefix(db, steps, n, j, k);
      } else {
        AtTheEnd(db, steps, j, k);
      }
    }
  }

  /** Main result: in every run conversion `k` has one charge row if some step charged it and none otherwise, and one
      credit row if some step credited it and none otherwise. */
  lemma {:induction false} RowsOfEveryConversion(db: Db, steps: seq<Step>, k: nat)
    requires NoneYet(Accounts.Conversions, db)
    ensures var a := AccountOf(Run(Start(db), steps).db.ledger, ConversionRef(k));
            && a.charges <= 1 && (a.charges == 1 <==> WasCharged(db, steps, k))
            && a.credits <= 1 && (a.credits == 1 <==> WasCredited(db, steps, k))
  {
    EveryConversionInOrder(db, steps, k);
    if steps == [] {
      EmptyAccount(Accounts.Conversions, db.ledger, k);
    } else {
      hide Run;
      hide Do;
      hide AccountOf;
      hide NoneYet;
      hide Billed;
      hide Charges;
      hide Credits;
      hide WasCharged;
      hide WasCredited;
      var n := |steps| - 1;
      RowsOfEveryConversion(db, steps[..n], k);
      EveryConversionBilled(db, steps[..n], k);
      StepCounts(Run(Start(db), steps[..n]), steps[n], k);
      WasOneMore(db, steps, k);
    }
  }

  lemma {:induction false} RowStays(db: Db, steps: seq<Step>, j: nat, row: Row)
    requires j <= |steps| && row in Run(Start(db), steps[..j]).db.ledger
    ensures row in Run(Start(db), steps).db.ledger
  {
    if j == |steps| {
      assert steps[..j] == steps;
    } else {
      var n := |steps| - 1;
      assert steps[..n][..j] == steps[..j];
      RowStays(db, steps[..n], j, row);
      StepAppends(Run(Start(db), steps[..n]), steps[n]);
      hide Do;
    }
  }

  /** Main result: the charge row is for the whole bid, in the wallet of the campaign's owner. */
  lemma RowOfTheCharge(db: Db, steps: seq<Step>, j: nat, k: nat)
    requires NoneYet(Accounts.Conversions, db) && ChargesAt(db, steps, j, k)
    ensures var w := Run(Start(db), steps[..j]);
            var owner, cents := w.db.campaigns[w.clicks[k].campaign].owner, steps[j].maxCpa.value / 1000;
            Row(owner, AD_SPEND, cents, Some(ConversionRef(k))) in Run(Start(db), steps).db.ledger
  {
    var w := Run(Start(db), steps[..j]);
    EveryConversionBilled(db, steps[..j], k);
    assert steps[..j + 1][..j] == steps[..j];
    ChargeDoes(w, steps[j], k);
    var owner := w.db.campaigns[w.clicks[k].campaign].owner;
    var row := Row(owner, AD_SPEND, steps[j].maxCpa.value / 1000, Some(ConversionRef(k)));
    assert Do(w, steps[j]).db.ledger == w.db.ledger + [row];
    assert Run(Start(db), steps[..j + 1]) == Do(w, steps[j]);
    RowStays(db, steps, j + 1, row);
  }

  /** Main result: the credit row is for the nearest cent of the charge, to the publisher that the zone named when the
      conversion was charged. */
  lemma RowOfTheCredit(db: Db, steps: seq<Step>, j: nat, k: nat) returns (cents: nat)
    requires NoneYet(Accounts.Conversions, db) && CreditsAt(db, steps, j, k)
    ensures var task := Run(Start(db), steps[..j]).tasks[k];
            && IsNearestCent(task.cents * 1000, steps[j].feeBps, cents)
            && Row(task.publisher, PUBLISHER_EARNING, cents, Some(ConversionRef(k))) in Run(Start(db), steps).db.ledger
  {
    hide IsNearestCent;
    var w := Run(Start(db), steps[..j]);
    EveryConversionBilled(db, steps[..j], k);
    assert steps[..j + 1][..j] == steps[..j];
    CreditDoesOrEnds(w, steps[j], k);
    hide Moves;
    var task, after := w.tasks[k], Do(w, steps[j]);
    cents :| IsNearestCent(task.cents * 1000, steps[j].feeBps, cents)
             && HoldsCents(w.db, after.db, task.publisher, cents, ConversionRef(k));
    var row := Row(task.publisher, PUBLISHER_EARNING, cents, Some(ConversionRef(k)));
    assert cents > 0 && after.db.ledger == w.db.ledger + [row];
    assert Run(Start(db), steps[..j + 1]) == after;
    RowStays(db, steps, j + 1, row);
  }

  // --- one conversion from its click to its credit ---

  /** An active campaign with fifty dollars, and a publisher. */
  const SHOP := Db(map[0 := 0, 1 := 0], map[0 := EMPTY_WALLET.(reserved := 5000)],
                   [Campaign(0, ACTIVE, 5000, 5000, 0)], [], [])

  /** A bid of ten dollars, at a fee of twenty percent. */
  const ONE_CONVERSION: seq<Step> := [RecordClick(0, 0), Claim(0), Charge(0, Some(1), Some(1_000_000)), Credit(0, 2000)]

  /** The advertiser pays ten dollars, and the publisher has eight dollars pending and nothing available. */
  lemma OneConversion()
    ensures NoneYet(Accounts.Conversions, SHOP)
    ensures var db := Run(Start(SHOP), ONE_CONVERSION).db;
            && db.ledger == [Row(0, AD_SPEND, 1000, Some(ConversionRef(0))),
                             Row(1, PUBLISHER_EARNING, 800, Some(ConversionRef(0)))]
            && WalletOf(db, 1).pending == 800 && BalanceOf(db, 1) == 0
            && WalletOf(db, 0).reserved == 4000 && WalletOf(db, 0).spent == 1000
  {
    var s := ONE_CONVERSION;
    assert s[..3][..2] == s[..2] && s[..2][..1] == s[..1] && s[..1][..0] == [];
    var claimed := Run(Start(SHOP), s[..2]);
    assert Run(Start(SHOP), s[..1]) == Do(Start(SHOP), s[0]);
    assert claimed == World(SHOP, [AdClick(0, 0, true)], map[0 := Claimed]);
    var charged := Run(Start(SHOP), s[..3]);
    assert charged == Do(claimed, s[2]);
    assert charged.db.ledger == [Row(0, AD_SPEND, 1000, Some(ConversionRef(0)))];
    assert charged.tasks == map[0 := ChargedFor(1, 1000)];
    assert Run(Start(SHOP), s) == Do(charged, s[3]);
  }
}
