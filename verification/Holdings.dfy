/** What the reserve of a wallet is made of, and that no holding goes negative.

  `wallet.reservedBalance` is decremented by four transactions without a check of its own. It stays
  equal to the campaign holds plus the open payouts of its user as long as the payout provider's
  PROCESSING write does not land on a payout that is already settled, and no longer than that.
 */
module Holdings {
  import opened Books

  function CampaignHold(campaigns: seq<Campaign>, u: UserId): int {
    if campaigns == [] then 0
    else
      var last := campaigns[|campaigns| - 1];
      CampaignHold(campaigns[..|campaigns| - 1], u) + if last.owner == u then last.reserved else 0
  }

  /** What one payout keeps in the reserve of `u`. */
  function HeldFor(payout: Payout, u: UserId): nat {
    if payout.owner == u && payout.Open() then payout.amount else 0
  }

  function PayoutHold(payouts: seq<Payout>, u: UserId): nat {
    if payouts == [] then 0
    else PayoutHold(payouts[..|payouts| - 1], u) + HeldFor(payouts[|payouts| - 1], u)
  }

  lemma {:induction false} CampaignHoldUpdate(campaigns: seq<Campaign>, c: CampaignId, after: Campaign, u: UserId)
    requires c < |campaigns| && after.owner == campaigns[c].owner
    ensures CampaignHold(campaigns[c := after], u)
         == CampaignHold(campaigns, u) + if after.owner == u then after.reserved - campaigns[c].reserved else 0
  {
    var n := |campaigns| - 1;
    if c == n {
      assert campaigns[c := after][..n] == campaigns[..n];
    } else {
      assert campaigns[c := after][..n] == campaigns[..n][c := after];
      CampaignHoldUpdate(campaigns[..n], c, after, u);
    }
  }

  lemma {:induction false} PayoutHoldUpdate(payouts: seq<Payout>, p: PayoutId, after: Payout, u: UserId)
    requires p < |payouts|
    ensures PayoutHold(payouts[p := after], u) == PayoutHold(payouts, u) - HeldFor(payouts[p], u) + HeldFor(after, u)
  {
    var n := |payouts| - 1;
    if p == n {
      assert payouts[p := after][..n] == payouts[..n];
    } else {
      assert payouts[p := after][..n] == payouts[..n][p := after];
      PayoutHoldUpdate(payouts[..n], p, after, u);
    }
  }

  lemma {:induction false} CampaignHoldNonNegative(campaigns: seq<Campaign>, u: UserId)
    requires forall i | 0 <= i < |campaigns| :: campaigns[i].reserved >= 0
    ensures CampaignHold(campaigns, u) >= 0
  {
    if campaigns != [] {
      CampaignHoldNonNegative(campaigns[..|campaigns| - 1], u);
    }
  }

  /** The reserve of `u` is exactly the money held for its campaigns and its open payouts. */
  ghost predicate ReserveExplained(db: Db, u: UserId) {
    WalletOf(db, u).reserved == CampaignHold(db.campaigns, u) + PayoutHold(db.payouts, u)
  }

  ghost predicate Sound(db: Db) {
    && ForeignKeys(db)
    && (forall u: UserId :: ReserveExplained(db, u))
    && (forall u: UserId :: BalanceOf(db, u) >= 0 && WalletOf(db, u).pending >= 0)
    && (forall i | 0 <= i < |db.campaigns| :: db.campaigns[i].reserved >= 0 && db.campaigns[i].spent >= 0)
    && (forall i | 0 <= i < |db.payouts| :: db.payouts[i].amount > 0)
  }

  /** In a sound database nothing is overdrawn, the unchecked reserve included. */
  lemma SoundIsSolvent(db: Db, u: UserId)
    requires Sound(db)
    ensures BalanceOf(db, u) >= 0 && WalletOf(db, u).reserved >= 0 && WalletOf(db, u).pending >= 0
  {
    assert ReserveExplained(db, u);
    CampaignHoldNonNegative(db.campaigns, u);
  }

  /** The PROCESSING write does not land on a payout that has already been settled. */
  predicate Guarded(db: Db, op: Op) {
    op.OpMarkProcessing? && op.payout < |db.payouts| ==> db.payouts[op.payout].Open()
  }

  predicate OnCampaigns(op: Op) {
    op.OpReserve? || op.OpRelease? || op.OpSpend? || op.OpSetStatus? || op.OpSetBudget?
  }

  predicate OnPayouts(op: Op) {
    op.OpMarkProcessing? || op.OpCompletePayout? || op.OpFailPayout?
  }

  lemma CampaignStepExplained(db: Db, op: Op, u: UserId)
    requires OnCampaigns(op) && ReserveExplained(db, u)
    ensures ReserveExplained(Next(db, op), u)
  {
    hide PayoutHold;
    hide CampaignHold;
    hide Taken;
    if Apply(db, op).Commit? {
      CampaignHoldUpdate(db.campaigns, op.campaign, Next(db, op).campaigns[op.campaign], u);
    }
  }

  lemma PayoutStepExplained(db: Db, op: Op, u: UserId)
    requires OnPayouts(op) && ReserveExplained(db, u) && Guarded(db, op)
    ensures ReserveExplained(Next(db, op), u)
  {
    hide PayoutHold;
    hide CampaignHold;
    hide Taken;
    if op.payout < |db.payouts| {
      PayoutHoldUpdate(db.payouts, op.payout, Next(db, op).payouts[op.payout], u);
    }
  }

  lemma OtherStepExplained(db: Db, op: Op, u: UserId)
    requires !OnCampaigns(op) && !OnPayouts(op) && ReserveExplained(db, u)
    ensures ReserveExplained(Next(db, op), u)
  {
    var after := Next(db, op);
    if op.OpCreateCampaign? && |after.campaigns| > |db.campaigns| {
      assert after.campaigns[..|db.campaigns|] == db.campaigns;
    } else if op.OpRequestPayout? && |after.payouts| > |db.payouts| {
      assert after.payouts[..|db.payouts|] == db.payouts;
    }
  }

  lemma FundsStayNonNegative(db: Db, op: Op, u: UserId)
    requires Sound(db)
    ensures BalanceOf(Next(db, op), u) >= 0 && WalletOf(Next(db, op), u).pending >= 0
  {
    hide ForeignKeys;
    hide ReserveExplained;
    hide Taken;
    assert BalanceOf(db, u) >= 0 && WalletOf(db, u).pending >= 0;
  }

  lemma RowsStayNonNegative(db: Db, op: Op)
    requires Sound(db)
    ensures forall i | 0 <= i < |Next(db, op).campaigns| ::
              Next(db, op).campaigns[i].reserved >= 0 && Next(db, op).campaigns[i].spent >= 0
    ensures forall i | 0 <= i < |Next(db, op).payouts| :: Next(db, op).payouts[i].amount > 0
  {
    hide ForeignKeys;
    hide ReserveExplained;
    hide Taken;
  }

  lemma StepStaysSound(db: Db, op: Op)
    requires Sound(db) && Guarded(db, op)
    ensures Sound(Next(db, op))
  {
    ForeignKeysKept(db, op);
    RowsStayNonNegative(db, op);
    forall u: UserId
      ensures ReserveExplained(Next(db, op), u)
      ensures BalanceOf(Next(db, op), u) >= 0 && WalletOf(Next(db, op), u).pending >= 0
    {
      FundsStayNonNegative(db, op, u);
      assert ReserveExplained(db, u);
      if OnCampaigns(op) {
        CampaignStepExplained(db, op, u);
      } else if OnPayouts(op) {
        PayoutStepExplained(db, op, u);
      } else {
        OtherStepExplained(db, op, u);
      }
    }
  }

  /** Main result: a PROCESSING write on an existing payout keeps a sound
      database sound exactly when the payout is open. */
  lemma ProcessingWriteIsSoundIffOpen(db: Db, p: PayoutId)
    requires Sound(db) && p < |db.payouts|
    ensures Sound(Next(db, OpMarkProcessing(p))) <==> db.payouts[p].Open()
  {
    var op := OpMarkProcessing(p);
    if Guarded(db, op) {
      StepStaysSound(db, op);
    } else {
      var u := db.payouts[p].owner;
      PayoutHoldUpdate(db.payouts, p, Next(db, op).payouts[p], u);
      assert ReserveExplained(db, u);
      assert !ReserveExplained(Next(db, op), u);
    }
  }

  /** No PROCESSING write of the run lands on a settled payout. */
  ghost predicate RunGuarded(db: Db, ops: seq<Op>) {
    forall k | 0 <= k < |ops| :: Guarded(Exec(db, ops[..k]), ops[k])
  }

  lemma {:induction false} GuardedRunStaysSound(db: Db, ops: seq<Op>)
    requires Sound(db) && RunGuarded(db, ops)
    ensures Sound(Exec(db, ops))
  {
    if ops != [] {
      var n := |ops| - 1;
      forall k | 0 <= k < n ensures Guarded(Exec(db, ops[..n][..k]), ops[..n][k]) {
        assert ops[..n][..k] == ops[..k];
        assert Guarded(Exec(db, ops[..k]), ops[k]);
      }
      GuardedRunStaysSound(db, ops[..n]);
      StepStaysSound(Exec(db, ops[..n]), ops[n]);
    }
  }

  /** Main result: a run is sound at every step exactly when no PROCESSING write of it lands on a settled payout. */
  lemma RunSoundIffGuarded(ops: seq<Op>)
    ensures (forall k | 0 <= k <= |ops| :: Sound(Exec(GENESIS, ops[..k]))) <==> RunGuarded(GENESIS, ops)
  {
    if RunGuarded(GENESIS, ops) {
      forall k | 0 <= k <= |ops| ensures Sound(Exec(GENESIS, ops[..k])) {
        forall j | 0 <= j < k ensures Guarded(Exec(GENESIS, ops[..k][..j]), ops[..k][j]) {
          assert ops[..k][..j] == ops[..j];
          assert Guarded(Exec(GENESIS, ops[..j]), ops[j]);
        }
        GuardedRunStaysSound(GENESIS, ops[..k]);
      }
    } else {
      var k :| 0 <= k < |ops| && !Guarded(Exec(GENESIS, ops[..k]), ops[k]);
      var before := Exec(GENESIS, ops[..k]);
      if Sound(before) {
        ProcessingWriteIsSoundIffOpen(before, ops[k].payout);
        assert ops[..k + 1][..k] == ops[..k];
        assert !Sound(Exec(GENESIS, ops[..k + 1]));
      }
    }
  }
}
