/** Wallet transactions that undo or replace each other, up to the ledger rows they leave behind. */
module Undo {
  import opened Books

  /** The same funds for everybody, and the same campaigns. */
  ghost predicate SameMoney(a: Db, b: Db) {
    && a.campaigns == b.campaigns
    && (forall u: UserId :: BalanceOf(a, u) == BalanceOf(b, u))
    && (forall u: UserId :: WalletOf(a, u) == WalletOf(b, u))
  }

  lemma FreshAfterOneMore(ledger: seq<Row>, row: Row, u: UserId, kind: Kind, ref: Option<Ref>)
    requires !Taken(ledger, u, kind, ref) && row.kind != kind
    ensures !Taken(ledger + [row], u, kind, ref)
  {
    assert forall i | 0 <= i < |ledger| :: (ledger + [row])[i] == ledger[i];
  }

  /** Releasing what was just reserved gives everybody back what they had; two rows stay in the ledger. */
  lemma ReleaseUndoesReserve(db: Db, u: UserId, c: CampaignId, raw: int, minBalance: nat, now: nat)
    requires c < |db.campaigns| && db.campaigns[c].reserved >= 0
    requires Reserve(db, u, c, raw, minBalance).Commit? && !Taken(db.ledger, u, REFUND, Some(ReleaseRef(c, now)))
    ensures var reserved := Reserve(db, u, c, raw, minBalance).db;
            && Release(reserved, u, c, raw, now).Commit?
            && SameMoney(Release(reserved, u, c, raw, now).db, db)
            && |Release(reserved, u, c, raw, now).db.ledger| == |db.ledger| + 2
  {
    var row := Row(u, CAMPAIGN_RESERVATION, Normalize(raw).cents, Some(CampaignRef(c)));
    var reserved := Reserve(db, u, c, raw, minBalance).db;
    assert reserved.ledger == db.ledger + [row];
    FreshAfterOneMore(db.ledger, row, u, REFUND, Some(ReleaseRef(c, now)));
    var released := Release(reserved, u, c, raw, now).db;
    assert released.campaigns == db.campaigns;
  }

  /** A payout that fails before anything else happens gives the publisher back what it had. */
  lemma FailUndoesRequest(db: Db, u: UserId, raw: int, key: Option<Ref>)
    requires RequestPayout(db, u, raw, key).Commit?
    requires !Taken(db.ledger, u, PAYOUT_FAILED, Some(PayoutRef(|db.payouts|)))
    ensures var requested := RequestPayout(db, u, raw, key).db;
            && FailPayout(requested, |db.payouts|).Commit?
            && SameMoney(FailPayout(requested, |db.payouts|).db, db)
            && FailPayout(requested, |db.payouts|).db.payouts == db.payouts + [Payout(u, Normalize(raw).cents, Failed)]
  {
    var ref := if key.Some? then key else Some(PayoutRef(|db.payouts|));
    var row := Row(u, PAYOUT_REQUEST, Normalize(raw).cents, ref);
    var requested := RequestPayout(db, u, raw, key).db;
    assert requested.ledger == db.ledger + [row];
    FreshAfterOneMore(db.ledger, row, u, PAYOUT_FAILED, Some(PayoutRef(|db.payouts|)));
    assert requested.payouts[|db.payouts| := Payout(u, Normalize(raw).cents, Failed)]
        == db.payouts + [Payout(u, Normalize(raw).cents, Failed)];
  }

  /** An immediate credit is a held one that is promoted at once. */
  lemma ImmediateIsPromotedAtOnce(db: Db, u: UserId, raw: int, ref: Ref)
    requires WalletOf(db, u).pending >= 0 && Credit(db, u, raw, ref, false).Commit?
    ensures Credit(db, u, raw, ref, true) == Promote(Credit(db, u, raw, ref, false).db, u, raw)
    ensures BalanceOf(Credit(db, u, raw, ref, false).db, u) == BalanceOf(db, u)
  {
  }
}
