/** The advertiser's and the admin's campaign requests as objects over the wallet service. */
module CampaignService {
  import opened Books
  import opened CampaignLifecycle
  import opened Approvals
  import opened WalletService

  datatype Reply = Updated | CampaignNotFound | NotInReview | MoveNotAllowed | WalletRefused(error: WalletError)

  class AdminService {
    const wallet: WalletManager

    constructor (wallet: WalletManager)
      ensures this.wallet == wallet
    {
      this.wallet := wallet;
    }

    /** Reserves the whole budget first; only when that went through the campaign goes live. */
    method ApproveCampaign(c: CampaignId, minBalance: nat) returns (reply: Reply)
      requires wallet.Valid()
      modifies wallet
      ensures wallet.Valid()
      ensures wallet.Tables() == Handle(old(wallet.Tables()), Approve(c, minBalance))
      ensures reply == Updated <==> CanApprove(old(wallet.Tables()), c, minBalance)
      ensures reply == Updated ==> Approved(old(wallet.Tables()), wallet.Tables(), c)
      ensures reply != Updated ==> wallet.Tables() == old(wallet.Tables())
      ensures reply == NotInReview <==> c < |old(wallet.campaigns)| && old(wallet.campaigns)[c].status != PENDING_REVIEW
    {
      ApproveDoes(wallet.Tables(), c, minBalance);
      hide Approved;
      if c >= |wallet.campaigns| {
        return CampaignNotFound;
      }
      if wallet.campaigns[c].status != PENDING_REVIEW {
        return NotInReview;
      }
      var budget := wallet.campaigns[c].totalBudget;
      ReserveOnCampaigns(wallet.Tables(), wallet.campaigns[c].owner, c, budget, minBalance);
      ReserveFails(wallet.Tables(), c, budget, minBalance);
      hide CannotReserve;
      hide Reserve;
      var error := wallet.ReserveCampaignBudget(wallet.campaigns[c].owner, c, budget * MILLICENTS_PER_CENT, minBalance);
      if error.Some? {
        return WalletRefused(error.value);
      }
      wallet.campaigns := wallet.campaigns[c := wallet.campaigns[c].(status := ACTIVE)];
      reply := Updated;
    }

    method RejectCampaign(c: CampaignId) returns (reply: Reply)
      requires wallet.Valid()
      modifies wallet
      ensures wallet.Valid()
      ensures wallet.Tables() == Handle(old(wallet.Tables()), Reject(c))
      ensures reply == Updated <==> c < |old(wallet.campaigns)| && old(wallet.campaigns)[c].status == PENDING_REVIEW
    {
      if c >= |wallet.campaigns| {
        return CampaignNotFound;
      }
      if wallet.campaigns[c].status != PENDING_REVIEW {
        return NotInReview;
      }
      wallet.campaigns := wallet.campaigns[c := wallet.campaigns[c].(status := ARCHIVED)];
      reply := Updated;
    }
  }

  class AdvertiserService {
    const wallet: WalletManager

    constructor (wallet: WalletManager)
      ensures this.wallet == wallet
    {
      this.wallet := wallet;
    }

    /** Checks the move, gives back what is still reserved when archiving, then writes the status. */
    method TransitionCampaign(u: UserId, c: CampaignId, next: CampaignStatus, now: nat) returns (reply: Reply)
      requires wallet.Valid()
      modifies wallet
      ensures wallet.Valid()
      ensures reply == CampaignNotFound <==> c >= |old(wallet.campaigns)| || old(wallet.campaigns)[c].owner != u
      ensures reply == CampaignNotFound ==> wallet.Tables() == old(wallet.Tables())
      ensures reply != CampaignNotFound ==> wallet.Tables() == Handle(old(wallet.Tables()), Transition(c, next, now))
      ensures reply == MoveNotAllowed <==>
              && c < |old(wallet.campaigns)| && old(wallet.campaigns)[c].owner == u
              && !Allowed(old(wallet.campaigns)[c].status, next)
      ensures reply == Updated ==> wallet.campaigns[c].status == next
      ensures reply != Updated ==> wallet.Tables() == old(wallet.Tables())
    {
      if c >= |wallet.campaigns| || wallet.campaigns[c].owner != u {
        return CampaignNotFound;
      }
      var campaign := wallet.campaigns[c];
      if !Allowed(campaign.status, next) {
        return MoveNotAllowed;
      }
      if next == ARCHIVED && campaign.reserved > 0 {
        ReleaseOnCampaigns(wallet.Tables(), u, c, campaign.reserved, now);
        var error := wallet.ReleaseCampaignReservation(u, c, campaign.reserved * MILLICENTS_PER_CENT, now);
        if error.Some? {
          return WalletRefused(error.value);
        }
      }
      wallet.campaigns := wallet.campaigns[c := wallet.campaigns[c].(status := next)];
      reply := Updated;
    }
  }
}
