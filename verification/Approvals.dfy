/** What campaign requests do to money: approving reserves the whole budget, archiving gives back what is left. */
module Approvals {
  import opened Books
  import opened Transactions
  import opened CampaignLifecycle

  // --- requests handled with nothing in between ---

  /** The campaign is under review, and its owner can pay the whole budget and has not reserved for it before. */
  predicate CanApprove(db: Db, c: CampaignId, minBalance: nat) {
    && c < |db.campaigns| && db.campaigns[c].status == PENDING_REVIEW
    && !CannotReserve(db, c, db.campaigns[c].totalBudget, minBalance)
  }

  /** Campaign `c` went live with its whole budget reserved out of its owner's balance. */
  ghost predicate Approved(db: Db, after: Db, c: CampaignId)
    requires c < |db.campaigns|
  {
    var before := db.campaigns[c];
    var cents: int := before.totalBudget;
    && Moves(db, after, before.owner, -cents, NO_CHANGE.(reserved := cents))
    && after.ledger == db.ledger + [Row(before.owner, CAMPAIGN_RESERVATION, cents, Some(CampaignRef(c)))]
    && after.campaigns == db.campaigns[c := before.(status := ACTIVE, reserved := before.reserved + cents)]
    && after.payouts == db.payouts
  }

  /** Main result: an approval reserves the whole budget and goes live exactly when it can, and else changes nothing. */
  lemma ApproveDoes(db: Db, c: CampaignId, minBalance: nat)
    ensures if CanApprove(db, c, minBalance) then Approved(db, Handle(db, Approve(c, minBalance)), c)
            else Handle(db, Approve(c, minBalance)) == db
  {
    if c < |db.campaigns| {
      var budget := db.campaigns[c].totalBudget;
      ReserveFails(db, c, budget, minBalance);
      ReserveDoes(db, db.campaigns[c].owner, c, budget * MILLICENTS_PER_CENT, minBalance);
      assert budget * MILLICENTS_PER_CENT / 1000 == budget;
      hide Reserve;
      hide CannotReserve;
      hide Free;
      hide WholeCents;
    }
  }

  lemma RejectDoes(db: Db, c: CampaignId)
    ensures Handle(db, Reject(c)) ==
              if c < |db.campaigns| && db.campaigns[c].status == PENDING_REVIEW
              then db.(campaigns := db.campaigns[c := db.campaigns[c].(status := ARCHIVED)])
              else db
  {
  }

  /** What an advertiser may ask for: to archive what is not live, and to submit, pause, resume or complete. */
  lemma AdvertiserMoves(current: CampaignStatus, next: CampaignStatus)
    ensures Allowed(current, next) <==>
              || (next == ARCHIVED && current != ACTIVE && current != ARCHIVED)
              || (current, next) in {(DRAFT, PENDING_REVIEW), (ACTIVE, PAUSED), (ACTIVE, COMPLETED), (PAUSED, ACTIVE)}
  {
  }

  /** Campaign `c` is archived, and its owner has back all that it held. */
  ghost predicate ArchivedWithRefund(db: Db, after: Db, c: CampaignId, now: nat)
    requires c < |db.campaigns| && db.campaigns[c].reserved >= 0
  {
    var before := db.campaigns[c];
    && Moves(db, after, before.owner, before.reserved, NO_CHANGE.(reserved := -before.reserved))
    && after.ledger == db.ledger + [Row(before.owner, REFUND, before.reserved, Some(ReleaseRef(c, now)))]
    && after.campaigns == db.campaigns[c := before.(status := ARCHIVED, reserved := 0)]
    && after.payouts == db.payouts
  }

  /** Main result: a move that is not allowed changes nothing; archiving gives the owner back all that the campaign
      holds; any other move changes the status and nothing else. */
  lemma TransitionDoes(db: Db, c: CampaignId, next: CampaignStatus, now: nat)
    requires c < |db.campaigns| && db.campaigns[c].reserved >= 0 && db.campaigns[c].owner in db.balances
    ensures var before, after := db.campaigns[c], Handle(db, Transition(c, next, now));
            if !Allowed(before.status, next) then after == db
            else if next != ARCHIVED || before.reserved == 0 then
              after == db.(campaigns := db.campaigns[c := before.(status := next)])
            else if Free(db, before.owner, REFUND, Some(ReleaseRef(c, now))) then ArchivedWithRefund(db, after, c, now)
            else after == db
  {
    var before := db.campaigns[c];
    if before.reserved > 0 {
      ReleaseDoes(db, before.owner, c, before.reserved * MILLICENTS_PER_CENT, now);
      assert before.reserved * MILLICENTS_PER_CENT / 1000 == before.reserved;
    }
    hide Release;
    hide Free;
  }

  // --- a handled request is a run of the interleaved steps ---

  lemma RunOneMore(w: World, steps: seq<Step>, step: Step)
    ensures Run(w, steps + [step]) == Do(Run(w, steps), step)
  {
    assert (steps + [step])[..|steps|] == steps;
  }

  /** The steps that one request takes when nothing comes in between. */
  function StepsOf(w: World, request: Request): seq<Step> {
    var i := |w.tasks|;
    match request
    case Approve(c, minBalance) => [StartApproval(c), ReserveBudget(i, minBalance), WriteStatus(i)]
    case Reject(c) => [StartRejection(c), WriteStatus(i)]
    case Transition(c, next, now) => [StartTransition(c, next), ReleaseHeld(i, now), WriteStatus(i)]
    case Transaction(op) => [Other(op)]
  }

  lemma HandleIsSteps(w: World, request: Request)
    ensures var s := StepsOf(w, request);
            && (|s| == 1 ==> Do(w, s[0]).db == Handle(w.db, request))
            && (|s| == 2 ==> Do(Do(w, s[0]), s[1]).db == Handle(w.db, request))
            && (|s| == 3 ==> Do(Do(Do(w, s[0]), s[1]), s[2]).db == Handle(w.db, request))
  {
    hide Reserve;
    hide Release;
    match request
    case Approve(c, minBalance) =>
      if c < |w.db.campaigns| {
        ReserveOnCampaigns(w.db, w.db.campaigns[c].owner, c, w.db.campaigns[c].totalBudget, minBalance);
      }
    case Transition(c, next, now) =>
      if c < |w.db.campaigns| && w.db.campaigns[c].reserved > 0 {
        ReleaseOnCampaigns(w.db, w.db.campaigns[c].owner, c, w.db.campaigns[c].reserved, now);
      }
    case _ =>
  }

  /** Requests handled one after the other are one run of the interleaved steps. */
  lemma {:induction false} HandlingIsARun(db: Db, requests: seq<Request>) returns (steps: seq<Step>)
    ensures Run(World(db, []), steps).db == HandleAll(db, requests)
  {
    steps := [];
    if requests != [] {
      var n := |requests| - 1;
      steps := HandlingIsARun(db, requests[..n]);
      var w := Run(World(db, []), steps);
      var s := StepsOf(w, requests[n]);
      HandleIsSteps(w, requests[n]);
      hide Do;
      hide Handle;
      RunOneMore(World(db, []), steps, s[0]);
      if |s| >= 2 {
        RunOneMore(World(db, []), steps + [s[0]], s[1]);
        if |s| == 3 {
          RunOneMore(World(db, []), steps + [s[0]] + [s[1]], s[2]);
          steps := steps + [s[0]] + [s[1]] + [s[2]];
        } else {
          steps := steps + [s[0]] + [s[1]];
        }
      } else {
        steps := steps + [s[0]];
      }
    }
  }

  // --- no campaign is live without its reservation ---

  predicate IsLive(status: CampaignStatus) {
    status == ACTIVE || status == PAUSED || status == COMPLETED
  }

  /** The owner has reserved money for campaign `c`. */
  ghost predicate HasReservation(db: Db, c: CampaignId) {
    && c < |db.campaigns|
    && exists row | row in db.ledger ::
         row.kind == CAMPAIGN_RESERVATION && row.ref == Some(CampaignRef(c))
         && row.user == db.campaigns[c].owner && row.amount > 0
  }

  ghost predicate Funded(w: World) {
    && (forall c | 0 <= c < |w.db.campaigns| && IsLive(w.db.campaigns[c].status) :: HasReservation(w.db, c))
    && (forall i | 0 <= i < |w.tasks| && w.tasks[i].Writing? && IsLive(w.tasks[i].next) ::
          HasReservation(w.db, w.tasks[i].campaign))
  }

  /** Ledger rows stay, and campaigns keep their owners. */
  ghost predicate Keeps(db: Db, after: Db) {
    && db.ledger <= after.ledger && |db.campaigns| <= |after.campaigns|
    && forall c | 0 <= c < |db.campaigns| :: after.campaigns[c].owner == db.campaigns[c].owner
  }

  lemma TransactionKeeps(db: Db, op: Op)
    ensures Keeps(db, Next(db, op))
  {
  }

  lemma ReservationStays(db: Db, after: Db, c: CampaignId)
    requires Keeps(db, after) && HasReservation(db, c)
    ensures HasReservation(after, c)
  {
    var row :| row in db.ledger && row.kind == CAMPAIGN_RESERVATION && row.ref == Some(CampaignRef(c))
               && row.user == db.campaigns[c].owner && row.amount > 0;
    assert row in after.ledger;
  }

  lemma StepKeeps(w: World, step: Step)
    ensures Keeps(w.db, Do(w, step).db)
  {
    match step
    case ReserveBudget(i, minBalance) =>
      if i < |w.tasks| && w.tasks[i].Approving? {
        var c := w.tasks[i].campaign;
        TransactionKeeps(w.db, OpReserve(OwnerOf(w.db, c), c, w.tasks[i].budget * MILLICENTS_PER_CENT, minBalance));
      }
      hide Reserve;
    case ReleaseHeld(i, now) =>
      if i < |w.tasks| && w.tasks[i].Releasing? {
        var c := w.tasks[i].campaign;
        TransactionKeeps(w.db, OpRelease(OwnerOf(w.db, c), c, w.tasks[i].held * MILLICENTS_PER_CENT, now));
      }
      hide Release;
    case WriteStatus(i) =>
      if i < |w.tasks| && w.tasks[i].Writing? {
        TransactionKeeps(w.db, OpSetStatus(w.tasks[i].campaign, w.tasks[i].next));
      }
    case Other(op) => TransactionKeeps(w.db, op);
    case _ =>
  }

  lemma ReservingFunds(w: World, i: nat, minBalance: nat)
    requires i < |w.tasks| && w.tasks[i].Approving?
    ensures var c, after := w.tasks[i].campaign, Do(w, ReserveBudget(i, minBalance));
            after.tasks[i].Writing? ==> HasReservation(after.db, c)
  {
    var c := w.tasks[i].campaign;
    ReserveDoes(w.db, OwnerOf(w.db, c), c, w.tasks[i].budget * MILLICENTS_PER_CENT, minBalance);
    hide Reserve;
    hide Free;
    var after := Do(w, ReserveBudget(i, minBalance));
    if after.tasks[i].Writing? {
      assert after.db.ledger[|after.db.ledger| - 1] in after.db.ledger;
    }
  }

  lemma StepStaysFunded(w: World, step: Step)
    requires Funded(w) && NoneNegative(w.db)
    ensures Funded(Do(w, step))
  {
    var after := Do(w, step);
    StepKeeps(w, step);
    forall c | HasReservation(w.db, c) ensures HasReservation(after.db, c) {
      ReservationStays(w.db, after.db, c);
    }
    match step
    case ReserveBudget(i, minBalance) =>
      if i < |w.tasks| && w.tasks[i].Approving? {
        var c := w.tasks[i].campaign;
        ReservingFunds(w, i, minBalance);
        ReserveOnCampaigns(w.db, OwnerOf(w.db, c), c, w.tasks[i].budget, minBalance);
      }
    case ReleaseHeld(i, now) =>
      if i < |w.tasks| && w.tasks[i].Releasing? {
        ReleaseOnCampaigns(w.db, OwnerOf(w.db, w.tasks[i].campaign), w.tasks[i].campaign, w.tasks[i].held, now);
      }
    case Other(op) => if LeavesLifecycleAlone(op) { OtherOnCampaigns(w.db, op); }
    case _ =>
  }

  lemma {:induction false} EveryRunIsFunded(steps: seq<Step>)
    ensures Funded(Run(World(GENESIS, []), steps)) && NoneNegative(Run(World(GENESIS, []), steps).db)
  {
    if steps != [] {
      var n := |steps| - 1;
      EveryRunIsFunded(steps[..n]);
      StepStaysFunded(Run(World(GENESIS, []), steps[..n]), steps[n]);
      StepKeepsNonNegative(Run(World(GENESIS, []), steps[..n]), steps[n]);
    }
  }

  /** Main result: however requests interleave, every active, paused or completed campaign has its reservation in the
      ledger. */
  lemma LiveCampaignsAreFunded(steps: seq<Step>, c: CampaignId)
    requires c < |Run(World(GENESIS, []), steps).db.campaigns|
    requires IsLive(Run(World(GENESIS, []), steps).db.campaigns[c].status)
    ensures HasReservation(Run(World(GENESIS, []), steps).db, c)
  {
    EveryRunIsFunded(steps);
  }

  /** The same for requests handled one at a time. */
  lemma HandledCampaignsAreFunded(requests: seq<Request>, c: CampaignId)
    requires c < |HandleAll(GENESIS, requests).campaigns| && IsLive(HandleAll(GENESIS, requests).campaigns[c].status)
    ensures HasReservation(HandleAll(GENESIS, requests), c)
  {
    var steps := HandlingIsARun(GENESIS, requests);
    LiveCampaignsAreFunded(steps, c);
  }
}
