/** Approving, rejecting, pausing, resuming and archiving campaigns.

  A request first reads the campaign, then may move money in a transaction, and last writes the new status
  without looking at the campaign again; requests interleave.
 */
module CampaignLifecycle {
  import opened Books

  /** The moves an advertiser may ask for. */
  predicate Allowed(current: CampaignStatus, next: CampaignStatus) {
    match current
    case DRAFT => next == PENDING_REVIEW || next == ARCHIVED
    case PENDING_REVIEW => next == ARCHIVED
    case ACTIVE => next == PAUSED || next == COMPLETED
    case PAUSED => next == ACTIVE || next == ARCHIVED
    case COMPLETED => next == ARCHIVED
    case ARCHIVED => false
  }

  datatype Task =
    | Approving(campaign: CampaignId, budget: nat)          // saw PENDING_REVIEW, is about to reserve this budget
    | Releasing(campaign: CampaignId, held: nat)            // is about to release what it read as reserved
    | Writing(campaign: CampaignId, next: CampaignStatus)   // is about to write the status
    | Over

  datatype World = World(db: Db, tasks: seq<Task>)

  datatype Step =
    | StartApproval(campaign: CampaignId)
    | StartRejection(campaign: CampaignId)
    | StartTransition(campaign: CampaignId, next: CampaignStatus)
    | ReserveBudget(task: nat, minBalance: nat)
    | ReleaseHeld(task: nat, now: nat)
    | WriteStatus(task: nat)
    | Die(task: nat)
    | Other(op: Op)

  /** Only the requests above move a campaign's reserve in or out, and write its status. */
  predicate LeavesLifecycleAlone(op: Op) {
    !op.OpReserve? && !op.OpRelease? && !op.OpSetStatus?
  }

  function OwnerOf(db: Db, c: CampaignId): UserId {
    if c < |db.campaigns| then db.campaigns[c].owner else 0
  }

  function SetStatus(db: Db, c: CampaignId, s: CampaignStatus): Db {
    Next(db, OpSetStatus(c, s))
  }

  /** The first task of a transition request, none when the move is not allowed. */
  function FirstTask(db: Db, c: CampaignId, next: CampaignStatus): Option<Task> {
    if c >= |db.campaigns| || !Allowed(db.campaigns[c].status, next) then None
    else if next == ARCHIVED && db.campaigns[c].reserved > 0 then Some(Releasing(c, db.campaigns[c].reserved))
    else Some(Writing(c, next))
  }

  function Do(w: World, step: Step): World {
    match step
    case StartApproval(c) =>
      if c >= |w.db.campaigns| || w.db.campaigns[c].status != PENDING_REVIEW then w
      else w.(tasks := w.tasks + [Approving(c, w.db.campaigns[c].totalBudget)])
    case StartRejection(c) =>
      if c >= |w.db.campaigns| || w.db.campaigns[c].status != PENDING_REVIEW then w
      else w.(tasks := w.tasks + [Writing(c, ARCHIVED)])
    case StartTransition(c, next) =>
      (match FirstTask(w.db, c, next)
       case None => w
       case Some(task) => w.(tasks := w.tasks + [task]))
    case ReserveBudget(i, minBalance) =>
      if i >= |w.tasks| || !w.tasks[i].Approving? then w
      else
        var c := w.tasks[i].campaign;
        (match Reserve(w.db, OwnerOf(w.db, c), c, w.tasks[i].budget * MILLICENTS_PER_CENT, minBalance)
         case Commit(d) => World(d, w.tasks[i := Writing(c, ACTIVE)])
         case Rollback(_) => w.(tasks := w.tasks[i := Over]))
    case ReleaseHeld(i, now) =>
      if i >= |w.tasks| || !w.tasks[i].Releasing? then w
      else
        var c := w.tasks[i].campaign;
        (match Release(w.db, OwnerOf(w.db, c), c, w.tasks[i].held * MILLICENTS_PER_CENT, now)
         case Commit(d) => World(d, w.tasks[i := Writing(c, ARCHIVED)])
         case Rollback(_) => w.(tasks := w.tasks[i := Over]))
    case WriteStatus(i) =>
      if i >= |w.tasks| || !w.tasks[i].Writing? then w
      else World(SetStatus(w.db, w.tasks[i].campaign, w.tasks[i].next), w.tasks[i := Over])
    case Die(i) => if i >= |w.tasks| then w else w.(tasks := w.tasks[i := Over])
    case Other(op) => if LeavesLifecycleAlone(op) then w.(db := Next(w.db, op)) else w
  }

  function Run(w: World, steps: seq<Step>): World {
    if steps == [] then w else Do(Run(w, steps[..|steps| - 1]), steps[|steps| - 1])
  }

  // --- money in an archived campaign ---

  predicate HoldsNothing(c: Campaign) {
    c.status == ARCHIVED ==> c.reserved == 0
  }

  /** No archived campaign holds money. */
  ghost predicate NothingStuck(db: Db) {
    forall c | 0 <= c < |db.campaigns| :: HoldsNothing(db.campaigns[c])
  }

  ghost predicate NoneNegative(db: Db) {
    forall c | 0 <= c < |db.campaigns| :: db.campaigns[c].reserved >= 0
  }

  /** The owner is unknown, has not enough balance, or has reserved for this
      campaign before; or there is nothing to reserve. */
  predicate CannotReserve(db: Db, c: CampaignId, budget: nat, minBalance: nat)
    requires c < |db.campaigns|
  {
    var owner := db.campaigns[c].owner;
    || budget == 0
    || owner !in db.balances
    || BalanceOf(db, owner) < minBalance
    || BalanceOf(db, owner) < budget
    || Taken(db.ledger, owner, CAMPAIGN_RESERVATION, Some(CampaignRef(c)))
  }

  /** What the code would have to check at the step: ARCHIVED is written on an
      empty reserve, and no archived campaign gets one. */
  predicate Guarded(w: World, step: Step) {
    match step
    case WriteStatus(i) =>
      i < |w.tasks| && w.tasks[i].Writing? && w.tasks[i].next == ARCHIVED && w.tasks[i].campaign < |w.db.campaigns| ==>
        w.db.campaigns[w.tasks[i].campaign].reserved == 0
    case ReserveBudget(i, minBalance) =>
      i < |w.tasks| && w.tasks[i].Approving? && w.tasks[i].campaign < |w.db.campaigns| ==>
        || w.db.campaigns[w.tasks[i].campaign].status != ARCHIVED
        || CannotReserve(w.db, w.tasks[i].campaign, w.tasks[i].budget, minBalance)
    case _ => true
  }

  /** How the other transactions may change a campaign. */
  lemma OtherOnCampaigns(db: Db, op: Op)
    requires LeavesLifecycleAlone(op) && NoneNegative(db)
    ensures NoneNegative(Next(db, op)) && |db.campaigns| <= |Next(db, op).campaigns|
    ensures forall c | 0 <= c < |db.campaigns| ::
              && Next(db, op).campaigns[c].status == db.campaigns[c].status
              && (db.campaigns[c].status != ACTIVE ==> Next(db, op).campaigns[c].reserved == db.campaigns[c].reserved)
    ensures forall c | |db.campaigns| <= c < |Next(db, op).campaigns| ::
              Next(db, op).campaigns[c].status == PENDING_REVIEW && Next(db, op).campaigns[c].reserved == 0
  {
  }

  lemma ReserveFails(db: Db, c: CampaignId, budget: nat, minBalance: nat)
    requires c < |db.campaigns|
    ensures Reserve(db, db.campaigns[c].owner, c, budget * MILLICENTS_PER_CENT, minBalance).Rollback?
            <==> CannotReserve(db, c, budget, minBalance)
  {
  }

  lemma ReserveOnCampaigns(db: Db, u: UserId, c: CampaignId, cents: nat, minBalance: nat)
    ensures match Reserve(db, u, c, cents * MILLICENTS_PER_CENT, minBalance)
            case Rollback(_) => true
            case Commit(d) =>
              && cents > 0 && c < |db.campaigns|
              && d.campaigns == db.campaigns[c := db.campaigns[c].(reserved := db.campaigns[c].reserved + cents)]
  {
  }

  lemma ReleaseOnCampaigns(db: Db, u: UserId, c: CampaignId, cents: nat, now: nat)
    ensures match Release(db, u, c, cents * MILLICENTS_PER_CENT, now)
            case Rollback(_) => true
            case Commit(d) =>
              && 0 < cents && c < |db.campaigns| && cents <= db.campaigns[c].reserved
              && d.campaigns == db.campaigns[c := db.campaigns[c].(reserved := db.campaigns[c].reserved - cents)]
  {
  }

  lemma StepKeepsNonNegative(w: World, step: Step)
    requires NoneNegative(w.db)
    ensures NoneNegative(Do(w, step).db)
  {
    match step
    case ReserveBudget(i, minBalance) =>
      if i < |w.tasks| && w.tasks[i].Approving? {
        ReserveOnCampaigns(w.db, OwnerOf(w.db, w.tasks[i].campaign), w.tasks[i].campaign, w.tasks[i].budget,
          minBalance);
      }
    case ReleaseHeld(i, now) =>
      if i < |w.tasks| && w.tasks[i].Releasing? {
        ReleaseOnCampaigns(w.db, OwnerOf(w.db, w.tasks[i].campaign), w.tasks[i].campaign, w.tasks[i].held, now);
      }
    case Other(op) => if LeavesLifecycleAlone(op) { OtherOnCampaigns(w.db, op); }
    case _ =>
  }

  /** A step leaves no money stuck exactly when it is guarded. */
  lemma StepIsSafeIffGuarded(w: World, step: Step)
    requires NoneNegative(w.db) && NothingStuck(w.db)
    ensures NothingStuck(Do(w, step).db) <==> Guarded(w, step)
  {
    var before, after := w.db, Do(w, step).db;
    match step
    case ReserveBudget(i, minBalance) =>
      if i < |w.tasks| && w.tasks[i].Approving? {
        var c := w.tasks[i].campaign;
        ReserveOnCampaigns(w.db, OwnerOf(w.db, c), c, w.tasks[i].budget, minBalance);
        if c < |before.campaigns| {
          ReserveFails(w.db, c, w.tasks[i].budget, minBalance);
        }
        assert c < |before.campaigns| ==> HoldsNothing(before.campaigns[c]);
        assert c < |after.campaigns| ==> (HoldsNothing(after.campaigns[c]) <==> Guarded(w, step));
      }
    case ReleaseHeld(i, now) =>
      if i < |w.tasks| && w.tasks[i].Releasing? {
        var c := w.tasks[i].campaign;
        ReleaseOnCampaigns(w.db, OwnerOf(w.db, c), c, w.tasks[i].held, now);
        assert c < |before.campaigns| ==> HoldsNothing(before.campaigns[c]);
      }
    case WriteStatus(i) =>
      if i < |w.tasks| && w.tasks[i].Writing? {
        var c := w.tasks[i].campaign;
        assert c < |before.campaigns| ==> HoldsNothing(before.campaigns[c]);
        assert c < |after.campaigns| ==> (HoldsNothing(after.campaigns[c]) <==> Guarded(w, step));
      }
    case Other(op) => if LeavesLifecycleAlone(op) { OtherOnCampaigns(w.db, op); }
    case _ =>
  }

  ghost predicate RunGuarded(w: World, steps: seq<Step>) {
    forall k | 0 <= k < |steps| :: Guarded(Run(w, steps[..k]), steps[k])
  }

  lemma {:induction false} EveryRunNonNegative(w: World, steps: seq<Step>)
    requires NoneNegative(w.db)
    ensures NoneNegative(Run(w, steps).db)
  {
    if steps != [] {
      EveryRunNonNegative(w, steps[..|steps| - 1]);
      StepKeepsNonNegative(Run(w, steps[..|steps| - 1]), steps[|steps| - 1]);
    }
  }

  /** Main result: no archived campaign ever holds money during a run exactly when every step of the run is guarded. */
  lemma {:induction false} NeverStuckIffGuarded(w: World, steps: seq<Step>)
    requires NoneNegative(w.db) && NothingStuck(w.db)
    ensures (forall k | 0 <= k <= |steps| :: NothingStuck(Run(w, steps[..k]).db)) <==> RunGuarded(w, steps)
  {
    hide NoneNegative;
    hide NothingStuck;
    hide Guarded;
    hide Do;
    if steps == [] {
    } else {
      var n := |steps| - 1;
      NeverStuckIffGuarded(w, steps[..n]);
      forall k | 0 <= k <= n ensures steps[..n][..k] == steps[..k] {
      }
      assert steps[..n + 1] == steps;
      if forall k | 0 <= k <= n :: NothingStuck(Run(w, steps[..k]).db) {
        assert NothingStuck(Run(w, steps[..n]).db);
        EveryRunNonNegative(w, steps[..n]);
        StepIsSafeIffGuarded(Run(w, steps[..n]), steps[n]);
        assert forall k | 0 <= k < n :: Guarded(Run(w, steps[..n][..k]), steps[..n][k]);
      }
    }
  }

  // --- stuck for good ---

  predicate Concerns(task: Task, c: CampaignId) {
    !task.Over? && task.campaign == c
  }

  /** Nobody is working on campaign `c`. */
  ghost predicate Quiet(w: World, c: CampaignId) {
    forall i | 0 <= i < |w.tasks| :: !Concerns(w.tasks[i], c)
  }

  lemma QuietArchivedStep(w: World, step: Step, c: CampaignId)
    requires NoneNegative(w.db) && c < |w.db.campaigns| && w.db.campaigns[c].status == ARCHIVED && Quiet(w, c)
    ensures c < |Do(w, step).db.campaigns| && Quiet(Do(w, step), c)
    ensures Do(w, step).db.campaigns[c].status == ARCHIVED
    ensures Do(w, step).db.campaigns[c].reserved == w.db.campaigns[c].reserved
  {
    match step
    case ReserveBudget(i, minBalance) =>
      if i < |w.tasks| && w.tasks[i].Approving? {
        assert !Concerns(w.tasks[i], c);
        ReserveOnCampaigns(w.db, OwnerOf(w.db, w.tasks[i].campaign), w.tasks[i].campaign, w.tasks[i].budget,
          minBalance);
      }
    case ReleaseHeld(i, now) =>
      if i < |w.tasks| && w.tasks[i].Releasing? {
        assert !Concerns(w.tasks[i], c);
        ReleaseOnCampaigns(w.db, OwnerOf(w.db, w.tasks[i].campaign), w.tasks[i].campaign, w.tasks[i].held, now);
      }
    case WriteStatus(i) =>
      if i < |w.tasks| && w.tasks[i].Writing? {
        assert !Concerns(w.tasks[i], c);
      }
    case Other(op) => if LeavesLifecycleAlone(op) { OtherOnCampaigns(w.db, op); }
    case _ =>
  }

  /** Main result: once a campaign is archived and nobody works on it, it stays archived and
      keeps exactly what it holds, whatever is requested later. */
  lemma {:induction false} ArchivedKeepsWhatItHolds(w: World, steps: seq<Step>, c: CampaignId)
    requires NoneNegative(w.db) && c < |w.db.campaigns| && w.db.campaigns[c].status == ARCHIVED && Quiet(w, c)
    ensures c < |Run(w, steps).db.campaigns| && Quiet(Run(w, steps), c)
    ensures Run(w, steps).db.campaigns[c].status == ARCHIVED
    ensures Run(w, steps).db.campaigns[c].reserved == w.db.campaigns[c].reserved
  {
    if steps != [] {
      ArchivedKeepsWhatItHolds(w, steps[..|steps| - 1], c);
      EveryRunNonNegative(w, steps[..|steps| - 1]);
      QuietArchivedStep(Run(w, steps[..|steps| - 1]), steps[|steps| - 1], c);
    }
  }

  /** The guard fails when an approval reserves between the read and the write of an archive
      request, and the archive request writes last: the budget is stuck. */
  lemma ApprovalDuringArchive(db: Db, c: CampaignId)
    requires NoneNegative(db) && c < |db.campaigns| && db.campaigns[c].status == PENDING_REVIEW
             && db.campaigns[c].reserved == 0
    requires Reserve(db, OwnerOf(db, c), c, db.campaigns[c].totalBudget * MILLICENTS_PER_CENT, 0).Commit?
    ensures var w1 := Do(World(db, []), StartTransition(c, ARCHIVED));
            var w2 := Do(w1, StartApproval(c));
            var w3 := Do(Do(w2, ReserveBudget(1, 0)), WriteStatus(1));
            var w4 := Do(w3, WriteStatus(0));
            && c < |w4.db.campaigns| && w4.db.campaigns[c].status == ARCHIVED
            && w4.db.campaigns[c].reserved == db.campaigns[c].totalBudget > 0
            && Quiet(w4, c) && !Guarded(w3, WriteStatus(0))
  {
    ReserveOnCampaigns(db, OwnerOf(db, c), c, db.campaigns[c].totalBudget, 0);
    var w2 := Do(Do(World(db, []), StartTransition(c, ARCHIVED)), StartApproval(c));
    assert w2 == World(db, [Writing(c, ARCHIVED), Approving(c, db.campaigns[c].totalBudget)]);
    var w3 := Do(w2, ReserveBudget(1, 0));
    assert w3.tasks == [Writing(c, ARCHIVED), Writing(c, ACTIVE)];
  }

  // --- one request at a time ---

  datatype Request =
    | Approve(campaign: CampaignId, minBalance: nat)
    | Reject(campaign: CampaignId)
    | Transition(campaign: CampaignId, next: CampaignStatus, now: nat)
    | Transaction(op: Op)

  /** A request handled from start to end with nothing in between. */
  function Handle(db: Db, request: Request): Db {
    match request
    case Approve(c, minBalance) =>
      if c >= |db.campaigns| || db.campaigns[c].status != PENDING_REVIEW then db
      else
        (match Reserve(db, db.campaigns[c].owner, c, db.campaigns[c].totalBudget * MILLICENTS_PER_CENT, minBalance)
         case Commit(d) => SetStatus(d, c, ACTIVE)
         case Rollback(_) => db)
    case Reject(c) =>
      if c >= |db.campaigns| || db.campaigns[c].status != PENDING_REVIEW then db else SetStatus(db, c, ARCHIVED)
    case Transition(c, next, now) =>
      if c >= |db.campaigns| || !Allowed(db.campaigns[c].status, next) then db
      else if next == ARCHIVED && db.campaigns[c].reserved > 0 then
        (match Release(db, db.campaigns[c].owner, c, db.campaigns[c].reserved * MILLICENTS_PER_CENT, now)
         case Commit(d) => SetStatus(d, c, ARCHIVED)
         case Rollback(_) => db)
      else SetStatus(db, c, next)
    case Transaction(op) => if LeavesLifecycleAlone(op) then Next(db, op) else db
  }

  function HandleAll(db: Db, requests: seq<Request>): Db {
    if requests == [] then db else Handle(HandleAll(db, requests[..|requests| - 1]), requests[|requests| - 1])
  }

  /** Money is only reserved for campaigns that went through approval, so a campaign under review holds none. */
  ghost predicate Orderly(db: Db) {
    && NoneNegative(db) && NothingStuck(db)
    && forall c | 0 <= c < |db.campaigns| ::
      db.campaigns[c].status == PENDING_REVIEW || db.campaigns[c].status == DRAFT ==>
                                               db.campaigns[c].reserved == 0
  }

  lemma HandleIsOrderly(db: Db, request: Request)
    requires Orderly(db)
    ensures Orderly(Handle(db, request)) && |db.campaigns| <= |Handle(db, request).campaigns|
    ensures forall c | 0 <= c < |db.campaigns| ::
              var before, after := db.campaigns[c].status, Handle(db, request).campaigns[c].status;
              after == before || Allowed(before, after) || (before == PENDING_REVIEW && after == ACTIVE)
  {
    hide Reserve;
    hide Release;
    match request
    case Approve(c, minBalance) =>
      if c < |db.campaigns| {
        ReserveOnCampaigns(db, db.campaigns[c].owner, c, db.campaigns[c].totalBudget, minBalance);
      }
    case Transition(c, next, now) =>
      if c < |db.campaigns| && db.campaigns[c].reserved > 0 {
        ReleaseOnCampaigns(db, db.campaigns[c].owner, c, db.campaigns[c].reserved, now);
      }
    case Transaction(op) => if LeavesLifecycleAlone(op) { OtherOnCampaigns(db, op); }
    case _ =>
  }

  /** Main result: one request at a time, archived campaigns never hold money and ARCHIVED is final. */
  lemma {:induction false} OneAtATimeIsOrderly(db: Db, requests: seq<Request>, k: nat, c: CampaignId)
    requires Orderly(db) && k <= |requests|
    ensures Orderly(HandleAll(db, requests))
    ensures c < |HandleAll(db, requests[..k]).campaigns|
            && HandleAll(db, requests[..k]).campaigns[c].status == ARCHIVED ==>
              && c < |HandleAll(db, requests).campaigns|
              && HandleAll(db, requests).campaigns[c].status == ARCHIVED
              && HandleAll(db, requests).campaigns[c].reserved == 0
  {
    if requests == [] {
      assert requests[..k] == requests;
    } else {
      var n := |requests| - 1;
      OneAtATimeIsOrderly(db, requests[..n], if k <= n then k else n, c);
      HandleIsOrderly(HandleAll(db, requests[..n]), requests[n]);
      if k <= n {
        assert requests[..n][..k] == requests[..k];
      } else {
        assert requests[..k] == requests;
      }
      var after := HandleAll(db, requests);
      assert c < |after.campaigns| ==> HoldsNothing(after.campaigns[c]);
    }
  }
}
