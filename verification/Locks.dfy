/** Which mixes of wallet transactions can deadlock on their row locks.

  Every transaction takes exclusive row locks one by one and keeps them until it ends. The order
  claimed for the service is User, then Wallet, then Campaign; two transactions do not follow it.
 */
module Locks {
  datatype Table = PayoutTable | UserTable | WalletTable | CampaignTable

  /** One row of one table; a wallet has the id of its user. */
  datatype Lock = Lock(table: Table, row: nat)

  datatype TxKind = Deposit | Reserve | Release | Spend | Credit | Promote | RequestPayout | Complete | Fail

  /** The rows a transaction locks, in the order in which it locks them. */
  function LockPlan(kind: TxKind, user: nat, target: nat): (plan: seq<Lock>) {
    var u, w := Lock(UserTable, user), Lock(WalletTable, user);
    match kind
    case Deposit => [u, w]
    case Reserve => [u, w, Lock(CampaignTable, target)]
    case Release => [u, w, Lock(CampaignTable, target)]
    case Spend => [Lock(CampaignTable, target), w]
    case Credit => [u, w]
    case Promote => [u, w]
    case RequestPayout => [u, w]
    case Complete => [Lock(PayoutTable, target), w]
    case Fail => [Lock(PayoutTable, target), w, u]
  }

  /** A running transaction has taken the first `taken` locks of its plan; one that has ended holds none. */
  datatype Tx = Tx(kind: TxKind, user: nat, target: nat, taken: nat, ended: bool) {
    function Plan(): seq<Lock> {
      LockPlan(kind, user, target)
    }

    predicate Holds(l: Lock) {
      !ended && taken <= |Plan()| && l in Plan()[..taken]
    }

    /** It still has a lock to take. */
    predicate Wants() {
      !ended && taken < |Plan()|
    }

    function Next(): Lock
      requires Wants()
    {
      Plan()[taken]
    }
  }

  type System = seq<Tx>

  /** Transaction `i` cannot go on before transaction `j` ends. */
  ghost predicate WaitsFor(s: System, i: nat, j: nat) {
    i < |s| && j < |s| && i != j && s[i].Wants() && s[j].Holds(s[i].Next())
  }

  datatype Event = Take(tx: nat) | End(tx: nat)

  /** Taking a lock needs it to be free; a transaction may end, by COMMIT or ROLLBACK, at any time. */
  ghost predicate Allowed(s: System, e: Event) {
    match e
    case Take(i) => i < |s| && s[i].Wants() && forall j | 0 <= j < |s| && j != i :: !s[j].Holds(s[i].Next())
    case End(i) => i < |s| && !s[i].ended
  }

  function After(s: System, e: Event): System
    requires e.tx < |s|
  {
    match e
    case Take(i) => s[i := s[i].(taken := s[i].taken + 1)]
    case End(i) => s[i := s[i].(ended := true)]
  }

  ghost predicate Runs(s: System, events: seq<Event>)
    decreases |events|
  {
    events == [] || (Allowed(s, events[0]) && Runs(After(s, events[0]), events[1..]))
  }

  ghost function Final(s: System, events: seq<Event>): System
    requires Runs(s, events)
    decreases |events|
  {
    if events == [] then s else Final(After(s, events[0]), events[1..])
  }

  ghost predicate Fresh(s: System) {
    forall i | 0 <= i < |s| :: s[i].taken == 0 && !s[i].ended
  }

  /** Some interleaving of fresh transactions of these kinds leads to `s`. */
  ghost predicate Reachable(kinds: set<TxKind>, s: System) {
    exists start: System, events: seq<Event> | Fresh(start) && Runs(start, events) ::
      s == Final(start, events) && forall i | 0 <= i < |start| :: start[i].kind in kinds
  }

  lemma {:induction false} FinalKeepsKinds(s: System, events: seq<Event>)
    requires Runs(s, events)
    ensures |Final(s, events)| == |s| && forall i | 0 <= i < |s| :: Final(s, events)[i].kind == s[i].kind
    decreases |events|
  {
    if events != [] {
      FinalKeepsKinds(After(s, events[0]), events[1..]);
    }
  }

  /** `blockedBy` maps transactions to the one of them they wait for: a wait cycle runs through it. */
  ghost predicate Deadlocked(s: System, blockedBy: map<nat, nat>) {
    blockedBy != map[] && forall i {:trigger blockedBy[i]} | i in blockedBy ::
      blockedBy[i] in blockedBy && WaitsFor(s, i, blockedBy[i])
  }

  /** A ranking of the four tables. */
  datatype Order = Order(payout: nat, user: nat, wallet: nat, campaign: nat) {
    function Rank(l: Lock): nat {
      match l.table
      case PayoutTable => payout
      case UserTable => user
      case WalletTable => wallet
      case CampaignTable => campaign
    }

    /** Transactions of this kind take their locks strictly upwards. */
    ghost predicate FollowedBy(kind: TxKind) {
      forall user: nat, target: nat, i, j | 0 <= i < j < |LockPlan(kind, user, target)| ::
        Rank(LockPlan(kind, user, target)[i]) < Rank(LockPlan(kind, user, target)[j])
    }

    ghost predicate FollowedByAll(s: System) {
      forall i {:trigger FollowedBy(s[i].kind)} | 0 <= i < |s| :: FollowedBy(s[i].kind)
    }
  }

  lemma WaitingClimbs(s: System, order: Order, i: nat, j: nat)
    requires WaitsFor(s, i, j) && s[j].Wants() && order.FollowedBy(s[j].kind)
    ensures order.Rank(s[i].Next()) < order.Rank(s[j].Next())
  {
    var plan := LockPlan(s[j].kind, s[j].user, s[j].target);
    var k :| 0 <= k < s[j].taken && plan[k] == s[i].Next();
    assert order.Rank(plan[k]) < order.Rank(plan[s[j].taken]);
  }

  /** The rank of the lock that transaction `i` wants next. */
  function Height(s: System, order: Order, i: nat): nat {
    if i < |s| && s[i].Wants() then order.Rank(s[i].Next()) else 0
  }

  lemma BlockerIsHigher(s: System, order: Order, i: nat, j: nat, k: nat)
    requires order.FollowedByAll(s) && WaitsFor(s, i, j) && WaitsFor(s, j, k)
    ensures Height(s, order, i) < Height(s, order, j) <= order.payout + order.user + order.wallet + order.campaign
  {
    WaitingClimbs(s, order, i, j);
  }

  /** Along a wait cycle the ranks would climb for ever, but they are bounded. */
  lemma {:induction false} NoWaitCycle(s: System, order: Order, blockedBy: map<nat, nat>, i: nat)
    requires order.FollowedByAll(s) && Deadlocked(s, blockedBy) && i in blockedBy
    ensures false
    decreases order.payout + order.user + order.wallet + order.campaign - Height(s, order, i)
  {
    hide WaitsFor;
    hide Height;
    var j := blockedBy[i];
    assert WaitsFor(s, i, j) && WaitsFor(s, j, blockedBy[j]);
    BlockerIsHigher(s, order, i, j, blockedBy[j]);
    NoWaitCycle(s, order, blockedBy, j);
  }

  /** When every transaction follows one order, no set of them can wait for each other, in any state. */
  lemma OrderedNeverDeadlocks(s: System, order: Order, blockedBy: map<nat, nat>)
    requires order.FollowedByAll(s)
    ensures !Deadlocked(s, blockedBy)
  {
    if Deadlocked(s, blockedBy) {
      var i :| i in blockedBy;
      NoWaitCycle(s, order, blockedBy, i);
    }
  }

  /** Somebody else holds the lock that transaction `i` wants next. */
  ghost predicate Blocked(s: System, i: nat) {
    exists j: nat :: WaitsFor(s, i, j)
  }

  ghost predicate AllBlocked(s: System) {
    forall i: nat {:trigger Blocked(s, i)} | i < |s| && !s[i].ended :: Blocked(s, i)
  }

  ghost function Blocker(s: System, i: nat): (j: nat)
    requires Blocked(s, i)
    ensures WaitsFor(s, i, j)
  {
    var j: nat :| WaitsFor(s, i, j); j
  }

  ghost function BlockerMap(s: System): (blockedBy: map<nat, nat>)
    requires AllBlocked(s)
    ensures forall i: nat :: i in blockedBy <==> i < |s| && !s[i].ended
    ensures forall i {:trigger blockedBy[i]} | i in blockedBy ::
              blockedBy[i] in blockedBy && WaitsFor(s, i, blockedBy[i])
  {
    map i: nat | i < |s| && !s[i].ended :: assert Blocked(s, i); Blocker(s, i)
  }

  lemma AllBlockedIsDeadlock(s: System, running: nat)
    requires AllBlocked(s) && running < |s| && !s[running].ended
    ensures Deadlocked(s, BlockerMap(s))
  {
    assert running in BlockerMap(s);
  }

  lemma UnblockedCanTake(s: System, i: nat)
    requires i < |s| && s[i].Wants() && !Blocked(s, i)
    ensures Allowed(s, Take(i))
  {
    forall j | 0 <= j < |s| && j != i ensures !s[j].Holds(s[i].Next()) {
      assert !WaitsFor(s, i, j);
    }
  }

  /** Transaction `i` is running and can take its next lock, or holds all of them and can commit. */
  ghost predicate CanProceed(s: System, i: nat) {
    i < |s| && !s[i].ended && (s[i].Wants() ==> Allowed(s, Take(i)))
  }

  /** When every transaction follows one order, one of those running can take its next lock or has none left. */
  lemma OrderedAlwaysProgresses(s: System, order: Order, running: nat)
    requires order.FollowedByAll(s) && running < |s| && !s[running].ended
    ensures exists i: nat :: CanProceed(s, i)
  {
    if AllBlocked(s) {
      AllBlockedIsDeadlock(s, running);
      OrderedNeverDeadlocks(s, order, BlockerMap(s));
    }
    var i: nat :| i < |s| && !s[i].ended && !Blocked(s, i);
    if s[i].Wants() {
      UnblockedCanTake(s, i);
    }
    assert CanProceed(s, i);
  }

  const CLAIMED_ORDER := Order(0, 1, 2, 3)

  predicate TakesUserThenWallet(kind: TxKind) {
    kind != Spend && kind != Complete && kind != Fail
  }

  lemma WhoFollowsTheClaimedOrder(kind: TxKind)
    ensures CLAIMED_ORDER.FollowedBy(kind) <==> kind != Spend && kind != Fail
  {
    if kind == Spend {
      assert !(CLAIMED_ORDER.Rank(LockPlan(Spend, 0, 0)[0]) < CLAIMED_ORDER.Rank(LockPlan(Spend, 0, 0)[1]));
    } else if kind == Fail {
      assert !(CLAIMED_ORDER.Rank(LockPlan(Fail, 0, 0)[1]) < CLAIMED_ORDER.Rank(LockPlan(Fail, 0, 0)[2]));
    }
  }

  /** Without `recordCampaignSpend` and `failPayout`, any number of concurrent transactions is free of deadlock. */
  lemma ClaimedOrderIsDeadlockFree(s: System, blockedBy: map<nat, nat>)
    requires forall i | 0 <= i < |s| :: s[i].kind != Spend && s[i].kind != Fail
    ensures !Deadlocked(s, blockedBy)
  {
    forall i | 0 <= i < |s| ensures CLAIMED_ORDER.FollowedBy(s[i].kind) {
      WhoFollowsTheClaimedOrder(s[i].kind);
    }
    OrderedNeverDeadlocks(s, CLAIMED_ORDER, blockedBy);
  }

  /** The kinds that can run beside each other: spends without reservations and releases, and failed payouts
      without the transactions that lock the user before the wallet. */
  ghost predicate SafeMix(kinds: set<TxKind>) {
    && !(Spend in kinds && (Reserve in kinds || Release in kinds))
    && !(Fail in kinds && exists kind | kind in kinds :: TakesUserThenWallet(kind))
  }

  /** An order that a safe mix follows. */
  function OrderFor(kinds: set<TxKind>): Order {
    if Fail in kinds then Order(0, 3, 2, 1)
    else if Spend in kinds then Order(0, 1, 3, 2)
    else CLAIMED_ORDER
  }

  lemma SafeMixHasOrder(kinds: set<TxKind>, kind: TxKind)
    requires SafeMix(kinds) && kind in kinds
    ensures OrderFor(kinds).FollowedBy(kind)
  {
  }

  lemma ThreeEvents(s: System, e: Event, f: Event, g: Event)
    requires Allowed(s, e) && Allowed(After(s, e), f) && Allowed(After(After(s, e), f), g)
    ensures Runs(s, [e, f, g]) && Final(s, [e, f, g]) == After(After(After(s, e), f), g)
  {
    var s2 := After(After(s, e), f);
    assert [g][1..] == [] && [f, g][1..] == [g] && [e, f, g][1..] == [f, g];
    assert Runs(After(s2, g), []) && Final(After(s2, g), []) == After(s2, g);
    assert Runs(s2, [g]) && Final(s2, [g]) == After(s2, g);
    assert Runs(After(s, e), [f, g]) && Final(After(s, e), [f, g]) == After(s2, g);
  }

  lemma SpendAgainstReserve(kinds: set<TxKind>, kind: TxKind)
    requires Spend in kinds && kind in kinds && (kind == Reserve || kind == Release)
    ensures exists s: System, blockedBy: map<nat, nat> :: Reachable(kinds, s) && Deadlocked(s, blockedBy)
  {
    hide Runs;
    hide Final;
    var a, b := Tx(kind, 0, 0, 0, false), Tx(Spend, 0, 0, 0, false);
    var s := [a.(taken := 2), b.(taken := 1)];
    assert a.Plan()[..2] == [Lock(UserTable, 0), Lock(WalletTable, 0)] && b.Plan()[..1] == [Lock(CampaignTable, 0)];
    ThreeEvents([a, b], Take(0), Take(0), Take(1));
    assert Final([a, b], [Take(0), Take(0), Take(1)]) == s && Fresh([a, b]);
    assert Reachable(kinds, s);
    assert WaitsFor(s, 0, 1) && WaitsFor(s, 1, 0);
    var blockedBy: map<nat, nat> := map[0 := 1, 1 := 0];
    assert blockedBy[0] == 1 && blockedBy[1] == 0;
    assert Deadlocked(s, blockedBy);
  }

  lemma FailAgainstUserFirst(kinds: set<TxKind>, kind: TxKind)
    requires Fail in kinds && kind in kinds && TakesUserThenWallet(kind)
    ensures exists s: System, blockedBy: map<nat, nat> :: Reachable(kinds, s) && Deadlocked(s, blockedBy)
  {
    hide Runs;
    hide Final;
    var a, b := Tx(kind, 0, 0, 0, false), Tx(Fail, 0, 0, 0, false);
    var s := [a.(taken := 1), b.(taken := 2)];
    assert a.Plan()[..1] == [Lock(UserTable, 0)] && a.Plan()[1] == Lock(WalletTable, 0);
    assert b.Plan()[..2] == [Lock(PayoutTable, 0), Lock(WalletTable, 0)];
    ThreeEvents([a, b], Take(0), Take(1), Take(1));
    assert Final([a, b], [Take(0), Take(1), Take(1)]) == s && Fresh([a, b]);
    assert Reachable(kinds, s);
    assert WaitsFor(s, 0, 1) && WaitsFor(s, 1, 0);
    var blockedBy: map<nat, nat> := map[0 := 1, 1 := 0];
    assert blockedBy[0] == 1 && blockedBy[1] == 0;
    assert Deadlocked(s, blockedBy);
  }

  /** Main result: exactly the safe mixes can never reach a deadlock, however many transactions run. */
  lemma DeadlockFreeIffSafeMix(kinds: set<TxKind>)
    ensures SafeMix(kinds) <==> forall s: System, blockedBy: map<nat, nat> | Reachable(kinds, s) ::
            !Deadlocked(s, blockedBy)
  {
    if SafeMix(kinds) {
      forall s: System, blockedBy: map<nat, nat> | Reachable(kinds, s) ensures !Deadlocked(s, blockedBy) {
        var start: System, events: seq<Event> :| Fresh(start) && Runs(start, events) && s == Final(start, events)
                             && forall i | 0 <= i < |start| :: start[i].kind in kinds;
        FinalKeepsKinds(start, events);
        forall i | 0 <= i < |s| ensures OrderFor(kinds).FollowedBy(s[i].kind) {
          SafeMixHasOrder(kinds, s[i].kind);
        }
        OrderedNeverDeadlocks(s, OrderFor(kinds), blockedBy);
      }
    } else if Spend in kinds && (Reserve in kinds || Release in kinds) {
      SpendAgainstReserve(kinds, if Reserve in kinds then Reserve else Release);
    } else {
      var kind :| kind in kinds && TakesUserThenWallet(kind);
      FailAgainstUserFirst(kinds, kind);
    }
  }
}
