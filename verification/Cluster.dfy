/** The cluster primary: every worker that exits is forked again with the same index, so that index 0 has one owner. */
module Cluster {
  import opened Books

  type Pid = nat

  /** A worker runs the singleton jobs when it has no index or index 0. */
  predicate IsSingletonWorker(index: Option<nat>) {
    index == None || index == Some(0)
  }

  /** Some live worker has index `i`. */
  predicate Owned(live: map<Pid, nat>, i: nat) {
    exists p | p in live :: live[p] == i
  }

  /** The live workers have the indices 0 to n - 1, each exactly once. */
  ghost predicate OneEach(live: map<Pid, nat>, n: nat) {
    && (forall p | p in live :: live[p] < n)
    && (forall i: nat | i < n :: Owned(live, i))
    && (forall p, q | p in live && q in live && live[p] == live[q] :: p == q)
  }

  /** Exactly one live worker runs the singleton jobs; without a cluster there is no index, and the one process does. */
  lemma OneSingleton(live: map<Pid, nat>, n: nat) returns (owner: Pid)
    requires OneEach(live, n) && n > 0
    ensures owner in live && forall p | p in live :: IsSingletonWorker(Some(live[p])) <==> p == owner
    ensures IsSingletonWorker(None)
  {
    assert Owned(live, 0);
    owner :| owner in live && live[owner] == 0;
  }

  /** The index that the replacement of an exited worker gets: the one it was
      started with, or 0 when its pid is unknown. */
  function IndexAfter(indexByPid: map<Pid, nat>, exited: Option<Pid>): nat {
    if exited.Some? && exited.value in indexByPid then indexByPid[exited.value] else 0
  }

  /** The live workers after one exit, when the primary is not shutting down and knows all of them. */
  function AfterExit(live: map<Pid, nat>, exited: Option<Pid>, replacement: Option<Pid>): map<Pid, nat> {
    var rest := if exited.Some? then live - {exited.value} else live;
    if replacement.None? then rest else rest[replacement.value := IndexAfter(live, exited)]
  }

  class ClusterPrimary {
    var indexByPid: map<Pid, nat>
    var shuttingDown: bool
    ghost var live: map<Pid, nat>  // the worker processes that are running, with the index each was started with

    ghost predicate Valid(n: nat)
      reads this
    {
      indexByPid == live && OneEach(live, n)
    }

    /** Starts a worker; `pid` is what the operating system gives it, none if it could not be started. */
    method ForkWorker(index: nat, pid: Option<Pid>)
      modifies this`indexByPid, this`live
      ensures pid.None? ==> live == old(live) && indexByPid == old(indexByPid)
      ensures pid.Some? ==> live == old(live)[pid.value := index] && indexByPid == old(indexByPid)[pid.value := index]
    {
      if pid.Some? {
        live := live[pid.value := index];
        indexByPid := indexByPid[pid.value := index];
      }
    }

    /** Forks the first workers; the operating system gives each a pid of its own. */
    constructor RunPrimary(pids: seq<Pid>)
      requires forall i, j | 0 <= i < j < |pids| :: pids[i] != pids[j]
      ensures Valid(|pids|) && !shuttingDown
    {
      indexByPid, live, shuttingDown := map[], map[], false;
      new;
      for i := 0 to |pids|
        invariant indexByPid == live && !shuttingDown
        invariant forall p :: p in live <==> p in pids[..i]
        invariant forall j | 0 <= j < i :: pids[j] in live && live[pids[j]] == j
      {
        ForkWorker(i, Some(pids[i]));
      }
      assert forall p | p in live :: exists j | 0 <= j < |pids| :: pids[j] == p && live[p] == j;
      forall i: nat | i < |pids| ensures Owned(live, i) {
        assert pids[i] in live;
      }
    }

    /** A worker exited; its replacement gets its index, or 0 when the exited worker is unknown. */
    method OnExit(exited: Option<Pid>, replacement: Option<Pid>)
      requires indexByPid == live
      modifies this`indexByPid, this`live
      ensures indexByPid == live
      ensures live == AfterExit(old(live), exited, if shuttingDown then None else replacement)
      ensures forall n: nat | old(Valid(n)) && !shuttingDown && n > 0
                              && (replacement.Some? ==> replacement.value !in AfterExit(old(live), exited, None)) ::
                Valid(n) <==> (replacement.Some? <==> exited.Some? && exited.value in old(live))
    {
      ghost var before := live;
      var index := IndexAfter(indexByPid, exited);
      if exited.Some? {
        indexByPid := indexByPid - {exited.value};
        live := live - {exited.value};
      }
      if shuttingDown {
        return;
      }
      ForkWorker(index, replacement);
      forall n: nat | OneEach(before, n) && n > 0
                              && (replacement.Some? ==> replacement.value !in AfterExit(before, exited, None))
        ensures OneEach(live, n) <==> (replacement.Some? <==> exited.Some? && exited.value in before)
      {
        OneEachIffKnownAndReplaced(before, exited, replacement, n);
      }
    }

    method Shutdown()
      modifies this`shuttingDown
      ensures shuttingDown
    {
      shuttingDown := true;
    }
  }

  /** Replacing a worker by one with the same index keeps every index at one owner. */
  lemma ReplacedKeepsOneEach(live: map<Pid, nat>, exited: Pid, replacement: Pid, n: nat)
    requires OneEach(live, n) && exited in live && replacement !in live - {exited}
    ensures OneEach(AfterExit(live, Some(exited), Some(replacement)), n)
  {
    var after := AfterExit(live, Some(exited), Some(replacement));
    forall i: nat | i < n ensures Owned(after, i) {
      assert Owned(live, i);
      var p :| p in live && live[p] == i;
      assert after[if p == exited then replacement else p] == i;
    }
  }

  /** Main result: after an exit every index still has one owner exactly when the primary knew the worker and replaced
      it, or neither: an unknown one that is replaced makes a second owner of index 0. */
  lemma OneEachIffKnownAndReplaced(live: map<Pid, nat>, exited: Option<Pid>, replacement: Option<Pid>, n: nat)
    requires OneEach(live, n) && n > 0
    requires replacement.Some? ==> replacement.value !in AfterExit(live, exited, None)
    ensures OneEach(AfterExit(live, exited, replacement), n) <==>
            (replacement.Some? <==> exited.Some? && exited.value in live)
  {
    var after := AfterExit(live, exited, replacement);
    if exited.Some? && exited.value in live {
      if replacement.Some? {
        ReplacedKeepsOneEach(live, exited.value, replacement.value, n);
      } else {
        assert live[exited.value] < n && !Owned(after, live[exited.value]);
      }
    } else if replacement.Some? {
      assert Owned(live, 0);
      var owner :| owner in live && live[owner] == 0;
      UnknownExitDuplicatesTheSingleton(live, owner, exited, replacement.value);
    } else {
      assert after == live;
    }
  }

  /** The replacement of a worker whose pid is unknown, or that never got one, runs the singleton jobs beside whoever
      runs them already. */
  lemma UnknownExitDuplicatesTheSingleton(live: map<Pid, nat>, owner: Pid, exited: Option<Pid>, replacement: Pid)
    requires owner in live && live[owner] == 0 && replacement !in live && (exited.Some? ==> exited.value !in live)
    ensures var after := AfterExit(live, exited, Some(replacement));
            && owner in after && replacement in after && owner != replacement
            && IsSingletonWorker(Some(after[owner])) && IsSingletonWorker(Some(after[replacement]))
            && forall n: nat :: !OneEach(after, n)
  {
    var after := AfterExit(live, exited, Some(replacement));
    assert after[owner] == after[replacement];
  }

  /** How such an exit comes about: a worker exits, its replacement cannot be started and so never gets a pid, and the
      exit of that replacement is reported. Its own replacement takes the right index exactly when that is 0. */
  lemma FailedForkIsMendedIffSingleton(live: map<Pid, nat>, exited: Pid, replacement: Pid, n: nat)
    requires OneEach(live, n) && exited in live && replacement !in live - {exited}
    ensures OneEach(AfterExit(AfterExit(live, Some(exited), None), None, Some(replacement)), n) <==> live[exited] == 0
  {
    var middle := AfterExit(live, Some(exited), None);
    var after := AfterExit(middle, None, Some(replacement));
    if live[exited] == 0 {
      assert after == AfterExit(live, Some(exited), Some(replacement));
      ReplacedKeepsOneEach(live, exited, replacement, n);
    } else {
      assert live[exited] < n && !Owned(after, live[exited]);
    }
  }

  /** A run of exits, each with the pid of the replacement. */
  function AfterExits(live: map<Pid, nat>, exits: seq<(Pid, Pid)>): map<Pid, nat> {
    if exits == [] then live
    else
      var before := AfterExits(live, exits[..|exits| - 1]);
      var (exited, replacement) := exits[|exits| - 1];
      if exited in before then AfterExit(before, Some(exited), Some(replacement)) else before
  }

  /** Every replacement got a pid that no other live worker has. */
  ghost predicate PidsDistinct(live: map<Pid, nat>, exits: seq<(Pid, Pid)>) {
    forall k | 0 <= k < |exits| :: exits[k].1 !in AfterExits(live, exits[..k]) - {exits[k].0}
  }

  /** Main result: however many workers exit, in whatever order, each index keeps exactly one live owner. */
  lemma {:induction false} OneEachAfterEveryExit(live: map<Pid, nat>, exits: seq<(Pid, Pid)>, n: nat)
    requires OneEach(live, n) && PidsDistinct(live, exits)
    ensures OneEach(AfterExits(live, exits), n)
  {
    if exits != [] {
      var m := |exits| - 1;
      forall k | 0 <= k < m ensures exits[..m][k].1 !in AfterExits(live, exits[..m][..k]) - {exits[..m][k].0} {
        assert exits[..m][..k] == exits[..k];
      }
      OneEachAfterEveryExit(live, exits[..m], n);
      var before := AfterExits(live, exits[..m]);
      if exits[m].0 in before {
        ReplacedKeepsOneEach(before, exits[m].0, exits[m].1, n);
      }
    }
  }
}
