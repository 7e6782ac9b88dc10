/** The caches of the ad server: replacing the stored set in one atomic step,
    and skipping the write when nothing changed. */
module CacheSync {
  import opened Books
  import opened Auction

  type Ip = string

  /** The two keys of the blacklist in the key store. */
  datatype Keys = Keys(stored: Option<set<Ip>>, staging: Option<set<Ip>>)

  datatype Command = DelStaging | DelStored | AddToStaging(ips: seq<Ip>) | Rename

  /** What lookups see. */
  function Members(k: Keys): set<Ip> {
    if k.stored.Some? then k.stored.value else {}
  }

  function SetOf(ips: seq<Ip>): set<Ip> {
    set ip | ip in ips
  }

  function Executed(k: Keys, command: Command): Keys {
    match command
    case DelStaging => k.(staging := None)
    case DelStored => k.(stored := None)
    case AddToStaging(ips) => k.(staging := Some((if k.staging.Some? then k.staging.value else {}) + SetOf(ips)))
    case Rename => if k.staging.None? then k else Keys(k.staging, None)
  }

  function ExecutedAll(k: Keys, commands: seq<Command>): Keys {
    if commands == [] then k else Executed(ExecutedAll(k, commands[..|commands| - 1]), commands[|commands| - 1])
  }

  /** The commands that replace the blacklist. */
  function Script(ips: seq<Ip>): seq<Command> {
    if ips == [] then [DelStaging, DelStored] else [DelStaging, AddToStaging(ips), Rename]
  }

  lemma ScriptSteps(k: Keys, ips: seq<Ip>)
    ensures ExecutedAll(k, Script(ips)[..0]) == k
    ensures ExecutedAll(k, Script(ips)[..1]) == k.(staging := None)
    ensures ips != [] ==> ExecutedAll(k, Script(ips)[..2]) == k.(staging := Some(SetOf(ips)))
    ensures ExecutedAll(k, Script(ips)) == Keys(if ips == [] then None else Some(SetOf(ips)), None)
  {
    var script := Script(ips);
    assert script[..1][..0] == script[..0] && script[..2][..1] == script[..1];
    assert script[..|script|] == script;
    if ips != [] {
      assert script[..3][..2] == script[..2];
      assert {} + SetOf(ips) == SetOf(ips);
    }
  }

  /** Main result: whenever the replacement stops, and at each step of it,
      lookups see the whole old set or the whole new one. */
  lemma WholeOldOrWholeNew(k: Keys, ips: seq<Ip>, n: nat)
    requires n <= |Script(ips)|
    ensures Members(ExecutedAll(k, Script(ips)[..n])) == if n < |Script(ips)| then Members(k) else SetOf(ips)
  {
    ScriptSteps(k, ips);
    assert n == |Script(ips)| ==> Script(ips)[..n] == Script(ips);
  }

  /** How a write ends: it went through, or it stopped after `executed`
      commands, the last of which may have lost its reply. */
  datatype Write = Done | Stopped(executed: nat)

  function Written(k: Keys, ips: seq<Ip>, write: Write): Keys {
    if write.Stopped? && write.executed <= |Script(ips)| then ExecutedAll(k, Script(ips)[..write.executed])
    else ExecutedAll(k, Script(ips))
  }

  /** A sync service: the stored keys, the snapshot of the last write it knows of, and the rows of the latest
      write since then that took effect although its last reply was lost. */
  datatype Sync = Sync(keys: Keys, lastSynced: Option<multiset<Ip>>, unheard: Option<seq<Ip>>)

  /** A service that has just started: it knows of no write, whatever the store holds from earlier processes. */
  function Started(keys: Keys): Sync {
    Sync(keys, None, None)
  }

  /** One tick: the rows just read, and how the write ends if there is one. */
  datatype Tick = Tick(rows: seq<Ip>, write: Write)

  predicate TookEffect(tick: Tick) {
    tick.write.Done? || tick.write.executed >= |Script(tick.rows)|
  }

  /** The snapshot says there is nothing to write. */
  predicate Skips(s: Sync, tick: Tick) {
    s.lastSynced == Some(multiset(tick.rows))
  }

  function AfterTick(s: Sync, tick: Tick): Sync {
    if Skips(s, tick) then s
    else if tick.write.Done? then Sync(Written(s.keys, tick.rows, tick.write), Some(multiset(tick.rows)), None)
    else Sync(Written(s.keys, tick.rows, tick.write), s.lastSynced,
              if TookEffect(tick) then Some(tick.rows) else s.unheard)
  }

  predicate Succeeds(s: Sync, tick: Tick) {
    Skips(s, tick) || tick.write.Done?
  }

  function Run(s: Sync, ticks: seq<Tick>): Sync {
    if ticks == [] then s else AfterTick(Run(s, ticks[..|ticks| - 1]), ticks[|ticks| - 1])
  }

  /** What a lookup answers while the store can be read. */
  predicate IsListed(k: Keys, ip: Ip) {
    ip in Members(k)
  }

  /** Lookups answer by these rows. */
  ghost predicate AnswersBy(k: Keys, rows: seq<Ip>) {
    forall ip :: IsListed(k, ip) <==> ip in rows
  }

  /** Lookups answer by the latest unheard write, or else by the snapshot, if there is one. */
  ghost predicate Agrees(s: Sync) {
    match s.unheard
    case Some(rows) => AnswersBy(s.keys, rows)
    case None => s.lastSynced.Some? ==> forall ip :: IsListed(s.keys, ip) <==> ip in s.lastSynced.value
  }

  lemma WrittenAnswers(k: Keys, tick: Tick)
    ensures TookEffect(tick) ==> AnswersBy(Written(k, tick.rows, tick.write), tick.rows)
    ensures !TookEffect(tick) ==> Members(Written(k, tick.rows, tick.write)) == Members(k)
  {
    var all := |Script(tick.rows)|;
    var n := if tick.write.Stopped? && tick.write.executed <= all then tick.write.executed else all;
    WholeOldOrWholeNew(k, tick.rows, n);
    assert Script(tick.rows)[..|Script(tick.rows)|] == Script(tick.rows);
  }

  lemma {:induction false} EveryRunAgrees(keys: Keys, ticks: seq<Tick>)
    ensures Agrees(Run(Started(keys), ticks))
  {
    if ticks != [] {
      var n := |ticks| - 1;
      EveryRunAgrees(keys, ticks[..n]);
      WrittenAnswers(Run(Started(keys), ticks[..n]).keys, ticks[n]);
    }
  }

  /** Main result: in every run, over whatever the store held when the service started, a tick that wrote leaves
      lookups answering by the rows it read; a tick that skipped the write does so if and only if no write since
      the snapshot took effect unheard, or the latest such write had the same entries. */
  lemma SuccessfulTickIsRightIff(keys: Keys, ticks: seq<Tick>, tick: Tick)
    requires Succeeds(Run(Started(keys), ticks), tick)
    ensures var before := Run(Started(keys), ticks);
            AnswersBy(AfterTick(before, tick).keys, tick.rows) <==>
            !Skips(before, tick) || before.unheard.None? || SetOf(before.unheard.value) == SetOf(tick.rows)
  {
    var before := Run(Started(keys), ticks);
    EveryRunAgrees(keys, ticks);
    WrittenAnswers(before.keys, tick);
    if Skips(before, tick) {
      assert forall ip :: ip in multiset(tick.rows) <==> ip in tick.rows;
      if before.unheard.Some? {
        assert SetOf(before.unheard.value) == SetOf(tick.rows) <==>
               forall ip :: ip in before.unheard.value <==> ip in tick.rows by {
          SameEntries(before.unheard.value, tick.rows);
        }
        if AnswersBy(before.keys, tick.rows) {
          forall ip ensures ip in before.unheard.value <==> ip in tick.rows {
            assert IsListed(before.keys, ip) <==> ip in tick.rows;
          }
        }
      }
    }
  }

  lemma SameEntries(a: seq<Ip>, b: seq<Ip>)
    ensures SetOf(a) == SetOf(b) <==> forall ip :: ip in a <==> ip in b
  {
    if SetOf(a) == SetOf(b) {
      forall ip ensures ip in a <==> ip in b {
        assert ip in SetOf(a) <==> ip in a;
        assert ip in SetOf(b) <==> ip in b;
      }
    }
  }

  lemma PermutationsHaveOneSet(a: seq<Ip>, b: seq<Ip>)
    ensures multiset(a) == multiset(b) ==> SetOf(a) == SetOf(b)
  {
    if multiset(a) == multiset(b) {
      forall ip ensures ip in a <==> ip in b {
        assert ip in multiset(a) <==> ip in a;
        assert ip in multiset(b) <==> ip in b;
      }
      SameEntries(a, b);
    }
  }

  /** A tick that fails changes what lookups answer only if its write took effect, and then to the rows of that tick. */
  lemma FailedTickIsOldOrNew(s: Sync, tick: Tick)
    requires !Succeeds(s, tick)
    ensures if TookEffect(tick) then AnswersBy(AfterTick(s, tick).keys, tick.rows)
            else Members(AfterTick(s, tick).keys) == Members(s.keys)
  {
    WrittenAnswers(s.keys, tick);
  }

  /** The condition can fail: rows, a write of other rows whose last reply is lost, and the first rows again. */
  lemma LostReplyThenRevertIsWrong(keys: Keys, rows: seq<Ip>, other: seq<Ip>)
    requires SetOf(rows) != SetOf(other)
    ensures var lost := Run(Started(keys), [Tick(rows, Done), Tick(other, Stopped(|Script(other)|))]);
            Succeeds(lost, Tick(rows, Done)) && !AnswersBy(AfterTick(lost, Tick(rows, Done)).keys, rows)
  {
    var first, second := Tick(rows, Done), Tick(other, Stopped(|Script(other)|));
    assert [first, second][..1] == [first] && [first][..0] == [];
    assert Run(Started(keys), [first]) == AfterTick(Started(keys), first);
    assert Run(Started(keys), [first, second]) == AfterTick(AfterTick(Started(keys), first), second);
    PermutationsHaveOneSet(other, rows);
    SuccessfulTickIsRightIff(keys, [first, second], first);
  }

  class RedisBlacklistCacheStore {
    var keys: Keys

    constructor (keys: Keys)
      ensures this.keys == keys
    {
      this.keys := keys;
    }

    /** One command; it may take effect although its reply is lost. */
    method Send(command: Command)
      modifies this
      ensures keys == Executed(old(keys), command)
    {
      match command
      case DelStaging => keys := keys.(staging := None);
      case DelStored => keys := keys.(stored := None);
      case AddToStaging(ips) =>
        var staged := if keys.staging.Some? then keys.staging.value else {};
        keys := keys.(staging := Some(staged + SetOf(ips)));
      case Rename =>
        if keys.staging.Some? {
          keys := Keys(keys.staging, None);
        }
    }

    method ReplaceBlacklistedIps(ips: seq<Ip>, write: Write) returns (ok: bool)
      modifies this
      ensures ok <==> write.Done? || write.executed > |Script(ips)|
      ensures keys == Written(old(keys), ips, write)
    {
      ghost var start := keys;
      ScriptSteps(start, ips);
      var last := if write.Done? || write.executed > |Script(ips)| then |Script(ips)| + 1 else write.executed;
      if last == 0 {
        return false;
      }
      Send(DelStaging);
      if last == 1 {
        return false;
      }
      if |ips| == 0 {
        Send(DelStored);
        assert Script(ips)[..2] == Script(ips);
        return last > 2;
      }
      Send(AddToStaging(ips));
      assert keys == start.(staging := Some(SetOf(ips)));
      if last == 2 {
        return false;
      }
      Send(Rename);
      assert Script(ips)[..3] == Script(ips);
      ok := last > 3;
    }

    /** A store that cannot be read lists nobody. */
    method IsBlacklisted(ip: Ip, up: bool) returns (listed: bool)
      ensures listed <==> up && IsListed(keys, ip)
    {
      if !up {
        return false;
      }
      listed := keys.stored.Some? && ip in keys.stored.value;
    }
  }

  class BlacklistCacheSyncService {
    const store: RedisBlacklistCacheStore
    var lastSyncedSnapshot: Option<multiset<Ip>>
    ghost var unheard: Option<seq<Ip>>

    constructor (store: RedisBlacklistCacheStore)
      ensures this.store == store && State() == Started(store.keys)
    {
      this.store := store;
      lastSyncedSnapshot, unheard := None, None;
    }

    ghost function State(): Sync
      reads this, store
    {
      Sync(store.keys, lastSyncedSnapshot, unheard)
    }

    /** Writes the rows only when they differ from the last snapshot written. */
    method SyncBlacklistedIps(rows: seq<Ip>, write: Write) returns (ok: bool)
      requires write.Stopped? ==> write.executed <= |Script(rows)|
      modifies this, store
      ensures State() == AfterTick(old(State()), Tick(rows, write))
      ensures ok == Succeeds(old(State()), Tick(rows, write))
    {
      var snapshot := multiset(rows);
      ok := true;
      if lastSyncedSnapshot != Some(snapshot) {
        ok := store.ReplaceBlacklistedIps(rows, write);
        if ok {
          lastSyncedSnapshot := Some(snapshot);
          unheard := None;
        } else if TookEffect(Tick(rows, write)) {
          unheard := Some(rows);
        }
      }
    }
  }

  // --- the campaign list: one key, written in one command ---

  datatype ListWrite = Set | SetRefused | SetReplyLost

  /** As for the blacklist: the stored list, the snapshot of the last write known of, and the rows of the latest write
      since then that took effect although its reply was lost. */
  datatype ListSync = ListSync(
    stored: seq<Candidate>,
    lastSynced: Option<multiset<Candidate>>,
    unheard: Option<seq<Candidate>>)

  function ListStarted(stored: seq<Candidate>): ListSync {
    ListSync(stored, None, None)
  }

  function AfterListTick(s: ListSync, rows: seq<Candidate>, write: ListWrite): ListSync {
    if s.lastSynced == Some(multiset(rows)) || write.SetRefused? then s
    else if write.Set? then ListSync(rows, Some(multiset(rows)), None)
    else ListSync(rows, s.lastSynced, Some(rows))
  }

  predicate ListTickSucceeds(s: ListSync, rows: seq<Candidate>, write: ListWrite) {
    s.lastSynced == Some(multiset(rows)) || write.Set?
  }

  function ListRun(s: ListSync, ticks: seq<(seq<Candidate>, ListWrite)>): ListSync {
    if ticks == [] then s
    else AfterListTick(ListRun(s, ticks[..|ticks| - 1]), ticks[|ticks| - 1].0, ticks[|ticks| - 1].1)
  }

  /** The stored list is that of the latest unheard write, or else a permutation of the snapshot, if there is one. */
  ghost predicate ListAgrees(s: ListSync) {
    match s.unheard
    case Some(rows) => s.stored == rows
    case None => s.lastSynced.Some? ==> multiset(s.stored) == s.lastSynced.value
  }

  lemma {:induction false} EveryListRunAgrees(stored: seq<Candidate>, ticks: seq<(seq<Candidate>, ListWrite)>)
    ensures ListAgrees(ListRun(ListStarted(stored), ticks))
  {
    if ticks != [] {
      EveryListRunAgrees(stored, ticks[..|ticks| - 1]);
    }
  }

  /** Main result: in every run, over whatever the store held at the start, a tick that wrote leaves a permutation of
      the rows just read; one that skipped the write does so if and only if no write since the snapshot took effect
      unheard, or the rows of the latest such write are a permutation of those just read. */
  lemma {:induction false} CachedListIsAPermutationIff(
      stored: seq<Candidate>, ticks: seq<(seq<Candidate>, ListWrite)>, rows: seq<Candidate>, write: ListWrite)
    requires ListTickSucceeds(ListRun(ListStarted(stored), ticks), rows, write)
    ensures var before := ListRun(ListStarted(stored), ticks);
            multiset(AfterListTick(before, rows, write).stored) == multiset(rows) <==>
              before.lastSynced != Some(multiset(rows))
              || before.unheard.None? || multiset(before.unheard.value) == multiset(rows)
  {
    EveryListRunAgrees(stored, ticks);
  }

  /** The condition can fail: rows, other rows whose write is not heard of, and the first rows again. */
  lemma LostListReplyThenRevertIsWrong(stored: seq<Candidate>, rows: seq<Candidate>, other: seq<Candidate>)
    requires multiset(rows) != multiset(other)
    ensures var lost := ListRun(ListStarted(stored), [(rows, Set), (other, SetReplyLost)]);
            ListTickSucceeds(lost, rows, Set) && AfterListTick(lost, rows, Set).stored == other
  {
    var ticks := [(rows, Set), (other, SetReplyLost)];
    assert ticks[..1] == [(rows, Set)] && ticks[..1][..0] == [];
    assert ListRun(ListStarted(stored), ticks[..1]) == ListSync(rows, Some(multiset(rows)), None);
  }

  class CampaignCacheSyncService {
    var stored: seq<Candidate>
    var lastSyncedSnapshot: Option<multiset<Candidate>>
    ghost var unheard: Option<seq<Candidate>>

    /** `stored` is what the store holds already. */
    constructor (stored: seq<Candidate>)
      ensures State() == ListStarted(stored)
    {
      this.stored, lastSyncedSnapshot, unheard := stored, None, None;
    }

    ghost function State(): ListSync
      reads this
    {
      ListSync(stored, lastSyncedSnapshot, unheard)
    }

    method SyncActiveCampaigns(rows: seq<Candidate>, write: ListWrite) returns (ok: bool)
      modifies this
      ensures State() == AfterListTick(old(State()), rows, write)
      ensures ok == ListTickSucceeds(old(State()), rows, write)
    {
      if lastSyncedSnapshot != Some(multiset(rows)) {
        if write.SetRefused? {
          return false;
        }
        stored := rows;
        if !write.Set? {
          unheard := Some(rows);
          return false;
        }
        unheard := None;
        lastSyncedSnapshot := Some(multiset(rows));
      }
      ok := true;
    }
  }
}
