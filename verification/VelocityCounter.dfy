/** Counters in a key store whose keys expire: INCR, then EXPIRE when the count came back as one. */
module VelocityCounter {
  import opened Books

  type VisitorId = string  // "" when no visitor could be derived

  datatype Key =
    | RawCount(campaign: CampaignId)
    | UniqueCount(campaign: CampaignId)
    | CapCount(campaign: CampaignId, visitor: VisitorId)

  datatype Cell = Cell(count: nat, deadline: Option<nat>)

  datatype Store = Store(cells: map<Key, Cell>, now: nat)

  /** What becomes of the commands of one increment. */
  datatype Link = Up | IncrRefused | IncrReplyLost | ExpireRefused | ExpireReplyLost

  /** The count of a key, zero when it is missing or its deadline has passed. */
  function Live(s: Store, key: Key): nat {
    if key !in s.cells then 0
    else if s.cells[key].deadline.Some? && s.cells[key].deadline.value <= s.now then 0
    else s.cells[key].count
  }

  /** The store after an increment: the first count of a lifetime sets the deadline, if EXPIRE got through. */
  function Incremented(s: Store, key: Key, ttl: nat, link: Link): Store {
    if link.IncrRefused? then s
    else
      var n := Live(s, key) + 1;
      var deadline := if n > 1 then s.cells[key].deadline
                      else if link.Up? || link.ExpireReplyLost? then Some(s.now + ttl)
                      else None;
      s.(cells := s.cells[key := Cell(n, deadline)])
  }

  /** The count the caller is told; zero whenever a command failed. */
  function Told(s: Store, key: Key, link: Link): nat {
    var n := Live(s, key) + 1;
    if link.Up? || (n > 1 && (link.ExpireRefused? || link.ExpireReplyLost?)) then n else 0
  }

  /** An increment that is not refused adds one to its own key, starting again
      at one after the deadline, and touches no other. */
  lemma IncrementedIsOneMore(s: Store, key: Key, ttl: nat, link: Link)
    requires ttl > 0
    ensures Live(Incremented(s, key, ttl, link), key) == Live(s, key) + if link.IncrRefused? then 0 else 1
    ensures forall other | other != key :: Live(Incremented(s, key, ttl, link), other) == Live(s, other)
    ensures Told(s, key, link) > 0 ==> Told(s, key, link) == Live(Incremented(s, key, ttl, link), key)
  {
  }

  /** The caller is told the new count, or zero when the increment failed or was not heard of, or when the first count
      of a lifetime could not be given its deadline or that was not heard of. */
  lemma ToldTheCountIff(s: Store, key: Key, ttl: nat, link: Link)
    requires ttl > 0
    ensures Told(s, key, link) == Live(Incremented(s, key, ttl, link), key) && Told(s, key, link) > 0 <==>
              link == Up || (Live(s, key) > 0 && (link == ExpireRefused || link == ExpireReplyLost))
  {
  }

  /** A lifetime lasts `ttl` seconds from its first count, however often it is counted in between; without a deadline it
      never ends. */
  lemma LifetimeOfACount(s: Store, key: Key, ttl: nat, link: Link, seconds: nat)
    requires ttl > 0 && !link.IncrRefused?
    ensures var after := Incremented(s, key, ttl, link);
            Live(after.(now := s.now + seconds), key) ==
              if Live(s, key) == 0 then (if (link == Up || link == ExpireReplyLost) && seconds >= ttl then 0 else 1)
              else if s.cells[key].deadline.Some? && s.cells[key].deadline.value <= s.now + seconds then 0
              else Live(s, key) + 1
  {
  }

  class RedisVelocityCounterStore {
    var cells: map<Key, Cell>
    var now: nat

    constructor ()
      ensures Contents() == Store(map[], 0)
    {
      cells, now := map[], 0;
    }

    function Contents(): Store
      reads this
    {
      Store(cells, now)
    }

    method Increment(key: Key, ttl: nat, link: Link) returns (count: nat)
      modifies this`cells
      ensures Contents() == Incremented(old(Contents()), key, ttl, link)
      ensures count == Told(old(Contents()), key, link)
    {
      if link.IncrRefused? {
        return 0;
      }
      var cell := if Live(Contents(), key) == 0 then Cell(0, None) else cells[key];
      cells := cells[key := cell.(count := cell.count + 1)];
      if link.IncrReplyLost? {
        return 0;
      }
      count := cells[key].count;
      if count == 1 {
        if link.ExpireRefused? {
          return 0;
        }
        cells := cells[key := cells[key].(deadline := Some(now + ttl))];
        if link.ExpireReplyLost? {
          return 0;
        }
      }
    }

    method Get(key: Key, up: bool) returns (count: nat)
      ensures count == if up then Live(Contents(), key) else 0
    {
      count := if up then Live(Contents(), key) else 0;
    }

    /** One count per key, in the order of the keys. */
    method GetMany(keys: seq<Key>, up: bool) returns (counts: seq<nat>)
      ensures |counts| == |keys|
      ensures forall i | 0 <= i < |keys| :: counts[i] == if up then Live(Contents(), keys[i]) else 0
    {
      counts := [];
      for i := 0 to |keys|
        invariant |counts| == i
        invariant forall j | 0 <= j < i :: counts[j] == if up then Live(Contents(), keys[j]) else 0
      {
        counts := counts + [if up then Live(Contents(), keys[i]) else 0];
      }
    }

    method Wait(seconds: nat)
      modifies this`now
      ensures Contents() == old(Contents()).(now := old(now) + seconds)
    {
      now := now + seconds;
    }
  }
}
