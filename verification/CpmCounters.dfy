/** Batches of a thousand: which batch numbers a counter hands to billing. */
module CpmCounters {
  const IMPRESSIONS_PER_CPM_BATCH := 1000

  /** What became of one increment as its caller sees it. */
  datatype Heard = Counted | CountedUnheard | NotCounted

  /** A counter with its history: the counts nobody heard, how often the caller was told zero instead, and the
      batch numbers handed to billing, oldest first. */
  datatype Counter = Counter(count: nat, unheard: set<nat>, failures: nat, due: seq<nat>)

  const FRESH := Counter(0, {}, 0, [])

  /** The count the caller is told, zero on any failure. */
  function ToldCount(k: Counter, heard: Heard): nat {
    if heard.Counted? then k.count + 1 else 0
  }

  function Tally(k: Counter, heard: Heard): Counter {
    var told := ToldCount(k, heard);
    Counter(
      if heard.NotCounted? then k.count else k.count + 1,
      if heard.CountedUnheard? then k.unheard + {k.count + 1} else k.unheard,
      if heard.Counted? then k.failures else k.failures + 1,
      if told % IMPRESSIONS_PER_CPM_BATCH == 0 then k.due + [told / IMPRESSIONS_PER_CPM_BATCH] else k.due)
  }

  function TallyAll(k: Counter, history: seq<Heard>): Counter {
    if history == [] then k else Tally(TallyAll(k, history[..|history| - 1]), history[|history| - 1])
  }

  function Occurs(due: seq<nat>, batch: nat): nat {
    multiset(due)[batch]
  }

  lemma OccursAppend(due: seq<nat>, last: nat, batch: nat)
    ensures Occurs(due + [last], batch) == Occurs(due, batch) + if last == batch then 1 else 0
  {
  }

  /** The batches 1 to `n`, in this order. */
  function FirstBatches(n: nat): seq<nat> {
    seq(n, i requires 0 <= i => i + 1)
  }

  /** Batch `n` falls due once, when its last impression is counted and heard; batch 0 once for every failure. */
  ghost predicate CounterFits(k: Counter) {
    && (forall batch: nat {:trigger Occurs(k.due, batch)} ::
          Occurs(k.due, batch) ==
            if batch == 0 then k.failures
            else if batch * IMPRESSIONS_PER_CPM_BATCH <= k.count
                 && batch * IMPRESSIONS_PER_CPM_BATCH !in k.unheard then 1
            else 0)
    && (forall n | n in k.unheard :: 1 <= n <= k.count)
  }

  /** Without failures the batches come in order; a failure adds one at most and never takes one away. */
  ghost predicate InOrder(k: Counter) {
    && (k.failures == 0 ==> k.unheard == {} && k.due == FirstBatches(k.count / IMPRESSIONS_PER_CPM_BATCH))
    && k.count / IMPRESSIONS_PER_CPM_BATCH <= |k.due| <= k.count / IMPRESSIONS_PER_CPM_BATCH + k.failures
  }

  lemma TallyInOrder(k: Counter, heard: Heard)
    requires InOrder(k)
    ensures InOrder(Tally(k, heard))
  {
  }

  lemma TallyFits(k: Counter, heard: Heard)
    requires CounterFits(k)
    ensures CounterFits(Tally(k, heard))
  {
    var after := Tally(k, heard);
    var told := ToldCount(k, heard);
    forall batch: nat ensures Occurs(after.due, batch) ==
                                if batch == 0 then after.failures
                                else if batch * IMPRESSIONS_PER_CPM_BATCH <= after.count
                                        && batch * IMPRESSIONS_PER_CPM_BATCH !in after.unheard then 1
                                else 0
    {
      OccursAppend(k.due, told / IMPRESSIONS_PER_CPM_BATCH, batch);
    }
  }

  /** Main result: the exact batches of any history of hits, lost replies and outages. */
  lemma {:induction false} BatchesOfEveryHistory(history: seq<Heard>)
    ensures CounterFits(TallyAll(FRESH, history)) && InOrder(TallyAll(FRESH, history))
  {
    if history != [] {
      BatchesOfEveryHistory(history[..|history| - 1]);
      TallyFits(TallyAll(FRESH, history[..|history| - 1]), history[|history| - 1]);
      TallyInOrder(TallyAll(FRESH, history[..|history| - 1]), history[|history| - 1]);
    }
  }

  /** Without failures every hit counts. */
  lemma {:induction false} HealthyCountIsExact(history: seq<Heard>)
    ensures var k := TallyAll(FRESH, history);
            k.count <= |history| <= k.count + k.failures
            && (k.failures == 0 <==> forall h | h in history :: h == Counted)
  {
    if history != [] {
      var n := |history| - 1;
      HealthyCountIsExact(history[..n]);
      assert history == history[..n] + [history[n]];
      assert history[n] in history && forall h | h in history :: h in history[..n] || h == history[n];
      assert forall h | h in history[..n] :: h in history;
    }
  }
}
