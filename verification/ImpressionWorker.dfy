/** The impression stream worker and the raw counter of one campaign.

  Clicks carry a reference, so billing one again changes nothing. Impressions are only counted: every time a batch is
  read again after a fault its impressions count again.
 */
module ImpressionWorker {
  import ClickWorker

  datatype Phase = Idle | Billing(batch: seq<nat>, next: nat) | Acknowledged(batch: seq<nat>)

  /** `log[i]` says whether message `i` is a CPM impression of the campaign; `times[i]` how often it has been billed. */
  datatype World = World(
    log: seq<bool>, times: seq<nat>, deleted: set<nat>, cursor: nat, phase: Phase, count: nat)

  datatype Step = Publish(ofCampaign: bool) | Read | BillNext | Delete | Advance | Throw | Crash

  function Do(w: World, step: Step): World {
    match step
    case Publish(b) => w.(log := w.log + [b], times := w.times + [0])
    case Read =>
      if !w.phase.Idle? then w
      else
        var batch := ClickWorker.ReadBatch(w.deleted, w.cursor, |w.log|, ClickWorker.BATCH_SIZE);
        if batch == [] then w else w.(phase := Billing(batch, 0))
    case BillNext =>
      if !w.phase.Billing? || w.phase.next >= |w.phase.batch| then w
      else
        var id := w.phase.batch[w.phase.next];
        if id >= |w.log| || id >= |w.times| then w
        else
          w.(times := w.times[id := w.times[id] + 1],
             count := w.count + if w.log[id] then 1 else 0,
             phase := Billing(w.phase.batch, w.phase.next + 1))
    case Delete =>
      if !w.phase.Billing? || w.phase.next < |w.phase.batch| then w
      else w.(deleted := w.deleted + (set id | id in w.phase.batch), phase := Acknowledged(w.phase.batch))
    case Advance =>
      if !w.phase.Acknowledged? || w.phase.batch == [] then w
      else w.(cursor := w.phase.batch[|w.phase.batch| - 1] + 1, phase := Idle)
    case Throw => w.(phase := Idle)
    case Crash => w.(phase := Idle, cursor := 0)
  }

  const START := World([], [], {}, 0, Idle, 0)

  function Run(steps: seq<Step>): World {
    if steps == [] then START else Do(Run(steps[..|steps| - 1]), steps[|steps| - 1])
  }

  /** The campaign's impressions, each counted as often as `times` says. */
  function Counted(log: seq<bool>, times: seq<nat>): nat
    requires |times| == |log|
  {
    if log == [] then 0
    else
      var n := |log| - 1;
      Counted(log[..n], times[..n]) + if log[n] then times[n] else 0
  }

  /** The campaign's impressions. */
  function Impressions(log: seq<bool>): nat {
    if log == [] then 0 else Impressions(log[..|log| - 1]) + if log[|log| - 1] then 1 else 0
  }

  /** Message `id` is one of the first `next` of the batch. */
  predicate BilledIn(batch: seq<nat>, next: nat, id: nat) {
    exists j | 0 <= j < next && j < |batch| :: batch[j] == id
  }

  /** The batch is in id order, and none of it has been deleted. */
  ghost predicate BatchFits(w: World, batch: seq<nat>, next: nat) {
    && next <= |batch|
    && (forall j | 0 <= j < |batch| :: batch[j] < |w.log| && batch[j] !in w.deleted)
    && (forall i, j | 0 <= i < j < |batch| :: batch[i] < batch[j])
    && (forall j | 0 <= j < next :: batch[j] < |w.times| && w.times[batch[j]] >= 1)
  }

  ghost predicate Fits(w: World) {
    && |w.times| == |w.log|
    && w.count == Counted(w.log, w.times)
    && (forall id | id in w.deleted :: id < |w.times| && w.times[id] >= 1)
    && match w.phase
       case Idle => true
       case Billing(batch, next) => BatchFits(w, batch, next)
       case Acknowledged(batch) => true
  }

  lemma {:induction false} CountedOnceMore(log: seq<bool>, times: seq<nat>, id: nat)
    requires |times| == |log| && id < |log|
    ensures Counted(log, times[id := times[id] + 1]) == Counted(log, times) + if log[id] then 1 else 0
  {
    var n := |log| - 1;
    if id < n {
      assert times[id := times[id] + 1][..n] == times[..n][id := times[id] + 1];
      CountedOnceMore(log[..n], times[..n], id);
    } else {
      assert times[id := times[id] + 1][..n] == times[..n];
    }
  }

  lemma {:induction false} ReadBatchInLog(deleted: set<nat>, from: nat, end: nat, count: nat)
    ensures ClickWorker.Within(ClickWorker.ReadBatch(deleted, from, end, count), from, end)
    ensures forall j | 0 <= j < |ClickWorker.ReadBatch(deleted, from, end, count)| ::
              ClickWorker.ReadBatch(deleted, from, end, count)[j] !in deleted
    ensures forall i, j | 0 <= i < j < |ClickWorker.ReadBatch(deleted, from, end, count)| ::
              ClickWorker.ReadBatch(deleted, from, end, count)[i] < ClickWorker.ReadBatch(deleted, from, end, count)[j]
    decreases end - from
  {
    if from < end && count > 0 {
      ReadBatchInLog(deleted, from + 1, end, if from in deleted then count else count - 1);
    }
  }

  lemma StepFits(w: World, step: Step)
    requires Fits(w)
    ensures Fits(Do(w, step))
  {
    match step
    case Publish(b) =>
      assert (w.log + [b])[..|w.log|] == w.log && (w.times + [0])[..|w.log|] == w.times;
    case Read => ReadBatchInLog(w.deleted, w.cursor, |w.log|, ClickWorker.BATCH_SIZE);
    case BillNext =>
      if w.phase.Billing? && w.phase.next < |w.phase.batch| {
        CountedOnceMore(w.log, w.times, w.phase.batch[w.phase.next]);
      }
    case _ =>
  }

  /** In every run the counter adds up how often each message was billed, and nothing is deleted unbilled. */
  lemma {:induction false} EveryRunFits(steps: seq<Step>)
    ensures Fits(Run(steps))
    ensures |Run(steps).times| == |Run(steps).log| && Run(steps).count == Counted(Run(steps).log, Run(steps).times)
    ensures forall id | id in Run(steps).deleted :: id < |Run(steps).times| && Run(steps).times[id] >= 1
  {
    if steps != [] {
      EveryRunFits(steps[..|steps| - 1]);
      StepFits(Run(steps[..|steps| - 1]), steps[|steps| - 1]);
    }
  }

  ghost predicate Drained(w: World) {
    forall id | 0 <= id < |w.log| :: id in w.deleted
  }

  /** Each impression of the campaign has been billed once. */
  predicate BilledOnce(log: seq<bool>, times: seq<nat>)
    requires |times| == |log|
  {
    forall id | 0 <= id < |log| && log[id] :: times[id] == 1
  }

  lemma {:induction false} CountedAtLeastOnce(log: seq<bool>, times: seq<nat>)
    requires |times| == |log| && forall id | 0 <= id < |log| :: times[id] >= 1
    ensures Counted(log, times) >= Impressions(log)
    ensures Counted(log, times) == Impressions(log) <==> BilledOnce(log, times)
  {
    if log != [] {
      var n := |log| - 1;
      CountedAtLeastOnce(log[..n], times[..n]);
      if BilledOnce(log, times) {
        assert BilledOnce(log[..n], times[..n]);
      }
    }
  }

  // --- the faults that count again ---

  /** The step abandons a batch of which an impression of the campaign has already been billed. */
  ghost predicate Recounts(w: World, step: Step) {
    && (step.Throw? || step.Crash?) && w.phase.Billing?
    && exists id: nat :: id < |w.log| && w.log[id] && BilledIn(w.phase.batch, w.phase.next, id)
  }

  ghost predicate NoRecounts(steps: seq<Step>) {
    forall k | 0 <= k < |steps| :: !Recounts(Run(steps[..k]), steps[k])
  }

  /** Message `id` is done with, or has been billed in the batch at hand. */
  predicate Settled(w: World, id: nat) {
    id in w.deleted || (w.phase.Billing? && BilledIn(w.phase.batch, w.phase.next, id))
  }

  /** Each impression of the campaign has been billed once if it is settled, and not at all otherwise. */
  ghost predicate OncePerMessage(w: World) {
    forall id: nat | id < |w.log| && id < |w.times| && w.log[id] :: w.times[id] == if Settled(w, id) then 1 else 0
  }

  lemma BilledInNext(batch: seq<nat>, next: nat, id: nat)
    requires next < |batch|
    ensures BilledIn(batch, next + 1, id) <==> BilledIn(batch, next, id) || batch[next] == id
  {
    if BilledIn(batch, next, id) {
      var j :| 0 <= j < next && j < |batch| && batch[j] == id;
      assert batch[j] == id && j < next + 1;
    }
  }

  lemma StepOnce(w: World, step: Step)
    requires Fits(w) && OncePerMessage(w) && !Recounts(w, step)
    ensures OncePerMessage(Do(w, step))
  {
    var after := Do(w, step);
    forall id: nat | id < |after.log| && id < |after.times| && after.log[id]
      ensures after.times[id] == if Settled(after, id) then 1 else 0
    {
      if id < |w.log| {
        assert w.times[id] == if Settled(w, id) then 1 else 0;
      }
      if step.BillNext? && w.phase.Billing? && w.phase.next < |w.phase.batch| {
        BilledInNext(w.phase.batch, w.phase.next, id);
      }
    }
  }

  lemma {:induction false} RunOnce(steps: seq<Step>)
    requires NoRecounts(steps)
    ensures OncePerMessage(Run(steps))
  {
    if steps != [] {
      var n := |steps| - 1;
      forall k | 0 <= k < n ensures !Recounts(Run(steps[..n][..k]), steps[..n][k]) {
        assert steps[..n][..k] == steps[..k];
        assert !Recounts(Run(steps[..k]), steps[k]);
      }
      RunOnce(steps[..n]);
      EveryRunFits(steps[..n]);
      StepOnce(Run(steps[..n]), steps[n]);
    }
  }

  /** Message `id` had been billed `t` times when it was abandoned: it must be billed again before it is settled. */
  ghost predicate Again(w: World, id: nat, t: nat) {
    id < |w.times| && w.times[id] >= if Settled(w, id) then t + 1 else t
  }

  lemma StepAgain(w: World, step: Step, id: nat, t: nat)
    requires Fits(w) && Again(w, id, t)
    ensures Again(Do(w, step), id, t)
  {
    if step.BillNext? && w.phase.Billing? && w.phase.next < |w.phase.batch| {
      BilledInNext(w.phase.batch, w.phase.next, id);
    }
  }

  lemma {:induction false} RunAgain(steps: seq<Step>, k: nat, id: nat, t: nat)
    requires k <= |steps| && Again(Run(steps[..k]), id, t)
    ensures Again(Run(steps), id, t)
  {
    if k == |steps| {
      assert steps[..k] == steps;
    } else {
      var n := |steps| - 1;
      assert steps[..n][..k] == steps[..k];
      RunAgain(steps[..n], k, id, t);
      EveryRunFits(steps[..n]);
      StepAgain(Run(steps[..n]), steps[n], id, t);
    }
  }

  lemma RecountShows(steps: seq<Step>, k: nat)
    requires k < |steps| && Recounts(Run(steps[..k]), steps[k]) && Drained(Run(steps))
    ensures var w := Run(steps); |w.times| == |w.log| && !BilledOnce(w.log, w.times)
  {
    var before := Run(steps[..k]);
    EveryRunFits(steps[..k]);
    EveryRunFits(steps);
    var id: nat :| id < |before.log| && before.log[id] && BilledIn(before.phase.batch, before.phase.next, id);
    assert steps[..k + 1][..k] == steps[..k];
    assert Again(Run(steps[..k + 1]), id, 1);
    RunAgain(steps, k + 1, id, 1);
    LogGrows(steps, k);
    hide Run;
    hide Recounts;
    assert Run(steps).times[id] >= 2 && Run(steps).log[id];
  }

  lemma {:induction false} LogGrows(steps: seq<Step>, k: nat)
    requires k <= |steps|
    ensures Run(steps[..k]).log <= Run(steps).log
  {
    if k == |steps| {
      assert steps[..k] == steps;
    } else {
      var n := |steps| - 1;
      assert steps[..n][..k] == steps[..k];
      LogGrows(steps[..n], k);
    }
  }

  /** Main result: once the stream is drained no impression has been missed, and the count is exact if and only if no
      fault hit a batch of which an impression of the campaign had already been billed. */
  lemma DrainedCountIsExactIffNoRecounts(steps: seq<Step>)
    requires Drained(Run(steps))
    ensures Run(steps).count >= Impressions(Run(steps).log)
    ensures Run(steps).count == Impressions(Run(steps).log) <==> NoRecounts(steps)
  {
    EveryRunFits(steps);
    var w := Run(steps);
    CountedAtLeastOnce(w.log, w.times);
    if NoRecounts(steps) {
      RunOnce(steps);
      assert forall id | 0 <= id < |w.log| && w.log[id] :: w.times[id] == 1;
    } else {
      var k :| 0 <= k < |steps| && Recounts(Run(steps[..k]), steps[k]);
      RecountShows(steps, k);
    }
  }

  lemma ReadOne()
    ensures ClickWorker.ReadBatch({}, 0, 1, ClickWorker.BATCH_SIZE) == [0]
  {
    assert ClickWorker.ReadBatch({}, 1, 1, ClickWorker.BATCH_SIZE - 1) == [];
  }

  /** One impression, billed, and then a fault before it is deleted: after the retry it has counted twice. */
  lemma FaultCountsTwice()
    ensures var billed := Do(Do(Do(START, Publish(true)), Read), BillNext);
            var retried := Do(Do(Do(billed, Throw), Read), BillNext);
            var w := Do(Do(retried, Delete), Advance);
            w.log == [true] && Drained(w) && Impressions(w.log) == 1 && w.count == 2
  {
    ReadOne();
    var one := Do(START, Publish(true));
    assert one == World([true], [0], {}, 0, Idle, 0);
    var billed := Do(Do(one, Read), BillNext);
    assert billed == World([true], [1], {}, 0, Billing([0], 1), 1);
    var retried := Do(Do(Do(billed, Throw), Read), BillNext);
    assert retried == World([true], [2], {}, 0, Billing([0], 1), 2);
    assert 0 in Do(retried, Delete).deleted && Do(retried, Delete).log == [true];
    assert [true][..0] == [] && Impressions([true]) == 1;
  }
}
