/** When a drained click stream ends where one fault-free pass over its messages would. */
module ClickPass {
  import opened Books
  import opened Fees
  import opened LedgerReplay
  import opened ClickBilling
  import opened ClickWorker

  lemma RunOneMore(cfg: Config, w: World, steps: seq<Step>, step: Step)
    requires cfg.Valid()
    ensures Run(cfg, w, steps + [step]) == Do(cfg, Run(cfg, w, steps), step)
  {
    assert (steps + [step])[..|steps|] == steps;
  }

  // --- the exact condition ---

  /** The step charges a message although an earlier one, not decided yet, could still be charged. */
  ghost predicate Overtakes(cfg: Config, w: World, step: Step) {
    && step.ChargeNext? && AtMessage(w)
    && Chargeable(cfg, ViewOf(cfg, w.db), w.log[w.phase.batch[w.phase.next]], w.phase.batch[w.phase.next])
    && exists j: nat :: j < w.phase.batch[w.phase.next] && Waiting(cfg, w, j)
  }

  /** Message `j` has not been decided and could be charged now. */
  ghost predicate Waiting(cfg: Config, w: World, j: nat) {
    j < |w.log| && j !in w.decided && Chargeable(cfg, ViewOf(cfg, w.db), w.log[j], j)
  }

  ghost predicate NoneOvertaken(cfg: Config, db0: Db, steps: seq<Step>)
    requires cfg.Valid()
  {
    forall k | 0 <= k < |steps| :: !Overtakes(cfg, Run(cfg, Start(db0), steps[..k]), steps[k])
  }

  ghost predicate NoneWaiting(cfg: Config, w: World) {
    forall j: nat :: !Waiting(cfg, w, j)
  }

  /** So far the view is the pass over the decided messages in id order, and no waiting message has been overtaken. */
  ghost predicate InStep(cfg: Config, db0: Db, w: World)
    requires cfg.Valid()
  {
    && ViewOf(cfg, w.db) == PassOn(cfg, ViewOf(cfg, db0), w.log, w.decided)
    && forall j: nat | j < |w.log| && j !in w.decided :: FreeAt(cfg, ViewOf(cfg, db0), w.log, w.decided, j)
  }

  lemma PublishInStep(cfg: Config, db0: Db, w: World, click: Click)
    requires Ready(cfg, db0) && OnTrack(cfg, db0, w) && InStep(cfg, db0, w)
    ensures InStep(cfg, db0, Do(cfg, w, Publish(click)))
  {
    var v0, longer := ViewOf(cfg, db0), w.log + [click];
    assert longer[..|w.log|] == w.log;
    assert PassOn(cfg, v0, longer, w.decided) == PassOn(cfg, v0, w.log, w.decided);
    forall j: nat | j < |longer| && j !in w.decided ensures FreeAt(cfg, v0, longer, w.decided, j) {
      if j < |w.log| {
        assert longer[..j] == w.log[..j];
        assert FreeAt(cfg, v0, w.log, w.decided, j);
      }
    }
  }

  /** A message refused now would have been refused at its own turn. */
  lemma RefusedInStep(cfg: Config, v0: View, log: seq<Click>, decided: set<nat>, id: nat)
    requires id < |log| && id !in decided && !Chargeable(cfg, PassOn(cfg, v0, log, decided), log[id], id)
    requires forall j: nat | j < |log| && j !in decided :: FreeAt(cfg, v0, log, decided, j)
    ensures PassOn(cfg, v0, log, decided + {id}) == PassOn(cfg, v0, log, decided)
    ensures forall j: nat | j < |log| && j !in decided + {id} :: FreeAt(cfg, v0, log, decided + {id}, j)
  {
    hide Chargeable;
    assert FreeAt(cfg, v0, log, decided, id);
    assert log[..|log|] == log;
    DecideRefused(cfg, v0, log, decided, id, |log|);
    forall j: nat | j < |log| && j !in decided + {id} ensures FreeAt(cfg, v0, log, decided + {id}, j) {
      assert FreeAt(cfg, v0, log, decided, j);
      DecideRefused(cfg, v0, log, decided, id, j);
    }
  }

  /** A message charged now, with none waiting before it, is charged at its own turn. */
  lemma ChargedInStep(cfg: Config, v0: View, log: seq<Click>, decided: set<nat>, id: nat)
    requires id < |log| && id !in decided && Chargeable(cfg, PassOn(cfg, v0, log, decided), log[id], id)
    requires forall j: nat | j < |log| && j !in decided :: FreeAt(cfg, v0, log, decided, j)
    requires forall j: nat | j < id && j !in decided :: !Chargeable(cfg, PassOn(cfg, v0, log, decided), log[j], j)
    ensures PassOn(cfg, v0, log, decided + {id}) == ChargeView(cfg, PassOn(cfg, v0, log, decided), log[id], id)
    ensures forall j: nat | j < |log| && j !in decided + {id} :: FreeAt(cfg, v0, log, decided + {id}, j)
  {
    hide Chargeable;
    hide ChargeView;
    hide Follows;
    var now, at := PassOn(cfg, v0, log, decided), PassOn(cfg, v0, log[..id], decided);
    assert FreeAt(cfg, v0, log, decided, id);
    PassOnFollows(cfg, v0, log, decided, id);
    if !Chargeable(cfg, at, log[id], id) {
      RefusalLasts(cfg, at, now, log[id], id);
    }
    assert log[..|log|] == log;
    DecideCharged(cfg, v0, log, decided, id, |log|);
    forall j: nat | j < |log| && j !in decided + {id} ensures FreeAt(cfg, v0, log, decided + {id}, j) {
      assert FreeAt(cfg, v0, log, decided, j);
      DecideCharged(cfg, v0, log, decided, id, j);
    }
  }

  lemma ChargeInStep(cfg: Config, db0: Db, w: World)
    requires Ready(cfg, db0) && OnTrack(cfg, db0, w) && InStep(cfg, db0, w) && !Overtakes(cfg, w, ChargeNext)
    ensures InStep(cfg, db0, Do(cfg, w, ChargeNext))
  {
    if AtMessage(w) {
      var id, v0 := w.phase.batch[w.phase.next], ViewOf(cfg, db0);
      ChargeSeenInView(cfg, w.db, w.log[id], id);
      if id in w.decided {
        DecidedIsNotCharged(cfg, db0, w, id);
        assert w.decided + {id} == w.decided;
      } else if Charge(cfg, w.db, w.log[id], id).Commit? {
        forall j: nat | j < id && j !in w.decided ensures !Chargeable(cfg, ViewOf(cfg, w.db), w.log[j], j) {
          assert !Waiting(cfg, w, j);
        }
        hide OnTrack;
        hide Charge;
        ChargedInStep(cfg, v0, w.log, w.decided, id);
      } else {
        hide OnTrack;
        hide Charge;
        RefusedInStep(cfg, v0, w.log, w.decided, id);
      }
    }
  }

  lemma CreditIsNotSeen(cfg: Config, db0: Db, w: World)
    requires Ready(cfg, db0) && OnTrack(cfg, db0, w)
    ensures ViewOf(cfg, Do(cfg, w, CreditNow).db) == ViewOf(cfg, w.db)
  {
    if w.phase.Crediting? && w.phase.next < |w.phase.batch| {
      var id := w.phase.batch[w.phase.next];
      assert id in InFlight(w);
      forall row | row in ClickCredits(w.db.ledger) ensures row.ref.value.message != id {
        assert row in CreditsFor(cfg, w.log, ViewOf(cfg, w.db).spends, w.lost + InFlight(w));
      }
      CreditShareSeen(cfg, w.db, w.log[id], id);
      hide CreditShare;
      hide OnTrack;
    }
  }

  /** The advertiser side changes in no other step. */
  lemma OnlyChargesAreSeen(cfg: Config, db0: Db, w: World, step: Step)
    requires Ready(cfg, db0) && OnTrack(cfg, db0, w) && !step.ChargeNext?
    ensures ViewOf(cfg, Do(cfg, w, step).db) == ViewOf(cfg, w.db) && Do(cfg, w, step).decided == w.decided
  {
    hide OnTrack;
    hide CreditShare;
    hide ViewOf;
    match step
    case Other(op) => if LeavesStreamAlone(cfg, w.db, op) { OtherKeepsView(cfg, w.db, op); }
    case CreditNow => CreditIsNotSeen(cfg, db0, w);
    case _ =>
  }

  lemma StepInStep(cfg: Config, db0: Db, w: World, step: Step)
    requires Ready(cfg, db0) && OnTrack(cfg, db0, w) && InStep(cfg, db0, w) && !Overtakes(cfg, w, step)
    ensures InStep(cfg, db0, Do(cfg, w, step))
  {
    hide DataFits;
    hide ViewOf;
    hide ForeignKeys;
    hide Charge;
    hide CreditShare;
    hide Next;
    if step.ChargeNext? {
      ChargeInStep(cfg, db0, w);
    } else if step.Publish? {
      PublishInStep(cfg, db0, w, step.click);
    } else {
      OnlyChargesAreSeen(cfg, db0, w, step);
      hide OnTrack;
      assert Do(cfg, w, step).log == w.log;
    }
  }

  lemma {:induction false} RunInStep(cfg: Config, db0: Db, steps: seq<Step>)
    requires Ready(cfg, db0) && NoneOvertaken(cfg, db0, steps)
    ensures InStep(cfg, db0, Run(cfg, Start(db0), steps))
  {
    hide OnTrack;
    hide Overtakes;
    hide Do;
    if steps != [] {
      var n := |steps| - 1;
      forall k | 0 <= k < n ensures !Overtakes(cfg, Run(cfg, Start(db0), steps[..n][..k]), steps[..n][k]) {
        assert steps[..n][..k] == steps[..k];
        assert !Overtakes(cfg, Run(cfg, Start(db0), steps[..k]), steps[k]);
      }
      RunInStep(cfg, db0, steps[..n]);
      RunStaysOnTrack(cfg, db0, steps[..n]);
      StepInStep(cfg, db0, Run(cfg, Start(db0), steps[..n]), steps[n]);
    }
  }

  // --- what happened can be read off the rows ---

  lemma StepGrows(cfg: Config, db0: Db, w: World, step: Step)
    requires Ready(cfg, db0) && OnTrack(cfg, db0, w)
    ensures w.log <= Do(cfg, w, step).log && Follows(ViewOf(cfg, w.db), ViewOf(cfg, Do(cfg, w, step).db))
    ensures w.decided <= Do(cfg, w, step).decided
  {
    if step.ChargeNext? {
      if AtMessage(w) {
        var id := w.phase.batch[w.phase.next];
        ChargeSeenInView(cfg, w.db, w.log[id], id);
        ChargeFollows(cfg, ViewOf(cfg, w.db), w.log[id], id);
      }
    } else {
      OnlyChargesAreSeen(cfg, db0, w, step);
    }
  }

  lemma {:induction false} RunGrows(cfg: Config, db0: Db, steps: seq<Step>, k: nat)
    requires Ready(cfg, db0) && k <= |steps|
    ensures Run(cfg, Start(db0), steps[..k]).log <= Run(cfg, Start(db0), steps).log
    ensures ViewOf(cfg, Run(cfg, Start(db0), steps[..k]).db).spends <=
            ViewOf(cfg, Run(cfg, Start(db0), steps).db).spends
  {
    hide OnTrack;
    hide Do;
    hide ViewOf;
    if k == |steps| {
      assert steps[..k] == steps;
    } else {
      var n := |steps| - 1;
      assert steps[..n][..k] == steps[..k];
      RunGrows(cfg, db0, steps[..n], k);
      RunStaysOnTrack(cfg, db0, steps[..n]);
      StepGrows(cfg, db0, Run(cfg, Start(db0), steps[..n]), steps[n]);
    }
  }

  /** If the run ends as the pass does, then before each charge it stood where the pass stood before that click. */
  lemma ChargeAtItsTurn(cfg: Config, db0: Db, w: World, log: seq<Click>, id: nat)
    requires Ready(cfg, db0) && OnTrack(cfg, db0, w) && w.log <= log && id < |w.log|
    requires Chargeable(cfg, ViewOf(cfg, w.db), w.log[id], id)
    requires ViewOf(cfg, w.db).spends + [SpendRow(ViewOf(cfg, w.db), w.log[id], id)] <=
             Pass(cfg, ViewOf(cfg, db0), log).spends
    ensures ViewOf(cfg, w.db) == Pass(cfg, ViewOf(cfg, db0), log[..id])
  {
    var v0, v := ViewOf(cfg, db0), ViewOf(cfg, w.db);
    var p := |v.spends|;
    assert Pass(cfg, v0, log).spends[p] == SpendRow(v, w.log[id], id);
    PassRowAt(cfg, v0, log, p);
    assert Pass(cfg, v0, log).spends[..p] == v.spends;
    PassIsRedone(cfg, v0, log[..id]);
    RedoneOnLongerLog(v0.purses, log[..id], log, v.spends);
    RedoneOnLongerLog(v0.purses, w.log, log, v.spends);
  }

  lemma ChargeAppendsItsRow(cfg: Config, db0: Db, w: World)
    requires cfg.Valid() && OnTrack(cfg, db0, w) && Overtakes(cfg, w, ChargeNext)
    ensures var v, id := ViewOf(cfg, w.db), w.phase.batch[w.phase.next];
            ViewOf(cfg, Do(cfg, w, ChargeNext).db).spends == v.spends + [SpendRow(v, w.log[id], id)]
  {
    hide DataFits;
    hide FlightFits;
    hide PhaseFits;
    hide Charge;
    var id := w.phase.batch[w.phase.next];
    assert Named(cfg, w.log);
    ChargeSeenInView(cfg, w.db, w.log[id], id);
    hide ViewOf;
  }

  lemma OvertakenIsNotTheTurn(cfg: Config, db0: Db, w: World, log: seq<Click>)
    requires Ready(cfg, db0) && OnTrack(cfg, db0, w) && Overtakes(cfg, w, ChargeNext) && w.log <= log
    ensures !(ViewOf(cfg, Do(cfg, w, ChargeNext).db).spends <= Pass(cfg, ViewOf(cfg, db0), log).spends)
  {
    hide OnTrack;
    hide Do;
    hide ViewOf;
    hide Pass;
    hide ForeignKeys;
    hide PublishersExist;
    hide NoClickRows;
    var id := w.phase.batch[w.phase.next];
    ChargeAppendsItsRow(cfg, db0, w);
    if ViewOf(cfg, Do(cfg, w, ChargeNext).db).spends <= Pass(cfg, ViewOf(cfg, db0), log).spends {
      ChargeAtItsTurn(cfg, db0, w, log, id);
      var j: nat :| j < id && Waiting(cfg, w, j);
      ReplayChangesNothing(cfg, ViewOf(cfg, db0), log[..id], j);
    }
  }

  lemma OvertakingShows(cfg: Config, db0: Db, steps: seq<Step>, k: nat)
    requires Ready(cfg, db0) && k < |steps| && Overtakes(cfg, Run(cfg, Start(db0), steps[..k]), steps[k])
    ensures ViewOf(cfg, Run(cfg, Start(db0), steps).db) != Pass(cfg, ViewOf(cfg, db0), Run(cfg, Start(db0), steps).log)
  {
    hide OnTrack;
    hide ViewOf;
    hide Pass;
    hide Do;
    hide ForeignKeys;
    hide PublishersExist;
    hide NoClickRows;
    var v0, w, last := ViewOf(cfg, db0), Run(cfg, Start(db0), steps[..k]), Run(cfg, Start(db0), steps);
    assert steps[k] == ChargeNext;
    RunStaysOnTrack(cfg, db0, steps[..k]);
    assert steps[..k + 1] == steps[..k] + [steps[k]];
    RunOneMore(cfg, Start(db0), steps[..k], steps[k]);
    RunGrows(cfg, db0, steps, k);
    RunGrows(cfg, db0, steps, k + 1);
    hide Run;
    hide OnTrack;
    hide Overtakes;
    if ViewOf(cfg, last.db) == Pass(cfg, v0, last.log) {
      OvertakenIsNotTheTurn(cfg, db0, w, last.log);
    }
  }

  lemma NoneWaitingAfterPass(cfg: Config, v0: View, w: World)
    requires ViewOf(cfg, w.db) == Pass(cfg, v0, w.log)
    ensures NoneWaiting(cfg, w)
  {
    forall j: nat ensures !Waiting(cfg, w, j) {
      if j < |w.log| {
        ReplayChangesNothing(cfg, v0, w.log, j);
      }
    }
  }

  /** Main result: whatever crashes, exceptions, swallowed errors, re-reads and other transactions a run contains,
      the advertisers end where one fault-free pass in id order puts them if and only if no charge overtook an
      earlier message that could still be charged, and no such message is left. */
  lemma EqualsPassIffNoneOvertaken(cfg: Config, db0: Db, steps: seq<Step>)
    requires Ready(cfg, db0)
    ensures var w := Run(cfg, Start(db0), steps);
            ViewOf(cfg, w.db) == ViewOf(cfg, BillAll(cfg, db0, w.log)) <==>
              NoneOvertaken(cfg, db0, steps) && NoneWaiting(cfg, w)
  {
    var w, v0 := Run(cfg, Start(db0), steps), ViewOf(cfg, db0);
    RunStaysOnTrack(cfg, db0, steps);
    BillAllSeen(cfg, db0, w.log);
    if !NoneOvertaken(cfg, db0, steps) {
      var k :| 0 <= k < |steps| && Overtakes(cfg, Run(cfg, Start(db0), steps[..k]), steps[k]);
      OvertakingShows(cfg, db0, steps, k);
    } else if NoneWaiting(cfg, w) {
      RunInStep(cfg, db0, steps);
      forall j: nat | j < |w.log| && j !in w.decided
        ensures !Chargeable(cfg, PassOn(cfg, v0, w.log[..j], w.decided), w.log[j], j)
      {
        assert !Waiting(cfg, w, j) && FreeAt(cfg, v0, w.log, w.decided, j);
      }
      UndecidedDoNotMatter(cfg, v0, w.log, w.decided);
    } else if ViewOf(cfg, w.db) == Pass(cfg, v0, w.log) {
      NoneWaitingAfterPass(cfg, v0, w);
    }
  }

  // --- the credits ---

  ghost function Without(credits: set<Row>, ids: set<nat>): set<Row> {
    set row | row in credits && !(row.ref.Some? && row.ref.value.ClickRef? && row.ref.value.message in ids)
  }

  lemma MissingAreLeftOut(cfg: Config, log: seq<Click>, rows: seq<Row>, missing: set<nat>)
    requires cfg.Valid()
    ensures CreditsFor(cfg, log, rows, missing) == Without(CreditsFor(cfg, log, rows, {}), missing)
  {
  }

  /** Main result: whenever the advertisers are where the pass puts them, the publishers have the pass's credits
      without exactly those lost between a charge and its credit, or in flight. */
  lemma CreditsArePassWithoutLost(cfg: Config, db0: Db, steps: seq<Step>)
    requires Ready(cfg, db0)
    requires var w := Run(cfg, Start(db0), steps); ViewOf(cfg, w.db) == ViewOf(cfg, BillAll(cfg, db0, w.log))
    ensures var w := Run(cfg, Start(db0), steps);
            ClickCredits(w.db.ledger) == Without(ClickCredits(BillAll(cfg, db0, w.log).ledger), w.lost + InFlight(w))
  {
    var w := Run(cfg, Start(db0), steps);
    RunStaysOnTrack(cfg, db0, steps);
    BillAllSeen(cfg, db0, w.log);
    MissingAreLeftOut(cfg, w.log, ViewOf(cfg, w.db).spends, w.lost + InFlight(w));
  }

  // --- runs whose charge errors do no harm ---

  ghost predicate Drained(w: World) {
    forall id: nat | id < |w.log| :: id in w.deleted
  }

  /** The step is no charge error, or it meets a message that has been decided or could not be charged. */
  ghost predicate Harmless(cfg: Config, w: World, step: Step) {
    step.ChargeFails? && AtMessage(w) ==> !Waiting(cfg, w, w.phase.batch[w.phase.next])
  }

  ghost predicate AllHarmless(cfg: Config, db0: Db, steps: seq<Step>)
    requires cfg.Valid()
  {
    forall k | 0 <= k < |steps| :: Harmless(cfg, Run(cfg, Start(db0), steps[..k]), steps[k])
  }

  /** No message that billing has come to is waiting. */
  ghost predicate NoneLeftBehind(cfg: Config, w: World) {
    forall j: nat | j < w.high :: !Waiting(cfg, w, j)
  }

  lemma StaysNotWaiting(cfg: Config, w: World, after: World, j: nat)
    requires !Waiting(cfg, w, j) && w.log <= after.log && w.decided <= after.decided
    requires Follows(ViewOf(cfg, w.db), ViewOf(cfg, after.db)) && j < |w.log|
    ensures !Waiting(cfg, after, j)
  {
    if j !in w.decided {
      RefusalLasts(cfg, ViewOf(cfg, w.db), ViewOf(cfg, after.db), w.log[j], j);
    }
  }

  /** What a step adds to the messages come to: the one at hand, which it decides or fails on. */
  lemma HighMoves(cfg: Config, w: World, step: Step)
    requires cfg.Valid() && BookkeepingFits(cfg, w)
    ensures w.high <= Do(cfg, w, step).high <= w.high + 1 && w.high <= |w.log|
    ensures AtMessage(w) ==> w.phase.batch[w.phase.next] <= w.high
    ensures Do(cfg, w, step).high > w.high ==>
              && AtMessage(w) && w.phase.batch[w.phase.next] == w.high
              && (w.high in Do(cfg, w, step).decided || step.ChargeFails?)
  {
    if AtMessage(w) {
      NoGapGoesOn(w.phase.batch, w.phase.next, w.high, |w.log|);
    }
    hide NoGap;
    hide Charge;
  }

  lemma NobodyToOvertake(cfg: Config, w: World, step: Step)
    requires cfg.Valid() && BookkeepingFits(cfg, w) && NoneLeftBehind(cfg, w)
    ensures !Overtakes(cfg, w, step)
  {
    HighMoves(cfg, w, step);
    hide BookkeepingFits;
    hide ViewOf;
    hide Chargeable;
  }

  lemma HarmlessStep(cfg: Config, db0: Db, w: World, step: Step)
    requires Ready(cfg, db0) && OnTrack(cfg, db0, w) && NoneLeftBehind(cfg, w) && Harmless(cfg, w, step)
    ensures NoneLeftBehind(cfg, Do(cfg, w, step))
  {
    hide DataFits;
    hide FlightFits;
    hide PhaseFits;
    var after := Do(cfg, w, step);
    StepGrows(cfg, db0, w, step);
    HighMoves(cfg, w, step);
    hide Do;
    hide OnTrack;
    hide Harmless;
    hide NoneLeftBehind;
    hide Follows;
    hide ViewOf;
    hide Chargeable;
    forall j: nat | j < after.high ensures !Waiting(cfg, after, j) {
      if j < w.high || j !in after.decided {
        StaysNotWaiting(cfg, w, after, j);
      }
    }
  }

  lemma {:induction false} HarmlessRun(cfg: Config, db0: Db, steps: seq<Step>)
    requires Ready(cfg, db0) && AllHarmless(cfg, db0, steps)
    ensures NoneOvertaken(cfg, db0, steps) && NoneLeftBehind(cfg, Run(cfg, Start(db0), steps))
  {
    hide OnTrack;
    hide Overtakes;
    hide Harmless;
    hide Do;
    if steps != [] {
      var n := |steps| - 1;
      forall k | 0 <= k < n ensures Harmless(cfg, Run(cfg, Start(db0), steps[..n][..k]), steps[..n][k]) {
        assert steps[..n][..k] == steps[..k];
        assert Harmless(cfg, Run(cfg, Start(db0), steps[..k]), steps[k]);
      }
      HarmlessRun(cfg, db0, steps[..n]);
      RunStaysOnTrack(cfg, db0, steps[..n]);
      HarmlessStep(cfg, db0, Run(cfg, Start(db0), steps[..n]), steps[n]);
      NobodyToOvertake(cfg, Run(cfg, Start(db0), steps[..n]), steps[n]) by {
        assert OnTrack(cfg, db0, Run(cfg, Start(db0), steps[..n]));
      }
      forall k | 0 <= k < |steps| ensures !Overtakes(cfg, Run(cfg, Start(db0), steps[..k]), steps[k]) {
        if k < n {
          assert steps[..n][..k] == steps[..k];
          assert !Overtakes(cfg, Run(cfg, Start(db0), steps[..n][..k]), steps[..n][k]);
        }
      }
    }
  }

  /** Main result: once the stream is drained, and every charge error met a message that could not have been charged,
      the advertisers are where one fault-free pass puts them and the credits are that pass's without the lost ones. */
  lemma DrainedEqualsFaultFreePass(cfg: Config, db0: Db, steps: seq<Step>)
    requires Ready(cfg, db0) && Drained(Run(cfg, Start(db0), steps)) && AllHarmless(cfg, db0, steps)
    ensures var w := Run(cfg, Start(db0), steps);
            var reference := BillAll(cfg, db0, w.log);
            && ViewOf(cfg, w.db) == ViewOf(cfg, reference)
            && ClickCredits(w.db.ledger) == Without(ClickCredits(reference.ledger), w.lost + InFlight(w))
  {
    var w := Run(cfg, Start(db0), steps);
    RunStaysOnTrack(cfg, db0, steps);
    assert w.high == |w.log| || w.high in w.deleted;
    HarmlessRun(cfg, db0, steps);
    EqualsPassIffNoneOvertaken(cfg, db0, steps);
    CreditsArePassWithoutLost(cfg, db0, steps);
  }

  // --- what goes wrong ---

  const ONE_FAILURE: seq<Step> := [Read, ChargeFails, Delete, Advance]

  lemma ReadFirst()
    ensures ReadBatch({}, 0, 1, BATCH_SIZE) == [0]
  {
    assert ReadBatch({}, 1, 1, BATCH_SIZE - 1) == [];
  }

  lemma OneFailureRun(cfg: Config, db0: Db, click: Click)
    requires cfg.Valid() && click.campaign in cfg.campaigns
    ensures Run(cfg, Start(db0), [Publish(click)] + ONE_FAILURE) == World(db0, [click], {0}, 1, Idle, 1, {}, {})
  {
    var w := Start(db0);
    ReadFirst();
    assert Run(cfg, w, []) == w;
    RunOneMore(cfg, w, [], Publish(click));
    var s1 := [] + [Publish(click)];
    RunOneMore(cfg, w, s1, Read);
    RunOneMore(cfg, w, s1 + [Read], ChargeFails);
    RunOneMore(cfg, w, s1 + [Read] + [ChargeFails], Delete);
    RunOneMore(cfg, w, s1 + [Read] + [ChargeFails] + [Delete], Advance);
    assert (set id | id in [0]) == {0};
    assert {} + {0} == {0};
    assert [Publish(click)] + ONE_FAILURE == s1 + [Read] + [ChargeFails] + [Delete] + [Advance];
  }

  /** A charge error on a click that could be paid, with the batch then deleted, loses the charge: the stream
      is drained and billing it again would have charged one click more. */
  lemma ChargeErrorLosesClick(cfg: Config, db0: Db, click: Click)
    requires Ready(cfg, db0) && click.campaign in cfg.campaigns && Chargeable(cfg, ViewOf(cfg, db0), click, 0)
    ensures var w := Run(cfg, Start(db0), [Publish(click)] + ONE_FAILURE);
            && Drained(w) && w.log == [click] && ViewOf(cfg, w.db).spends == []
            && |ViewOf(cfg, BillAll(cfg, db0, w.log)).spends| == 1
            && !NoneWaiting(cfg, w)
  {
    OneFailureRun(cfg, db0, click);
    var w := Run(cfg, Start(db0), [Publish(click)] + ONE_FAILURE);
    BillAllSeen(cfg, db0, [click]);
    assert [click][..0] == [];
    assert Pass(cfg, ViewOf(cfg, db0), [click]) == ChargeView(cfg, ViewOf(cfg, db0), click, 0);
    assert Waiting(cfg, w, 0);
  }

  /** There are such streams: one active campaign with money, and one zone. */
  lemma SuchStreamsExist()
    ensures var cfg := Config(map[0 := 1], 0, {0});
            var db0 := Db(map[0 := 0, 1 := 0], map[], [Campaign(0, ACTIVE, 100, 100, 0)], [], []);
            Ready(cfg, db0) && Chargeable(cfg, ViewOf(cfg, db0), Click(0, 0, 1000), 0)
  {
  }

  lemma {:induction false} LostStaysLost(cfg: Config, w: World, steps: seq<Step>)
    requires cfg.Valid()
    ensures w.lost <= Run(cfg, w, steps).lost
  {
    if steps != [] {
      LostStaysLost(cfg, w, steps[..|steps| - 1]);
    }
  }

  lemma {:induction false} RunAppend(cfg: Config, w: World, a: seq<Step>, b: seq<Step>)
    requires cfg.Valid()
    ensures Run(cfg, w, a + b) == Run(cfg, Run(cfg, w, a), b)
  {
    if b == [] {
      assert a + b == a;
    } else {
      assert (a + b)[..|a + b| - 1] == a + b[..|b| - 1];
      RunAppend(cfg, w, a, b[..|b| - 1]);
    }
  }

  lemma LostIsNotCredited(cfg: Config, db0: Db, w: World, id: nat)
    requires cfg.Valid() && OnTrack(cfg, db0, w) && id in w.lost
    ensures forall row | row in ClickCredits(w.db.ledger) :: row.ref.value.message != id
  {
    forall row | row in ClickCredits(w.db.ledger) ensures row.ref.value.message != id {
      assert row in CreditsFor(cfg, w.log, ViewOf(cfg, w.db).spends, w.lost + InFlight(w));
    }
  }

  /** Main result: a process that dies between charging a click and crediting it never makes up for the credit, although
      the click is read again. */
  lemma CrashBeforeCreditIsForGood(cfg: Config, db0: Db, before: seq<Step>, after: seq<Step>)
    requires Ready(cfg, db0) && Run(cfg, Start(db0), before).phase.Crediting?
    ensures var phase := Run(cfg, Start(db0), before).phase;
            && phase.next < |phase.batch|
            && forall row | row in ClickCredits(Run(cfg, Start(db0), before + [Crash] + after).db.ledger) ::
                 row.ref.value.message != phase.batch[phase.next]
  {
    var w := Run(cfg, Start(db0), before);
    RunStaysOnTrack(cfg, db0, before);
    assert w.phase.next < |w.phase.batch| && w.phase.batch[w.phase.next] in Do(cfg, w, Crash).lost;
    hide OnTrack;
    hide Run;
    RunOneMore(cfg, Start(db0), before, Crash);
    RunAppend(cfg, Start(db0), before + [Crash], after);
    LostStaysLost(cfg, Run(cfg, Start(db0), before + [Crash]), after);
    RunStaysOnTrack(cfg, db0, before + [Crash] + after);
    LostIsNotCredited(cfg, db0, Run(cfg, Start(db0), before + [Crash] + after), w.phase.batch[w.phase.next]);
  }

  // --- what is lost ---

  /** The step gives up the credit of the click that has been charged and not yet credited. */
  predicate GivesUp(step: Step) {
    step.CreditFails? || step.Throw? || step.Crash?
  }

  lemma StepLoses(cfg: Config, w: World, step: Step)
    requires cfg.Valid()
    ensures Do(cfg, w, step).lost == w.lost + if GivesUp(step) then InFlight(w) else {}
  {
    hide Charge;
    hide CreditShare;
    hide Next;
  }

  ghost predicate LosesAt(cfg: Config, db0: Db, steps: seq<Step>, j: int, id: nat)
    requires cfg.Valid()
  {
    0 <= j < |steps| && GivesUp(steps[j]) && id in InFlight(Run(cfg, Start(db0), steps[..j]))
  }

  /** Main result: a credit is lost exactly when an exception or a crash met its click between charge and credit. */
  lemma {:induction false} LostIffFaultInFlight(cfg: Config, db0: Db, steps: seq<Step>, id: nat)
    requires cfg.Valid()
    ensures id in Run(cfg, Start(db0), steps).lost <==> exists j :: LosesAt(cfg, db0, steps, j, id)
  {
    hide Do;
    hide InFlight;
    if steps != [] {
      var n := |steps| - 1;
      var before := Run(cfg, Start(db0), steps[..n]);
      LostIffFaultInFlight(cfg, db0, steps[..n], id);
      StepLoses(cfg, before, steps[n]);
      forall j | 0 <= j < n ensures steps[..n][..j] == steps[..j] {
      }
      assert forall j | j < n :: LosesAt(cfg, db0, steps[..n], j, id) == LosesAt(cfg, db0, steps, j, id);
      assert LosesAt(cfg, db0, steps, n, id) == (GivesUp(steps[n]) && id in InFlight(before));
      assert Run(cfg, Start(db0), steps) == Do(cfg, before, steps[n]);
      hide Run;
      hide GivesUp;
    }
  }

  // --- nothing is skipped ---

  /** Every message up to `last` has been deleted or is in the batch. */
  ghost predicate DoneUpTo(deleted: set<nat>, batch: seq<nat>, last: nat) {
    forall id: nat | id <= last :: id in deleted || id in batch
  }

  /** No message behind the cursor is left, and none is passed over by the batch at hand. */
  ghost predicate LeavesNone(w: World) {
    && (forall id: nat | id < w.cursor :: id in w.deleted)
    && match w.phase
       case Idle => true
       case Billing(batch, _) => batch != [] && DoneUpTo(w.deleted, batch, batch[|batch| - 1])
       case Crediting(batch, _) => batch != [] && DoneUpTo(w.deleted, batch, batch[|batch| - 1])
       case Acknowledged(batch) => batch != [] && DoneUpTo(w.deleted, [], batch[|batch| - 1])
  }

  lemma ReadLeavesNone(w: World)
    requires forall id: nat | id < w.cursor :: id in w.deleted
    ensures var batch := ReadBatch(w.deleted, w.cursor, |w.log|, BATCH_SIZE);
            batch != [] ==> DoneUpTo(w.deleted, batch, batch[|batch| - 1])
  {
    var batch := ReadBatch(w.deleted, w.cursor, |w.log|, BATCH_SIZE);
    if batch != [] {
      forall id: nat | id <= batch[|batch| - 1] ensures id in w.deleted || id in batch {
        ReadBatchIsTheFirst(w.deleted, w.cursor, |w.log|, BATCH_SIZE, id);
      }
    }
  }

  lemma StepLeavesNone(cfg: Config, w: World, step: Step)
    requires cfg.Valid() && LeavesNone(w)
    ensures LeavesNone(Do(cfg, w, step))
  {
    hide Charge;
    hide CreditShare;
    hide Next;
    hide ReadBatch;
    ReadLeavesNone(w);
  }

  lemma {:induction false} EveryRunLeavesNone(cfg: Config, db0: Db, steps: seq<Step>)
    requires cfg.Valid()
    ensures LeavesNone(Run(cfg, Start(db0), steps))
  {
    if steps != [] {
      var n := |steps| - 1;
      EveryRunLeavesNone(cfg, db0, steps[..n]);
      StepLeavesNone(cfg, Run(cfg, Start(db0), steps[..n]), steps[n]);
    }
  }

  /** Main result: in every run, whatever crashes and exceptions it contains, the next read starts at the first message
      that has not been deleted, and finds nothing only when there is none. */
  lemma NextReadIsTheFirstLeft(cfg: Config, db0: Db, steps: seq<Step>, id: nat)
    requires cfg.Valid() && Run(cfg, Start(db0), steps).phase.Idle?
    requires id < |Run(cfg, Start(db0), steps).log| && id !in Run(cfg, Start(db0), steps).deleted
    ensures var after := Do(cfg, Run(cfg, Start(db0), steps), Read);
            after.phase.Billing? && after.phase.batch != [] && after.phase.batch[0] <= id
  {
    var w := Run(cfg, Start(db0), steps);
    EveryRunLeavesNone(cfg, db0, steps);
    ReadBatchIsTheFirst(w.deleted, w.cursor, |w.log|, BATCH_SIZE, id);
    var batch := ReadBatch(w.deleted, w.cursor, |w.log|, BATCH_SIZE);
    if id in batch {
      var i :| 0 <= i < |batch| && batch[i] == id;
      assert i > 0 ==> batch[0] < batch[i];
    }
    hide ReadBatch;
  }
}
