/** When the answer PAID to a confirm call is right.

  A caller that loses the compare-and-swap is answered PAID without another look at the order; the order may have been
  declined since the caller read it.
 */
module PaymentAnswers {
  import opened Books
  import opened LedgerReplay
  import opened Payments

  /** The payment of order `o` has been credited, or is in the hands of its one winner, or was dropped by it. */
  ghost predicate PaidIn(w: World, o: nat) {
    && o < |w.orders| && w.orders[o].payment.Some?
    && Deposits(w, w.orders[o].payment.value) + (if HasWinner(w, o) then 1 else 0)
         + (if o in w.dropped then 1 else 0) == 1
  }

  /** A decline, or the failure write of the request that created it, meets order `o` before anybody has paid it. */
  predicate FailsUnpaid(w: World, step: Step, o: nat) {
    && o < |w.orders| && w.orders[o].status == CREATED
    && ((step == Decline(o) && w.orders[o].published) || FailsOrder(w, step, o))
  }

  /** Order `o` is FAILED, and nobody's payment won it. */
  predicate FailedUnpaid(w: World, o: nat) {
    o < |w.orders| && w.orders[o].status == FAILED && w.orders[o].payment == None
  }

  lemma StepFailsUnpaid(w: World, step: Step, o: nat)
    requires Fits(w)
    ensures FailedUnpaid(Do(w, step), o) <==> FailedUnpaid(w, o) || FailsUnpaid(w, step, o)
  {
    hide TopUpsGenuine;
    hide ForeignKeys;
    hide Apply;
    hide Next;
    assert OrderFits(w, o);
  }

  /** Step `j` of the run fails order `o` before it was paid. */
  predicate FailsAt(db: Db, steps: seq<Step>, j: int, o: nat) {
    0 <= j < |steps| && FailsUnpaid(Run(Start(db), steps[..j]), steps[j], o)
  }

  lemma FailsInPrefix(db: Db, steps: seq<Step>, n: nat, o: nat)
    requires n <= |steps|
    ensures forall j | j < n :: FailsAt(db, steps[..n], j, o) == FailsAt(db, steps, j, o)
  {
    forall j | 0 <= j < n ensures steps[..n][..j] == steps[..j] {
    }
  }

  /** An order is FAILED without a payment exactly when some step of the run failed it before it was paid. */
  lemma {:induction false} FailedUnpaidIff(db: Db, steps: seq<Step>, o: nat)
    requires NoTopUpsYet(db)
    ensures FailedUnpaid(Run(Start(db), steps), o) <==> exists j :: FailsAt(db, steps, j, o)
  {
    hide NoTopUpsYet;
    hide Do;
    hide Fits;
    hide FailsUnpaid;
    if steps != [] {
      var n := |steps| - 1;
      var before := Run(Start(db), steps[..n]);
      FailedUnpaidIff(db, steps[..n], o);
      EveryRunFits(db, steps[..n]);
      StepFailsUnpaid(before, steps[n], o);
      FailsInPrefix(db, steps, n, o);
      assert FailsAt(db, steps, n, o) <==> FailsUnpaid(before, steps[n], o);
      assert Run(Start(db), steps) == Do(before, steps[n]);
      hide Run;
      if FailedUnpaid(before, o) {
        var j :| FailsAt(db, steps[..n], j, o);
        assert FailsAt(db, steps, j, o);
      }
    }
  }

  /** Whoever is answered PAID found the order no longer CREATED, or paid it. */
  ghost predicate AnswersFit(w: World) {
    forall i | 0 <= i < |w.callers| && w.callers[i].Answered? ::
      w.callers[i].order < |w.orders| && w.orders[w.callers[i].order].status != CREATED
  }

  lemma AnswersStayFit(w: World, step: Step)
    requires Fits(w) && AnswersFit(w)
    ensures AnswersFit(Do(w, step))
  {
    hide TopUpsGenuine;
    hide ForeignKeys;
    hide Apply;
    hide Next;
    if step.CreditWallet? && step.caller < |w.callers| && w.callers[step.caller].Won? {
      assert IsWinner(w, step.caller, w.callers[step.caller].order);
      assert OrderFits(w, w.callers[step.caller].order);
    }
  }

  lemma {:induction false} EveryRunsAnswersFit(db: Db, steps: seq<Step>)
    requires NoTopUpsYet(db)
    ensures AnswersFit(Run(Start(db), steps))
  {
    if steps != [] {
      EveryRunsAnswersFit(db, steps[..|steps| - 1]);
      EveryRunFits(db, steps[..|steps| - 1]);
      AnswersStayFit(Run(Start(db), steps[..|steps| - 1]), steps[|steps| - 1]);
    }
  }

  lemma PaidOrFailed(db: Db, steps: seq<Step>, o: nat)
    requires NoTopUpsYet(db) && o < |Run(Start(db), steps).orders| && Run(Start(db), steps).orders[o].status != CREATED
    ensures PaidIn(Run(Start(db), steps), o) <==> !exists j :: FailsAt(db, steps, j, o)
  {
    EveryRunFits(db, steps);
    assert OrderFits(Run(Start(db), steps), o);
    FailedUnpaidIff(db, steps, o);
  }

  /** Main result: in every run the answer PAID is right exactly when no step failed the order before it was paid. */
  lemma PaidAnswerIsRightIff(db: Db, steps: seq<Step>, i: nat)
    requires NoTopUpsYet(db)
    requires i < |Run(Start(db), steps).callers| && Run(Start(db), steps).callers[i].Answered?
    ensures var w := Run(Start(db), steps);
            PaidIn(w, w.callers[i].order) <==> !exists j :: FailsAt(db, steps, j, w.callers[i].order)
  {
    EveryRunsAnswersFit(db, steps);
    PaidOrFailed(db, steps, Run(Start(db), steps).callers[i].order);
  }

  lemma {:induction false} NotCreatedStays(db: Db, steps: seq<Step>, k: nat, o: nat)
    requires NoTopUpsYet(db) && k <= |steps| && o < |Run(Start(db), steps[..k]).orders|
    requires Run(Start(db), steps[..k]).orders[o].status != CREATED
    ensures o < |Run(Start(db), steps).orders| && Run(Start(db), steps).orders[o].status != CREATED
  {
    hide Do;
    hide Fits;
    hide FailsOrder;
    if k == |steps| {
      assert steps[..k] == steps;
    } else {
      var n := |steps| - 1;
      assert steps[..n][..k] == steps[..k];
      NotCreatedStays(db, steps[..n], k, o);
      EveryRunFits(db, steps[..n]);
      PaymentIsKept(Run(Start(db), steps[..n]), steps[n], o);
    }
  }

  /** Step `k` is the one in which confirm call `i` reads order `o` and finds it CREATED. */
  predicate ReadsAt(db: Db, steps: seq<Step>, k: nat, i: nat, o: nat) {
    && k < |steps| && |Run(Start(db), steps[..k]).callers| == i
    && var after := Do(Run(Start(db), steps[..k]), steps[k]);
       i < |after.callers| && after.callers[i] == Checked(o)
  }

  /** Step `m` is the one after which confirm call `i` is answered PAID. */
  predicate AnsweredAt(db: Db, steps: seq<Step>, m: nat, i: nat, o: nat) {
    && m < |steps| && i < |Run(Start(db), steps[..m]).callers| && !Run(Start(db), steps[..m]).callers[i].Answered?
    && var after := Do(Run(Start(db), steps[..m]), steps[m]);
       i < |after.callers| && after.callers[i] == Answered(o)
  }

  lemma ReadFindsCreated(w: World, step: Step, o: nat)
    requires |Do(w, step).callers| > |w.callers| && Do(w, step).callers[|w.callers|] == Checked(o)
    ensures o < |w.orders| && w.orders[o].status == CREATED && step == Check(o)
  {
  }

  lemma AnswerFailsNothing(w: World, step: Step, i: nat, o: nat)
    requires i < |w.callers| && !w.callers[i].Answered?
    requires i < |Do(w, step).callers| && Do(w, step).callers[i] == Answered(o)
    ensures !FailsUnpaid(w, step, o)
  {
  }

  lemma NoneFailsBeforeRead(db: Db, steps: seq<Step>, i: nat, o: nat, k: nat, j: int)
    requires NoTopUpsYet(db) && ReadsAt(db, steps, k, i, o)
    ensures j <= k ==> !FailsAt(db, steps, j, o)
  {
    ReadFindsCreated(Run(Start(db), steps[..k]), steps[k], o);
    FailedUnpaidIff(db, steps[..k], o);
    FailsInPrefix(db, steps, k, o);
    hide Do;
    hide Run;
    if 0 <= j < k {
      assert FailsAt(db, steps[..k], j, o) == FailsAt(db, steps, j, o);
    }
  }

  lemma AnsweredIsNotCreated(db: Db, steps: seq<Step>, i: nat, o: nat, m: nat)
    requires NoTopUpsYet(db) && AnsweredAt(db, steps, m, i, o)
    ensures m < |steps| && o < |Run(Start(db), steps[..m + 1]).orders|
    ensures Run(Start(db), steps[..m + 1]).orders[o].status != CREATED
  {
    hide Do;
    assert steps[..m + 1][..m] == steps[..m];
    EveryRunsAnswersFit(db, steps[..m + 1]);
  }

  lemma NoneFailsAfterAnswer(db: Db, steps: seq<Step>, i: nat, o: nat, m: nat, j: int)
    requires NoTopUpsYet(db) && AnsweredAt(db, steps, m, i, o)
    ensures j >= m ==> !FailsAt(db, steps, j, o)
  {
    AnswerFailsNothing(Run(Start(db), steps[..m]), steps[m], i, o);
    AnsweredIsNotCreated(db, steps, i, o, m);
    hide Do;
    hide FailsOrder;
    if m < j < |steps| {
      assert steps[..j][..m + 1] == steps[..m + 1];
      NotCreatedStays(db, steps[..j], m + 1, o);
      hide Run;
    }
  }

  /** Main result: a confirm call that read the order CREATED is answered PAID wrongly exactly when the order was failed
      between that read and the answer. */
  lemma WrongAnswerIffFailedMeanwhile(db: Db, steps: seq<Step>, i: nat, o: nat, k: nat, m: nat)
    requires NoTopUpsYet(db) && k < m && ReadsAt(db, steps, k, i, o) && AnsweredAt(db, steps, m, i, o)
    ensures !PaidIn(Run(Start(db), steps), o) <==> exists j :: k < j < m && FailsAt(db, steps, j, o)
  {
    hide Run;
    hide Do;
    hide NoTopUpsYet;
    hide ReadsAt;
    hide AnsweredAt;
    hide FailsAt;
    hide PaidIn;
    AnsweredIsNotCreated(db, steps, i, o, m);
    NotCreatedStays(db, steps, m + 1, o);
    PaidOrFailed(db, steps, o);
    forall j ensures j <= k ==> !FailsAt(db, steps, j, o) {
      NoneFailsBeforeRead(db, steps, i, o, k, j);
    }
    forall j ensures j >= m ==> !FailsAt(db, steps, j, o) {
      NoneFailsAfterAnswer(db, steps, i, o, m, j);
    }
  }

  /** Only a decline can do that to an order whose id the browser was given. */
  lemma OnlyDeclinesFailReturned(db: Db, steps: seq<Step>, j: nat, o: nat)
    requires NoTopUpsYet(db) && FailsAt(db, steps, j, o) && Run(Start(db), steps[..j]).orders[o].returned
    ensures steps[j] == Decline(o)
  {
    EveryRunsCreatorsFit(db, steps[..j]);
    hide Run;
    hide Do;
  }

  /** A payment is captured for an order that is declined before the swap: a first attempt that failed, say. */
  const DECLINED_MEANWHILE: seq<Step> :=
    [CreateOrder(0, 500), PublishOrder(0, true), Check(0), Capture(1, Some(7)), Decline(0), CompareAndSwap(1)]

  lemma CapturedFirst()
    ensures Run(Start(ONE_USER), DECLINED_MEANWHILE[..4]) ==
            World(ONE_USER, [Order(0, 500, CREATED, None, true, true)], [Done, Captured(0, 7)], {})
  {
    var w, s := Start(ONE_USER), DECLINED_MEANWHILE;
    assert s[..1] == [] + [s[0]] && s[..2] == s[..1] + [s[1]] && s[..3] == s[..2] + [s[2]] && s[..4] == s[..3] + [s[3]];
    assert Run(w, []) == w;
    RunOneMore(w, [], s[0]);
    RunOneMore(w, s[..1], s[1]);
    assert Run(w, s[..2]) == World(ONE_USER, [Order(0, 500, CREATED, None, true, true)], [Done], {});
    RunOneMore(w, s[..2], s[2]);
    RunOneMore(w, s[..3], s[3]);
  }

  /** The answer can be wrong: the caller is told PAID, the order reads FAILED, and nothing is ever credited. */
  lemma DeclineBeforeSwap()
    ensures Run(Start(ONE_USER), DECLINED_MEANWHILE) ==
            World(ONE_USER, [Order(0, 500, FAILED, None, true, true)], [Done, Answered(0)], {})
    ensures !PaidIn(Run(Start(ONE_USER), DECLINED_MEANWHILE), 0)
  {
    var w, s := Start(ONE_USER), DECLINED_MEANWHILE;
    CapturedFirst();
    assert s[..5] == s[..4] + [s[4]] && s == s[..5] + [s[5]];
    RunOneMore(w, s[..4], s[4]);
    RunOneMore(w, s[..5], s[5]);
  }
}
