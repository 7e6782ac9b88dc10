/** What the ledger holds for one billed event: its charge and its credit carry the same reference. */
module Accounts {
  import opened Books
  import opened LedgerReplay

  /** The event streams that charge and credit with one reference each. */
  datatype Stream = Clicks | Conversions

  function RefOf(stream: Stream, k: nat): Ref {
    match stream
    case Clicks => ClickRef(k)
    case Conversions => ConversionRef(k)
  }

  predicate InStream(stream: Stream, ref: Ref) {
    if stream == Clicks then ref.ClickRef? else ref.ConversionRef?
  }

  function NumberOf(stream: Stream, ref: Ref): nat
    requires InStream(stream, ref)
  {
    match ref
    case ClickRef(k) => k
    case ConversionRef(k) => k
  }

  predicate IsEventRow(stream: Stream, row: Row) {
    (row.kind == AD_SPEND || row.kind == PUBLISHER_EARNING) && row.ref.Some? && InStream(stream, row.ref.value)
  }

  /** No other transaction charges or credits an event of the stream. */
  predicate LeavesAlone(stream: Stream, op: Op) {
    match op
    case OpSpend(_, _, ref) => !InStream(stream, ref)
    case OpCredit(_, _, ref, _) => !InStream(stream, ref)
    case _ => true
  }

  /** The sum of the rows of one kind with one reference. */
  function Sum(ledger: seq<Row>, kind: Kind, ref: Ref): nat {
    if ledger == [] then 0
    else
      var last := ledger[|ledger| - 1];
      Sum(ledger[..|ledger| - 1], kind, ref) + if last.kind == kind && last.ref == Some(ref) then last.amount else 0
  }

  lemma SumAppend(ledger: seq<Row>, row: Row, kind: Kind, ref: Ref)
    ensures Sum(ledger + [row], kind, ref) ==
            Sum(ledger, kind, ref) + if row.kind == kind && row.ref == Some(ref) then row.amount else 0
  {
    assert (ledger + [row])[..|ledger|] == ledger;
  }

  datatype Account = Account(charges: nat, charged: nat, credits: nat, credited: nat) {
    /** Charged at most once, credited only if charged, and never for more. */
    predicate InOrder() {
      charges <= 1 && credits <= charges && credited <= charged
    }
  }

  const NOTHING := Account(0, 0, 0, 0)

  function AccountOf(ledger: seq<Row>, ref: Ref): Account {
    Account(Count(ledger, AD_SPEND, ref), Sum(ledger, AD_SPEND, ref),
            Count(ledger, PUBLISHER_EARNING, ref), Sum(ledger, PUBLISHER_EARNING, ref))
  }

  lemma AccountAppend(ledger: seq<Row>, row: Row, ref: Ref)
    ensures var a := AccountOf(ledger, ref);
            AccountOf(ledger + [row], ref) ==
              (if row.ref != Some(ref) then a
               else if row.kind == AD_SPEND then a.(charges := a.charges + 1, charged := a.charged + row.amount)
               else if row.kind == PUBLISHER_EARNING then
                 a.(credits := a.credits + 1, credited := a.credited + row.amount)
               else a)
  {
    CountAppend(ledger, row, AD_SPEND, ref);
    CountAppend(ledger, row, PUBLISHER_EARNING, ref);
    SumAppend(ledger, row, AD_SPEND, ref);
    SumAppend(ledger, row, PUBLISHER_EARNING, ref);
  }

  lemma OtherRow(stream: Stream, db: Db, op: Op)
    requires LeavesAlone(stream, op)
    ensures match RowOf(db, op)
            case None => Next(db, op).ledger == db.ledger
            case Some(row) => Next(db, op).ledger == db.ledger + [row] && !IsEventRow(stream, row)
  {
  }

  lemma OtherKeepsAccount(stream: Stream, db: Db, op: Op, k: nat)
    requires LeavesAlone(stream, op)
    ensures AccountOf(Next(db, op).ledger, RefOf(stream, k)) == AccountOf(db.ledger, RefOf(stream, k))
  {
    OtherRow(stream, db, op);
    if LedgerReplay.RowOf(db, op).Some? {
      AccountAppend(db.ledger, LedgerReplay.RowOf(db, op).value, RefOf(stream, k));
    }
  }

  lemma SpendRowOf(db: Db, c: CampaignId, raw: int, ref: Ref)
    requires Spend(db, c, raw, ref).Commit?
    ensures Normalize(raw).Cents? && c < |db.campaigns|
    ensures Spend(db, c, raw, ref).db.ledger ==
            db.ledger + [Row(db.campaigns[c].owner, AD_SPEND, Normalize(raw).cents, Some(ref))]
    ensures !Taken(db.ledger, db.campaigns[c].owner, AD_SPEND, Some(ref))
  {
  }

  lemma CreditRowOf(db: Db, u: UserId, cents: nat, ref: Ref)
    requires cents > 0
    ensures var after := Next(db, OpCredit(u, cents * MILLICENTS_PER_CENT, ref, false));
            after.ledger == db.ledger || after.ledger == db.ledger + [Row(u, PUBLISHER_EARNING, cents, Some(ref))]
  {
  }

  ghost predicate NoneYet(stream: Stream, db: Db) {
    forall i | 0 <= i < |db.ledger| :: !IsEventRow(stream, db.ledger[i])
  }

  lemma {:induction false} EmptyAccount(stream: Stream, ledger: seq<Row>, k: nat)
    requires forall i | 0 <= i < |ledger| :: !IsEventRow(stream, ledger[i])
    ensures AccountOf(ledger, RefOf(stream, k)) == NOTHING
  {
    if ledger != [] {
      var n := |ledger| - 1;
      EmptyAccount(stream, ledger[..n], k);
      assert ledger == ledger[..n] + [ledger[n]];
      AccountAppend(ledger[..n], ledger[n], RefOf(stream, k));
    }
  }

  /** What the platform keeps of the events numbered below `n`. */
  function TakeBelow(stream: Stream, ledger: seq<Row>, n: nat): int {
    if ledger == [] then 0
    else
      var last := ledger[|ledger| - 1];
      var amount: int := last.amount;
      TakeBelow(stream, ledger[..|ledger| - 1], n) +
        if !IsEventRow(stream, last) || NumberOf(stream, last.ref.value) >= n then 0
        else if last.kind == AD_SPEND then amount else -amount
  }

  lemma {:induction false} TakeByEvent(stream: Stream, ledger: seq<Row>, n: nat)
    ensures TakeBelow(stream, ledger, n + 1)
         == TakeBelow(stream, ledger, n) + Sum(ledger, AD_SPEND, RefOf(stream, n))
           - Sum(ledger, PUBLISHER_EARNING, RefOf(stream, n))
  {
    if ledger != [] {
      TakeByEvent(stream, ledger[..|ledger| - 1], n);
    }
  }

  lemma {:induction false} TakeOfNone(stream: Stream, ledger: seq<Row>)
    ensures TakeBelow(stream, ledger, 0) == 0
  {
    if ledger != [] {
      TakeOfNone(stream, ledger[..|ledger| - 1]);
    }
  }

  /** When every event's account is in order, all of them together leave the platform no loss. */
  lemma {:induction false} OrderLeavesNoLoss(stream: Stream, ledger: seq<Row>, n: nat)
    requires forall k: nat | k < n :: AccountOf(ledger, RefOf(stream, k)).InOrder()
    ensures TakeBelow(stream, ledger, n) >= 0
  {
    if n == 0 {
      TakeOfNone(stream, ledger);
    } else {
      OrderLeavesNoLoss(stream, ledger, n - 1);
      TakeByEvent(stream, ledger, n - 1);
      assert AccountOf(ledger, RefOf(stream, n - 1)).InOrder();
    }
  }

  lemma {:induction false} SumOfOne(ledger: seq<Row>, kind: Kind, ref: Ref, row: Row)
    requires row in ledger && row.kind == kind && row.ref == Some(ref)
    ensures Sum(ledger, kind, ref) >= row.amount && Count(ledger, kind, ref) >= 1
    ensures Count(ledger, kind, ref) == 1 ==> Sum(ledger, kind, ref) == row.amount
  {
    var n := |ledger| - 1;
    assert ledger == ledger[..n] + [ledger[n]];
    if ledger[n] != row || row in ledger[..n] {
      SumOfOne(ledger[..n], kind, ref, row);
    } else {
      CountZero(ledger[..n], kind, ref);
      if Count(ledger[..n], kind, ref) == 0 {
        SumOfNone(ledger[..n], kind, ref);
      }
    }
  }

  lemma {:induction false} SumOfNone(ledger: seq<Row>, kind: Kind, ref: Ref)
    requires Count(ledger, kind, ref) == 0
    ensures Sum(ledger, kind, ref) == 0
  {
    if ledger != [] {
      SumOfNone(ledger[..|ledger| - 1], kind, ref);
    }
  }

  /** In an account in order a credit row stands beside exactly one charge row, which is at least as large. */
  lemma CreditHasItsCharge(ledger: seq<Row>, ref: Ref, credit: Row)
    requires AccountOf(ledger, ref).InOrder() && credit in ledger && credit.kind == PUBLISHER_EARNING
             && credit.ref == Some(ref)
    ensures Count(ledger, AD_SPEND, ref) == 1
    ensures exists spend | spend in ledger ::
              spend.kind == AD_SPEND && spend.ref == Some(ref) && spend.amount >= credit.amount
  {
    SumOfOne(ledger, PUBLISHER_EARNING, ref, credit);
    CountZero(ledger, AD_SPEND, ref);
    var i :| 0 <= i < |ledger| && ledger[i].kind == AD_SPEND && ledger[i].ref == Some(ref);
    SumOfOne(ledger, AD_SPEND, ref, ledger[i]);
  }
}
