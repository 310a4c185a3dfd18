/** What a run of the order saga answers and what it writes to the books, case by case. */
module SagaOutcomes {
  import opened Wrappers
  import opened Reservation
  import opened ReservationCalls
  import opened Saga
  import opened SagaRuns
  import opened Journal
  import JR = JournalRuns
  import P = Posts

  /** The line is given what is free after its sweep, billed for that, and backordered for the rest. */
  ghost predicate LineDone(before: Reserved, after: Reserved, hash: SkuId -> nat, line: SagaLine, swept: Engine,
      given: nat)
    requires |swept.shards| == Reservation.SHARDS && given <= line.qty
  {
    && after.e == Do(swept, hash, OrderStep(line.sku, line.qty))
    && after.taken == before.taken + [given]
    && after.total == before.total + line.unitPrice * given
    && after.holds == before.holds + (if given == 0 then [] else [OwnHold(line.sku, swept.nextId, given)])
    && after.backorders == before.backorders
         + if given == line.qty then [] else [SagaLine(line.sku, line.qty - given, line.unitPrice)]
  }

  lemma {:induction false} OneLine(before: Reserved, hash: SkuId -> nat, line: SagaLine, sweep: seq<Step>)
    requires |before.e.shards| == Reservation.SHARDS
    ensures var swept := RunFrom(before.e, hash, sweep);
      LineDone(before, ReserveLine(before, hash, line, sweep), hash, line, swept,
               Given(Free(StateOf(swept.shards, hash, line.sku)), line.qty))
  {
    GivenIsReservable(StateOf(RunFrom(before.e, hash, sweep).shards, hash, line.sku), line.qty);
    LineTotal(before, hash, line, sweep);
  }

  /** The loop, line by line. */
  lemma {:induction false} LineByLine(e: Engine, hash: SkuId -> nat, lines: seq<SagaLine>, sweeps: seq<seq<Step>>,
      line: SagaLine, sweep: seq<Step>)
    requires |e.shards| == Reservation.SHARDS && |sweeps| == |lines|
    ensures ReserveLines(e, hash, [], []) == Reserved(e, [], [], [], 0)
    ensures var before, after := ReserveLines(e, hash, lines, sweeps),
            ReserveLines(e, hash, lines + [line], sweeps + [sweep]);
      var swept := RunFrom(before.e, hash, sweep);
      LineDone(before, after, hash, line, swept, Given(Free(StateOf(swept.shards, hash, line.sku)), line.qty))
  {
    ReserveLinesSnoc(e, hash, lines, sweeps, line, sweep);
    OneLine(ReserveLines(e, hash, lines, sweeps), hash, line, sweep);
  }

  ghost predicate TakesEntries(j: JournalState, period: string) {
    period in j.periods ==> j.periods[period] == Open || j.periods[period] == SoftClose
                            || j.periods[period] == Reconciling
  }

  lemma {:induction false} SalePosts(j: JournalState, c: Config, tx: nat, total: int, memo: string)
    requires JR.ShardsOk(j.shards, c.accountHash)
    ensures var sale := SaleEntries(c.receivable, c.revenue, total);
      var refund := RefundEntries(c.receivable, c.revenue, total);
      var (paid, r) := Post(j, c.accountHash, tx, sale, c.period, memo, None);
      && r == (if TakesEntries(j, c.period) then Ok(tx) else Err(PeriodClosed(c.period)))
      && (!TakesEntries(j, c.period) ==> paid == j)
      && Post(j, c.accountHash, tx, refund, c.period, memo, None).1 == r
  {
    SaleValid(c.receivable, c.revenue, total);
    JR.PostSucceedsIff(j, c.accountHash, tx, SaleEntries(c.receivable, c.revenue, total), c.period, memo, None);
    JR.PostSucceedsIff(j, c.accountHash, tx, RefundEntries(c.receivable, c.revenue, total), c.period, memo, None);
  }

  /** The journal after a sale, and after its refund. */
  function Paid(j: JournalState, c: Config, tx: nat, total: int): (r: JournalState)
    requires |j.shards| == Journal.SHARDS
    ensures |r.shards| == Journal.SHARDS
  {
    Post(j, c.accountHash, tx, SaleEntries(c.receivable, c.revenue, total), c.period, "oms sale", None).0
  }

  function Refunded(j: JournalState, c: Config, tx: nat, total: int): (r: JournalState)
    requires |j.shards| == Journal.SHARDS
    ensures |r.shards| == Journal.SHARDS
  {
    Post(j, c.accountHash, tx, RefundEntries(c.receivable, c.revenue, total), c.period, "oms refund", None).0
  }

  /** Nothing reserved: nothing is billed or released. */
  lemma {:induction false} NothingReserved(w: World, c: Config, lines: seq<SagaLine>, saleTx: nat, refundTx: nat,
      sweeps: seq<seq<Step>>, meanwhile: seq<Step>)
    requires |w.e.shards| == Reservation.SHARDS && |w.j.shards| == Journal.SHARDS && |sweeps| == |lines|
    requires lines != [] && ReserveLines(w.e, c.skuHash, lines, sweeps).holds == []
    ensures var r := ReserveLines(w.e, c.skuHash, lines, sweeps);
      RunResult(w, c, lines, saleTx, refundTx, sweeps, meanwhile)
      == (World(r.e, w.j), Ok(SagaOutcome(Backordered, None, 0, r.backorders)))
  {
  }

  /** Something reserved, but the period takes no entries. */
  lemma {:induction false} PeriodRefuses(w: World, c: Config, lines: seq<SagaLine>, saleTx: nat, refundTx: nat,
      sweeps: seq<seq<Step>>, meanwhile: seq<Step>)
    requires |w.e.shards| == Reservation.SHARDS && JR.ShardsOk(w.j.shards, c.accountHash) && |sweeps| == |lines|
    requires ReserveLines(w.e, c.skuHash, lines, sweeps).holds != [] && !TakesEntries(w.j, c.period)
    ensures var (after, result) := RunResult(w, c, lines, saleTx, refundTx, sweeps, meanwhile);
      after.j == w.j && result == Err(PayFailed(PeriodClosed(c.period)))
  {
    SalePosts(w.j, c, saleTx, ReserveLines(w.e, c.skuHash, lines, sweeps).total, "oms sale");
  }

  /** Something reserved and paid: the run fulfils the order or refunds it. */
  lemma {:induction false} PaidFor(w: World, c: Config, lines: seq<SagaLine>, saleTx: nat, refundTx: nat,
      sweeps: seq<seq<Step>>, meanwhile: seq<Step>)
    requires |w.e.shards| == Reservation.SHARDS && JR.ShardsOk(w.j.shards, c.accountHash) && |sweeps| == |lines|
    requires ReserveLines(w.e, c.skuHash, lines, sweeps).holds != [] && TakesEntries(w.j, c.period)
    ensures var (after, result) := RunResult(w, c, lines, saleTx, refundTx, sweeps, meanwhile);
      var r := ReserveLines(w.e, c.skuHash, lines, sweeps);
      if result.Ok?
      then && result.value
              == SagaOutcome(if r.backorders == [] then Shipped else Backordered, Some(saleTx), r.total, r.backorders)
           && after.j == Paid(w.j, c, saleTx, r.total)
      else result.error.FulfillFailed? && after.j == Refunded(Paid(w.j, c, saleTx, r.total), c, refundTx, r.total)
  {
    SalePosts(w.j, c, saleTx, ReserveLines(w.e, c.skuHash, lines, sweeps).total, "oms sale");
  }

  /**
   * An order without lines is refused; a payment fails exactly when something was reserved and the
   * period takes no entries, and says so; an order of which nothing was reserved bills nothing and is
   * wholly backordered; any other success carries the sale's transaction and the bill.
   */
  lemma {:induction false} Outcomes(w: World, c: Config, lines: seq<SagaLine>, saleTx: nat, refundTx: nat,
      sweeps: seq<seq<Step>>, meanwhile: seq<Step>)
    requires |w.e.shards| == Reservation.SHARDS && JR.ShardsOk(w.j.shards, c.accountHash) && |sweeps| == |lines|
    ensures var (after, result) := RunResult(w, c, lines, saleTx, refundTx, sweeps, meanwhile);
      var r := ReserveLines(w.e, c.skuHash, lines, sweeps);
      var reserved := exists i :: 0 <= i < |lines| && r.taken[i] > 0;
      && (result == Err(EmptyOrder) <==> lines == [])
      && (forall e :: result == Err(PayFailed(e))
            <==> reserved && !TakesEntries(w.j, c.period) && e == PeriodClosed(c.period))
      && (lines != [] && !reserved ==>
            result == Ok(SagaOutcome(Backordered, None, 0, Shortfalls(lines, r.taken))) && after == World(r.e, w.j))
      && (reserved && result.Ok? ==>
            && result.value.transactionId == Some(saleTx) && result.value.total == PriceOf(lines, r.taken)
            && result.value.backorders == Shortfalls(lines, r.taken)
            && result.value.status == if Shortfalls(lines, r.taken) == [] then Shipped else Backordered)
  {
    var r := ReserveLines(w.e, c.skuHash, lines, sweeps);
    HoldsIffTaken(w.e, c.skuHash, lines, sweeps);
    TotalIsPrice(w.e, c.skuHash, lines, sweeps);
    BackordersAreShortfalls(w.e, c.skuHash, lines, sweeps);
    if r.holds != [] {
      if TakesEntries(w.j, c.period) {
        PaidFor(w, c, lines, saleTx, refundTx, sweeps, meanwhile);
      } else {
        PeriodRefuses(w, c, lines, saleTx, refundTx, sweeps, meanwhile);
      }
    } else if lines != [] {
      NothingReserved(w, c, lines, saleTx, refundTx, sweeps, meanwhile);
    }
  }

  /** What the sale brings to the events of an account. */
  function SaleTo(c: Config, tx: nat, total: int, a: AccountId): seq<PostedLeg> {
    (if a == c.receivable then [PostedLeg(tx, a, Debit, total, c.period, "oms sale")] else [])
    + (if a == c.revenue then [PostedLeg(tx, a, Credit, total, c.period, "oms sale")] else [])
  }

  /** What the refund brings. */
  function RefundTo(c: Config, tx: nat, total: int, a: AccountId): seq<PostedLeg> {
    (if a == c.receivable then [PostedLeg(tx, a, Credit, total, c.period, "oms refund")] else [])
    + (if a == c.revenue then [PostedLeg(tx, a, Debit, total, c.period, "oms refund")] else [])
  }

  lemma {:induction false} SaleAppends(j: JournalState, c: Config, tx: nat, total: int, a: AccountId)
    requires JR.ShardsOk(j.shards, c.accountHash) && TakesEntries(j, c.period)
    ensures P.LoggedTo(Paid(j, c, tx, total).shards, c.accountHash, a)
        == P.LoggedTo(j.shards, c.accountHash, a) + SaleTo(c, tx, total, a)
    ensures P.LoggedTo(Refunded(j, c, tx, total).shards, c.accountHash, a)
        == P.LoggedTo(j.shards, c.accountHash, a) + RefundTo(c, tx, total, a)
  {
    SaleValid(c.receivable, c.revenue, total);
    TwoAppend(j, c, tx, LedgerEntry(c.receivable, Debit, total), LedgerEntry(c.revenue, Credit, total), "oms sale", a);
    TwoAppend(j, c, tx, LedgerEntry(c.receivable, Credit, total), LedgerEntry(c.revenue, Debit, total), "oms refund",
        a);
  }

  lemma {:induction false} TwoAppend(j: JournalState, c: Config, tx: nat, x: LedgerEntry, y: LedgerEntry, memo: string,
      a: AccountId)
    requires JR.ShardsOk(j.shards, c.accountHash) && TakesEntries(j, c.period) && Validate([x, y]).None?
    ensures P.LoggedTo(Post(j, c.accountHash, tx, [x, y], c.period, memo, None).0.shards, c.accountHash, a)
        == P.LoggedTo(j.shards, c.accountHash, a)
           + ((if x.account == a then [PostedLeg(tx, a, x.side, x.amount, c.period, memo)] else [])
              + (if y.account == a then [PostedLeg(tx, a, y.side, y.amount, c.period, memo)] else []))
  {
    P.PostAppends(j, c.accountHash, tx, [x, y], c.period, memo, None, 2, a);
    assert [x, y][..2] == [x, y];
    LegsOfTwo(tx, x, y, c.period, memo, a);
  }

  lemma {:induction false} LegsOfTwo(tx: nat, x: LedgerEntry, y: LedgerEntry, period: string, memo: string,
      a: AccountId)
    ensures P.LegsTo(tx, [x, y], period, memo, a)
        == (if x.account == a then [PostedLeg(tx, a, x.side, x.amount, period, memo)] else [])
           + (if y.account == a then [PostedLeg(tx, a, y.side, y.amount, period, memo)] else [])
  {
    assert [x, y][1..] == [y] && [y][1..] == [];
    assert P.LegsTo(tx, [y], period, memo, a)
        == if y.account == a then [PostedLeg(tx, a, y.side, y.amount, period, memo)] else [];
  }

  predicate FailedAfterPaying(r: Result<SagaOutcome, SagaError>) { r.Err? && r.error.FulfillFailed? }

  /** A run that paid and did not fail has posted the sale; one that failed after paying, the refund too. */
  lemma {:induction false} PaidBooks(w: World, c: Config, lines: seq<SagaLine>, saleTx: nat, refundTx: nat,
      sweeps: seq<seq<Step>>, meanwhile: seq<Step>)
    requires |w.e.shards| == Reservation.SHARDS && JR.ShardsOk(w.j.shards, c.accountHash) && |sweeps| == |lines|
    ensures var (after, result) := RunResult(w, c, lines, saleTx, refundTx, sweeps, meanwhile);
      var r := ReserveLines(w.e, c.skuHash, lines, sweeps);
      var billed := TakesEntries(w.j, c.period) && r.holds != [];
      && (FailedAfterPaying(result) ==> billed)
      && after.j == if FailedAfterPaying(result) then Refunded(Paid(w.j, c, saleTx, r.total), c, refundTx, r.total)
                    else if billed then Paid(w.j, c, saleTx, r.total) else w.j
  {
    if ReserveLines(w.e, c.skuHash, lines, sweeps).holds != [] {
      if TakesEntries(w.j, c.period) {
        PaidFor(w, c, lines, saleTx, refundTx, sweeps, meanwhile);
      } else {
        PeriodRefuses(w, c, lines, saleTx, refundTx, sweeps, meanwhile);
      }
    } else if lines != [] {
      NothingReserved(w, c, lines, saleTx, refundTx, sweeps, meanwhile);
    }
  }

  /** The events of an account after the sale, and after the refund too. */
  lemma {:induction false} SaleThenRefund(j: JournalState, c: Config, saleTx: nat, refundTx: nat, total: int,
      a: AccountId)
    requires JR.ShardsOk(j.shards, c.accountHash) && TakesEntries(j, c.period)
    ensures var paid := Paid(j, c, saleTx, total);
      var refunded := Refunded(paid, c, refundTx, total);
      && paid.periods == j.periods && refunded.periods == j.periods
      && P.LoggedTo(paid.shards, c.accountHash, a)
          == P.LoggedTo(j.shards, c.accountHash, a) + SaleTo(c, saleTx, total, a)
      && P.LoggedTo(refunded.shards, c.accountHash, a)
          == P.LoggedTo(j.shards, c.accountHash, a) + SaleTo(c, saleTx, total, a) + RefundTo(c, refundTx, total, a)
  {
    var paid := Paid(j, c, saleTx, total);
    PaidKeeps(j, c, saleTx, total);
    PaidKeeps(paid, c, refundTx, total);
    SaleAppends(j, c, saleTx, total, a);
    SaleAppends(paid, c, refundTx, total, a);
  }

  lemma {:induction false} PaidKeeps(j: JournalState, c: Config, tx: nat, total: int)
    requires JR.ShardsOk(j.shards, c.accountHash)
    ensures JR.ShardsOk(Paid(j, c, tx, total).shards, c.accountHash)
    ensures Paid(j, c, tx, total).periods == j.periods && Refunded(j, c, tx, total).periods == j.periods
  {
    PostKeeps(j, c, tx, SaleEntries(c.receivable, c.revenue, total), "oms sale");
    PostKeeps(j, c, tx, RefundEntries(c.receivable, c.revenue, total), "oms refund");
  }

  lemma {:induction false} PostKeeps(j: JournalState, c: Config, tx: nat, entries: seq<LedgerEntry>, memo: string)
    requires JR.ShardsOk(j.shards, c.accountHash)
    ensures var (after, _) := Post(j, c.accountHash, tx, entries, c.period, memo, None);
      JR.ShardsOk(after.shards, c.accountHash) && after.periods == j.periods
  {
    JR.PostLegsKeeps(j.shards, c.accountHash, LegsOf(tx, entries, c.period, memo), None, (leg: PostedLeg) => 0);
  }

  /**
   * What a run adds to the events of an account: the sale when something was reserved and the period
   * takes entries, the refund after it when fulfilment failed, and otherwise nothing.
   */
  lemma {:induction false} BooksWritten(w: World, c: Config, lines: seq<SagaLine>, saleTx: nat, refundTx: nat,
      sweeps: seq<seq<Step>>, meanwhile: seq<Step>, a: AccountId)
    requires |w.e.shards| == Reservation.SHARDS && JR.ShardsOk(w.j.shards, c.accountHash) && |sweeps| == |lines|
    ensures var (after, result) := RunResult(w, c, lines, saleTx, refundTx, sweeps, meanwhile);
      var r := ReserveLines(w.e, c.skuHash, lines, sweeps);
      var total := PriceOf(lines, r.taken);
      var paid := TakesEntries(w.j, c.period) && exists i :: 0 <= i < |lines| && r.taken[i] > 0;
      && |after.j.shards| == Journal.SHARDS && after.j.periods == w.j.periods
      && P.LoggedTo(after.j.shards, c.accountHash, a)
          == P.LoggedTo(w.j.shards, c.accountHash, a)
             + (if paid then SaleTo(c, saleTx, total, a) else [])
             + if FailedAfterPaying(result) then RefundTo(c, refundTx, total, a) else []
  {
    var r := ReserveLines(w.e, c.skuHash, lines, sweeps);
    HoldsIffTaken(w.e, c.skuHash, lines, sweeps);
    TotalIsPrice(w.e, c.skuHash, lines, sweeps);
    PaidBooks(w, c, lines, saleTx, refundTx, sweeps, meanwhile);
    if TakesEntries(w.j, c.period) { SaleThenRefund(w.j, c, saleTx, refundTx, r.total, a); }
  }
}
