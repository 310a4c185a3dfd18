/** The order saga: reserve, pay, fulfil, ship, and the compensation when a step fails. */
module Saga {
  import opened Wrappers
  import opened Reservation
  import J = Journal

  datatype SagaLine = SagaLine(sku: SkuId, qty: nat, unitPrice: int)

  datatype OrderStatus = Shipped | Backordered

  datatype SagaOutcome = SagaOutcome(status: OrderStatus, transactionId: Option<nat>, total: int,
      backorders: seq<SagaLine>)

  datatype SagaError =
    | EmptyOrder
    | PayFailed(error: J.JournalError)
    | FulfillFailed(hold: HoldId)

  /** A hold this run placed, with its quantity. */
  datatype OwnHold = OwnHold(sku: SkuId, hold: HoldId, qty: nat)

  /** What the reservation loop has done so far. */
  datatype Reserved = Reserved(e: Engine, taken: seq<nat>, holds: seq<OwnHold>, backorders: seq<SagaLine>, total: int)

  /** One line: the sweep the engine does first, then what is available is held and the rest backordered. */
  ghost function ReserveLine(r: Reserved, hash: SkuId -> nat, line: SagaLine, sweep: seq<Step>): (n: Reserved)
    requires |r.e.shards| == SHARDS
    ensures |n.e.shards| == SHARDS && |n.taken| == |r.taken| + 1
  {
    var e := RunFrom(r.e, hash, sweep);
    var taken := Reservable(Available(StateOf(e.shards, hash, line.sku)), line.qty);
    Reserved(
      Do(e, hash, OrderStep(line.sku, line.qty)),
      r.taken + [taken],
      if taken > 0 then r.holds + [OwnHold(line.sku, e.nextId, taken)] else r.holds,
      if taken < line.qty then r.backorders + [line.(qty := line.qty - taken)] else r.backorders,
      if taken > 0 then r.total + line.unitPrice * taken else r.total)
  }

  ghost function ReserveLines(e: Engine, hash: SkuId -> nat, lines: seq<SagaLine>,
      sweeps: seq<seq<Step>>): (r: Reserved)
    requires |e.shards| == SHARDS && |sweeps| == |lines|
    ensures |r.e.shards| == SHARDS && |r.taken| == |lines|
  {
    if lines == [] then Reserved(e, [], [], [], 0)
    else
      var n := |lines| - 1;
      ReserveLine(ReserveLines(e, hash, lines[..n], sweeps[..n]), hash, lines[n], sweeps[n])
  }

  lemma {:induction false} ReserveLinesSnoc(e: Engine, hash: SkuId -> nat, lines: seq<SagaLine>, sweeps: seq<seq<Step>>,
      line: SagaLine, sweep: seq<Step>)
    requires |e.shards| == SHARDS && |sweeps| == |lines|
    ensures ReserveLines(e, hash, lines + [line], sweeps + [sweep])
        == ReserveLine(ReserveLines(e, hash, lines, sweeps), hash, line, sweep)
  {
    assert (lines + [line])[..|lines|] == lines && (sweeps + [sweep])[..|sweeps|] == sweeps;
  }

  ghost predicate ReservedSoFar(e: Engine, hash: SkuId -> nat, lines: seq<SagaLine>, sweeps: seq<seq<Step>>,
      r: Reserved) {
    |e.shards| == SHARDS && |sweeps| == |lines| && r == ReserveLines(e, hash, lines, sweeps)
  }

  lemma {:induction false} OneMoreReserved(e: Engine, hash: SkuId -> nat, lines: seq<SagaLine>, i: nat,
      sweeps: seq<seq<Step>>, sweep: seq<Step>, p: Reserved, r: Reserved)
    requires i < |lines| && ReservedSoFar(e, hash, lines[..i], sweeps, p) && |p.e.shards| == SHARDS
    requires r == ReserveLine(p, hash, lines[i], sweep)
    ensures ReservedSoFar(e, hash, lines[..i + 1], sweeps + [sweep], r)
  {
    assert lines[..i] + [lines[i]] == lines[..i + 1];
    ReserveLinesSnoc(e, hash, lines[..i], sweeps, lines[i], sweep);
  }

  function SaleEntries(receivable: J.AccountId, revenue: J.AccountId, total: int): seq<J.LedgerEntry> {
    [J.LedgerEntry(receivable, J.Debit, total), J.LedgerEntry(revenue, J.Credit, total)]
  }

  function RefundEntries(receivable: J.AccountId, revenue: J.AccountId, total: int): seq<J.LedgerEntry> {
    [J.LedgerEntry(receivable, J.Credit, total), J.LedgerEntry(revenue, J.Debit, total)]
  }

  /** Confirms the holds in order, stopping at the first that is gone. */
  ghost function ConfirmHolds(e: Engine, hash: SkuId -> nat, holds: seq<OwnHold>): (r: (Engine, Option<HoldId>))
    requires |e.shards| == SHARDS
    ensures |r.0.shards| == SHARDS
    decreases |holds|
  {
    if holds == [] then (e, None)
    else
      var h := holds[0];
      if h.hold !in StateOf(e.shards, hash, h.sku).holds then (e, Some(h.hold))
      else ConfirmHolds(Do(e, hash, ConfirmStep(h.sku, h.hold)), hash, holds[1..])
  }

  /** Releases the holds in order; one that is gone is passed over. */
  ghost function ReleaseHolds(e: Engine, hash: SkuId -> nat, holds: seq<OwnHold>): (r: Engine)
    requires |e.shards| == SHARDS
    ensures |r.shards| == SHARDS
    decreases |holds|
  {
    if holds == [] then e
    else ReleaseHolds(Do(e, hash, ReleaseStep(holds[0].sku, holds[0].hold)), hash, holds[1..])
  }

  datatype World = World(e: Engine, j: J.JournalState)

  datatype Config = Config(skuHash: SkuId -> nat, accountHash: J.AccountId -> nat, receivable: J.AccountId,
      revenue: J.AccountId, period: string)

  /**
   * The whole run. `sweeps` are the releases before each line, `meanwhile` what other callers'
   * sweeps release between payment and fulfilment.
   */
  ghost function RunResult(w: World, c: Config, lines: seq<SagaLine>, saleTx: nat, refundTx: nat,
      sweeps: seq<seq<Step>>, meanwhile: seq<Step>)
    : (World, Result<SagaOutcome, SagaError>)
    requires |w.e.shards| == SHARDS && |w.j.shards| == J.SHARDS && |sweeps| == |lines|
  {
    if lines == [] then (w, Err(EmptyOrder))
    else
      var r := ReserveLines(w.e, c.skuHash, lines, sweeps);
      if r.holds == [] then (World(r.e, w.j), Ok(SagaOutcome(Backordered, None, 0, r.backorders)))
      else
        var (paid, posted) :=
            J.Post(w.j, c.accountHash, saleTx, SaleEntries(c.receivable, c.revenue, r.total), c.period, "oms sale",
                None);
        if posted.Err? then
          (World(ReleaseHolds(r.e, c.skuHash, r.holds), paid), Err(PayFailed(posted.error)))
        else
          var (fulfilled, missing) := ConfirmHolds(RunFrom(r.e, c.skuHash, meanwhile), c.skuHash, r.holds);
          if missing.Some? then
            var refunded :=
                J.Post(paid, c.accountHash, refundTx, RefundEntries(c.receivable, c.revenue, r.total), c.period,
                    "oms refund", None).0;
            (World(ReleaseHolds(fulfilled, c.skuHash, r.holds), refunded), Err(FulfillFailed(missing.value)))
          else
            (World(fulfilled, paid),
             Ok(SagaOutcome(if r.backorders == [] then Shipped else Backordered, Some(saleTx), r.total, r.backorders)))
  }

  class OrderSaga {
    const reservation: ReservationEngine
    const journal: J.JournalEngine
    const receivable: J.AccountId
    const revenue: J.AccountId
    const period: string

    ghost predicate Valid()
      reads reservation, journal
    {
      reservation.Valid() && journal.Valid()
    }

    ghost function State(): World
      reads reservation, journal
    {
      World(reservation.State(), journal.State())
    }

    ghost function Settings(): Config {
      Config(reservation.hash, journal.hash, receivable, revenue, period)
    }

    constructor (reservation: ReservationEngine, journal: J.JournalEngine, receivable: J.AccountId,
        revenue: J.AccountId, period: string)
      ensures this.reservation == reservation && this.journal == journal
      ensures this.receivable == receivable && this.revenue == revenue && this.period == period
    {
      this.reservation, this.journal := reservation, journal;
      this.receivable, this.revenue, this.period := receivable, revenue, period;
    }

    /** One round of the reservation loop. */
    method ReserveOne(line: SagaLine, expired: set<HoldId>, holds0: seq<OwnHold>, backorders0: seq<SagaLine>,
        total0: int, ghost taken0: seq<nat>)
      returns (holds: seq<OwnHold>, backorders: seq<SagaLine>, total: int, ghost taken: seq<nat>,
          ghost swept: seq<Step>)
      requires Valid()
      modifies reservation
      ensures Valid() && SweepOf(swept, expired)
      ensures Reserved(reservation.State(), taken, holds, backorders, total)
           == ReserveLine(Reserved(old(reservation.State()), taken0, holds0, backorders0, total0), reservation.hash,
               line, swept)
    {
      holds, backorders, total := holds0, backorders0, total0;
      var reserved, backorder;
      ghost var p := Reserved(reservation.State(), taken0, holds0, backorders0, total0);
      reserved, backorder, swept := reservation.ReserveOrBackorder(line.sku, line.qty, expired);
      ghost var n := ReserveLine(p, reservation.hash, line, swept);
      assert n.e == reservation.State();
      taken := taken0 + [if reserved.Some? then reserved.value.1 else 0];
      assert n.taken == taken;
      if reserved.Some? {
        holds := holds + [OwnHold(line.sku, reserved.value.0, reserved.value.1)];
        total := total + line.unitPrice * reserved.value.1;
      }
      assert n.holds == holds && n.total == total;
      if backorder.Some? {
        backorders := backorders + [line.(qty := backorder.value.1)];
      }
      assert n.backorders == backorders;
    }

    /** The reservation loop; `expired` is what each sweep finds expired. */
    method ReserveAll(lines: seq<SagaLine>, expired: set<HoldId>)
      returns (holds: seq<OwnHold>, backorders: seq<SagaLine>, total: int, ghost taken: seq<nat>,
          ghost sweeps: seq<seq<Step>>)
      requires Valid()
      modifies reservation
      ensures Valid() && |sweeps| == |lines|
      ensures forall i :: 0 <= i < |sweeps| ==> SweepOf(sweeps[i], expired)
      ensures Reserved(reservation.State(), taken, holds, backorders, total)
          == ReserveLines(old(reservation.State()), reservation.hash, lines, sweeps)
    {
      holds, backorders, total := [], [], 0;
      taken, sweeps := [], [];
      ghost var start := reservation.State();
      for i := 0 to |lines|
        invariant Valid() && |sweeps| == i
        invariant forall k :: 0 <= k < i ==> SweepOf(sweeps[k], expired)
        invariant ReservedSoFar(start, reservation.hash, lines[..i], sweeps,
            Reserved(reservation.State(), taken, holds, backorders, total))
      {
        ghost var swept, before := [], Reserved(reservation.State(), taken, holds, backorders, total);
        holds, backorders, total, taken, swept := ReserveOne(lines[i], expired, holds, backorders, total, taken);
        OneMoreReserved(start, reservation.hash, lines, i, sweeps, swept, before,
            Reserved(reservation.State(), taken, holds, backorders, total));
        sweeps := sweeps + [swept];
      }
      assert lines[..|lines|] == lines;
    }

    method ConfirmAll(holds: seq<OwnHold>) returns (missing: Option<HoldId>)
      requires Valid()
      modifies reservation
      ensures Valid()
          && (reservation.State(), missing) == ConfirmHolds(old(reservation.State()), reservation.hash, holds)
    {
      for i := 0 to |holds|
        invariant Valid()
        invariant ConfirmHolds(old(reservation.State()), reservation.hash, holds)
            == ConfirmHolds(reservation.State(), reservation.hash, holds[i..])
      {
        assert holds[i..][1..] == holds[i + 1..];
        var r := reservation.Confirm(holds[i].sku, holds[i].hold);
        if r.Err? {
          return Some(holds[i].hold);
        }
      }
      assert holds[|holds|..] == [];
      missing := None;
    }

    method ReleaseAll(holds: seq<OwnHold>)
      requires Valid()
      modifies reservation
      ensures Valid() && reservation.State() == ReleaseHolds(old(reservation.State()), reservation.hash, holds)
    {
      for i := 0 to |holds|
        invariant Valid()
        invariant ReleaseHolds(old(reservation.State()), reservation.hash, holds)
            == ReleaseHolds(reservation.State(), reservation.hash, holds[i..])
      {
        assert holds[i..][1..] == holds[i + 1..];
        var r := reservation.ReleaseHold(holds[i].sku, holds[i].hold);
      }
      assert holds[|holds|..] == [];
    }

    /** `lapsed` are the holds other callers find expired while the payment is posted. */
    method Run(lines: seq<SagaLine>, saleTx: nat, refundTx: nat, expired: set<HoldId>, lapsed: set<HoldId>)
      returns (r: Result<SagaOutcome, SagaError>, ghost sweeps: seq<seq<Step>>, ghost meanwhile: seq<Step>)
      requires Valid()
      modifies reservation, journal
      ensures Valid() && |sweeps| == |lines|
      ensures forall i :: 0 <= i < |sweeps| ==> SweepOf(sweeps[i], expired)
      ensures SweepOf(meanwhile, lapsed)
      ensures (State(), r) == RunResult(old(State()), Settings(), lines, saleTx, refundTx, sweeps, meanwhile)
    {
      sweeps, meanwhile := [], [];
      if |lines| == 0 {
        return Err(EmptyOrder), [], [];
      }
      ghost var taken;
      var holds, backorders, total;
      holds, backorders, total, taken, sweeps := ReserveAll(lines, expired);
      if |holds| == 0 {
        return Ok(SagaOutcome(Backordered, None, 0, backorders)), sweeps, [];
      }
      var posted := journal.PostTransaction(saleTx, SaleEntries(receivable, revenue, total), period, "oms sale", None);
      if posted.Err? {
        ReleaseAll(holds);
        return Err(PayFailed(posted.error)), sweeps, [];
      }
      var count;
      count, meanwhile := reservation.SweepExpired(lapsed);
      var missing := ConfirmAll(holds);
      if missing.Some? {
        var refund :=
            journal.PostTransaction(refundTx, RefundEntries(receivable, revenue, total), period, "oms refund", None);
        ReleaseAll(holds);
        return Err(FulfillFailed(missing.value)), sweeps, meanwhile;
      }
      var status := if |backorders| == 0 then Shipped else Backordered;
      r := Ok(SagaOutcome(status, Some(saleTx), total, backorders));
    }
  }
}
