/** What a run of the order saga does to the stock and to the books. */
module SagaRuns {
  import opened Wrappers
  import opened Reservation
  import opened MapTotals
  import opened Saga
  import opened Sets
  import J = Journal
  import JR = JournalRuns
  import C = Closing
  import R = Reports

  // ----- Effects of single steps on the state of a SKU -----

  /** Ids in use are below the supply of fresh ids. */
  ghost predicate Fresh(e: Engine, hash: SkuId -> nat)
    requires |e.shards| == SHARDS
  {
    forall sku: SkuId, h ::
      h in StateOf(e.shards, hash, sku).holds || h in StateOf(e.shards, hash, sku).backorders ==> h < e.nextId
  }

  /** A SKU's state after an order of `want` units of which `taken` are held, with fresh ids from `n`. */
  function Ordered(st: SkuState, n: HoldId, taken: nat, want: nat): SkuState {
    var held := if taken > 0 then st.(holds := st.holds[n := taken]) else st;
    var id := if taken > 0 then n + 1 else n;
    if taken < want then held.(backorders := held.backorders[id := want - taken]) else held
  }

  function IdsUsed(taken: nat, want: nat): nat {
    (if taken > 0 then 1 else 0) + if taken < want then 1 else 0
  }

  lemma {:induction false} WriteEffect(e: Engine, hash: SkuId -> nat, sku: SkuId, taken: nat, want: nat, other: SkuId)
    requires |e.shards| == SHARDS
    ensures var after := Order(e, hash, sku, taken, want);
      && after.nextId == e.nextId + IdsUsed(taken, want)
      && StateOf(after.shards, hash, other)
         == if other == sku then Ordered(StateOf(e.shards, hash, sku), e.nextId, taken, want)
             else StateOf(e.shards, hash, other)
  {
    var st := StateOf(e.shards, hash, sku);
    var e1 := if taken > 0 then PlaceHold(e, hash, sku, taken) else e;
    if taken > 0 {
      Recorded(e.shards, hash, sku, Hold(e.nextId, taken), st.(holds := st.holds[e.nextId := taken]));
    }
    if taken < want {
      var st1 := StateOf(e1.shards, hash, sku);
      Recorded(e1.shards, hash, sku, BackorderPlaced(e1.nextId, want - taken),
          st1.(backorders := st1.backorders[e1.nextId := want - taken]));
    }
  }

  lemma {:induction false} OrderEffect(e: Engine, hash: SkuId -> nat, sku: SkuId, want: nat, other: SkuId)
    requires |e.shards| == SHARDS
    ensures var taken := Reservable(Available(StateOf(e.shards, hash, sku)), want);
      var after := Do(e, hash, OrderStep(sku, want));
      && after.nextId == e.nextId + IdsUsed(taken, want)
      && StateOf(after.shards, hash, other)
         == if other == sku then Ordered(StateOf(e.shards, hash, sku), e.nextId, taken, want)
             else StateOf(e.shards, hash, other)
  {
    var taken := Reservable(Available(StateOf(e.shards, hash, sku)), want);
    Touched(e.shards, hash, sku);
    WriteEffect(e.(shards := Touch(e.shards, hash, sku)), hash, sku, taken, want, other);
  }

  lemma {:induction false} ReleaseEffect(e: Engine, hash: SkuId -> nat, sku: SkuId, h: HoldId, other: SkuId)
    requires |e.shards| == SHARDS
    ensures var st := StateOf(e.shards, hash, other); var after := Do(e, hash, ReleaseStep(sku, h));
      && after.nextId == e.nextId
      && StateOf(after.shards, hash, other) == if other == sku then st.(holds := st.holds - {h}) else st
  {
    var st := StateOf(e.shards, hash, sku);
    if h in st.holds {
      Recorded(e.shards, hash, sku, Release(h), st.(holds := st.holds - {h}));
    } else {
      assert st.holds - {h} == st.holds;
    }
  }

  lemma {:induction false} ConfirmEffect(e: Engine, hash: SkuId -> nat, sku: SkuId, h: HoldId, other: SkuId)
    requires |e.shards| == SHARDS && h in StateOf(e.shards, hash, sku).holds
    ensures var st := StateOf(e.shards, hash, other); var after := Do(e, hash, ConfirmStep(sku, h));
      && after.nextId == e.nextId
      && StateOf(after.shards, hash, other)
         == if other == sku then st.(holds := st.holds - {h}, committed := st.committed + st.holds[h]) else st
  {
    var st := StateOf(e.shards, hash, sku);
    Recorded(e.shards, hash, sku, Capture(h), st.(holds := st.holds - {h}, committed := st.committed + st.holds[h]));
  }

  // ----- Sweeps of holds older than the run -----

  ghost predicate OldReleases(steps: seq<Step>, n: HoldId) {
    forall i :: 0 <= i < |steps| ==> steps[i].ReleaseStep? && steps[i].hold < n
  }

  /** Releases of old holds: nothing else about the SKU changes. */
  ghost predicate SameButOld(before: SkuState, after: SkuState, n: HoldId) {
    && after.onHand == before.onHand && after.committed == before.committed && after.backorders == before.backorders
    && (forall h :: h in after.holds ==> h in before.holds && after.holds[h] == before.holds[h])
    && (forall h :: h in before.holds && h >= n ==> h in after.holds)
  }

  lemma {:induction false} OldSweep(e: Engine, hash: SkuId -> nat, steps: seq<Step>, n: HoldId, sku: SkuId)
    requires |e.shards| == SHARDS && OldReleases(steps, n)
    ensures RunFrom(e, hash, steps).nextId == e.nextId
    ensures SameButOld(StateOf(e.shards, hash, sku), StateOf(RunFrom(e, hash, steps).shards, hash, sku), n)
  {
    if steps != [] {
      var k := |steps| - 1;
      OldSweep(e, hash, steps[..k], n, sku);
      ReleaseEffect(RunFrom(e, hash, steps[..k]), hash, steps[k].sku, steps[k].hold, sku);
    }
  }

  // ----- The reservation loop -----

  /** Units of `sku` in the run's own holds. */
  function HeldFor(holds: seq<OwnHold>, sku: SkuId): nat {
    if holds == [] then 0
    else HeldFor(holds[..|holds| - 1], sku) + if holds[|holds| - 1].sku == sku then holds[|holds| - 1].qty else 0
  }

  /** Units of `sku` reserved over the lines. */
  function TakenFor(lines: seq<SagaLine>, taken: seq<nat>, sku: SkuId): nat
    requires |lines| == |taken|
  {
    if lines == [] then 0
    else
      var n := |lines| - 1;
      TakenFor(lines[..n], taken[..n], sku) + if lines[n].sku == sku then taken[n] else 0
  }

  /** The price of the units reserved. */
  function PriceOf(lines: seq<SagaLine>, taken: seq<nat>): int
    requires |lines| == |taken|
  {
    if lines == [] then 0
    else PriceOf(lines[..|lines| - 1], taken[..|lines| - 1]) + lines[|lines| - 1].unitPrice * taken[|lines| - 1]
  }

  /** Each line's shortfall: what was ordered less what was reserved. */
  function Shortfalls(lines: seq<SagaLine>, taken: seq<nat>): seq<SagaLine>
    requires |lines| == |taken|
  {
    if lines == [] then []
    else
      var n := |lines| - 1;
      Shortfalls(lines[..n], taken[..n])
          + if taken[n] < lines[n].qty then [lines[n].(qty := lines[n].qty - taken[n])] else []
  }

  function ShortLines(lines: seq<SagaLine>, taken: seq<nat>, sku: SkuId): nat
    requires |lines| == |taken|
  {
    if lines == [] then 0
    else
      var n := |lines| - 1;
      ShortLines(lines[..n], taken[..n], sku) + if lines[n].sku == sku && taken[n] < lines[n].qty then 1 else 0
  }

  lemma {:induction false} HeldSnoc(holds: seq<OwnHold>, more: OwnHold, sku: SkuId)
    ensures HeldFor(holds + [more], sku) == HeldFor(holds, sku) + if more.sku == sku then more.qty else 0
  {
    assert (holds + [more])[..|holds|] == holds;
  }

  lemma {:induction false} LineHeld(p: Reserved, hash: SkuId -> nat, line: SagaLine, sweep: seq<Step>, sku: SkuId)
    requires |p.e.shards| == SHARDS && forall k :: 0 <= k < |p.holds| ==> p.holds[k].qty > 0
    ensures var r := ReserveLine(p, hash, line, sweep);
      && r.taken[..|p.taken|] == p.taken
      && HeldFor(r.holds, sku) == HeldFor(p.holds, sku) + (if line.sku == sku then r.taken[|p.taken|] else 0)
      && forall k :: 0 <= k < |r.holds| ==> r.holds[k].qty > 0
  {
    var r := ReserveLine(p, hash, line, sweep);
    HeldSnoc(p.holds, OwnHold(line.sku, RunFrom(p.e, hash, sweep).nextId, r.taken[|p.taken|]), sku);
  }

  /** The units held are the units taken. */
  lemma {:induction false} HeldIsTaken(e: Engine, hash: SkuId -> nat, lines: seq<SagaLine>, sweeps: seq<seq<Step>>,
      sku: SkuId)
    requires |e.shards| == SHARDS && |sweeps| == |lines|
    ensures var r := ReserveLines(e, hash, lines, sweeps);
      HeldFor(r.holds, sku) == TakenFor(lines, r.taken, sku) && forall k :: 0 <= k < |r.holds| ==> r.holds[k].qty > 0
  {
    if lines != [] {
      var n := |lines| - 1;
      var p := ReserveLines(e, hash, lines[..n], sweeps[..n]);
      assert ReserveLines(e, hash, lines, sweeps) == ReserveLine(p, hash, lines[n], sweeps[n]);
      HeldIsTaken(e, hash, lines[..n], sweeps[..n], sku);
      LineHeld(p, hash, lines[n], sweeps[n], sku);
    }
  }

  lemma {:induction false} TotalIsPrice(e: Engine, hash: SkuId -> nat, lines: seq<SagaLine>, sweeps: seq<seq<Step>>)
    requires |e.shards| == SHARDS && |sweeps| == |lines|
    ensures var r := ReserveLines(e, hash, lines, sweeps); r.total == PriceOf(lines, r.taken)
  {
    if lines != [] {
      var n := |lines| - 1;
      TotalIsPrice(e, hash, lines[..n], sweeps[..n]);
      var p := ReserveLines(e, hash, lines[..n], sweeps[..n]);
      assert ReserveLines(e, hash, lines, sweeps).taken[..n] == p.taken;
      LineTotal(p, hash, lines[n], sweeps[n]);
    }
  }

  lemma {:induction false} LineTotal(p: Reserved, hash: SkuId -> nat, line: SagaLine, sweep: seq<Step>)
    requires |p.e.shards| == SHARDS
    ensures var r := ReserveLine(p, hash, line, sweep); r.total == p.total + line.unitPrice * r.taken[|p.taken|]
  {
    var taken := ReserveLine(p, hash, line, sweep).taken[|p.taken|];
    if taken == 0 { assert line.unitPrice * taken == 0; }
  }

  lemma {:induction false} LineShort(p: Reserved, hash: SkuId -> nat, line: SagaLine, sweep: seq<Step>)
    requires |p.e.shards| == SHARDS
    ensures var r := ReserveLine(p, hash, line, sweep);
      var taken := r.taken[|p.taken|];
      && r.taken[..|p.taken|] == p.taken && taken <= line.qty
      && r.backorders == p.backorders + if taken < line.qty then [line.(qty := line.qty - taken)] else []
  {
  }

  ghost predicate WithinOrder(r: Reserved, lines: seq<SagaLine>) {
    |r.taken| == |lines| && forall i :: 0 <= i < |lines| ==> r.taken[i] <= lines[i].qty
  }

  lemma {:induction false} LineWithinOrder(p: Reserved, hash: SkuId -> nat, lines: seq<SagaLine>, line: SagaLine,
      sweep: seq<Step>)
    requires |p.e.shards| == SHARDS && WithinOrder(p, lines)
    ensures WithinOrder(ReserveLine(p, hash, line, sweep), lines + [line])
  {
    LineShort(p, hash, line, sweep);
    var r := ReserveLine(p, hash, line, sweep);
    forall i | 0 <= i < |lines| ensures r.taken[i] == p.taken[i] { assert r.taken[..|lines|][i] == p.taken[i]; }
  }

  lemma {:induction false} TakenWithinOrder(e: Engine, hash: SkuId -> nat, lines: seq<SagaLine>, sweeps: seq<seq<Step>>)
    requires |e.shards| == SHARDS && |sweeps| == |lines|
    ensures WithinOrder(ReserveLines(e, hash, lines, sweeps), lines)
  {
    if lines != [] {
      var n := |lines| - 1;
      var front := lines[..n];
      var p := ReserveLines(e, hash, front, sweeps[..n]);
      assert front + [lines[n]] == lines;
      assert ReserveLines(e, hash, lines, sweeps) == ReserveLine(p, hash, lines[n], sweeps[n]);
      TakenWithinOrder(e, hash, front, sweeps[..n]);
      LineWithinOrder(p, hash, front, lines[n], sweeps[n]);
    }
  }

  ghost predicate ListsShortfalls(r: Reserved, lines: seq<SagaLine>) {
    |r.taken| == |lines| && r.backorders == Shortfalls(lines, r.taken)
  }

  lemma {:induction false} ShortfallsSnoc(p: Reserved, hash: SkuId -> nat, lines: seq<SagaLine>, line: SagaLine,
      sweep: seq<Step>)
    requires |p.e.shards| == SHARDS && ListsShortfalls(p, lines)
    ensures ListsShortfalls(ReserveLine(p, hash, line, sweep), lines + [line])
  {
    LineShort(p, hash, line, sweep);
    assert (lines + [line])[..|lines|] == lines;
  }

  lemma {:induction false} BackordersAreShortfalls(e: Engine, hash: SkuId -> nat, lines: seq<SagaLine>,
      sweeps: seq<seq<Step>>)
    requires |e.shards| == SHARDS && |sweeps| == |lines|
    ensures ListsShortfalls(ReserveLines(e, hash, lines, sweeps), lines)
  {
    if lines != [] {
      var n := |lines| - 1;
      var front := lines[..n];
      var p := ReserveLines(e, hash, front, sweeps[..n]);
      assert front + [lines[n]] == lines;
      assert ReserveLines(e, hash, lines, sweeps) == ReserveLine(p, hash, lines[n], sweeps[n]);
      BackordersAreShortfalls(e, hash, front, sweeps[..n]);
      ShortfallsSnoc(p, hash, front, lines[n], sweeps[n]);
    }
  }

  /** The run's own holds: fresh ids in increasing order. */
  ghost predicate OwnIds(holds: seq<OwnHold>, n: HoldId, next: HoldId) {
    && n <= next
    && (forall k :: 0 <= k < |holds| ==> n <= holds[k].hold < next)
    && (forall j, k :: 0 <= j < k < |holds| ==> holds[j].hold < holds[k].hold)
  }

  /** A SKU before the run and now: its own holds came on top, old holds may have expired. */
  ghost predicate Tracks(before: SkuState, now: SkuState, holds: seq<OwnHold>, sku: SkuId, n: HoldId) {
    && now.onHand == before.onHand && now.committed == before.committed
    && (forall h :: h in now.holds && h < n ==> h in before.holds && now.holds[h] == before.holds[h])
    && (forall k ::
        0 <= k < |holds| && holds[k].sku == sku
        ==> holds[k].hold in now.holds && now.holds[holds[k].hold] == holds[k].qty)
    && (forall h :: h in now.holds && h >= n ==> OwnHold(sku, h, now.holds[h]) in holds)
  }

  lemma {:induction false} LoopTracks(e: Engine, hash: SkuId -> nat, lines: seq<SagaLine>, sweeps: seq<seq<Step>>,
      sku: SkuId)
    requires |e.shards| == SHARDS && |sweeps| == |lines| && Fresh(e, hash)
    requires forall i :: 0 <= i < |sweeps| ==> OldReleases(sweeps[i], e.nextId)
    ensures var r := ReserveLines(e, hash, lines, sweeps);
      && OwnIds(r.holds, e.nextId, r.e.nextId)
      && Tracks(StateOf(e.shards, hash, sku), StateOf(r.e.shards, hash, sku), r.holds, sku, e.nextId)
  {
    if lines != [] {
      var n := |lines| - 1;
      LoopTracks(e, hash, lines[..n], sweeps[..n], sku);
      var p := ReserveLines(e, hash, lines[..n], sweeps[..n]);
      OldSweep(p.e, hash, sweeps[n], e.nextId, sku);
      LineTracks(StateOf(e.shards, hash, sku), p, hash, lines[n], sweeps[n], sku, e.nextId);
    }
  }

  lemma {:induction false} SweptTracks(before: SkuState, st: SkuState, swept: SkuState, holds: seq<OwnHold>, sku: SkuId,
      n: HoldId)
    requires Tracks(before, st, holds, sku, n) && SameButOld(st, swept, n)
    requires forall k :: 0 <= k < |holds| ==> holds[k].hold >= n
    ensures Tracks(before, swept, holds, sku, n)
  {}

  /** An order of this SKU: its hold, if any, joins the run's own. */
  lemma {:induction false} OrderTracks(before: SkuState, st: SkuState, holds: seq<OwnHold>, sku: SkuId, n: HoldId,
      next: HoldId, taken: nat, want: nat)
    requires Tracks(before, st, holds, sku, n) && OwnIds(holds, n, next)
    ensures Tracks(before, Ordered(st, next, taken, want), if taken > 0 then holds + [OwnHold(sku, next, taken)]
        else holds, sku, n)
  {
    if taken > 0 {
      var now, own := Ordered(st, next, taken, want), holds + [OwnHold(sku, next, taken)];
      forall h | h in now.holds && h >= n ensures OwnHold(sku, h, now.holds[h]) in own {
        if h == next {
          assert own[|holds|] == OwnHold(sku, h, now.holds[h]);
        } else {
          assert OwnHold(sku, h, now.holds[h]) in holds;
        }
      }
    }
  }

  lemma {:induction false} OtherTracks(before: SkuState, st: SkuState, holds: seq<OwnHold>, sku: SkuId, n: HoldId,
      more: OwnHold)
    requires Tracks(before, st, holds, sku, n) && more.sku != sku
    ensures Tracks(before, st, holds + [more], sku, n)
  {}

  lemma {:induction false} LineTracks(before: SkuState, p: Reserved, hash: SkuId -> nat, line: SagaLine,
      sweep: seq<Step>, sku: SkuId, n: HoldId)
    requires |p.e.shards| == SHARDS
    requires OwnIds(p.holds, n, p.e.nextId) && Tracks(before, StateOf(p.e.shards, hash, sku), p.holds, sku, n)
    requires RunFrom(p.e, hash, sweep).nextId == p.e.nextId
    requires SameButOld(StateOf(p.e.shards, hash, sku), StateOf(RunFrom(p.e, hash, sweep).shards, hash, sku), n)
    ensures var r := ReserveLine(p, hash, line, sweep);
      OwnIds(r.holds, n, r.e.nextId) && Tracks(before, StateOf(r.e.shards, hash, sku), r.holds, sku, n)
  {
    var s := RunFrom(p.e, hash, sweep);
    var st := StateOf(s.shards, hash, sku);
    var taken := Reservable(Available(StateOf(s.shards, hash, line.sku)), line.qty);
    SweptTracks(before, StateOf(p.e.shards, hash, sku), st, p.holds, sku, n);
    OrderEffect(s, hash, line.sku, line.qty, sku);
    if line.sku == sku {
      OrderTracks(before, st, p.holds, sku, n, s.nextId, taken, line.qty);
    } else {
      OtherTracks(before, st, p.holds, sku, n, OwnHold(line.sku, s.nextId, taken));
    }
  }

  // ----- Fulfilment -----

  /** The holds are there, each under its own id. */
  ghost predicate Present(e: Engine, hash: SkuId -> nat, holds: seq<OwnHold>)
    requires |e.shards| == SHARDS
  {
    && (forall j, k :: 0 <= j < k < |holds| ==> holds[j].hold < holds[k].hold)
    && forall k :: 0 <= k < |holds| ==>
         var st := StateOf(e.shards, hash, holds[k].sku);
         holds[k].hold in st.holds && st.holds[holds[k].hold] == holds[k].qty
  }

  lemma {:induction false} HeldForFront(holds: seq<OwnHold>, sku: SkuId)
    requires holds != []
    ensures HeldFor(holds, sku) == (if holds[0].sku == sku then holds[0].qty else 0) + HeldFor(holds[1..], sku)
  {
    if |holds| > 1 {
      HeldForFront(holds[..|holds| - 1], sku);
      assert holds[..|holds| - 1][1..] == holds[1..][..|holds| - 2];
    } else {
      assert holds[..0] == [] && holds[1..] == [];
    }
  }

  lemma {:induction false} ConfirmFirst(e: Engine, hash: SkuId -> nat, holds: seq<OwnHold>)
    requires |e.shards| == SHARDS && holds != [] && Present(e, hash, holds)
    ensures Present(Do(e, hash, ConfirmStep(holds[0].sku, holds[0].hold)), hash, holds[1..])
  {
    var next := Do(e, hash, ConfirmStep(holds[0].sku, holds[0].hold));
    var rest := holds[1..];
    forall k | 0 <= k < |rest|
      ensures var st := StateOf(next.shards, hash, rest[k].sku);
        rest[k].hold in st.holds && st.holds[rest[k].hold] == rest[k].qty
    {
      ConfirmEffect(e, hash, holds[0].sku, holds[0].hold, rest[k].sku);
      assert rest[k] == holds[k + 1];
    }
  }

  /** Present holds are all confirmed, and each adds its quantity to the committed stock. */
  lemma {:induction false} ConfirmAllPresent(e: Engine, hash: SkuId -> nat, holds: seq<OwnHold>, sku: SkuId)
    requires |e.shards| == SHARDS && Present(e, hash, holds)
    ensures ConfirmHolds(e, hash, holds).1.None?
    ensures StateOf(ConfirmHolds(e, hash, holds).0.shards, hash, sku).committed
        == StateOf(e.shards, hash, sku).committed + HeldFor(holds, sku)
    decreases |holds|
  {
    if holds != [] {
      ConfirmFirst(e, hash, holds);
      ConfirmEffect(e, hash, holds[0].sku, holds[0].hold, sku);
      ConfirmAllPresent(Do(e, hash, ConfirmStep(holds[0].sku, holds[0].hold)), hash, holds[1..], sku);
      HeldForFront(holds, sku);
    }
  }

  // ----- The main results -----

  ghost predicate NoOwnHoldExpires(w: World, sweeps: seq<seq<Step>>, meanwhile: seq<Step>) {
    (forall i :: 0 <= i < |sweeps| ==> OldReleases(sweeps[i], w.e.nextId)) && OldReleases(meanwhile, w.e.nextId)
  }

  /** Nothing of a run's own expires: its holds are still there when they are to be confirmed. */
  lemma {:induction false} HoldsSurvive(w: World, c: Config, lines: seq<SagaLine>, sweeps: seq<seq<Step>>,
      meanwhile: seq<Step>)
    requires |w.e.shards| == SHARDS && |sweeps| == |lines| && Fresh(w.e, c.skuHash)
        && NoOwnHoldExpires(w, sweeps, meanwhile)
    ensures var r := ReserveLines(w.e, c.skuHash, lines, sweeps);
      Present(RunFrom(r.e, c.skuHash, meanwhile), c.skuHash, r.holds)
  {
    var r := ReserveLines(w.e, c.skuHash, lines, sweeps);
    LoopTracks(w.e, c.skuHash, lines, sweeps, 0);
    var e := RunFrom(r.e, c.skuHash, meanwhile);
    forall k | 0 <= k < |r.holds|
      ensures var st := StateOf(e.shards, c.skuHash, r.holds[k].sku);
        r.holds[k].hold in st.holds && st.holds[r.holds[k].hold] == r.holds[k].qty
    {
      LoopTracks(w.e, c.skuHash, lines, sweeps, r.holds[k].sku);
      OldSweep(r.e, c.skuHash, meanwhile, w.e.nextId, r.holds[k].sku);
    }
  }

  /**
   * If none of the run's own holds expires, an order in an open period succeeds. Per line, what is
   * reserved and what is backordered add up to what was ordered; committed stock of every SKU rises
   * by exactly the units reserved; the bill is the price of those units; and the order is shipped
   * exactly when something was reserved and nothing is backordered.
   */
  lemma {:induction false} SagaSucceeds(w: World, c: Config, lines: seq<SagaLine>, saleTx: nat, refundTx: nat,
      sweeps: seq<seq<Step>>, meanwhile: seq<Step>, sku: SkuId)
    requires |w.e.shards| == SHARDS && |w.j.shards| == J.SHARDS && |sweeps| == |lines| && lines != []
    requires Fresh(w.e, c.skuHash) && NoOwnHoldExpires(w, sweeps, meanwhile) && !J.IsClosed(w.j.periods, c.period)
    ensures var (after, result) := RunResult(w, c, lines, saleTx, refundTx, sweeps, meanwhile);
      var taken := ReserveLines(w.e, c.skuHash, lines, sweeps).taken;
      && result.Ok?
      && (forall i :: 0 <= i < |lines| ==> taken[i] <= lines[i].qty)
      && result.value.backorders == Shortfalls(lines, taken)
      && result.value.total == PriceOf(lines, taken)
      && StateOf(after.e.shards, c.skuHash, sku).committed
          == StateOf(w.e.shards, c.skuHash, sku).committed + TakenFor(lines, taken, sku)
      && (result.value.status == Shipped
          <==> (exists i :: 0 <= i < |lines| && taken[i] > 0) && Shortfalls(lines, taken) == [])
  {
    var r := ReserveLines(w.e, c.skuHash, lines, sweeps);
    HeldIsTaken(w.e, c.skuHash, lines, sweeps, sku);
    TotalIsPrice(w.e, c.skuHash, lines, sweeps);
    BackordersAreShortfalls(w.e, c.skuHash, lines, sweeps);
    TakenWithinOrder(w.e, c.skuHash, lines, sweeps);
    HoldsIffTaken(w.e, c.skuHash, lines, sweeps);
    FulfilledCommitted(w, c, lines, sweeps, meanwhile, sku);
    if r.holds == [] {
      NothingTaken(lines, r.taken);
    } else {
      PaidShape(w, c, lines, saleTx, refundTx, sweeps, meanwhile);
    }
  }

  lemma {:induction false} PaidShape(w: World, c: Config, lines: seq<SagaLine>, saleTx: nat, refundTx: nat,
      sweeps: seq<seq<Step>>, meanwhile: seq<Step>)
    requires |w.e.shards| == SHARDS && |w.j.shards| == J.SHARDS && |sweeps| == |lines| && lines != []
    requires !J.IsClosed(w.j.periods, c.period) && ReserveLines(w.e, c.skuHash, lines, sweeps).holds != []
    requires var r := ReserveLines(w.e, c.skuHash, lines, sweeps);
      ConfirmHolds(RunFrom(r.e, c.skuHash, meanwhile), c.skuHash, r.holds).1.None?
    ensures var r := ReserveLines(w.e, c.skuHash, lines, sweeps);
      RunResult(w, c, lines, saleTx, refundTx, sweeps, meanwhile)
      == (World(ConfirmHolds(RunFrom(r.e, c.skuHash, meanwhile), c.skuHash, r.holds).0,
                J.Post(w.j, c.accountHash, saleTx, SaleEntries(c.receivable, c.revenue, r.total), c.period, "oms sale",
                    None).0),
          Ok(SagaOutcome(if r.backorders == [] then Shipped else Backordered, Some(saleTx), r.total, r.backorders)))
  {
    var r := ReserveLines(w.e, c.skuHash, lines, sweeps);
    SaleValid(c.receivable, c.revenue, r.total);
    JR.PostSucceedsIff(w.j, c.accountHash, saleTx, SaleEntries(c.receivable, c.revenue, r.total), c.period, "oms sale",
        None);
  }

  lemma {:induction false} FulfilledCommitted(w: World, c: Config, lines: seq<SagaLine>, sweeps: seq<seq<Step>>,
      meanwhile: seq<Step>, sku: SkuId)
    requires |w.e.shards| == SHARDS && |sweeps| == |lines| && Fresh(w.e, c.skuHash)
        && NoOwnHoldExpires(w, sweeps, meanwhile)
    ensures var r := ReserveLines(w.e, c.skuHash, lines, sweeps);
      var (fulfilled, missing) := ConfirmHolds(RunFrom(r.e, c.skuHash, meanwhile), c.skuHash, r.holds);
      && missing.None?
      && StateOf(r.e.shards, c.skuHash, sku).committed == StateOf(w.e.shards, c.skuHash, sku).committed
      && StateOf(fulfilled.shards, c.skuHash, sku).committed
          == StateOf(w.e.shards, c.skuHash, sku).committed + HeldFor(r.holds, sku)
  {
    var r := ReserveLines(w.e, c.skuHash, lines, sweeps);
    LoopTracks(w.e, c.skuHash, lines, sweeps, sku);
    HoldsSurvive(w, c, lines, sweeps, meanwhile);
    OldSweep(r.e, c.skuHash, meanwhile, w.e.nextId, sku);
    ConfirmAllPresent(RunFrom(r.e, c.skuHash, meanwhile), c.skuHash, r.holds, sku);
  }

  lemma {:induction false} HoldsIffTaken(e: Engine, hash: SkuId -> nat, lines: seq<SagaLine>, sweeps: seq<seq<Step>>)
    requires |e.shards| == SHARDS && |sweeps| == |lines|
    ensures var r := ReserveLines(e, hash, lines, sweeps);
      r.holds == [] <==> forall i :: 0 <= i < |lines| ==> r.taken[i] == 0
  {
    if lines != [] {
      var n := |lines| - 1;
      HoldsIffTaken(e, hash, lines[..n], sweeps[..n]);
      var p, r := ReserveLines(e, hash, lines[..n], sweeps[..n]), ReserveLines(e, hash, lines, sweeps);
      assert r.holds == [] <==> p.holds == [] && r.taken[n] == 0;
      assert r.taken[..n] == p.taken;
      if p.holds != [] {
        var i :| 0 <= i < n && p.taken[i] != 0;
        assert r.taken[i] == r.taken[..n][i];
      } else {
        assert forall i :: 0 <= i < n ==> r.taken[i] == r.taken[..n][i];
      }
    }
  }

  lemma {:induction false} NothingTaken(lines: seq<SagaLine>, taken: seq<nat>)
    requires |lines| == |taken| && forall i :: 0 <= i < |lines| ==> taken[i] == 0
    ensures PriceOf(lines, taken) == 0
  {
    if lines != [] { NothingTaken(lines[..|lines| - 1], taken[..|lines| - 1]); }
  }

  lemma {:induction false} SaleValid(receivable: J.AccountId, revenue: J.AccountId, total: int)
    ensures J.Validate(SaleEntries(receivable, revenue, total)).None?
    ensures J.Validate(RefundEntries(receivable, revenue, total)).None?
    ensures forall a :: C.NetTo(SaleEntries(receivable, revenue, total), a)
                     == (if a == revenue then total else 0) - (if a == receivable then total else 0)
    ensures forall a :: C.NetTo(RefundEntries(receivable, revenue, total), a)
                     == (if a == receivable then total else 0) - (if a == revenue then total else 0)
  {
    TwoEntries(J.LedgerEntry(receivable, J.Debit, total), J.LedgerEntry(revenue, J.Credit, total));
    TwoEntries(J.LedgerEntry(receivable, J.Credit, total), J.LedgerEntry(revenue, J.Debit, total));
  }

  lemma {:induction false} TwoEntries(x: J.LedgerEntry, y: J.LedgerEntry)
    ensures J.Debits([x, y])
        == (if x.side == J.Debit then x.amount else 0) + (if y.side == J.Debit then y.amount else 0)
    ensures J.Credits([x, y])
        == (if x.side == J.Credit then x.amount else 0) + (if y.side == J.Credit then y.amount else 0)
    ensures forall a :: C.NetTo([x, y], a) == C.NetTo([x], a) + C.NetTo([y], a)
    ensures forall a ::
        C.NetTo([x], a) == if x.account != a then 0 else if x.side == J.Credit then x.amount else -x.amount
    ensures forall a ::
        C.NetTo([y], a) == if y.account != a then 0 else if y.side == J.Credit then y.amount else -y.amount
  {
    assert [x, y][1..] == [y] && [y][1..] == [] && [x][1..] == [];
    assert J.Debits([y]) == if y.side == J.Debit then y.amount else 0;
    assert J.Credits([y]) == if y.side == J.Credit then y.amount else 0;
  }

  /** A successful run that billed something: receivables and revenue rise by the bill, no other account moves. */
  lemma {:induction false} SaleIsBooked(w: World, c: Config, lines: seq<SagaLine>, saleTx: nat, refundTx: nat,
      sweeps: seq<seq<Step>>, meanwhile: seq<Step>, a: J.AccountId)
    requires |w.e.shards| == SHARDS && JR.ShardsOk(w.j.shards, c.accountHash) && |sweeps| == |lines| && lines != []
    requires Fresh(w.e, c.skuHash) && NoOwnHoldExpires(w, sweeps, meanwhile) && !J.IsClosed(w.j.periods, c.period)
    ensures var (after, result) := RunResult(w, c, lines, saleTx, refundTx, sweeps, meanwhile);
      && |after.j.shards| == J.SHARDS && result.Ok?
      && R.Net(J.BalanceOf(after.j.shards, c.accountHash, a)) == R.Net(J.BalanceOf(w.j.shards, c.accountHash, a))
           + (if a == c.revenue then result.value.total else 0) - (if a == c.receivable then result.value.total else 0)
  {
    var r := ReserveLines(w.e, c.skuHash, lines, sweeps);
    SagaSucceeds(w, c, lines, saleTx, refundTx, sweeps, meanwhile, 0);
    if r.holds != [] {
      SaleValid(c.receivable, c.revenue, r.total);
      C.PostMovesBalances(w.j, c.accountHash, saleTx, SaleEntries(c.receivable, c.revenue, r.total), c.period,
          "oms sale", a);
    }
  }

  // ----- Payment failure -----

  lemma {:induction false} ReleaseAllEffect(e: Engine, hash: SkuId -> nat, holds: seq<OwnHold>, sku: SkuId)
    requires |e.shards| == SHARDS
    ensures var st, after := StateOf(e.shards, hash, sku), StateOf(ReleaseHolds(e, hash, holds).shards, hash, sku);
      && after.onHand == st.onHand && after.committed == st.committed && after.backorders == st.backorders
      && (forall h ::
          h in after.holds
          <==> h in st.holds && !(exists k :: 0 <= k < |holds| && holds[k].sku == sku && holds[k].hold == h))
      && (forall h :: h in after.holds ==> after.holds[h] == st.holds[h])
    decreases |holds|
  {
    if holds != [] {
      var next := Do(e, hash, ReleaseStep(holds[0].sku, holds[0].hold));
      ReleaseEffect(e, hash, holds[0].sku, holds[0].hold, sku);
      ReleaseAllEffect(next, hash, holds[1..], sku);
      var st, mid := StateOf(e.shards, hash, sku), StateOf(next.shards, hash, sku);
      var after := StateOf(ReleaseHolds(e, hash, holds).shards, hash, sku);
      forall h ensures h in after.holds
          <==> h in st.holds && !(exists k :: 0 <= k < |holds| && holds[k].sku == sku && holds[k].hold == h) {
        if exists k :: 0 <= k < |holds| && holds[k].sku == sku && holds[k].hold == h {
          var k :| 0 <= k < |holds| && holds[k].sku == sku && holds[k].hold == h;
          if k > 0 { assert holds[1..][k - 1] == holds[k]; }
        }
        if exists k :: 0 <= k < |holds[1..]| && holds[1..][k].sku == sku && holds[1..][k].hold == h {
          var k :| 0 <= k < |holds[1..]| && holds[1..][k].sku == sku && holds[1..][k].hold == h;
          assert holds[k + 1] == holds[1..][k];
        }
      }
    }
  }

  lemma {:induction false} OrderedKeepsOld(st: SkuState, n: HoldId, taken: nat, want: nat)
    requires forall b :: b in st.backorders ==> b < n
    ensures var now := Ordered(st, n, taken, want);
      && (forall h :: h in st.holds ==> h in now.holds)
      && (forall b :: b in now.backorders ==> b < n + IdsUsed(taken, want))
      && (forall b :: b in st.backorders ==> b in now.backorders && now.backorders[b] == st.backorders[b])
      && |now.backorders| == |st.backorders| + if taken < want then 1 else 0
  {
  }

  /** Without sweeps the loop keeps every old hold, and adds one backorder per short line. */
  lemma {:induction false} LoopKeepsOld(e: Engine, hash: SkuId -> nat, lines: seq<SagaLine>, sweeps: seq<seq<Step>>,
      sku: SkuId)
    requires |e.shards| == SHARDS && |sweeps| == |lines| && Fresh(e, hash)
    requires forall i :: 0 <= i < |sweeps| ==> sweeps[i] == []
    ensures var r := ReserveLines(e, hash, lines, sweeps);
      var before, now := StateOf(e.shards, hash, sku), StateOf(r.e.shards, hash, sku);
      && e.nextId <= r.e.nextId
      && (forall h :: h in before.holds ==> h in now.holds)
      && (forall b :: b in now.backorders ==> b < r.e.nextId)
      && (forall b :: b in before.backorders ==> b in now.backorders && now.backorders[b] == before.backorders[b])
      && |now.backorders| == |before.backorders| + ShortLines(lines, r.taken, sku)
  {
    if lines != [] {
      var n := |lines| - 1;
      var p := ReserveLines(e, hash, lines[..n], sweeps[..n]);
      assert ReserveLines(e, hash, lines, sweeps) == ReserveLine(p, hash, lines[n], sweeps[n]);
      LoopKeepsOld(e, hash, lines[..n], sweeps[..n], sku);
      assert sweeps[n] == [] && ReserveLine(p, hash, lines[n], sweeps[n]).taken[..n] == p.taken;
      OrderEffect(p.e, hash, lines[n].sku, lines[n].qty, sku);
      var st := StateOf(p.e.shards, hash, lines[n].sku);
      if lines[n].sku == sku { OrderedKeepsOld(st, p.e.nextId, Reservable(Available(st), lines[n].qty), lines[n].qty); }
    }
  }

  lemma {:induction false} FailedPaymentShape(w: World, c: Config, lines: seq<SagaLine>, saleTx: nat, refundTx: nat,
      sweeps: seq<seq<Step>>, meanwhile: seq<Step>)
    requires |w.e.shards| == SHARDS && |w.j.shards| == J.SHARDS && |sweeps| == |lines|
    requires RunResult(w, c, lines, saleTx, refundTx, sweeps, meanwhile).1.Err?
    requires RunResult(w, c, lines, saleTx, refundTx, sweeps, meanwhile).1.error.PayFailed?
    ensures var r := ReserveLines(w.e, c.skuHash, lines, sweeps);
      RunResult(w, c, lines, saleTx, refundTx, sweeps, meanwhile).0 == World(ReleaseHolds(r.e, c.skuHash, r.holds), w.j)
  {
    var r := ReserveLines(w.e, c.skuHash, lines, sweeps);
    JR.HalfPostedIff(w.j, c.accountHash, saleTx, SaleEntries(c.receivable, c.revenue, r.total), c.period, "oms sale",
        None);
  }

  /**
   * A payment that fails, with nothing expiring: the ledger is unchanged, and of every SKU the
   * stock, the committed units and the holds are as before the run, so what is available is too.
   * The SKU's whole state is as before if and only if the units ordered of it were available (for
   * counts of 32 bits; in general if they fit in the low 32 bits of the count): the backorders the
   * run placed are not taken back.
   */
  lemma {:induction false} PaymentFailureRestores(w: World, c: Config, lines: seq<SagaLine>, saleTx: nat, refundTx: nat,
      sweeps: seq<seq<Step>>, meanwhile: seq<Step>, sku: SkuId)
    requires |w.e.shards| == SHARDS && |w.j.shards| == J.SHARDS && |sweeps| == |lines| && Fresh(w.e, c.skuHash)
    requires forall i :: 0 <= i < |sweeps| ==> sweeps[i] == []
    requires RunResult(w, c, lines, saleTx, refundTx, sweeps, meanwhile).1.Err?
    requires RunResult(w, c, lines, saleTx, refundTx, sweeps, meanwhile).1.error.PayFailed?
    ensures var after := RunResult(w, c, lines, saleTx, refundTx, sweeps, meanwhile).0;
      && after.j == w.j
      && Restored(StateOf(w.e.shards, c.skuHash, sku), StateOf(after.e.shards, c.skuHash, sku), OrderedOf(lines, sku))
  {
    FailedPaymentShape(w, c, lines, saleTx, refundTx, sweeps, meanwhile);
    AllReleased(w.e, c.skuHash, lines, sweeps, sku);
  }

  /** Stock, committed units and holds are as before; backorders too exactly when the units ordered were available. */
  ghost predicate Restored(before: SkuState, now: SkuState, ordered: nat) {
    && now.onHand == before.onHand && now.committed == before.committed && now.holds == before.holds
    && Available(now) == Available(before)
    && (now == before <==> ordered <= Available(before) % U32)
    && (0 <= Available(before) < U32 ==> (now == before <==> ordered <= Available(before)))
  }

  /** Reserving every line and releasing every hold again. */
  lemma {:induction false} AllReleased(e: Engine, hash: SkuId -> nat, lines: seq<SagaLine>, sweeps: seq<seq<Step>>,
      sku: SkuId)
    requires |e.shards| == SHARDS && |sweeps| == |lines| && Fresh(e, hash)
    requires forall i :: 0 <= i < |sweeps| ==> sweeps[i] == []
    ensures var r := ReserveLines(e, hash, lines, sweeps);
      Restored(StateOf(e.shards, hash, sku), StateOf(ReleaseHolds(r.e, hash, r.holds).shards, hash, sku),
          OrderedOf(lines, sku))
  {
    var r := ReserveLines(e, hash, lines, sweeps);
    var before, now := StateOf(e.shards, hash, sku), StateOf(ReleaseHolds(r.e, hash, r.holds).shards, hash, sku);
    StockReleased(e, hash, lines, sweeps, sku);
    NoneShortIff(e, hash, lines, sweeps, sku);
    RestoredWhen(before, now, lines, r.taken, sku);
  }

  lemma {:induction false} RestoredWhen(before: SkuState, now: SkuState, lines: seq<SagaLine>, taken: seq<nat>,
      sku: SkuId)
    requires now.onHand == before.onHand && now.committed == before.committed && now.holds == before.holds
    requires |lines| == |taken| && (now == before <==> ShortLines(lines, taken, sku) == 0)
    requires ShortAsCounted(Available(before), lines, taken, sku)
    ensures Restored(before, now, OrderedOf(lines, sku))
  {
  }

  lemma {:induction false} StockReleased(e: Engine, hash: SkuId -> nat, lines: seq<SagaLine>, sweeps: seq<seq<Step>>,
      sku: SkuId)
    requires |e.shards| == SHARDS && |sweeps| == |lines| && Fresh(e, hash)
    requires forall i :: 0 <= i < |sweeps| ==> sweeps[i] == []
    ensures var r := ReserveLines(e, hash, lines, sweeps);
      var before, now := StateOf(e.shards, hash, sku), StateOf(ReleaseHolds(r.e, hash, r.holds).shards, hash, sku);
      && now.onHand == before.onHand && now.committed == before.committed && now.holds == before.holds
      && (now == before <==> ShortLines(lines, r.taken, sku) == 0)
  {
    var r := ReserveLines(e, hash, lines, sweeps);
    LoopTracks(e, hash, lines, sweeps, sku);
    LoopKeepsOld(e, hash, lines, sweeps, sku);
    ReleaseAllEffect(r.e, hash, r.holds, sku);
    RestoredState(StateOf(e.shards, hash, sku), StateOf(r.e.shards, hash, sku),
                  StateOf(ReleaseHolds(r.e, hash, r.holds).shards, hash, sku), r.holds, sku, e.nextId, r.e.nextId);
  }

  lemma {:induction false} RestoredState(before: SkuState, held: SkuState, now: SkuState, holds: seq<OwnHold>,
      sku: SkuId, n: HoldId, next: HoldId)
    requires OwnIds(holds, n, next) && Tracks(before, held, holds, sku, n)
    requires forall h :: h in before.holds ==> h < n && h in held.holds
    requires forall b :: b in before.backorders ==> b in held.backorders && held.backorders[b] == before.backorders[b]
    requires now.onHand == held.onHand && now.committed == held.committed && now.backorders == held.backorders
    requires forall h ::
        h in now.holds
        <==> h in held.holds && !(exists k :: 0 <= k < |holds| && holds[k].sku == sku && holds[k].hold == h)
    requires forall h :: h in now.holds ==> now.holds[h] == held.holds[h]
    ensures now.onHand == before.onHand && now.committed == before.committed && now.holds == before.holds
    ensures now == before <==> |held.backorders| == |before.backorders|
  {
    assert forall h ::
        h in held.holds && h >= n ==> exists k :: 0 <= k < |holds| && holds[k].sku == sku && holds[k].hold == h;
    if |held.backorders| == |before.backorders| {
      SameSizeSubmap(before.backorders, held.backorders);
    }
  }

  lemma {:induction false} SameSizeSubmap(a: map<HoldId, nat>, b: map<HoldId, nat>)
    requires |a| == |b| && forall k :: k in a ==> k in b && b[k] == a[k]
    ensures a == b
  {
    assert a.Keys <= b.Keys && |a| == |a.Keys| && |b| == |b.Keys|;
    SameSizeEqual(a.Keys, b.Keys);
  }

  /** Units of the SKU that the lines order. */
  function OrderedOf(lines: seq<SagaLine>, sku: SkuId): nat {
    if lines == [] then 0
    else OrderedOf(lines[..|lines| - 1], sku) + if lines[|lines| - 1].sku == sku then lines[|lines| - 1].qty else 0
  }

  /** What the loop has left of a SKU, and that its ids are still fresh. */
  ghost predicate Drawn(before: SkuState, r: Reserved, now: SkuState, lines: seq<SagaLine>, sku: SkuId) {
    && |r.taken| == |lines|
    && (forall h :: h in now.holds ==> h < r.e.nextId)
    && Available(now) == Available(before) - TakenFor(lines, r.taken, sku)
  }

  lemma {:induction false} OrderedAvailable(st: SkuState, n: HoldId, taken: nat, want: nat)
    requires forall h :: h in st.holds ==> h < n
    ensures var now := Ordered(st, n, taken, want);
      && Available(now) == Available(st) - taken
      && forall h :: h in now.holds ==> h < n + IdsUsed(taken, want)
  {
    TotalInsert(st.holds, n, taken);
  }

  lemma {:induction false} LineDrawn(before: SkuState, p: Reserved, hash: SkuId -> nat, lines: seq<SagaLine>,
      line: SagaLine, sku: SkuId)
    requires |p.e.shards| == SHARDS && Drawn(before, p, StateOf(p.e.shards, hash, sku), lines, sku)
    ensures var r := ReserveLine(p, hash, line, []);
      && Drawn(before, r, StateOf(r.e.shards, hash, sku), lines + [line], sku)
      && r.taken == p.taken + [Reservable(Available(StateOf(p.e.shards, hash, line.sku)), line.qty)]
  {
    var st := StateOf(p.e.shards, hash, line.sku);
    var taken := Reservable(Available(st), line.qty);
    OrderEffect(p.e, hash, line.sku, line.qty, sku);
    if line.sku == sku { OrderedAvailable(st, p.e.nextId, taken, line.qty); }
    assert (lines + [line])[..|lines|] == lines && (p.taken + [taken])[..|p.taken|] == p.taken;
  }

  lemma {:induction false} LoopDraws(e: Engine, hash: SkuId -> nat, lines: seq<SagaLine>, sweeps: seq<seq<Step>>,
      sku: SkuId)
    requires |e.shards| == SHARDS && |sweeps| == |lines| && Fresh(e, hash)
    requires forall i :: 0 <= i < |sweeps| ==> sweeps[i] == []
    ensures var r := ReserveLines(e, hash, lines, sweeps);
      Drawn(StateOf(e.shards, hash, sku), r, StateOf(r.e.shards, hash, sku), lines, sku)
  {
    if lines != [] {
      var n := |lines| - 1;
      var front := lines[..n];
      var p := ReserveLines(e, hash, front, sweeps[..n]);
      assert front + [lines[n]] == lines && sweeps[n] == [];
      assert ReserveLines(e, hash, lines, sweeps) == ReserveLine(p, hash, lines[n], []);
      LoopDraws(e, hash, front, sweeps[..n], sku);
      LineDrawn(StateOf(e.shards, hash, sku), p, hash, front, lines[n], sku);
    }
  }

  /** How far the lines so far are from being short: all was taken, and it fits in the low 32 bits of the count. */
  ghost predicate ShortAsCounted(available: int, lines: seq<SagaLine>, taken: seq<nat>, sku: SkuId)
    requires |lines| == |taken|
  {
    && (ShortLines(lines, taken, sku) == 0 <==> OrderedOf(lines, sku) <= available % U32)
    && (ShortLines(lines, taken, sku) == 0 ==> TakenFor(lines, taken, sku) == OrderedOf(lines, sku))
  }

  lemma {:induction false} OneMoreLine(available: int, lines: seq<SagaLine>, taken: seq<nat>, line: SagaLine,
      sku: SkuId)
    requires |lines| == |taken| && ShortAsCounted(available, lines, taken, sku)
    ensures var left := available - TakenFor(lines, taken, sku);
      line.sku == sku ==> ShortAsCounted(available, lines + [line], taken + [Reservable(left, line.qty)], sku)
    ensures forall t: nat :: line.sku != sku ==> ShortAsCounted(available, lines + [line], taken + [t], sku)
  {
    var left := available - TakenFor(lines, taken, sku);
    assert forall t: nat :: (lines + [line])[..|lines|] == lines && (taken + [t])[..|taken|] == taken;
    if ShortLines(lines, taken, sku) == 0 { LowBits(available, OrderedOf(lines, sku)); }
  }

  lemma {:induction false} LowBits(available: int, used: nat)
    requires used <= available % U32
    ensures (available - used) % U32 == available % U32 - used
  {
  }

  lemma {:induction false} LineShortAsCounted(before: SkuState, p: Reserved, hash: SkuId -> nat, lines: seq<SagaLine>,
      line: SagaLine, sku: SkuId)
    requires |p.e.shards| == SHARDS && Drawn(before, p, StateOf(p.e.shards, hash, sku), lines, sku)
    requires ShortAsCounted(Available(before), lines, p.taken, sku)
    ensures var r := ReserveLine(p, hash, line, []);
      |r.taken| == |lines| + 1 && ShortAsCounted(Available(before), lines + [line], r.taken, sku)
  {
    LineDrawn(before, p, hash, lines, line, sku);
    OneMoreLine(Available(before), lines, p.taken, line, sku);
  }

  /** No line of the SKU is short exactly when the units ordered of it fit in the low 32 bits of its available count. */
  lemma {:induction false} NoneShortIff(e: Engine, hash: SkuId -> nat, lines: seq<SagaLine>, sweeps: seq<seq<Step>>,
      sku: SkuId)
    requires |e.shards| == SHARDS && |sweeps| == |lines| && Fresh(e, hash)
    requires forall i :: 0 <= i < |sweeps| ==> sweeps[i] == []
    ensures ShortAsCounted(Available(StateOf(e.shards, hash, sku)), lines, ReserveLines(e, hash, lines, sweeps).taken,
        sku)
  {
    if lines != [] {
      var n := |lines| - 1;
      var front := lines[..n];
      var p := ReserveLines(e, hash, front, sweeps[..n]);
      assert front + [lines[n]] == lines && sweeps[n] == [];
      assert ReserveLines(e, hash, lines, sweeps) == ReserveLine(p, hash, lines[n], []);
      NoneShortIff(e, hash, front, sweeps[..n], sku);
      LoopDraws(e, hash, front, sweeps[..n], sku);
      LineShortAsCounted(StateOf(e.shards, hash, sku), p, hash, front, lines[n], sku);
    }
  }

  // ----- Compensation after payment -----

  ghost predicate Held(e: Engine, hash: SkuId -> nat, h: OwnHold)
    requires |e.shards| == SHARDS
  {
    h.hold in StateOf(e.shards, hash, h.sku).holds
  }

  /** Confirmation stops at the first hold that is not there. */
  lemma {:induction false} FirstMissing(e: Engine, hash: SkuId -> nat, holds: seq<OwnHold>) returns (k: nat)
    requires |e.shards| == SHARDS && ConfirmHolds(e, hash, holds).1.Some?
    requires forall i, j :: 0 <= i < j < |holds| ==> holds[i].hold != holds[j].hold
    ensures k < |holds| && ConfirmHolds(e, hash, holds).1 == Some(holds[k].hold)
    ensures !Held(e, hash, holds[k]) && forall i :: 0 <= i < k ==> Held(e, hash, holds[i])
    decreases |holds|
  {
    var h := holds[0];
    if !Held(e, hash, h) {
      k := 0;
    } else {
      var next, rest := Do(e, hash, ConfirmStep(h.sku, h.hold)), holds[1..];
      forall i | 0 <= i < |rest| ensures Held(next, hash, rest[i]) == Held(e, hash, holds[i + 1]) {
        ConfirmEffect(e, hash, h.sku, h.hold, rest[i].sku);
      }
      var j := FirstMissing(next, hash, rest);
      k := j + 1;
      forall i | 0 <= i < k ensures Held(e, hash, holds[i]) {
        if i > 0 { assert Held(next, hash, rest[i - 1]); }
      }
    }
  }

  /** The holds confirmed before the missing one are committed, and no others. */
  lemma {:induction false} ConfirmUpTo(e: Engine, hash: SkuId -> nat, holds: seq<OwnHold>, sku: SkuId) returns (k: nat)
    requires |e.shards| == SHARDS && ConfirmHolds(e, hash, holds).1.Some?
    requires forall i :: 0 <= i < |holds| && Held(e, hash, holds[i]) ==>
      StateOf(e.shards, hash, holds[i].sku).holds[holds[i].hold] == holds[i].qty
    ensures k < |holds| && ConfirmHolds(e, hash, holds).1 == Some(holds[k].hold)
    ensures StateOf(ConfirmHolds(e, hash, holds).0.shards, hash, sku).committed
         == StateOf(e.shards, hash, sku).committed + HeldFor(holds[..k], sku)
    decreases |holds|
  {
    var h := holds[0];
    if !Held(e, hash, h) {
      k := 0;
    } else {
      var next, rest := Do(e, hash, ConfirmStep(h.sku, h.hold)), holds[1..];
      forall i | 0 <= i < |rest| && Held(next, hash, rest[i])
        ensures StateOf(next.shards, hash, rest[i].sku).holds[rest[i].hold] == rest[i].qty
      {
        ConfirmEffect(e, hash, h.sku, h.hold, rest[i].sku);
        assert Held(e, hash, holds[i + 1]);
      }
      ConfirmEffect(e, hash, h.sku, h.hold, sku);
      var j := ConfirmUpTo(next, hash, rest, sku);
      k := j + 1;
      HeldForFront(holds[..k], sku);
      assert holds[..k][1..] == rest[..j];
    }
  }

  /** Over releases a hold that was there is gone exactly when it was released. */
  lemma {:induction false} GoneIff(e: Engine, hash: SkuId -> nat, steps: seq<Step>, h: OwnHold)
    requires |e.shards| == SHARDS && Held(e, hash, h) && forall i :: 0 <= i < |steps| ==> steps[i].ReleaseStep?
    ensures Held(RunFrom(e, hash, steps), hash, h) <==> ReleaseStep(h.sku, h.hold) !in steps
  {
    if steps != [] {
      var n := |steps| - 1;
      GoneIff(e, hash, steps[..n], h);
      assert steps == steps[..n] + [steps[n]];
      ReleaseEffect(RunFrom(e, hash, steps[..n]), hash, steps[n].sku, steps[n].hold, h.sku);
    }
  }

  /** The k-th of the holds is the first that the steps release. */
  ghost predicate FirstReleased(steps: seq<Step>, holds: seq<OwnHold>, k: nat) {
    && k < |holds| && ReleaseStep(holds[k].sku, holds[k].hold) in steps
    && forall i :: 0 <= i < k ==> ReleaseStep(holds[i].sku, holds[i].hold) !in steps
  }

  /** Fulfilment fails exactly when another caller released one of the run's holds after it was paid. */
  lemma {:induction false} FulfilmentFailsIff(w: World, c: Config, lines: seq<SagaLine>, sweeps: seq<seq<Step>>,
      meanwhile: seq<Step>)
    requires |w.e.shards| == SHARDS && |sweeps| == |lines| && Fresh(w.e, c.skuHash)
    requires forall i :: 0 <= i < |sweeps| ==> OldReleases(sweeps[i], w.e.nextId)
    requires forall i :: 0 <= i < |meanwhile| ==> meanwhile[i].ReleaseStep?
    ensures var r := ReserveLines(w.e, c.skuHash, lines, sweeps);
      ConfirmHolds(RunFrom(r.e, c.skuHash, meanwhile), c.skuHash, r.holds).1.Some?
      <==> exists k :: FirstReleased(meanwhile, r.holds, k)
  {
    var r := ReserveLines(w.e, c.skuHash, lines, sweeps);
    var m := RunFrom(r.e, c.skuHash, meanwhile);
    if ConfirmHolds(m, c.skuHash, r.holds).1.Some? {
      var k := MissingHold(w.e, c.skuHash, lines, sweeps, meanwhile, 0);
      assert FirstReleased(meanwhile, r.holds, k);
    } else {
      AllHeld(m, c.skuHash, r.holds);
      forall k | 0 <= k < |r.holds| ensures ReleaseStep(r.holds[k].sku, r.holds[k].hold) !in meanwhile {
        LoopTracks(w.e, c.skuHash, lines, sweeps, r.holds[k].sku);
        assert Held(m, c.skuHash, r.holds[k]);
        GoneIff(r.e, c.skuHash, meanwhile, r.holds[k]);
      }
    }
  }

  lemma {:induction false} AllHeld(e: Engine, hash: SkuId -> nat, holds: seq<OwnHold>)
    requires |e.shards| == SHARDS && ConfirmHolds(e, hash, holds).1.None?
    ensures forall k :: 0 <= k < |holds| ==> Held(e, hash, holds[k])
    decreases |holds|
  {
    if holds != [] {
      var next := Do(e, hash, ConfirmStep(holds[0].sku, holds[0].hold));
      AllHeld(next, hash, holds[1..]);
      forall k | 0 <= k < |holds| ensures Held(e, hash, holds[k]) {
        if k > 0 {
          assert Held(next, hash, holds[1..][k - 1]);
          ConfirmEffect(e, hash, holds[0].sku, holds[0].hold, holds[k].sku);
        }
      }
    }
  }

  /** What a failed fulfilment leaves of a SKU: the holds before the missing one stay captured. */
  ghost predicate CapturedUpTo(w: World, c: Config, r: Reserved, after: World, sku: SkuId, k: nat)
    requires |w.e.shards| == SHARDS && |after.e.shards| == SHARDS && k <= |r.holds|
  {
    StateOf(after.e.shards, c.skuHash, sku).committed
        == StateOf(w.e.shards, c.skuHash, sku).committed + HeldFor(r.holds[..k], sku)
  }

  /**
   * A hold that expires between payment and fulfilment: the refund reverses the sale exactly, on
   * every account, but the run's holds before the first one released meanwhile stay committed. The
   * committed stock is as before the run if and only if the run's very first hold was released.
   */
  lemma {:induction false} CompensationAfterPayment(w: World, c: Config, lines: seq<SagaLine>, saleTx: nat,
      refundTx: nat, sweeps: seq<seq<Step>>, meanwhile: seq<Step>, a: J.AccountId)
    returns (k: nat)
    requires |w.e.shards| == SHARDS && JR.ShardsOk(w.j.shards, c.accountHash) && |sweeps| == |lines|
        && Fresh(w.e, c.skuHash)
    requires forall i :: 0 <= i < |sweeps| ==> OldReleases(sweeps[i], w.e.nextId)
    requires forall i :: 0 <= i < |meanwhile| ==> meanwhile[i].ReleaseStep?
    requires RunResult(w, c, lines, saleTx, refundTx, sweeps, meanwhile).1.Err?
    requires RunResult(w, c, lines, saleTx, refundTx, sweeps, meanwhile).1.error.FulfillFailed?
    ensures var (after, result) := RunResult(w, c, lines, saleTx, refundTx, sweeps, meanwhile);
      var r := ReserveLines(w.e, c.skuHash, lines, sweeps);
      && |after.j.shards| == J.SHARDS && |after.e.shards| == SHARDS
      && R.Net(J.BalanceOf(after.j.shards, c.accountHash, a)) == R.Net(J.BalanceOf(w.j.shards, c.accountHash, a))
      && k < |r.holds| && result.error.hold == r.holds[k].hold
      && FirstReleased(meanwhile, r.holds, k)
      && (forall sku :: CapturedUpTo(w, c, r, after, sku, k))
      && ((forall sku ::
          StateOf(after.e.shards, c.skuHash, sku).committed == StateOf(w.e.shards, c.skuHash, sku).committed)
          <==> ReleaseStep(r.holds[0].sku, r.holds[0].hold) in meanwhile)
  {
    var r := ReserveLines(w.e, c.skuHash, lines, sweeps);
    var after := RunResult(w, c, lines, saleTx, refundTx, sweeps, meanwhile).0;
    RefundReverses(w.j, c, saleTx, refundTx, r.total, a);
    k := MissingHold(w.e, c.skuHash, lines, sweeps, meanwhile, 0);
    forall sku ensures CapturedUpTo(w, c, r, after, sku, k) {
      var i := MissingHold(w.e, c.skuHash, lines, sweeps, meanwhile, sku);
      SameMissing(w.e, c.skuHash, lines, sweeps, k, i);
      ReleaseAllEffect(ConfirmHolds(RunFrom(r.e, c.skuHash, meanwhile), c.skuHash, r.holds).0, c.skuHash, r.holds, sku);
    }
    HeldIsTaken(w.e, c.skuHash, lines, sweeps, 0);
    RestoredIffFirst(w, c, r, after, k);
  }

  lemma {:induction false} RestoredIffFirst(w: World, c: Config, r: Reserved, after: World, k: nat)
    requires |w.e.shards| == SHARDS && |after.e.shards| == SHARDS && k < |r.holds|
    requires forall i :: 0 <= i < |r.holds| ==> r.holds[i].qty > 0
    requires forall sku :: CapturedUpTo(w, c, r, after, sku, k)
    ensures (forall sku ::
        StateOf(after.e.shards, c.skuHash, sku).committed == StateOf(w.e.shards, c.skuHash, sku).committed) <==> k == 0
  {
    if k > 0 {
      HeldForFront(r.holds[..k], r.holds[0].sku);
      assert CapturedUpTo(w, c, r, after, r.holds[0].sku, k);
    } else {
      forall sku ensures StateOf(after.e.shards, c.skuHash, sku).committed
          == StateOf(w.e.shards, c.skuHash, sku).committed {
        assert CapturedUpTo(w, c, r, after, sku, k);
      }
    }
  }

  /** Sale and refund, both posted in the same open period, cancel on every account. */
  lemma {:induction false} RefundReverses(j: J.JournalState, c: Config, saleTx: nat, refundTx: nat, total: int,
      a: J.AccountId)
    requires JR.ShardsOk(j.shards, c.accountHash)
    requires J.Post(j, c.accountHash, saleTx, SaleEntries(c.receivable, c.revenue, total), c.period, "oms sale",
        None).1.Ok?
    ensures var paid :=
        J.Post(j, c.accountHash, saleTx, SaleEntries(c.receivable, c.revenue, total), c.period, "oms sale", None).0;
      var refunded :=
          J.Post(paid, c.accountHash, refundTx, RefundEntries(c.receivable, c.revenue, total), c.period, "oms refund",
              None).0;
      R.Net(J.BalanceOf(refunded.shards, c.accountHash, a)) == R.Net(J.BalanceOf(j.shards, c.accountHash, a))
  {
    var sale, refund := SaleEntries(c.receivable, c.revenue, total), RefundEntries(c.receivable, c.revenue, total);
    SaleValid(c.receivable, c.revenue, total);
    C.PostMovesBalances(j, c.accountHash, saleTx, sale, c.period, "oms sale", a);
    var paid := J.Post(j, c.accountHash, saleTx, sale, c.period, "oms sale", None).0;
    C.PostMovesBalances(paid, c.accountHash, refundTx, refund, c.period, "oms refund", a);
  }

  lemma {:induction false} MissingHold(e: Engine, hash: SkuId -> nat, lines: seq<SagaLine>, sweeps: seq<seq<Step>>,
      meanwhile: seq<Step>, sku: SkuId) returns (k: nat)
    requires |e.shards| == SHARDS && |sweeps| == |lines| && Fresh(e, hash)
    requires forall i :: 0 <= i < |sweeps| ==> OldReleases(sweeps[i], e.nextId)
    requires forall i :: 0 <= i < |meanwhile| ==> meanwhile[i].ReleaseStep?
    requires var r := ReserveLines(e, hash, lines, sweeps);
      ConfirmHolds(RunFrom(r.e, hash, meanwhile), hash, r.holds).1.Some?
    ensures var r := ReserveLines(e, hash, lines, sweeps);
      var confirmed := ConfirmHolds(RunFrom(r.e, hash, meanwhile), hash, r.holds);
      && k < |r.holds| && confirmed.1 == Some(r.holds[k].hold)
      && FirstReleased(meanwhile, r.holds, k)
      && StateOf(confirmed.0.shards, hash, sku).committed
          == StateOf(e.shards, hash, sku).committed + HeldFor(r.holds[..k], sku)
  {
    var r := ReserveLines(e, hash, lines, sweeps);
    var m := RunFrom(r.e, hash, meanwhile);
    forall i | 0 <= i < |r.holds| && r.holds[i].hold in StateOf(m.shards, hash, r.holds[i].sku).holds
      ensures StateOf(m.shards, hash, r.holds[i].sku).holds[r.holds[i].hold] == r.holds[i].qty
    {
      LoopTracks(e, hash, lines, sweeps, r.holds[i].sku);
      AnySweep(r.e, hash, meanwhile, r.holds[i].sku);
    }
    LoopTracks(e, hash, lines, sweeps, sku);
    AnySweep(r.e, hash, meanwhile, sku);
    k := ConfirmUpTo(m, hash, r.holds, sku);
    var first := FirstMissing(m, hash, r.holds);
    assert first == k;
    forall i | 0 <= i <= k ensures Held(m, hash, r.holds[i])
        <==> ReleaseStep(r.holds[i].sku, r.holds[i].hold) !in meanwhile {
      LoopTracks(e, hash, lines, sweeps, r.holds[i].sku);
      GoneIff(r.e, hash, meanwhile, r.holds[i]);
    }
  }

  lemma {:induction false} AnySweep(e: Engine, hash: SkuId -> nat, steps: seq<Step>, sku: SkuId)
    requires |e.shards| == SHARDS && forall i :: 0 <= i < |steps| ==> steps[i].ReleaseStep?
    ensures var st, after := StateOf(e.shards, hash, sku), StateOf(RunFrom(e, hash, steps).shards, hash, sku);
      after.committed == st.committed && forall h :: h in after.holds ==> h in st.holds && after.holds[h] == st.holds[h]
  {
    if steps != [] {
      var k := |steps| - 1;
      AnySweep(e, hash, steps[..k], sku);
      ReleaseEffect(RunFrom(e, hash, steps[..k]), hash, steps[k].sku, steps[k].hold, sku);
    }
  }

  /** Own holds have distinct ids, so the id names the hold. */
  lemma {:induction false} SameMissing(e: Engine, hash: SkuId -> nat, lines: seq<SagaLine>, sweeps: seq<seq<Step>>,
      i: nat, k: nat)
    requires |e.shards| == SHARDS && |sweeps| == |lines| && Fresh(e, hash)
    requires forall s :: 0 <= s < |sweeps| ==> OldReleases(sweeps[s], e.nextId)
    requires var holds := ReserveLines(e, hash, lines, sweeps).holds;
      i < |holds| && k < |holds| && holds[i].hold == holds[k].hold
    ensures i == k
  {
    LoopTracks(e, hash, lines, sweeps, 0);
  }
}
