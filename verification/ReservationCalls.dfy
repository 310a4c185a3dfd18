/** What every reservation call does to its SKU: stock, holds, backorders and events, and nothing to any other. */
module ReservationCalls {
  import opened Wrappers
  import opened EventStore
  import opened MapTotals
  import opened Reservation
  import opened ReservationRuns

  /** A SKU's state and events are those in the shard its hash leads to; a SKU not seen yet has nothing. */
  lemma {:induction false} InItsShard(shards: seq<Shard>, hash: SkuId -> nat, sku: SkuId)
    requires |shards| == SHARDS
    ensures var shard := shards[hash(sku) % 64];
      && StateOf(shards, hash, sku) == (if sku in shard.states then shard.states[sku] else SkuState(0, 0, map[], map[]))
      && SkuEvents(shards, hash, sku) == Payloads(Stream(shard.store.log, sku))
  {
  }

  /** Units on hand that are neither committed nor held. */
  ghost function Free(st: SkuState): int { st.onHand - st.committed - Total(st.holds) }

  /**
   * What a call did, as seen from SKU `k`: its own SKU is in `st` and has logged `events`, any other is
   * as it was; `ids` fresh ids were used up.
   */
  ghost predicate Leaves(before: Engine, after: Engine, hash: SkuId -> nat, sku: SkuId, st: SkuState,
      events: seq<ReserveEvent>, ids: nat, k: SkuId)
    requires |before.shards| == SHARDS && |after.shards| == SHARDS
  {
    && after.nextId == before.nextId + ids
    && StateOf(after.shards, hash, k) == (if k == sku then st else StateOf(before.shards, hash, k))
    && SkuEvents(after.shards, hash, k)
        == if k == sku then SkuEvents(before.shards, hash, k) + events else SkuEvents(before.shards, hash, k)
  }

  lemma {:induction false} RecordLeaves(e: Engine, hash: SkuId -> nat, sku: SkuId, ev: ReserveEvent, st: SkuState,
      ids: nat, k: SkuId)
    requires |e.shards| == SHARDS
    ensures Leaves(e, Engine(Record(e.shards, hash, sku, ev, st), e.nextId + ids), hash, sku, st, [ev], ids, k)
  {
    RecordedEvents(e.shards, hash, sku, ev, st, k);
    Recorded(e.shards, hash, sku, ev, st);
  }

  lemma {:induction false} NothingLeft(e: Engine, after: Engine, hash: SkuId -> nat, sku: SkuId, k: SkuId)
    requires |e.shards| == SHARDS
    requires after == e || after == e.(shards := Touch(e.shards, hash, sku))
    ensures Leaves(e, after, hash, sku, StateOf(e.shards, hash, sku), [], 0, k)
  {
    Touched(e.shards, hash, sku);
    assert SkuEvents(e.shards, hash, k) + [] == SkuEvents(e.shards, hash, k);
  }

  lemma {:induction false} LeavesTwice(a: Engine, b: Engine, c: Engine, hash: SkuId -> nat, sku: SkuId, st: SkuState,
      first: seq<ReserveEvent>, m: nat, next: SkuState, second: seq<ReserveEvent>, n: nat, k: SkuId)
    requires |a.shards| == SHARDS && |b.shards| == SHARDS && |c.shards| == SHARDS
    requires Leaves(a, b, hash, sku, st, first, m, k) && Leaves(b, c, hash, sku, next, second, n, k)
    ensures Leaves(a, c, hash, sku, next, first + second, m + n, k)
  {
    assert SkuEvents(a.shards, hash, sku) + first + second == SkuEvents(a.shards, hash, sku) + (first + second);
  }

  /** A step that writes an event leaves what it computes from the SKU's state. */
  lemma {:induction false} StepWrites(e: Engine, hash: SkuId -> nat, step: Step, ev: ReserveEvent, st: SkuState,
      ids: nat, k: SkuId)
    requires |e.shards| == SHARDS
    requires Transition(StateOf(e.shards, hash, step.sku), e.nextId, step) == Some((ev, st, e.nextId + ids))
    ensures Leaves(e, Do(e, hash, step), hash, step.sku, st, [ev], ids, k)
  {
    RecordLeaves(e, hash, step.sku, ev, st, ids, k);
    assert Do(e, hash, step) == Engine(Record(e.shards, hash, step.sku, ev, st), e.nextId + ids);
  }

  // ----- Stock -----

  /** A receipt or return adds its quantity to the stock on hand. */
  lemma {:induction false} StockAdded(e: Engine, hash: SkuId -> nat, sku: SkuId, qty: int, k: SkuId)
    requires |e.shards| == SHARDS
    ensures var st := StateOf(e.shards, hash, sku); var more := st.(onHand := st.onHand + qty);
      && Leaves(e, Do(e, hash, ReceiveStep(sku, qty)), hash, sku, more, [Received(qty)], 0, k)
      && Leaves(e, Do(e, hash, ReturnStep(sku, qty)), hash, sku, more, [Return(qty)], 0, k)
  {
    var st := StateOf(e.shards, hash, sku);
    StepWrites(e, hash, ReceiveStep(sku, qty), Received(qty), st.(onHand := st.onHand + qty), 0, k);
    StepWrites(e, hash, ReturnStep(sku, qty), Return(qty), st.(onHand := st.onHand + qty), 0, k);
  }

  // ----- Reservations -----

  lemma {:induction false} FreshId(e: Engine, hash: SkuId -> nat, sku: SkuId)
    requires EngineOk(e, hash)
    ensures e.nextId !in StateOf(e.shards, hash, sku).holds
  {
    assert SkuOk(StateOf(e.shards, hash, sku), SkuEvents(e.shards, hash, sku), e.nextId);
  }

  /** A part of nothing is not written and takes no id. */
  function Ids(qty: nat): nat { if qty > 0 then 1 else 0 }

  function Holding(st: SkuState, id: HoldId, qty: nat): SkuState { st.(holds := st.holds[id := qty]) }

  function Waiting(st: SkuState, id: HoldId, qty: nat): SkuState { st.(backorders := st.backorders[id := qty]) }

  /**
   * A reservation holds all it asks for, under the fresh id, if so much is free; otherwise it leaves
   * everything as it was. The units held are taken from the free ones.
   */
  lemma {:induction false} ReservedOrNot(e: Engine, hash: SkuId -> nat, sku: SkuId, qty: nat, k: SkuId)
    requires EngineOk(e, hash)
    ensures var st := StateOf(e.shards, hash, sku); var after := Do(e, hash, ReserveStep(sku, qty));
      if Free(st) >= qty
      then && Leaves(e, after, hash, sku, Holding(st, e.nextId, qty), [Hold(e.nextId, qty)], 1, k)
           && e.nextId !in st.holds && Free(Holding(st, e.nextId, qty)) == Free(st) - qty
      else Leaves(e, after, hash, sku, st, [], 0, k)
  {
    var st := StateOf(e.shards, hash, sku);
    FreshId(e, hash, sku);
    if Free(st) >= qty {
      StepWrites(e, hash, ReserveStep(sku, qty), Hold(e.nextId, qty), Holding(st, e.nextId, qty), 1, k);
      TotalInsert(st.holds, e.nextId, qty);
    } else {
      ReserveRefused(e, hash, sku, qty);
      NothingLeft(e, Do(e, hash, ReserveStep(sku, qty)), hash, sku, k);
    }
  }

  lemma {:induction false} ReserveRefused(e: Engine, hash: SkuId -> nat, sku: SkuId, qty: nat)
    requires |e.shards| == SHARDS && Free(StateOf(e.shards, hash, sku)) < qty
    ensures Do(e, hash, ReserveStep(sku, qty)) == e.(shards := Touch(e.shards, hash, sku))
  {
  }

  /** The units an order is given: the low 32 bits of the free ones, at most what it asks for. */
  function Given(free: int, want: nat): nat {
    if free % 4294967296 <= want then free % 4294967296 else want
  }

  lemma {:induction false} GivenIsReservable(st: SkuState, want: nat)
    ensures Given(Free(st), want) == Reservable(Available(st), want)
  {
  }

  /** The state after an order: a hold under the first fresh id, a backorder under the next. */
  function Split(st: SkuState, id: HoldId, given: nat, rest: nat): SkuState {
    var held := if given > 0 then Holding(st, id, given) else st;
    if rest > 0 then Waiting(held, id + Ids(given), rest) else held
  }

  function SplitEvents(id: HoldId, given: nat, rest: nat): seq<ReserveEvent> {
    (if given > 0 then [Hold(id, given)] else [])
    + if rest > 0 then [BackorderPlaced(id + Ids(given), rest)] else []
  }

  /** An order holds what it is given and backorders exactly the rest. */
  lemma {:induction false} OrderSplits(e: Engine, hash: SkuId -> nat, sku: SkuId, want: nat, given: nat, k: SkuId)
    requires |e.shards| == SHARDS && given == Given(Free(StateOf(e.shards, hash, sku)), want)
    ensures Leaves(e, Do(e, hash, OrderStep(sku, want)), hash, sku, Split(StateOf(e.shards, hash, sku), e.nextId, given,
        want - given), SplitEvents(e.nextId, given, want - given), Ids(given) + Ids(want - given), k)
  {
    OrderGives(e, hash, sku, want, given);
    TouchedOrder(e, hash, sku, given, want - given, k);
  }

  lemma {:induction false} OrderGives(e: Engine, hash: SkuId -> nat, sku: SkuId, want: nat, given: nat)
    requires |e.shards| == SHARDS && given == Given(Free(StateOf(e.shards, hash, sku)), want)
    ensures Do(e, hash, OrderStep(sku, want))
        == Order(e.(shards := Touch(e.shards, hash, sku)), hash, sku, given, want)
  {
    GivenIsReservable(StateOf(e.shards, hash, sku), want);
    OrderIsWrites(e, hash, sku, want);
  }

  lemma {:induction false} TouchedOrder(e: Engine, hash: SkuId -> nat, sku: SkuId, given: nat, rest: nat, k: SkuId)
    requires |e.shards| == SHARDS
    ensures Leaves(e, Order(e.(shards := Touch(e.shards, hash, sku)), hash, sku, given, given + rest), hash, sku,
        Split(StateOf(e.shards, hash, sku), e.nextId, given, rest), SplitEvents(e.nextId, given, rest),
        Ids(given) + Ids(rest), k)
  {
    var e0 := e.(shards := Touch(e.shards, hash, sku));
    Touched(e.shards, hash, sku);
    OrderWritten(e0, hash, sku, given, rest, k);
    TouchedFirst(e, Order(e0, hash, sku, given, given + rest), hash, sku, Split(StateOf(e.shards, hash, sku), e.nextId,
        given, rest), SplitEvents(e.nextId, given, rest), Ids(given) + Ids(rest), k);
  }

  lemma {:induction false} TouchedFirst(e: Engine, after: Engine, hash: SkuId -> nat, sku: SkuId, st: SkuState,
      events: seq<ReserveEvent>, ids: nat, k: SkuId)
    requires |e.shards| == SHARDS && |after.shards| == SHARDS
    requires Leaves(e.(shards := Touch(e.shards, hash, sku)), after, hash, sku, st, events, ids, k)
    ensures Leaves(e, after, hash, sku, st, events, ids, k)
  {
    NothingLeft(e, e.(shards := Touch(e.shards, hash, sku)), hash, sku, k);
    assert SkuEvents(e.shards, hash, k) + [] == SkuEvents(e.shards, hash, k);
  }

  lemma {:induction false} OrderWritten(e: Engine, hash: SkuId -> nat, sku: SkuId, given: nat, rest: nat, k: SkuId)
    requires |e.shards| == SHARDS
    ensures Leaves(e, Order(e, hash, sku, given, given + rest), hash, sku, Split(StateOf(e.shards, hash, sku), e.nextId,
        given, rest), SplitEvents(e.nextId, given, rest), Ids(given) + Ids(rest), k)
  {
    if given > 0 {
      OrderHeld(e, hash, sku, given, rest, k);
    } else {
      NothingLeft(e, e, hash, sku, k);
      BackorderWritten(e, e, hash, sku, StateOf(e.shards, hash, sku), [], 0, rest, k);
    }
  }

  lemma {:induction false} OrderHeld(e: Engine, hash: SkuId -> nat, sku: SkuId, given: nat, rest: nat, k: SkuId)
    requires |e.shards| == SHARDS && given > 0
    ensures Leaves(e, Order(e, hash, sku, given, given + rest), hash, sku, Split(StateOf(e.shards, hash, sku), e.nextId,
        given, rest), SplitEvents(e.nextId, given, rest), Ids(given) + Ids(rest), k)
  {
    var e1 := PlaceHold(e, hash, sku, given);
    HoldWritten(e, hash, sku, given, k);
    HoldWritten(e, hash, sku, given, sku);
    BackorderWritten(e, e1, hash, sku, Holding(StateOf(e.shards, hash, sku), e.nextId, given), [Hold(e.nextId, given)],
        1, rest, k);
    SplitIs(StateOf(e.shards, hash, sku), e.nextId, given, rest);
  }

  lemma {:induction false} SplitIs(st: SkuState, id: HoldId, given: nat, rest: nat)
    requires given > 0
    ensures var held := Holding(st, id, given);
      Split(st, id, given, rest) == if rest > 0 then Waiting(held, id + 1, rest) else held
    ensures SplitEvents(id, given, rest) == [Hold(id, given)] + if rest > 0 then [BackorderPlaced(id + 1, rest)] else []
  {
  }

  lemma {:induction false} HoldWritten(e: Engine, hash: SkuId -> nat, sku: SkuId, qty: nat, k: SkuId)
    requires |e.shards| == SHARDS
    ensures Leaves(e, PlaceHold(e, hash, sku, qty), hash, sku, Holding(StateOf(e.shards, hash, sku), e.nextId, qty),
        [Hold(e.nextId, qty)], 1, k)
  {
    RecordLeaves(e, hash, sku, Hold(e.nextId, qty), Holding(StateOf(e.shards, hash, sku), e.nextId, qty), 1, k);
  }

  lemma {:induction false} BackorderWritten(e: Engine, e1: Engine, hash: SkuId -> nat, sku: SkuId, held: SkuState,
      first: seq<ReserveEvent>, ids: nat, rest: nat, k: SkuId)
    requires |e.shards| == SHARDS && |e1.shards| == SHARDS && StateOf(e1.shards, hash, sku) == held
    requires Leaves(e, e1, hash, sku, held, first, ids, k)
    ensures var events := first + if rest > 0 then [BackorderPlaced(e1.nextId, rest)] else [];
      Leaves(e, if rest > 0 then PlaceBackorder(e1, hash, sku, rest) else e1, hash, sku,
             if rest > 0 then Waiting(held, e1.nextId, rest) else held, events, ids + Ids(rest), k)
  {
    if rest > 0 {
      var next := Waiting(held, e1.nextId, rest);
      RecordLeaves(e1, hash, sku, BackorderPlaced(e1.nextId, rest), next, 1, k);
      LeavesTwice(e, e1, PlaceBackorder(e1, hash, sku, rest), hash, sku, held, first, ids, next,
                  [BackorderPlaced(e1.nextId, rest)], 1, k);
    } else {
      assert first + [] == first;
    }
  }

  // ----- The end of a hold -----

  /** Confirming commits the units of a hold that is there; releasing frees them. A hold that is not there is left. */
  lemma {:induction false} HoldEnds(e: Engine, hash: SkuId -> nat, sku: SkuId, h: HoldId, k: SkuId)
    requires |e.shards| == SHARDS
    ensures var st := StateOf(e.shards, hash, sku);
      var confirmed, released := Do(e, hash, ConfirmStep(sku, h)), Do(e, hash, ReleaseStep(sku, h));
      if h in st.holds
      then
        var captured := st.(holds := st.holds - {h}, committed := st.committed + st.holds[h]);
        var freed := st.(holds := st.holds - {h});
        && Leaves(e, confirmed, hash, sku, captured, [Capture(h)], 0, k) && Free(captured) == Free(st)
        && Leaves(e, released, hash, sku, freed, [Release(h)], 0, k) && Free(freed) == Free(st) + st.holds[h]
      else confirmed == e && released == e
  {
    var st := StateOf(e.shards, hash, sku);
    if h in st.holds {
      TotalRemove(st.holds, h);
      StepWrites(e, hash, ConfirmStep(sku, h), Capture(h),
                 st.(holds := st.holds - {h}, committed := st.committed + st.holds[h]), 0, k);
      StepWrites(e, hash, ReleaseStep(sku, h), Release(h), st.(holds := st.holds - {h}), 0, k);
    }
  }

  // ----- Fills -----

  /** A fill turns a backorder that fits into a hold of the same quantity under the fresh id. */
  lemma {:induction false} FillTurns(e: Engine, hash: SkuId -> nat, sku: SkuId, b: HoldId, k: SkuId)
    requires |e.shards| == SHARDS
    ensures var st := StateOf(e.shards, hash, sku); var after := Do(e, hash, FillStep(sku, b));
      if b in st.backorders && Free(st) >= st.backorders[b]
      then Leaves(e, after, hash, sku,
                  st.(backorders := st.backorders - {b}, holds := st.holds[e.nextId := st.backorders[b]]),
                  [BackorderFilled(e.nextId, st.backorders[b])], 1, k)
      else after == e
  {
    var st := StateOf(e.shards, hash, sku);
    if b in st.backorders && Free(st) >= st.backorders[b] {
      StepWrites(e, hash, FillStep(sku, b), BackorderFilled(e.nextId, st.backorders[b]),
                 st.(backorders := st.backorders - {b}, holds := st.holds[e.nextId := st.backorders[b]]), 1, k);
    }
  }

  /** The ids that a filling call reports are new: no SKU had a hold or backorder under any of them. */
  lemma {:induction false} FilledAreNew(before: Engine, after: Engine, hash: SkuId -> nat, sku: SkuId,
      steps: seq<Step>, filled: seq<(HoldId, nat)>, i: nat, other: SkuId)
    requires EngineOk(before, hash) && |after.shards| == SHARDS && i < |filled|
    requires FillsDone(before, after, hash, sku, steps, filled)
    ensures filled[i].0 !in StateOf(before.shards, hash, other).holds
    ensures filled[i].0 !in StateOf(before.shards, hash, other).backorders
    ensures var st := StateOf(after.shards, hash, sku);
      filled[i].0 in st.holds && st.holds[filled[i].0] == filled[i].1
  {
    assert SkuOk(StateOf(before.shards, hash, other), SkuEvents(before.shards, hash, other), before.nextId);
    assert filled[i].0 == before.nextId + i;
    assert StateOf(before.shards, hash, other) == StateOf(before.shards, hash, other);
  }

  // ----- The read model -----

  /** What each event does to the read model's state of its SKU, in any log at all. */
  lemma {:induction false} ReplayedEvent(evs: seq<ReserveEvent>, e: ReserveEvent)
    ensures Fold([]) == SkuState(0, 0, map[], map[])
    ensures var st, next := Fold(evs), Fold(evs + [e]);
      match e
      case Received(q) => next == st.(onHand := st.onHand + q)
      case Return(q) => next == st.(onHand := st.onHand + q)
      case Hold(h, q) => next == st.(holds := st.holds[h := q])
      case Capture(h) =>
        next == if h in st.holds
                then SkuState(st.onHand, st.committed + st.holds[h], map g | g in st.holds && g != h :: st.holds[g],
                              st.backorders)
                else st
      case Release(h) => next == st.(holds := map g | g in st.holds && g != h :: st.holds[g])
      case BackorderPlaced(h, q) => next == st.(backorders := st.backorders[h := q])
      case BackorderFilled(h, _) =>
        next == if h in st.backorders
                then SkuState(st.onHand, st.committed, st.holds[h := st.backorders[h]],
                              map g | g in st.backorders && g != h :: st.backorders[g])
                else st
  {
    FoldSnoc(evs, e);
  }
}
