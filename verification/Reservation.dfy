/** Stock holds: the sharded, event-sourced reservation engine. */
module Reservation {
  import opened Wrappers
  import opened EventStore
  import opened MapTotals

  type SkuId = nat
  type HoldId = nat

  datatype ReserveEvent =
    | Received(qty: int)
    | Hold(reservation: HoldId, held: nat)
    | Capture(reservation: HoldId)
    | Release(reservation: HoldId)
    | BackorderPlaced(reservation: HoldId, short: nat)
    | BackorderFilled(reservation: HoldId, filled: nat)
    | Return(qty: int)

  datatype SkuState = SkuState(onHand: int, committed: int, holds: map<HoldId, nat>, backorders: map<HoldId, nat>)

  datatype Shard = Shard(store: Store<SkuId, ReserveEvent>, states: map<SkuId, SkuState>)

  /** `nextId` is the supply of fresh ids. */
  datatype Engine = Engine(shards: seq<Shard>, nextId: HoldId)

  datatype ReservationError =
    | InsufficientStock(sku: SkuId, available: int, requested: int)
    | UnknownHold(hold: HoldId)

  const SHARDS := 64
  const U32 := 0x1_0000_0000

  function NoStock(): SkuState { SkuState(0, 0, map[], map[]) }

  ghost function Available(st: SkuState): int {
    st.onHand - st.committed - Total(st.holds)
  }

  method ComputeAvailable(st: SkuState) returns (available: int)
    ensures available == Available(st)
  {
    var held := ComputeTotal(st.holds);
    available := st.onHand - st.committed - held;
  }

  function ShardIndex(hash: SkuId -> nat, sku: SkuId): nat { hash(sku) % SHARDS }

  function StateIn(states: map<SkuId, SkuState>, sku: SkuId): SkuState {
    if sku in states then states[sku] else NoStock()
  }

  function StateOf(shards: seq<Shard>, hash: SkuId -> nat, sku: SkuId): SkuState
    requires |shards| == SHARDS
  {
    StateIn(shards[ShardIndex(hash, sku)].states, sku)
  }

  /** One lock section: an event appended and the SKU's state replaced. */
  function Record(shards: seq<Shard>, hash: SkuId -> nat, sku: SkuId, e: ReserveEvent, st: SkuState): (r: seq<Shard>)
    requires |shards| == SHARDS
    ensures |r| == SHARDS
  {
    var i := ShardIndex(hash, sku);
    shards[i := Shard(Appended(shards[i].store, sku, e), shards[i].states[sku := st])]
  }

  /** `entry(sku).or_default()`: a state is created if there is none. */
  function Touch(shards: seq<Shard>, hash: SkuId -> nat, sku: SkuId): (r: seq<Shard>)
    requires |shards| == SHARDS
    ensures |r| == SHARDS
  {
    var i := ShardIndex(hash, sku);
    shards[i := shards[i].(states := shards[i].states[sku := StateIn(shards[i].states, sku)])]
  }

  /** A section replaces the state of its own SKU and of no other. */
  lemma {:induction false} Recorded(shards: seq<Shard>, hash: SkuId -> nat, k: SkuId, ev: ReserveEvent, st: SkuState)
    requires |shards| == SHARDS
    ensures forall other ::
        StateOf(Record(shards, hash, k, ev, st), hash, other) == if other == k then st else StateOf(shards, hash, other)
  {
  }

  lemma {:induction false} Touched(shards: seq<Shard>, hash: SkuId -> nat, k: SkuId)
    requires |shards| == SHARDS
    ensures forall other :: StateOf(Touch(shards, hash, k), hash, other) == StateOf(shards, hash, other)
  {
  }

  /** What `reserve_or_backorder` takes: the available units cast to 32 bits, at most `qty`. */
  function Reservable(available: int, qty: nat): (r: nat)
    ensures r <= qty
  {
    var cast := available % U32;
    if cast < qty then cast else qty
  }

  function PlaceHold(e: Engine, hash: SkuId -> nat, sku: SkuId, qty: nat): (r: Engine)
    requires |e.shards| == SHARDS
    ensures |r.shards| == SHARDS
  {
    var st := StateOf(e.shards, hash, sku);
    Engine(Record(e.shards, hash, sku, Hold(e.nextId, qty), st.(holds := st.holds[e.nextId := qty])), e.nextId + 1)
  }

  function PlaceBackorder(e: Engine, hash: SkuId -> nat, sku: SkuId, qty: nat): (r: Engine)
    requires |e.shards| == SHARDS
    ensures |r.shards| == SHARDS
  {
    var st := StateOf(e.shards, hash, sku);
    Engine(Record(e.shards, hash, sku, BackorderPlaced(e.nextId, qty),
        st.(backorders := st.backorders[e.nextId := qty])), e.nextId + 1)
  }

  /** The two writes of `reserve_or_backorder`: a hold for `taken` units, a backorder for the rest. */
  function Order(e: Engine, hash: SkuId -> nat, sku: SkuId, taken: nat, want: nat): (r: Engine)
    requires |e.shards| == SHARDS
    ensures |r.shards| == SHARDS
  {
    var e1 := if taken > 0 then PlaceHold(e, hash, sku, taken) else e;
    if taken < want then PlaceBackorder(e1, hash, sku, want - taken) else e1
  }

  /** What an order answers: the hold of what it took, if anything, and the backorder of the rest, if any. */
  ghost predicate OrderReply(before: Engine, hash: SkuId -> nat, sku: SkuId, qty: nat, reserved: Option<(HoldId, nat)>,
      backorder: Option<(HoldId, nat)>)
    requires |before.shards| == SHARDS
  {
    var taken := Reservable(Available(StateOf(before.shards, hash, sku)), qty);
    && reserved == (if taken > 0 then Some((before.nextId, taken)) else None)
    && backorder
        == (if taken < qty then Some((before.nextId + (if taken > 0 then 1 else 0), qty - taken)) else None)
  }

  // ----- Atomic steps -----

  datatype Step =
    | ReceiveStep(sku: SkuId, qty: int)
    | ReserveStep(sku: SkuId, want: nat)
    | ConfirmStep(sku: SkuId, hold: HoldId)
    | ReleaseStep(sku: SkuId, hold: HoldId)
    | ReturnStep(sku: SkuId, qty: int)
    | OrderStep(sku: SkuId, want: nat)
    | FillStep(sku: SkuId, backorder: HoldId)

  /** The event a step writes, the SKU's next state and the next fresh id; nothing if the step does not apply. */
  ghost function Transition(st: SkuState, n: HoldId, step: Step): Option<(ReserveEvent, SkuState, HoldId)> {
    match step
    case ReceiveStep(_, qty) => Some((Received(qty), st.(onHand := st.onHand + qty), n))
    case ReturnStep(_, qty) => Some((Return(qty), st.(onHand := st.onHand + qty), n))
    case ReserveStep(_, want) =>
      if Available(st) < want then None else Some((Hold(n, want), st.(holds := st.holds[n := want]), n + 1))
    case ConfirmStep(_, hold) =>
      if hold !in st.holds then None
      else Some((Capture(hold), st.(holds := st.holds - {hold}, committed := st.committed + st.holds[hold]), n))
    case ReleaseStep(_, hold) =>
      if hold !in st.holds then None else Some((Release(hold), st.(holds := st.holds - {hold}), n))
    case FillStep(_, bo) =>
      if bo !in st.backorders || Available(st) < st.backorders[bo] then None
      else Some((BackorderFilled(n, st.backorders[bo]),
                 st.(backorders := st.backorders - {bo}, holds := st.holds[n := st.backorders[bo]]), n + 1))
    case OrderStep(_, _) => None
  }

  /**
   * One step. A sweep is a series of releases; `OrderStep` is a whole `reserve_or_backorder` call
   * after its sweep, `FillStep` one round of the fill loop.
   */
  ghost function Do(e: Engine, hash: SkuId -> nat, step: Step): (r: Engine)
    requires |e.shards| == SHARDS
    ensures |r.shards| == SHARDS
  {
    var st := StateOf(e.shards, hash, step.sku);
    match Transition(st, e.nextId, step)
    case Some((event, next, id)) => Engine(Record(e.shards, hash, step.sku, event, next), id)
    case None =>
      if step.ReserveStep? then e.(shards := Touch(e.shards, hash, step.sku))
      else if step.OrderStep? then
        Order(e.(shards := Touch(e.shards, hash, step.sku)), hash, step.sku, Reservable(Available(st), step.want),
            step.want)
      else e
  }

  lemma {:induction false} OrderIsWrites(e: Engine, hash: SkuId -> nat, sku: SkuId, want: nat)
    requires |e.shards| == SHARDS
    ensures var taken := Reservable(Available(StateOf(e.shards, hash, sku)), want);
      Do(e, hash, OrderStep(sku, want)) == Order(e.(shards := Touch(e.shards, hash, sku)), hash, sku, taken, want)
  {
  }

  ghost function RunFrom(e: Engine, hash: SkuId -> nat, steps: seq<Step>): (r: Engine)
    requires |e.shards| == SHARDS
    ensures |r.shards| == SHARDS
  {
    if steps == [] then e
    else Do(RunFrom(e, hash, steps[..|steps| - 1]), hash, steps[|steps| - 1])
  }

  function NewEngine(): (e: Engine)
    ensures |e.shards| == SHARDS
  {
    Engine(seq(SHARDS, _ => Shard(Store([], map[]), map[])), 0)
  }

  lemma {:induction false} RunFromSnoc(e: Engine, hash: SkuId -> nat, steps: seq<Step>, step: Step)
    requires |e.shards| == SHARDS
    ensures RunFrom(e, hash, steps + [step]) == Do(RunFrom(e, hash, steps), hash, step)
  {
    assert (steps + [step])[..|steps|] == steps;
  }

  lemma {:induction false} RunFromAppend(e: Engine, hash: SkuId -> nat, a: seq<Step>, b: seq<Step>)
    requires |e.shards| == SHARDS
    ensures RunFrom(e, hash, a + b) == RunFrom(RunFrom(e, hash, a), hash, b)
  {
    if b == [] {
      assert a + b == a;
    } else {
      assert (a + b)[..|a + b| - 1] == a + b[..|b| - 1];
      RunFromAppend(e, hash, a, b[..|b| - 1]);
    }
  }

  // ----- The engine -----

  ghost predicate SweepOf(steps: seq<Step>, expired: set<HoldId>) {
    forall i :: 0 <= i < |steps| ==> steps[i].ReleaseStep? && steps[i].hold in expired
  }

  ghost predicate OnlyFills(steps: seq<Step>, sku: SkuId) {
    forall i :: 0 <= i < |steps| ==> steps[i].FillStep? && steps[i].sku == sku
  }

  lemma {:induction false} FewerKeys(m: map<HoldId, nat>, k: HoldId)
    requires k in m
    ensures |m - {k}| < |m|
  {
    assert (m - {k}).Keys == m.Keys - {k};
    assert |m - {k}| == |(m - {k}).Keys| && |m| == |m.Keys|;
  }

  /** Every expired hold that is still there is in `rest`. */
  ghost predicate Listed(shards: seq<Shard>, hash: SkuId -> nat, expired: set<HoldId>, rest: seq<(SkuId, HoldId)>)
    requires |shards| == SHARDS
  {
    forall sku: SkuId, h :: h in StateOf(shards, hash, sku).holds && h in expired ==> (sku, h) in rest
  }

  lemma {:induction false} ReleaseShrinks(e: Engine, hash: SkuId -> nat, sku: SkuId, h: HoldId, expired: set<HoldId>,
      rest: seq<(SkuId, HoldId)>)
    requires |e.shards| == SHARDS && rest != [] && rest[0] == (sku, h) && Listed(e.shards, hash, expired, rest)
    ensures Listed(if h in expired then Do(e, hash, ReleaseStep(sku, h)).shards else e.shards, hash, expired, rest[1..])
  {
    var after := if h in expired then Do(e, hash, ReleaseStep(sku, h)).shards else e.shards;
    forall sku': SkuId, h' | h' in StateOf(after, hash, sku').holds && h' in expired ensures (sku', h') in rest[1..] {
      assert h' in StateOf(e.shards, hash, sku').holds;
      assert (sku', h') in rest && (sku', h') != rest[0];
    }
  }

  /** A sweep took the holds its steps name, each there before and named once, and no other. */
  ghost predicate Swept(before: seq<Shard>, after: seq<Shard>, hash: SkuId -> nat, steps: seq<Step>)
    requires |before| == SHARDS && |after| == SHARDS
  {
    && (forall i :: 0 <= i < |steps| ==>
          steps[i].ReleaseStep? && steps[i].hold in StateOf(before, hash, steps[i].sku).holds)
    && (forall i, k :: 0 <= i < k < |steps| ==> steps[i] != steps[k])
    && (forall sku: SkuId, h ::
          h in StateOf(after, hash, sku).holds
          <==> h in StateOf(before, hash, sku).holds && ReleaseStep(sku, h) !in steps)
  }

  lemma {:induction false} OneMoreSwept(before: seq<Shard>, e: Engine, hash: SkuId -> nat, steps: seq<Step>, sku: SkuId,
      h: HoldId)
    requires |before| == SHARDS && |e.shards| == SHARDS && Swept(before, e.shards, hash, steps)
    ensures h !in StateOf(e.shards, hash, sku).holds ==> Do(e, hash, ReleaseStep(sku, h)) == e
    ensures h in StateOf(e.shards, hash, sku).holds
        ==> Swept(before, Do(e, hash, ReleaseStep(sku, h)).shards, hash, steps + [ReleaseStep(sku, h)])
  {
    if h in StateOf(e.shards, hash, sku).holds {
      var step := ReleaseStep(sku, h);
      var after := Do(e, hash, step).shards;
      forall k: SkuId, g
        ensures g in StateOf(after, hash, k).holds
            <==> g in StateOf(e.shards, hash, k).holds && ReleaseStep(k, g) != step
      {
      }
      assert step !in steps;
    }
  }

  /** A sweep with the candidates in `rest` still to be looked at. */
  ghost predicate SweepSoFar(before: Engine, e: Engine, hash: SkuId -> nat, steps: seq<Step>, expired: set<HoldId>,
      rest: seq<(SkuId, HoldId)>)
    requires |before.shards| == SHARDS && |e.shards| == SHARDS
  {
    && SweepOf(steps, expired) && e == RunFrom(before, hash, steps)
    && Swept(before.shards, e.shards, hash, steps) && Listed(e.shards, hash, expired, rest)
  }

  lemma {:induction false} SweepStep(before: Engine, e: Engine, hash: SkuId -> nat, steps: seq<Step>,
      expired: set<HoldId>, rest: seq<(SkuId, HoldId)>, sku: SkuId, h: HoldId)
    requires |before.shards| == SHARDS && |e.shards| == SHARDS && rest != [] && rest[0] == (sku, h)
    requires SweepSoFar(before, e, hash, steps, expired, rest)
    ensures h !in expired ==> SweepSoFar(before, e, hash, steps, expired, rest[1..])
    ensures h in expired ==>
        var after := Do(e, hash, ReleaseStep(sku, h));
        var gone := h in StateOf(e.shards, hash, sku).holds;
        SweepSoFar(before, after, hash, if gone then steps + [ReleaseStep(sku, h)] else steps, expired, rest[1..])
  {
    ReleaseShrinks(e, hash, sku, h, expired, rest);
    OneMoreSwept(before.shards, e, hash, steps, sku, h);
    RunFromSnoc(before, hash, steps, ReleaseStep(sku, h));
  }

  /**
   * What a fill hands over: the i-th step turned its backorder, none twice, into the hold reported
   * i-th, under the i-th fresh id and with the backorder's quantity.
   */
  ghost predicate HandedOver(before: SkuState, firstId: HoldId, steps: seq<Step>, filled: seq<(HoldId, nat)>) {
    && |filled| == |steps|
    && (forall i :: 0 <= i < |steps| ==>
          && steps[i].FillStep? && steps[i].backorder in before.backorders
          && filled[i] == (firstId + i, before.backorders[steps[i].backorder]))
    && (forall i, k :: 0 <= i < k < |steps| ==> steps[i].backorder != steps[k].backorder)
  }

  ghost predicate Handed(steps: seq<Step>, bo: HoldId) {
    exists i :: 0 <= i < |steps| && steps[i].FillStep? && steps[i].backorder == bo
  }

  /** The SKU after the fills: the filled backorders are gone, their holds have been added, nothing else moved. */
  ghost predicate AfterHandover(before: SkuState, after: SkuState, firstId: HoldId, steps: seq<Step>,
      filled: seq<(HoldId, nat)>) {
    && after.onHand == before.onHand && after.committed == before.committed
    && (forall bo :: bo in after.backorders <==> bo in before.backorders && !Handed(steps, bo))
    && (forall bo :: bo in after.backorders ==> after.backorders[bo] == before.backorders[bo])
    && (forall i :: 0 <= i < |filled| ==>
          filled[i].0 in after.holds && after.holds[filled[i].0] == filled[i].1)
    && (forall h :: h in after.holds <==> h in before.holds || firstId <= h < firstId + |filled|)
    && (forall h :: h in before.holds && h < firstId ==> after.holds[h] == before.holds[h])
  }

  /** After fills of one SKU: what they handed over, and that nothing else moved. */
  ghost predicate FillsDone(before: Engine, after: Engine, hash: SkuId -> nat, sku: SkuId, steps: seq<Step>,
      filled: seq<(HoldId, nat)>)
    requires |before.shards| == SHARDS && |after.shards| == SHARDS
  {
    && HandedOver(StateOf(before.shards, hash, sku), before.nextId, steps, filled)
    && AfterHandover(StateOf(before.shards, hash, sku), StateOf(after.shards, hash, sku), before.nextId, steps, filled)
    && after.nextId == before.nextId + |filled|
    && forall other :: other != sku ==> StateOf(after.shards, hash, other) == StateOf(before.shards, hash, other)
  }

  lemma {:induction false} OneMoreHanded(before: SkuState, st: SkuState, firstId: HoldId, steps: seq<Step>,
      filled: seq<(HoldId, nat)>, sku: SkuId, bo: HoldId)
    requires HandedOver(before, firstId, steps, filled) && AfterHandover(before, st, firstId, steps, filled)
    requires bo in st.backorders
    ensures var more := filled + [(firstId + |steps|, st.backorders[bo])];
      var after := st.(backorders := st.backorders - {bo}, holds := st.holds[firstId + |steps| := st.backorders[bo]]);
      && HandedOver(before, firstId, steps + [FillStep(sku, bo)], more)
      && AfterHandover(before, after, firstId, steps + [FillStep(sku, bo)], more)
  {
    var next := steps + [FillStep(sku, bo)];
    assert next[|steps|] == FillStep(sku, bo);
    forall b ensures Handed(next, b) <==> Handed(steps, b) || b == bo {
      if Handed(steps, b) {
        var i :| 0 <= i < |steps| && steps[i].FillStep? && steps[i].backorder == b;
        assert next[i].backorder == b;
      }
    }
  }

  lemma {:induction false} OneMoreFill(before: Engine, e: Engine, hash: SkuId -> nat, sku: SkuId, steps: seq<Step>,
      filled: seq<(HoldId, nat)>, bo: HoldId)
    requires |before.shards| == SHARDS && |e.shards| == SHARDS && FillsDone(before, e, hash, sku, steps, filled)
    requires var st := StateOf(e.shards, hash, sku);
      bo in st.backorders && Available(st) >= st.backorders[bo]
    ensures var qty := StateOf(e.shards, hash, sku).backorders[bo];
      FillsDone(before, Do(e, hash, FillStep(sku, bo)), hash, sku, steps + [FillStep(sku, bo)],
                filled + [(e.nextId, qty)])
  {
    OneMoreHanded(StateOf(before.shards, hash, sku), StateOf(e.shards, hash, sku), before.nextId, steps, filled, sku,
        bo);
    FillMoves(e, hash, sku, bo);
  }

  lemma {:induction false} FillMoves(e: Engine, hash: SkuId -> nat, sku: SkuId, bo: HoldId)
    requires |e.shards| == SHARDS
    requires var st := StateOf(e.shards, hash, sku);
      bo in st.backorders && Available(st) >= st.backorders[bo]
    ensures var after := Do(e, hash, FillStep(sku, bo));
      var st := StateOf(e.shards, hash, sku);
      && after.nextId == e.nextId + 1
      && StateOf(after.shards, hash, sku)
          == st.(backorders := st.backorders - {bo}, holds := st.holds[e.nextId := st.backorders[bo]])
      && forall other :: other != sku ==> StateOf(after.shards, hash, other) == StateOf(e.shards, hash, other)
  {
    var st := StateOf(e.shards, hash, sku);
    Recorded(e.shards, hash, sku, BackorderFilled(e.nextId, st.backorders[bo]),
             st.(backorders := st.backorders - {bo}, holds := st.holds[e.nextId := st.backorders[bo]]));
  }

  class ReservationEngine {
    const hash: SkuId -> nat
    var shards: seq<Shard>
    var nextId: HoldId

    ghost function State(): Engine
      reads this
    {
      Engine(shards, nextId)
    }

    ghost predicate Valid()
      reads this
    {
      |shards| == SHARDS
    }

    constructor (hash: SkuId -> nat)
      ensures Valid() && this.hash == hash && State() == NewEngine()
    {
      this.hash := hash;
      shards := seq(SHARDS, _ => Shard(Store([], map[]), map[]));
      nextId := 0;
    }

    method Receive(sku: SkuId, qty: int)
      requires Valid()
      modifies this
      ensures Valid() && State() == Do(old(State()), hash, ReceiveStep(sku, qty))
    {
      var st := StateOf(shards, hash, sku);
      shards := Record(shards, hash, sku, Received(qty), st.(onHand := st.onHand + qty));
    }

    method ReturnStock(sku: SkuId, qty: int)
      requires Valid()
      modifies this
      ensures Valid() && State() == Do(old(State()), hash, ReturnStep(sku, qty))
    {
      var st := StateOf(shards, hash, sku);
      shards := Record(shards, hash, sku, Return(qty), st.(onHand := st.onHand + qty));
    }

    method Confirm(sku: SkuId, hold: HoldId) returns (r: Result<(), ReservationError>)
      requires Valid()
      modifies this
      ensures Valid() && State() == Do(old(State()), hash, ConfirmStep(sku, hold))
      ensures r == if hold in StateOf(old(shards), hash, sku).holds then Ok(()) else Err(UnknownHold(hold))
    {
      var i := ShardIndex(hash, sku);
      if sku !in shards[i].states {
        return Err(UnknownHold(hold));
      }
      var st := shards[i].states[sku];
      if hold !in st.holds {
        return Err(UnknownHold(hold));
      }
      shards := Record(shards, hash, sku, Capture(hold),
          st.(holds := st.holds - {hold}, committed := st.committed + st.holds[hold]));
      r := Ok(());
    }

    method ReleaseInternal(sku: SkuId, hold: HoldId) returns (released: bool)
      requires Valid()
      modifies this
      ensures Valid() && State() == Do(old(State()), hash, ReleaseStep(sku, hold))
      ensures released == (hold in StateOf(old(shards), hash, sku).holds)
    {
      var i := ShardIndex(hash, sku);
      if sku !in shards[i].states {
        return false;
      }
      var st := shards[i].states[sku];
      if hold !in st.holds {
        return false;
      }
      shards := Record(shards, hash, sku, Release(hold), st.(holds := st.holds - {hold}));
      released := true;
    }

    method ReleaseHold(sku: SkuId, hold: HoldId) returns (r: Result<(), ReservationError>)
      requires Valid()
      modifies this
      ensures Valid() && State() == Do(old(State()), hash, ReleaseStep(sku, hold))
      ensures r == if hold in StateOf(old(shards), hash, sku).holds then Ok(()) else Err(UnknownHold(hold))
    {
      var released := ReleaseInternal(sku, hold);
      r := if released then Ok(()) else Err(UnknownHold(hold));
    }

    /** The holds of one SKU, in any order. */
    method HoldsOf(sku: SkuId, holds: map<HoldId, nat>) returns (r: seq<(SkuId, HoldId)>)
      ensures forall h :: h in holds ==> (sku, h) in r
    {
      r := [];
      var rest := holds.Keys;
      while rest != {}
        invariant rest <= holds.Keys
        invariant forall h :: h in holds.Keys - rest ==> (sku, h) in r
        decreases |rest|
      {
        var h :| h in rest;
        r := r + [(sku, h)];
        rest := rest - {h};
      }
    }

    /** Every hold of every SKU in one shard, in any order. */
    method HoldsIn(states: map<SkuId, SkuState>) returns (r: seq<(SkuId, HoldId)>)
      ensures forall sku, h :: sku in states && h in states[sku].holds ==> (sku, h) in r
    {
      r := [];
      var rest := states.Keys;
      while rest != {}
        invariant rest <= states.Keys
        invariant forall sku, h :: sku in states.Keys - rest && h in states[sku].holds ==> (sku, h) in r
        decreases |rest|
      {
        var sku :| sku in rest;
        var more := HoldsOf(sku, states[sku].holds);
        r := r + more;
        rest := rest - {sku};
      }
    }

    method Candidates() returns (r: seq<(SkuId, HoldId)>)
      requires Valid()
      ensures forall sku: SkuId, h :: h in StateOf(shards, hash, sku).holds ==> (sku, h) in r
    {
      r := [];
      for i := 0 to |shards|
        invariant forall k, sku, h ::
            0 <= k < i && sku in shards[k].states && h in shards[k].states[sku].holds ==> (sku, h) in r
      {
        var more := HoldsIn(shards[i].states);
        r := r + more;
      }
    }

    /**
     * `expired` is what the cache or the clock says. The sweep is a series of atomic releases of
     * expired holds, and leaves no expired hold.
     */
    method SweepExpired(expired: set<HoldId>) returns (released: nat, ghost steps: seq<Step>)
      requires Valid()
      modifies this
      ensures Valid() && SweepOf(steps, expired) && State() == RunFrom(old(State()), hash, steps)
      ensures forall sku: SkuId, h :: h in StateOf(shards, hash, sku).holds ==> h !in expired
      ensures released == |steps| && Swept(old(shards), shards, hash, steps)
    {
      var candidates := Candidates();
      released, steps := 0, [];
      for i := 0 to |candidates|
        invariant Valid() && released == |steps|
        invariant SweepSoFar(old(State()), State(), hash, steps, expired, candidates[i..])
      {
        var (sku, h) := candidates[i];
        SweepStep(old(State()), State(), hash, steps, expired, candidates[i..], sku, h);
        if h in expired {
          var gone := ReleaseInternal(sku, h);
          if gone {
            steps := steps + [ReleaseStep(sku, h)];
            released := released + 1;
          }
        }
        assert candidates[i..][1..] == candidates[i + 1..];
      }
    }

    method Reserve(sku: SkuId, qty: nat, expired: set<HoldId>)
      returns (r: Result<HoldId, ReservationError>, ghost swept: seq<Step>)
      requires Valid()
      modifies this
      ensures Valid() && SweepOf(swept, expired)
      ensures var before := RunFrom(old(State()), hash, swept);
        && State() == Do(before, hash, ReserveStep(sku, qty))
        && r == (var available := Available(StateOf(before.shards, hash, sku));
                 if available < qty then Err(InsufficientStock(sku, available, qty)) else Ok(before.nextId))
    {
      var count;
      count, swept := SweepExpired(expired);
      var st := StateOf(shards, hash, sku);
      var available := ComputeAvailable(st);
      if available < qty {
        shards := Touch(shards, hash, sku);
        return Err(InsufficientStock(sku, available, qty)), swept;
      }
      var hold := nextId;
      shards, nextId := Record(shards, hash, sku, Hold(hold, qty), st.(holds := st.holds[hold := qty])), nextId + 1;
      r := Ok(hold);
    }

    /** Its two lock sections taken together as one call. */
    method ReserveOrBackorder(sku: SkuId, qty: nat, expired: set<HoldId>)
      returns (reserved: Option<(HoldId, nat)>, backorder: Option<(HoldId, nat)>, ghost swept: seq<Step>)
      requires Valid()
      modifies this
      ensures Valid() && SweepOf(swept, expired)
      ensures var before := RunFrom(old(State()), hash, swept);
        && State() == Do(before, hash, OrderStep(sku, qty))
        && OrderReply(before, hash, sku, qty, reserved, backorder)
    {
      var count;
      count, swept := SweepExpired(expired);
      reserved, backorder := OrderNow(sku, qty);
    }

    method OrderNow(sku: SkuId, qty: nat) returns (reserved: Option<(HoldId, nat)>, backorder: Option<(HoldId, nat)>)
      requires Valid()
      modifies this
      ensures Valid() && State() == Do(old(State()), hash, OrderStep(sku, qty))
      ensures OrderReply(old(State()), hash, sku, qty, reserved, backorder)
    {
      OrderIsWrites(State(), hash, sku, qty);
      var available := ComputeAvailable(StateOf(shards, hash, sku));
      shards := Touch(shards, hash, sku);
      assert State() == old(State()).(shards := Touch(old(State()).shards, hash, sku));
      reserved, backorder := WriteOrder(sku, Reservable(available, qty), qty);
    }

    method WriteOrder(sku: SkuId, taken: nat, qty: nat)
      returns (reserved: Option<(HoldId, nat)>, backorder: Option<(HoldId, nat)>)
      requires Valid() && taken <= qty
      modifies this
      ensures Valid() && State() == Order(old(State()), hash, sku, taken, qty)
      ensures reserved == (if taken > 0 then Some((old(nextId), taken)) else None)
      ensures backorder
          == (if taken < qty then Some((old(nextId) + (if taken > 0 then 1 else 0), qty - taken)) else None)
    {
      reserved, backorder := None, None;
      if taken > 0 {
        var hold := InsertHold(sku, taken);
        reserved := Some((hold, taken));
      }
      if taken < qty {
        var bo := InsertBackorder(sku, qty - taken);
        backorder := Some((bo, qty - taken));
      }
    }

    /** The section that writes a hold without looking at what is available. */
    method InsertHold(sku: SkuId, qty: nat) returns (hold: HoldId)
      requires Valid()
      modifies this
      ensures Valid() && State() == PlaceHold(old(State()), hash, sku, qty) && hold == old(nextId)
    {
      var st := StateOf(shards, hash, sku);
      hold := nextId;
      shards, nextId := Record(shards, hash, sku, Hold(hold, qty), st.(holds := st.holds[hold := qty])), nextId + 1;
    }

    method InsertBackorder(sku: SkuId, qty: nat) returns (bo: HoldId)
      requires Valid()
      modifies this
      ensures Valid() && State() == PlaceBackorder(old(State()), hash, sku, qty) && bo == old(nextId)
    {
      var st := StateOf(shards, hash, sku);
      bo := nextId;
      shards, nextId :=
          Record(shards, hash, sku, BackorderPlaced(bo, qty), st.(backorders := st.backorders[bo := qty])), nextId + 1;
    }

    /** Turns one backorder that fits into a hold. */
    method FillOne(sku: SkuId, bo: HoldId) returns (hold: HoldId)
      requires Valid() && bo in StateOf(shards, hash, sku).backorders
      requires Available(StateOf(shards, hash, sku)) >= StateOf(shards, hash, sku).backorders[bo]
      modifies this
      ensures Valid() && State() == Do(old(State()), hash, FillStep(sku, bo)) && hold == old(nextId)
      ensures StateOf(shards, hash, sku).backorders == old(StateOf(shards, hash, sku).backorders) - {bo}
    {
      var st := StateOf(shards, hash, sku);
      var qty := st.backorders[bo];
      hold := nextId;
      shards, nextId := Record(shards, hash, sku, BackorderFilled(hold, qty),
                               st.(backorders := st.backorders - {bo}, holds := st.holds[hold := qty])), nextId + 1;
    }

    /** Any backorder the pool covers is picked, until none is left that it covers. */
    method FulfillBackordersFor(sku: SkuId) returns (filled: seq<(HoldId, nat)>, ghost steps: seq<Step>)
      requires Valid()
      modifies this
      ensures Valid() && OnlyFills(steps, sku) && State() == RunFrom(old(State()), hash, steps)
      ensures FillsDone(old(State()), State(), hash, sku, steps, filled)
      ensures var st := StateOf(shards, hash, sku);
        forall bo :: bo in st.backorders ==> Available(st) < st.backorders[bo]
    {
      filled, steps := [], [];
      while true
        invariant Valid() && OnlyFills(steps, sku) && State() == RunFrom(old(State()), hash, steps)
        invariant FillsDone(old(State()), State(), hash, sku, steps, filled)
        decreases |StateOf(shards, hash, sku).backorders|
      {
        var picked := FindFitting(sku);
        if picked.None? {
          break;
        }
        var bo := picked.value;
        var qty := StateOf(shards, hash, sku).backorders[bo];
        FewerKeys(StateOf(shards, hash, sku).backorders, bo);
        RunFromSnoc(old(State()), hash, steps, FillStep(sku, bo));
        OneMoreFill(old(State()), State(), hash, sku, steps, filled, bo);
        var hold := FillOne(sku, bo);
        steps := steps + [FillStep(sku, bo)];
        filled := filled + [(hold, qty)];
      }
    }

    /** Some backorder that the pool covers, if there is one. */
    method FindFitting(sku: SkuId) returns (r: Option<HoldId>)
      requires Valid()
      ensures var st := StateOf(shards, hash, sku);
        && (r.Some? ==> r.value in st.backorders && Available(st) >= st.backorders[r.value])
        && (r.None? ==> forall bo :: bo in st.backorders ==> Available(st) < st.backorders[bo])
    {
      var i := ShardIndex(hash, sku);
      if sku !in shards[i].states {
        return None;
      }
      var st := shards[i].states[sku];
      var available := ComputeAvailable(st);
      var fitting := set bo | bo in st.backorders && available >= st.backorders[bo];
      if fitting == {} {
        assert forall bo :: bo in st.backorders ==> bo !in fitting;
        return None;
      }
      var bo :| bo in fitting;
      r := Some(bo);
    }
  }
}
