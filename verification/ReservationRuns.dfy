/** What every interleaving of reservation steps keeps, and what a replay of the log recovers. */
module ReservationRuns {
  import opened Wrappers
  import opened EventStore
  import opened MapTotals
  import opened Reservation

  // ----- Reading an event list -----

  function IdOf(e: ReserveEvent): Option<HoldId> {
    match e
    case Received(_) => None
    case Return(_) => None
    case Hold(h, _) => Some(h)
    case Capture(h) => Some(h)
    case Release(h) => Some(h)
    case BackorderPlaced(h, _) => Some(h)
    case BackorderFilled(h, _) => Some(h)
  }

  /** The quantity with which hold `h` was created, if it was. */
  function Placed(evs: seq<ReserveEvent>, h: HoldId): Option<nat> {
    if evs == [] then None
    else
      var e := evs[|evs| - 1];
      if e.Hold? && e.reservation == h then Some(e.held)
      else if e.BackorderFilled? && e.reservation == h then Some(e.filled)
      else Placed(evs[..|evs| - 1], h)
  }

  /** How often hold `h` was captured or released. */
  function Closings(evs: seq<ReserveEvent>, h: HoldId): nat {
    if evs == [] then 0
    else
      var e := evs[|evs| - 1];
      Closings(evs[..|evs| - 1], h) + if (e.Capture? || e.Release?) && e.reservation == h then 1 else 0
  }

  /** The quantities of the captured holds, added up. */
  function CapturedTotal(evs: seq<ReserveEvent>): int {
    if evs == [] then 0
    else
      var front, e := evs[..|evs| - 1], evs[|evs| - 1];
      CapturedTotal(front)
          + if e.Capture? && Placed(front, e.reservation).Some? then Placed(front, e.reservation).value else 0
  }

  /** Units received and returned. */
  function StockIn(evs: seq<ReserveEvent>): int {
    if evs == [] then 0
    else
      var e := evs[|evs| - 1];
      StockIn(evs[..|evs| - 1]) + match e { case Received(q) => q case Return(q) => q case _ => 0 }
  }

  function Fills(evs: seq<ReserveEvent>): nat {
    if evs == [] then 0 else Fills(evs[..|evs| - 1]) + if evs[|evs| - 1].BackorderFilled? then 1 else 0
  }

  // ----- The projection -----

  /** One event folded into a SKU's state, as the read model does it. */
  function Project(st: SkuState, e: ReserveEvent): SkuState {
    match e
    case Received(q) => st.(onHand := st.onHand + q)
    case Hold(h, q) => st.(holds := st.holds[h := q])
    case Capture(h) =>
      if h in st.holds then st.(holds := st.holds - {h}, committed := st.committed + st.holds[h]) else st
    case Release(h) => st.(holds := st.holds - {h})
    case BackorderPlaced(h, q) => st.(backorders := st.backorders[h := q])
    case BackorderFilled(h, _) =>
      if h in st.backorders then st.(backorders := st.backorders - {h}, holds := st.holds[h := st.backorders[h]])
      else st
    case Return(q) => st.(onHand := st.onHand + q)
  }

  function Fold(evs: seq<ReserveEvent>): SkuState {
    if evs == [] then NoStock() else Project(Fold(evs[..|evs| - 1]), evs[|evs| - 1])
  }

  type Log = seq<StoredEvent<SkuId, ReserveEvent>>

  /** The projection over a whole log, one map entry per SKU. */
  function ReplayStates(log: Log): map<SkuId, SkuState> {
    if log == [] then map[]
    else
      var states, e := ReplayStates(log[..|log| - 1]), log[|log| - 1];
      states[e.aggregate := Project(StateIn(states, e.aggregate), e.payload)]
  }

  function AllEvents(shards: seq<Shard>): Log {
    if shards == [] then [] else shards[0].store.log + AllEvents(shards[1..])
  }

  /** `rebuild_read_models`: the projector run over the shard logs one after the other. */
  method Rebuild(shards: seq<Shard>) returns (states: map<SkuId, SkuState>)
    ensures states == ReplayStates(AllEvents(shards))
  {
    var all := CollectEvents(shards);
    states := map[];
    for i := 0 to |all|
      invariant states == ReplayStates(all[..i])
    {
      assert all[..i + 1][..i] == all[..i];
      var e := all[i];
      states := states[e.aggregate := Project(StateIn(states, e.aggregate), e.payload)];
    }
    assert all[..|all|] == all;
  }

  /** One shard's log moves from what is still to be read to what has been. */
  lemma {:induction false} EventsStep(shards: seq<Shard>, i: nat, done: Log)
    requires i < |shards|
    ensures (done + shards[i].store.log) + AllEvents(shards[i + 1..]) == done + AllEvents(shards[i..])
  {
    assert shards[i..][1..] == shards[i + 1..];
  }

  method CollectEvents(shards: seq<Shard>) returns (all: Log)
    ensures all == AllEvents(shards)
  {
    all := [];
    for i := 0 to |shards|
      invariant all + AllEvents(shards[i..]) == AllEvents(shards)
    {
      EventsStep(shards, i, all);
      all := all + shards[i].store.log;
    }
    assert shards[|shards|..] == [] && all + [] == all;
  }

  function EventsOf(log: Log, sku: SkuId): seq<ReserveEvent> {
    Payloads(Stream(log, sku))
  }

  lemma {:induction false} EventsSnoc(log: Log, e: StoredEvent<SkuId, ReserveEvent>, sku: SkuId)
    ensures EventsOf(log + [e], sku)
        == if e.aggregate == sku then EventsOf(log, sku) + [e.payload] else EventsOf(log, sku)
  {
    assert (log + [e])[..|log|] == log;
    assert Stream(log, sku) + [] == Stream(log, sku);
  }

  lemma {:induction false} ReplayStateIn(log: Log, sku: SkuId)
    ensures StateIn(ReplayStates(log), sku) == Fold(EventsOf(log, sku))
  {
    if log != [] {
      var n := |log| - 1;
      ReplayStateIn(log[..n], sku);
      EventsSnoc(log[..n], log[n], sku);
      assert log == log[..n] + [log[n]];
      if log[n].aggregate == sku {
        var evs := EventsOf(log[..n], sku);
        assert (evs + [log[n].payload])[..|evs|] == evs;
      }
    }
  }

  lemma {:induction false} StreamAppend(a: Log, b: Log, sku: SkuId)
    ensures EventsOf(a + b, sku) == EventsOf(a, sku) + EventsOf(b, sku)
  {
    if b == [] {
      assert a + b == a;
    } else {
      var n := |b| - 1;
      StreamAppend(a, b[..n], sku);
      assert a + b == (a + b[..n]) + [b[n]] && b == b[..n] + [b[n]];
      EventsSnoc(a + b[..n], b[n], sku);
      EventsSnoc(b[..n], b[n], sku);
    }
  }

  lemma {:induction false} NoEvents(log: Log, sku: SkuId)
    requires forall k :: 0 <= k < |log| ==> log[k].aggregate != sku
    ensures EventsOf(log, sku) == []
  {
    if log != [] {
      NoEvents(log[..|log| - 1], sku);
    }
  }

  // ----- The invariant of one SKU -----

  ghost predicate IdsBelow(st: SkuState, evs: seq<ReserveEvent>, n: HoldId) {
    && (forall h :: h in st.holds ==> h < n)
    && (forall h :: h in st.backorders ==> h < n)
    && (forall h :: h in Fold(evs).backorders ==> h < n)
    && (forall k :: 0 <= k < |evs| ==> IdOf(evs[k]).Some? ==> IdOf(evs[k]).value < n)
  }

  ghost predicate HoldOk(st: SkuState, evs: seq<ReserveEvent>, h: HoldId) {
    && (h in st.holds <==> Placed(evs, h).Some? && Closings(evs, h) == 0)
    && (h in st.holds ==> st.holds[h] == Placed(evs, h).value)
    && Closings(evs, h) <= 1
    && (Closings(evs, h) > 0 ==> Placed(evs, h).Some?)
  }

  /** The replayed state against the live one: the same, until a fill leaves a backorder behind. */
  ghost predicate ReplayOk(st: SkuState, evs: seq<ReserveEvent>) {
    var r := Fold(evs);
    && r.onHand == st.onHand
    && (Fills(evs) == 0 ==> r == st)
    && (Fills(evs) > 0 ==> exists b :: LeftBehind(st, r, b))
    && (forall b :: b in st.backorders ==> b in r.backorders && r.backorders[b] == st.backorders[b])
  }

  ghost predicate LeftBehind(live: SkuState, rebuilt: SkuState, b: HoldId) {
    b in rebuilt.backorders && b !in live.backorders
  }

  /** When every fill took a backorder that was there, each left one behind. */
  ghost predicate FillsCounted(st: SkuState, evs: seq<ReserveEvent>) {
    |Fold(evs).backorders| == |st.backorders| + Fills(evs)
  }

  ghost predicate SkuOk(st: SkuState, evs: seq<ReserveEvent>, n: HoldId) {
    && IdsBelow(st, evs, n)
    && (forall h :: HoldOk(st, evs, h))
    && st.committed == CapturedTotal(evs)
    && st.onHand == StockIn(evs)
    && ReplayOk(st, evs)
  }

  lemma {:induction false} FreshId(evs: seq<ReserveEvent>, h: HoldId)
    requires forall k :: 0 <= k < |evs| ==> IdOf(evs[k]) != Some(h)
    ensures Placed(evs, h).None? && Closings(evs, h) == 0
  {
    if evs != [] { FreshId(evs[..|evs| - 1], h); }
  }

  lemma {:induction false} HoldsUntouched(st: SkuState, evs: seq<ReserveEvent>, e: ReserveEvent, next: SkuState)
    requires (forall h :: HoldOk(st, evs, h)) && next.holds == st.holds
    requires e.Received? || e.Return? || e.BackorderPlaced?
    ensures forall h :: HoldOk(next, evs + [e], h)
  {
    assert (evs + [e])[..|evs|] == evs;
    forall h ensures HoldOk(next, evs + [e], h) { assert HoldOk(st, evs, h); }
  }

  /** A hold created under a fresh id, by a reservation or by a fill. */
  lemma {:induction false} HoldCreated(st: SkuState, evs: seq<ReserveEvent>, n: HoldId, e: ReserveEvent, qty: nat,
      next: SkuState)
    requires (forall h :: HoldOk(st, evs, h)) && next.holds == st.holds[n := qty]
    requires forall k :: 0 <= k < |evs| ==> IdOf(evs[k]) != Some(n)
    requires e == Hold(n, qty) || e == BackorderFilled(n, qty)
    ensures forall h :: HoldOk(next, evs + [e], h)
  {
    assert (evs + [e])[..|evs|] == evs;
    FreshId(evs, n);
    forall h ensures HoldOk(next, evs + [e], h) { assert HoldOk(st, evs, h); }
  }

  lemma {:induction false} HoldClosed(st: SkuState, evs: seq<ReserveEvent>, h: HoldId, e: ReserveEvent, next: SkuState)
    requires (forall g :: HoldOk(st, evs, g)) && h in st.holds && next.holds == st.holds - {h}
    requires e == Capture(h) || e == Release(h)
    ensures forall g :: HoldOk(next, evs + [e], g)
    ensures CapturedTotal(evs + [e]) == CapturedTotal(evs) + if e.Capture? then st.holds[h] else 0
  {
    assert (evs + [e])[..|evs|] == evs;
    assert HoldOk(st, evs, h);
    forall g ensures HoldOk(next, evs + [e], g) { assert HoldOk(st, evs, g); }
  }

  /** Away from fills the projection does to its state what the engine does to the live one. */
  lemma {:induction false} ReplayFollows(st: SkuState, evs: seq<ReserveEvent>, e: ReserveEvent)
    requires ReplayOk(st, evs) && !e.BackorderFilled?
    requires e.BackorderPlaced? ==> e.reservation !in st.backorders && e.reservation !in Fold(evs).backorders
    ensures ReplayOk(Project(st, e), evs + [e])
    ensures e.BackorderPlaced? || Fold(evs + [e]).backorders == Fold(evs).backorders
    ensures e.BackorderPlaced? ==> Fold(evs + [e]).backorders == Fold(evs).backorders[e.reservation := e.short]
  {
    FoldSnoc(evs, e);
    if Fills(evs) > 0 {
      var b :| LeftBehind(st, Fold(evs), b);
      assert LeftBehind(Project(st, e), Fold(evs + [e]), b);
    }
  }

  lemma {:induction false} FoldSnoc(evs: seq<ReserveEvent>, e: ReserveEvent)
    ensures Fold(evs + [e]) == Project(Fold(evs), e)
    ensures Fills(evs + [e]) == Fills(evs) + if e.BackorderFilled? then 1 else 0
  {
    assert (evs + [e])[..|evs|] == evs;
  }

  /** The pieces of the invariant after one more event. */
  lemma {:induction false} SkuSnoc(st: SkuState, evs: seq<ReserveEvent>, n: HoldId, e: ReserveEvent, next: SkuState,
      m: HoldId)
    requires SkuOk(st, evs, n) && n <= m && (IdOf(e).Some? ==> IdOf(e).value < m)
    requires (forall h :: h in next.holds ==> h < m) && (forall h :: h in next.backorders ==> h < m)
    requires forall h :: h in Fold(evs + [e]).backorders ==> h < m
    requires forall h :: HoldOk(next, evs + [e], h)
    requires next.committed == CapturedTotal(evs + [e]) && next.onHand == StockIn(evs + [e])
    requires ReplayOk(next, evs + [e])
    ensures SkuOk(next, evs + [e], m)
  {
  }

  /** The projection looks for a backorder under the new hold's id and finds none. */
  lemma {:induction false} ReplayMissesFill(st: SkuState, evs: seq<ReserveEvent>, n: HoldId, b: HoldId, qty: nat,
      next: SkuState)
    requires ReplayOk(st, evs) && (b in st.backorders || Fills(evs) > 0) && n !in Fold(evs).backorders
    requires next == st.(backorders := st.backorders - {b}, holds := st.holds[n := qty])
    ensures Fold(evs + [BackorderFilled(n, qty)]) == Fold(evs)
    ensures ReplayOk(next, evs + [BackorderFilled(n, qty)])
  {
    var e := BackorderFilled(n, qty);
    FoldSnoc(evs, e);
    if b in st.backorders {
      assert LeftBehind(next, Fold(evs + [e]), b);
    } else {
      var lost :| LeftBehind(st, Fold(evs), lost);
      assert LeftBehind(next, Fold(evs + [e]), lost);
    }
  }

  lemma {:induction false} StockArrives(st: SkuState, evs: seq<ReserveEvent>, n: HoldId, e: ReserveEvent)
    requires SkuOk(st, evs, n) && (e.Received? || e.Return?)
    ensures SkuOk(st.(onHand := st.onHand + e.qty), evs + [e], n)
  {
    assert (evs + [e])[..|evs|] == evs;
    HoldsUntouched(st, evs, e, st.(onHand := st.onHand + e.qty));
    ReplayFollows(st, evs, e);
  }

  lemma {:induction false} HoldPlaced(st: SkuState, evs: seq<ReserveEvent>, n: HoldId, qty: nat)
    requires SkuOk(st, evs, n)
    ensures SkuOk(st.(holds := st.holds[n := qty]), evs + [Hold(n, qty)], n + 1)
  {
    var e := Hold(n, qty);
    var next := st.(holds := st.holds[n := qty]);
    assert StockIn(evs + [e]) == StockIn(evs) && CapturedTotal(evs + [e]) == CapturedTotal(evs) by {
      assert (evs + [e])[..|evs|] == evs;
    }
    TotalInsert(st.holds, n, qty);
    HoldCreated(st, evs, n, e, qty, next);
    ReplayFollows(st, evs, e);
    SkuSnoc(st, evs, n, e, next, n + 1);
  }

  lemma {:induction false} HoldCaptured(st: SkuState, evs: seq<ReserveEvent>, n: HoldId, h: HoldId)
    requires SkuOk(st, evs, n) && h in st.holds
    ensures SkuOk(st.(holds := st.holds - {h}, committed := st.committed + st.holds[h]), evs + [Capture(h)], n)
  {
    var e := Capture(h);
    var next := st.(holds := st.holds - {h}, committed := st.committed + st.holds[h]);
    assert next == Project(st, e) && IdOf(e) == Some(h);
    assert StockIn(evs + [e]) == StockIn(evs) by { assert (evs + [e])[..|evs|] == evs; }
    TotalRemove(st.holds, h);
    HoldClosed(st, evs, h, e, next);
    ReplayFollows(st, evs, e);
    SkuSnoc(st, evs, n, e, next, n);
  }

  lemma {:induction false} HoldReleased(st: SkuState, evs: seq<ReserveEvent>, n: HoldId, h: HoldId)
    requires SkuOk(st, evs, n) && h in st.holds
    ensures SkuOk(st.(holds := st.holds - {h}), evs + [Release(h)], n)
  {
    var e := Release(h);
    var next := st.(holds := st.holds - {h});
    assert next == Project(st, e) && IdOf(e) == Some(h);
    assert StockIn(evs + [e]) == StockIn(evs) by { assert (evs + [e])[..|evs|] == evs; }
    TotalRemove(st.holds, h);
    HoldClosed(st, evs, h, e, next);
    ReplayFollows(st, evs, e);
    SkuSnoc(st, evs, n, e, next, n);
  }

  lemma {:induction false} BackorderAdded(st: SkuState, evs: seq<ReserveEvent>, n: HoldId, qty: nat)
    requires SkuOk(st, evs, n)
    ensures SkuOk(st.(backorders := st.backorders[n := qty]), evs + [BackorderPlaced(n, qty)], n + 1)
  {
    var e := BackorderPlaced(n, qty);
    assert (evs + [e])[..|evs|] == evs;
    HoldsUntouched(st, evs, e, Project(st, e));
    ReplayFollows(st, evs, e);
  }

  /** A fill, of a backorder that is there or of one that an earlier fill removed. */
  lemma {:induction false} BackorderTurned(st: SkuState, evs: seq<ReserveEvent>, n: HoldId, b: HoldId, qty: nat)
    requires SkuOk(st, evs, n) && (b in st.backorders || Fills(evs) > 0)
    ensures SkuOk(st.(backorders := st.backorders - {b}, holds := st.holds[n := qty]), evs
        + [BackorderFilled(n, qty)], n + 1)
  {
    var e := BackorderFilled(n, qty);
    var next := st.(backorders := st.backorders - {b}, holds := st.holds[n := qty]);
    assert StockIn(evs + [e]) == StockIn(evs) && CapturedTotal(evs + [e]) == CapturedTotal(evs) by {
      assert (evs + [e])[..|evs|] == evs;
    }
    TotalInsert(st.holds, n, qty);
    HoldCreated(st, evs, n, e, qty, next);
    ReplayMissesFill(st, evs, n, b, qty, next);
    SkuSnoc(st, evs, n, e, next, n + 1);
  }

  lemma {:induction false} LaterIds(st: SkuState, evs: seq<ReserveEvent>, n: HoldId, m: HoldId)
    requires SkuOk(st, evs, n) && n <= m
    ensures SkuOk(st, evs, m)
  {}

  // ----- The invariant of the engine -----

  function SkuEvents(shards: seq<Shard>, hash: SkuId -> nat, sku: SkuId): seq<ReserveEvent>
    requires |shards| == SHARDS
  {
    EventsOf(shards[ShardIndex(hash, sku)].store.log, sku)
  }

  ghost predicate HomeOnly(shards: seq<Shard>, hash: SkuId -> nat) {
    forall i, k ::
        0 <= i < |shards| && 0 <= k < |shards[i].store.log| ==> ShardIndex(hash, shards[i].store.log[k].aggregate) == i
  }

  ghost predicate EngineOk(e: Engine, hash: SkuId -> nat) {
    && |e.shards| == SHARDS
    && HomeOnly(e.shards, hash)
    && forall sku :: SkuOk(StateOf(e.shards, hash, sku), SkuEvents(e.shards, hash, sku), e.nextId)
  }

  lemma {:induction false} RecordedEvents(shards: seq<Shard>, hash: SkuId -> nat, sku: SkuId, ev: ReserveEvent,
      st: SkuState, other: SkuId)
    requires |shards| == SHARDS
    ensures var after := Record(shards, hash, sku, ev, st);
      && SkuEvents(after, hash, other)
          == (if other == sku then SkuEvents(shards, hash, sku) + [ev] else SkuEvents(shards, hash, other))
      && (other != sku ==> StateOf(after, hash, other) == StateOf(shards, hash, other))
  {
    var i := ShardIndex(hash, sku);
    var stored := StoredEvent(sku, Version(shards[i].store, sku) + 1, ev);
    assert Record(shards, hash, sku, ev, st)[i].store.log == shards[i].store.log + [stored];
    EventsSnoc(shards[i].store.log, stored, other);
  }

  lemma {:induction false} RecordChanges(shards: seq<Shard>, hash: SkuId -> nat, sku: SkuId, ev: ReserveEvent,
      st: SkuState)
    requires |shards| == SHARDS && HomeOnly(shards, hash)
    ensures var after := Record(shards, hash, sku, ev, st);
      && HomeOnly(after, hash)
      && StateOf(after, hash, sku) == st
      && SkuEvents(after, hash, sku) == SkuEvents(shards, hash, sku) + [ev]
      && forall other :: other != sku ==> StateOf(after, hash, other) == StateOf(shards, hash, other)
                                          && SkuEvents(after, hash, other) == SkuEvents(shards, hash, other)
  {
    var after := Record(shards, hash, sku, ev, st);
    forall other
      ensures SkuEvents(after, hash, other)
          == if other == sku then SkuEvents(shards, hash, sku) + [ev] else SkuEvents(shards, hash, other)
      ensures other != sku ==> StateOf(after, hash, other) == StateOf(shards, hash, other)
    {
      RecordedEvents(shards, hash, sku, ev, st, other);
    }
  }

  lemma {:induction false} RecordKeeps(e: Engine, hash: SkuId -> nat, sku: SkuId, ev: ReserveEvent, st: SkuState,
      n: HoldId)
    requires EngineOk(e, hash) && e.nextId <= n
    requires SkuOk(st, SkuEvents(e.shards, hash, sku) + [ev], n)
    ensures EngineOk(Engine(Record(e.shards, hash, sku, ev, st), n), hash)
  {
    var shards := Record(e.shards, hash, sku, ev, st);
    RecordChanges(e.shards, hash, sku, ev, st);
    forall other ensures SkuOk(StateOf(shards, hash, other), SkuEvents(shards, hash, other), n) {
      if other != sku {
        LaterIds(StateOf(e.shards, hash, other), SkuEvents(e.shards, hash, other), e.nextId, n);
      }
    }
  }

  lemma {:induction false} TouchKeeps(e: Engine, hash: SkuId -> nat, sku: SkuId)
    requires EngineOk(e, hash)
    ensures EngineOk(e.(shards := Touch(e.shards, hash, sku)), hash)
    ensures StateOf(Touch(e.shards, hash, sku), hash, sku) == StateOf(e.shards, hash, sku)
    ensures SkuEvents(Touch(e.shards, hash, sku), hash, sku) == SkuEvents(e.shards, hash, sku)
  {
    var shards := Touch(e.shards, hash, sku);
    forall other ensures SkuOk(StateOf(shards, hash, other), SkuEvents(shards, hash, other), e.nextId) {
      assert SkuOk(StateOf(e.shards, hash, other), SkuEvents(e.shards, hash, other), e.nextId);
      assert StateOf(shards, hash, other) == StateOf(e.shards, hash, other);
      assert SkuEvents(shards, hash, other) == SkuEvents(e.shards, hash, other);
    }
  }

  lemma {:induction false} PlaceHoldKeeps(e: Engine, hash: SkuId -> nat, sku: SkuId, qty: nat)
    requires EngineOk(e, hash)
    ensures EngineOk(PlaceHold(e, hash, sku, qty), hash)
  {
    var st := StateOf(e.shards, hash, sku);
    HoldPlaced(st, SkuEvents(e.shards, hash, sku), e.nextId, qty);
    RecordKeeps(e, hash, sku, Hold(e.nextId, qty), st.(holds := st.holds[e.nextId := qty]), e.nextId + 1);
  }

  lemma {:induction false} PlaceBackorderKeeps(e: Engine, hash: SkuId -> nat, sku: SkuId, qty: nat)
    requires EngineOk(e, hash)
    ensures EngineOk(PlaceBackorder(e, hash, sku, qty), hash)
  {
    var st := StateOf(e.shards, hash, sku);
    BackorderAdded(st, SkuEvents(e.shards, hash, sku), e.nextId, qty);
    RecordKeeps(e, hash, sku, BackorderPlaced(e.nextId, qty), st.(backorders := st.backorders[e.nextId := qty]),
        e.nextId + 1);
  }

  lemma {:induction false} RestKeeps(e: Engine, hash: SkuId -> nat, sku: SkuId, short: nat, after: Engine)
    requires EngineOk(e, hash) && after == if short > 0 then PlaceBackorder(e, hash, sku, short) else e
    ensures EngineOk(after, hash)
  {
    if short > 0 { PlaceBackorderKeeps(e, hash, sku, short); }
  }

  lemma {:induction false} OrderKeeps(e: Engine, hash: SkuId -> nat, sku: SkuId, taken: nat, want: nat)
    requires EngineOk(e, hash) && taken <= want
    ensures EngineOk(Order(e, hash, sku, taken, want), hash)
  {
    if taken > 0 {
      PlaceHoldKeeps(e, hash, sku, taken);
      RestKeeps(PlaceHold(e, hash, sku, taken), hash, sku, want - taken, Order(e, hash, sku, taken, want));
    } else {
      RestKeeps(e, hash, sku, want, Order(e, hash, sku, taken, want));
    }
  }

  lemma {:induction false} ConfirmKeeps(st: SkuState, evs: seq<ReserveEvent>, n: HoldId, step: Step)
    requires SkuOk(st, evs, n) && step.ConfirmStep? && Transition(st, n, step).Some?
    ensures var (event, next, id) := Transition(st, n, step).value; id == n && SkuOk(next, evs + [event], id)
  {
    HoldCaptured(st, evs, n, step.hold);
  }

  lemma {:induction false} FillKeeps(st: SkuState, evs: seq<ReserveEvent>, n: HoldId, step: Step)
    requires SkuOk(st, evs, n) && step.FillStep? && Transition(st, n, step).Some?
    ensures var (event, next, id) := Transition(st, n, step).value; id == n + 1 && SkuOk(next, evs + [event], id)
  {
    BackorderTurned(st, evs, n, step.backorder, st.backorders[step.backorder]);
  }

  lemma {:induction false} StockKeeps(st: SkuState, evs: seq<ReserveEvent>, n: HoldId, step: Step)
    requires SkuOk(st, evs, n) && (step.ReceiveStep? || step.ReturnStep?)
    ensures var (event, next, id) := Transition(st, n, step).value; id == n && SkuOk(next, evs + [event], id)
  {
    StockArrives(st, evs, n, Transition(st, n, step).value.0);
  }

  lemma {:induction false} TransitionKeeps(st: SkuState, evs: seq<ReserveEvent>, n: HoldId, step: Step)
    requires SkuOk(st, evs, n) && Transition(st, n, step).Some?
    ensures var (event, next, id) := Transition(st, n, step).value; n <= id && SkuOk(next, evs + [event], id)
  {
    match step
    case ReceiveStep(_, _) => StockKeeps(st, evs, n, step);
    case ReturnStep(_, _) => StockKeeps(st, evs, n, step);
    case ReserveStep(_, want) => HoldPlaced(st, evs, n, want);
    case ConfirmStep(_, _) => ConfirmKeeps(st, evs, n, step);
    case ReleaseStep(_, hold) => HoldReleased(st, evs, n, hold);
    case FillStep(_, _) => FillKeeps(st, evs, n, step);
  }

  lemma {:induction false} OrderStepKeeps(e: Engine, hash: SkuId -> nat, sku: SkuId, want: nat)
    requires EngineOk(e, hash)
    ensures var available := Available(StateOf(e.shards, hash, sku));
      EngineOk(Order(e.(shards := Touch(e.shards, hash, sku)), hash, sku, Reservable(available, want), want), hash)
  {
    var available := Available(StateOf(e.shards, hash, sku));
    TouchKeeps(e, hash, sku);
    OrderKeeps(e.(shards := Touch(e.shards, hash, sku)), hash, sku, Reservable(available, want), want);
  }

  lemma {:induction false} StepKeeps(e: Engine, hash: SkuId -> nat, step: Step)
    requires EngineOk(e, hash)
    ensures EngineOk(Do(e, hash, step), hash)
  {
    var st, evs := StateOf(e.shards, hash, step.sku), SkuEvents(e.shards, hash, step.sku);
    match Transition(st, e.nextId, step)
    case Some((event, next, id)) =>
      TransitionKeeps(st, evs, e.nextId, step);
      RecordKeeps(e, hash, step.sku, event, next, id);
    case None =>
      if step.ReserveStep? { TouchKeeps(e, hash, step.sku); }
      else if step.OrderStep? { OrderStepKeeps(e, hash, step.sku, step.want); }
  }

  lemma {:induction false} EmptyOk()
    ensures SkuOk(NoStock(), [], 0)
  {
    forall h ensures HoldOk(NoStock(), [], h) {}
  }

  lemma {:induction false} NewEngineOk(hash: SkuId -> nat)
    ensures EngineOk(NewEngine(), hash)
  {
    var e := NewEngine();
    EmptyOk();
    forall sku ensures SkuOk(StateOf(e.shards, hash, sku), SkuEvents(e.shards, hash, sku), e.nextId) {
      assert e.shards[ShardIndex(hash, sku)] == Shard(Store([], map[]), map[]);
      assert SkuEvents(e.shards, hash, sku) == [] && StateOf(e.shards, hash, sku) == NoStock();
    }
  }

  /** The invariant holds after every run, whatever its quantities. */
  lemma {:induction false} RunKeeps(hash: SkuId -> nat, steps: seq<Step>)
    ensures EngineOk(RunFrom(NewEngine(), hash, steps), hash)
  {
    if steps == [] {
      NewEngineOk(hash);
    } else {
      RunKeeps(hash, steps[..|steps| - 1]);
      StepKeeps(RunFrom(NewEngine(), hash, steps[..|steps| - 1]), hash, steps[|steps| - 1]);
    }
  }

  // ----- The main results -----

  /**
   * Over every run: committed stock is exactly what was captured, stock on hand what came in, a
   * hold is there exactly while it is placed and not closed, and none is closed twice.
   */
  lemma {:induction false} HoldsAccounted(hash: SkuId -> nat, steps: seq<Step>, sku: SkuId)
    ensures var e := RunFrom(NewEngine(), hash, steps);
      Accounted(StateOf(e.shards, hash, sku), SkuEvents(e.shards, hash, sku))
  {
    RunKeeps(hash, steps);
    var e := RunFrom(NewEngine(), hash, steps);
    OkIsAccounted(StateOf(e.shards, hash, sku), SkuEvents(e.shards, hash, sku), e.nextId);
  }

  ghost predicate Accounted(st: SkuState, evs: seq<ReserveEvent>) {
    && st.committed == CapturedTotal(evs) && st.onHand == StockIn(evs)
    && StockIn(evs) == Available(st) + st.committed + Total(st.holds)
    && (forall h :: Closings(evs, h) <= 1)
    && (forall h :: h in st.holds <==> Placed(evs, h).Some? && Closings(evs, h) == 0)
    && (forall h :: h in st.holds ==> Some(st.holds[h]) == Placed(evs, h))
  }

  lemma {:induction false} OkIsAccounted(st: SkuState, evs: seq<ReserveEvent>, n: HoldId)
    requires SkuOk(st, evs, n)
    ensures Accounted(st, evs)
  {
    forall h
      ensures Closings(evs, h) <= 1 && (h in st.holds <==> Placed(evs, h).Some? && Closings(evs, h) == 0)
      ensures h in st.holds ==> Some(st.holds[h]) == Placed(evs, h)
    {
      assert HoldOk(st, evs, h);
    }
  }

  // ----- Never oversold -----

  /** What a receipt or return brings to the SKU, less than nothing if its quantity is negative. */
  function Brings(step: Step, sku: SkuId): int {
    match step
    case ReceiveStep(k, qty) => if k == sku then qty else 0
    case ReturnStep(k, qty) => if k == sku then qty else 0
    case _ => 0
  }

  lemma {:induction false} HoldLeaves(e: Engine, hash: SkuId -> nat, k: SkuId, qty: nat, sku: SkuId)
    requires |e.shards| == SHARDS && e.nextId !in StateOf(e.shards, hash, k).holds
    ensures Available(StateOf(PlaceHold(e, hash, k, qty).shards, hash, sku))
         == Available(StateOf(e.shards, hash, sku)) - if k == sku then qty else 0
  {
    var st := StateOf(e.shards, hash, k);
    Recorded(e.shards, hash, k, Hold(e.nextId, qty), st.(holds := st.holds[e.nextId := qty]));
    TotalInsert(st.holds, e.nextId, qty);
  }

  lemma {:induction false} BackorderLeaves(e: Engine, hash: SkuId -> nat, k: SkuId, qty: nat, sku: SkuId)
    requires |e.shards| == SHARDS
    ensures Available(StateOf(PlaceBackorder(e, hash, k, qty).shards, hash, sku))
        == Available(StateOf(e.shards, hash, sku))
  {
    var st := StateOf(e.shards, hash, k);
    Recorded(e.shards, hash, k, BackorderPlaced(e.nextId, qty), st.(backorders := st.backorders[e.nextId := qty]));
  }

  lemma {:induction false} RestLeaves(e: Engine, hash: SkuId -> nat, k: SkuId, short: nat, sku: SkuId, after: Engine)
    requires |e.shards| == SHARDS && after == if short > 0 then PlaceBackorder(e, hash, k, short) else e
    ensures Available(StateOf(after.shards, hash, sku)) == Available(StateOf(e.shards, hash, sku))
  {
    if short > 0 { BackorderLeaves(e, hash, k, short, sku); }
  }

  lemma {:induction false} WritesLeave(e: Engine, hash: SkuId -> nat, k: SkuId, taken: nat, want: nat, sku: SkuId)
    requires |e.shards| == SHARDS && e.nextId !in StateOf(e.shards, hash, k).holds && taken <= want
    ensures Available(StateOf(Order(e, hash, k, taken, want).shards, hash, sku))
         == Available(StateOf(e.shards, hash, sku)) - if k == sku then taken else 0
  {
    if taken > 0 {
      HoldLeaves(e, hash, k, taken, sku);
      RestLeaves(PlaceHold(e, hash, k, taken), hash, k, want - taken, sku, Order(e, hash, k, taken, want));
    } else {
      RestLeaves(e, hash, k, want, sku, Order(e, hash, k, taken, want));
    }
  }

  lemma {:induction false} OrderLeaves(e: Engine, hash: SkuId -> nat, k: SkuId, want: nat, sku: SkuId)
    requires |e.shards| == SHARDS && e.nextId !in StateOf(e.shards, hash, k).holds
    ensures Available(StateOf(Do(e, hash, OrderStep(k, want)).shards, hash, sku))
         == Available(StateOf(e.shards, hash, sku))
             - if k == sku then Reservable(Available(StateOf(e.shards, hash, k)), want) else 0
  {
    Touched(e.shards, hash, k);
    WritesLeave(e.(shards := Touch(e.shards, hash, k)), hash, k,
        Reservable(Available(StateOf(e.shards, hash, k)), want), want, sku);
  }

  lemma {:induction false} TransitionLeaves(st: SkuState, n: HoldId, step: Step)
    requires n !in st.holds && Available(st) >= 0 && Transition(st, n, step).Some?
    ensures Available(Transition(st, n, step).value.1) >= 0 <==> Available(st) + Brings(step, step.sku) >= 0
  {
    match step
    case ReserveStep(_, want) => TotalInsert(st.holds, n, want);
    case ConfirmStep(_, h) => TotalRemove(st.holds, h);
    case ReleaseStep(_, h) => TotalRemove(st.holds, h);
    case FillStep(_, b) => TotalInsert(st.holds, n, st.backorders[b]);
    case _ =>
  }

  /** A step leaves less than nothing available only if a receipt or return takes away more than there is. */
  lemma {:induction false} StepLeaves(e: Engine, hash: SkuId -> nat, step: Step, sku: SkuId)
    requires EngineOk(e, hash) && Available(StateOf(e.shards, hash, sku)) >= 0
    ensures Available(StateOf(Do(e, hash, step).shards, hash, sku)) >= 0
       <==> Available(StateOf(e.shards, hash, sku)) + Brings(step, sku) >= 0
  {
    var st := StateOf(e.shards, hash, step.sku);
    assert SkuOk(st, SkuEvents(e.shards, hash, step.sku), e.nextId);
    match Transition(st, e.nextId, step)
    case Some((event, next, id)) =>
      Recorded(e.shards, hash, step.sku, event, next);
      if step.sku == sku { TransitionLeaves(st, e.nextId, step); }
    case None =>
      Touched(e.shards, hash, step.sku);
      if step.OrderStep? { OrderLeaves(e, hash, step.sku, step.want, sku); }
  }

  /**
   * Over every interleaving: the SKU is oversold at no point if and only if no receipt or return
   * with a negative quantity took away more than was available.
   */
  lemma {:induction false} NeverOversoldIff(hash: SkuId -> nat, steps: seq<Step>, sku: SkuId)
    ensures (forall n :: 0 <= n <= |steps| ==> AvailableAfter(hash, steps[..n], sku) >= 0)
       <==> forall i :: 0 <= i < |steps| ==> AvailableAfter(hash, steps[..i], sku) + Brings(steps[i], sku) >= 0
  {
    if forall i :: 0 <= i < |steps| ==> AvailableAfter(hash, steps[..i], sku) + Brings(steps[i], sku) >= 0 {
      forall n | 0 <= n <= |steps| ensures AvailableAfter(hash, steps[..n], sku) >= 0 {
        CoveredSoFar(hash, steps, sku, n);
      }
    }
    if forall n :: 0 <= n <= |steps| ==> AvailableAfter(hash, steps[..n], sku) >= 0 {
      forall i | 0 <= i < |steps| ensures AvailableAfter(hash, steps[..i], sku) + Brings(steps[i], sku) >= 0 {
        assert AvailableAfter(hash, steps[..i + 1], sku) >= 0;
        OneStepCovered(hash, steps, sku, i);
      }
    }
  }

  lemma {:induction false} OneStepCovered(hash: SkuId -> nat, steps: seq<Step>, sku: SkuId, i: nat)
    requires i < |steps| && AvailableAfter(hash, steps[..i], sku) >= 0
    ensures AvailableAfter(hash, steps[..i + 1], sku) >= 0
        <==> AvailableAfter(hash, steps[..i], sku) + Brings(steps[i], sku) >= 0
  {
    assert steps[..i + 1][..i] == steps[..i];
    RunKeeps(hash, steps[..i]);
    StepLeaves(RunFrom(NewEngine(), hash, steps[..i]), hash, steps[i], sku);
  }

  ghost function AvailableAfter(hash: SkuId -> nat, steps: seq<Step>, sku: SkuId): int {
    Available(StateOf(RunFrom(NewEngine(), hash, steps).shards, hash, sku))
  }

  lemma {:induction false} CoveredSoFar(hash: SkuId -> nat, steps: seq<Step>, sku: SkuId, n: nat)
    requires n <= |steps|
    requires forall i :: 0 <= i < |steps| ==> AvailableAfter(hash, steps[..i], sku) + Brings(steps[i], sku) >= 0
    ensures AvailableAfter(hash, steps[..n], sku) >= 0
  {
    if n > 0 {
      CoveredSoFar(hash, steps, sku, n - 1);
      OneStepCovered(hash, steps, sku, n - 1);
    } else {
      assert StateOf(NewEngine().shards, hash, sku) == NoStock();
    }
  }

  /** Receives and returns bring units in; they never take any away. */
  ghost predicate StockIncreases(step: Step) {
    match step
    case ReceiveStep(_, qty) => qty >= 0
    case ReturnStep(_, qty) => qty >= 0
    case _ => true
  }

  /** So with receipts and returns that are not negative, what is committed and held never exceeds what came in. */
  lemma {:induction false} NeverOversold(hash: SkuId -> nat, steps: seq<Step>, sku: SkuId)
    requires forall i :: 0 <= i < |steps| ==> StockIncreases(steps[i])
    ensures var e := RunFrom(NewEngine(), hash, steps);
      var st, evs := StateOf(e.shards, hash, sku), SkuEvents(e.shards, hash, sku);
      && CapturedTotal(evs) + Total(st.holds) <= StockIn(evs)
      && Accounted(st, evs)
  {
    HoldsAccounted(hash, steps, sku);
    StaysCovered(hash, steps, sku);
  }

  lemma {:induction false} StaysCovered(hash: SkuId -> nat, steps: seq<Step>, sku: SkuId)
    requires forall i :: 0 <= i < |steps| ==> StockIncreases(steps[i])
    ensures AvailableAfter(hash, steps, sku) >= 0
  {
    if steps != [] {
      var n := |steps| - 1;
      StaysCovered(hash, steps[..n], sku);
      RunKeeps(hash, steps[..n]);
      StepLeaves(RunFrom(NewEngine(), hash, steps[..n]), hash, steps[n], sku);
    } else {
      assert StateOf(NewEngine().shards, hash, sku) == NoStock();
    }
  }

  // ----- Replay -----

  lemma {:induction false} HomeEvents(shards: seq<Shard>, hash: SkuId -> nat, sku: SkuId, from: nat)
    requires |shards| == SHARDS && HomeOnly(shards, hash) && from <= SHARDS
    ensures EventsOf(AllEvents(shards[from..]), sku)
        == if ShardIndex(hash, sku) >= from then SkuEvents(shards, hash, sku) else []
    decreases SHARDS - from
  {
    if from < SHARDS {
      var log, later := shards[from].store.log, AllEvents(shards[from + 1..]);
      assert AllEvents(shards[from..]) == log + later by { assert shards[from..][1..] == shards[from + 1..]; }
      HomeEvents(shards, hash, sku, from + 1);
      StreamAppend(log, later, sku);
      if ShardIndex(hash, sku) != from {
        forall k | 0 <= k < |log| ensures log[k].aggregate != sku { assert ShardIndex(hash, log[k].aggregate) == from; }
        NoEvents(log, sku);
      }
    } else {
      assert shards[from..] == [];
    }
  }

  /** The rebuilt state of a SKU is the fold of its own events. */
  lemma {:induction false} RebuiltState(shards: seq<Shard>, hash: SkuId -> nat, sku: SkuId)
    requires |shards| == SHARDS && HomeOnly(shards, hash)
    ensures StateIn(ReplayStates(AllEvents(shards)), sku) == Fold(SkuEvents(shards, hash, sku))
  {
    HomeEvents(shards, hash, sku, 0);
    assert shards[0..] == shards;
    ReplayStateIn(AllEvents(shards), sku);
  }

  /**
   * The rebuilt state of a SKU whose invariant holds is the live one exactly when none of its backorders
   * was filled.
   */
  lemma {:induction false} RebuiltIff(e: Engine, hash: SkuId -> nat, sku: SkuId)
    requires EngineOk(e, hash)
    ensures var live, rebuilt := StateOf(e.shards, hash, sku), StateIn(ReplayStates(AllEvents(e.shards)), sku);
      && (rebuilt == live <==> Fills(SkuEvents(e.shards, hash, sku)) == 0)
      && rebuilt == Fold(SkuEvents(e.shards, hash, sku))
      && rebuilt.onHand == live.onHand
      && (forall b :: b in live.backorders ==> b in rebuilt.backorders && rebuilt.backorders[b] == live.backorders[b])
  {
    RebuiltState(e.shards, hash, sku);
    assert SkuOk(StateOf(e.shards, hash, sku), SkuEvents(e.shards, hash, sku), e.nextId);
  }

  lemma {:induction false} FillsCountedStep(st: SkuState, evs: seq<ReserveEvent>, n: HoldId, step: Step)
    requires SkuOk(st, evs, n) && FillsCounted(st, evs) && Transition(st, n, step).Some?
    ensures var (event, next, id) := Transition(st, n, step).value; FillsCounted(next, evs + [event])
  {
    var (event, next, id) := Transition(st, n, step).value;
    FoldSnoc(evs, event);
    assert n !in Fold(evs).backorders;
    ProjectKeepsBackorders(Fold(evs), event);
    if step.FillStep? {
      var left := st.backorders - {step.backorder};
      assert st.backorders == left[step.backorder := st.backorders[step.backorder]];
    }
  }

  lemma {:induction false} ProjectKeepsBackorders(st: SkuState, event: ReserveEvent)
    requires !event.BackorderPlaced? && (event.BackorderFilled? ==> event.reservation !in st.backorders)
    ensures Project(st, event).backorders == st.backorders
  {
  }

  ghost predicate CountedIn(e: Engine, hash: SkuId -> nat, sku: SkuId)
    requires |e.shards| == SHARDS
  {
    FillsCounted(StateOf(e.shards, hash, sku), SkuEvents(e.shards, hash, sku))
  }

  lemma {:induction false} LastCounted(e: Engine, hash: SkuId -> nat, k: SkuId, short: nat, sku: SkuId, after: Engine)
    requires EngineOk(e, hash) && CountedIn(e, hash, sku)
    requires after == if short > 0 then PlaceBackorder(e, hash, k, short) else e
    ensures CountedIn(after, hash, sku)
  {
    if short > 0 { BackorderCounted(e, hash, k, short, sku); }
  }

  lemma {:induction false} BothCounted(e: Engine, hash: SkuId -> nat, k: SkuId, taken: nat, short: nat, sku: SkuId,
      after: Engine)
    requires EngineOk(e, hash) && CountedIn(e, hash, sku)
    requires after == Order(e, hash, k, taken, taken + short) && taken > 0
    ensures CountedIn(after, hash, sku)
  {
    var first := PlaceHold(e, hash, k, taken);
    assert after == if short > 0 then PlaceBackorder(first, hash, k, short) else first;
    PlaceHoldKeeps(e, hash, k, taken);
    HoldCounted(e, hash, k, taken, sku);
    LastCounted(first, hash, k, short, sku, after);
  }

  lemma {:induction false} WritesCounted(e: Engine, hash: SkuId -> nat, k: SkuId, taken: nat, short: nat, sku: SkuId,
      after: Engine)
    requires EngineOk(e, hash) && CountedIn(e, hash, sku)
    requires after == Order(e, hash, k, taken, taken + short)
    ensures CountedIn(after, hash, sku)
  {
    if taken > 0 {
      BothCounted(e, hash, k, taken, short, sku, after);
    } else {
      LastCounted(e, hash, k, short, sku, after);
    }
  }

  lemma {:induction false} TouchCounted(e: Engine, hash: SkuId -> nat, k: SkuId, sku: SkuId)
    requires |e.shards| == SHARDS && CountedIn(e, hash, sku)
    ensures CountedIn(e.(shards := Touch(e.shards, hash, k)), hash, sku)
  {
    Touched(e.shards, hash, k);
    assert SkuEvents(Touch(e.shards, hash, k), hash, sku) == SkuEvents(e.shards, hash, sku);
  }

  lemma {:induction false} FillsCountedOrder(e: Engine, hash: SkuId -> nat, k: SkuId, want: nat, sku: SkuId)
    requires EngineOk(e, hash) && CountedIn(e, hash, sku)
    ensures CountedIn(Do(e, hash, OrderStep(k, want)), hash, sku)
  {
    var first, taken, short := SomeTaken(e, hash, k, want, sku);
    WritesCounted(first, hash, k, taken, short, sku, Do(e, hash, OrderStep(k, want)));
  }

  lemma {:induction false} SomeTaken(e: Engine, hash: SkuId -> nat, k: SkuId, want: nat, sku: SkuId)
    returns (first: Engine, taken: nat, short: nat)
    requires EngineOk(e, hash) && CountedIn(e, hash, sku)
    ensures EngineOk(first, hash) && CountedIn(first, hash, sku)
    ensures Do(e, hash, OrderStep(k, want)) == Order(first, hash, k, taken, taken + short)
  {
    first, taken, short := OrderTakes(e, hash, k, want);
    TouchKeeps(e, hash, k);
    TouchCounted(e, hash, k, sku);
  }

  lemma {:induction false} OrderTakes(e: Engine, hash: SkuId -> nat, k: SkuId, want: nat)
    returns (first: Engine, taken: nat, short: nat)
    requires |e.shards| == SHARDS
    ensures first == e.(shards := Touch(e.shards, hash, k))
    ensures Do(e, hash, OrderStep(k, want)) == Order(first, hash, k, taken, taken + short)
  {
    first := e.(shards := Touch(e.shards, hash, k));
    taken := Reservable(Available(StateOf(e.shards, hash, k)), want);
    short := want - taken;
  }

  lemma {:induction false} HoldCounted(e: Engine, hash: SkuId -> nat, k: SkuId, qty: nat, sku: SkuId)
    requires EngineOk(e, hash) && CountedIn(e, hash, sku)
    ensures CountedIn(PlaceHold(e, hash, k, qty), hash, sku)
  {
    var st := StateOf(e.shards, hash, k);
    RecordChanges(e.shards, hash, k, Hold(e.nextId, qty), st.(holds := st.holds[e.nextId := qty]));
    FoldSnoc(SkuEvents(e.shards, hash, k), Hold(e.nextId, qty));
  }

  lemma {:induction false} BackorderCounted(e: Engine, hash: SkuId -> nat, k: SkuId, qty: nat, sku: SkuId)
    requires EngineOk(e, hash) && CountedIn(e, hash, sku)
    ensures CountedIn(PlaceBackorder(e, hash, k, qty), hash, sku)
  {
    var st := StateOf(e.shards, hash, k);
    var evs := SkuEvents(e.shards, hash, k);
    assert SkuOk(st, evs, e.nextId);
    RecordChanges(e.shards, hash, k, BackorderPlaced(e.nextId, qty), st.(backorders := st.backorders[e.nextId := qty]));
    FoldSnoc(evs, BackorderPlaced(e.nextId, qty));
    assert e.nextId !in st.backorders && e.nextId !in Fold(evs).backorders;
  }

  lemma {:induction false} RunCountsFills(hash: SkuId -> nat, steps: seq<Step>, sku: SkuId)
    ensures CountedIn(RunFrom(NewEngine(), hash, steps), hash, sku)
  {
    if steps == [] {
      NewEngineOk(hash);
      assert SkuEvents(NewEngine().shards, hash, sku) == [] && StateOf(NewEngine().shards, hash, sku) == NoStock();
    } else {
      var n := |steps| - 1;
      RunKeeps(hash, steps[..n]);
      RunCountsFills(hash, steps[..n], sku);
      DoCountsFills(RunFrom(NewEngine(), hash, steps[..n]), hash, steps[n], sku);
    }
  }

  lemma {:induction false} DoCountsFills(e: Engine, hash: SkuId -> nat, step: Step, sku: SkuId)
    requires EngineOk(e, hash) && CountedIn(e, hash, sku)
    ensures CountedIn(Do(e, hash, step), hash, sku)
  {
    var st, evs := StateOf(e.shards, hash, step.sku), SkuEvents(e.shards, hash, step.sku);
    match Transition(st, e.nextId, step)
    case Some((event, next, id)) =>
      RecordChanges(e.shards, hash, step.sku, event, next);
      if step.sku == sku {
        assert SkuOk(st, evs, e.nextId);
        FillsCountedStep(st, evs, e.nextId, step);
      }
    case None =>
      if step.ReserveStep? { TouchCounted(e, hash, step.sku, sku); }
      else if step.OrderStep? { FillsCountedOrder(e, hash, step.sku, step.want, sku); }
  }

  /**
   * Over every run: the read model rebuilt from the concatenated shard logs is the live one for a
   * SKU if and only if no backorder of that SKU was ever filled. Each fill leaves one backorder
   * behind in the replay, while the stock on hand always agrees.
   */
  lemma {:induction false} ReplayEqualsLiveIff(hash: SkuId -> nat, steps: seq<Step>, sku: SkuId)
    ensures var e := RunFrom(NewEngine(), hash, steps);
      var live, rebuilt := StateOf(e.shards, hash, sku), StateIn(ReplayStates(AllEvents(e.shards)), sku);
      var fills := Fills(SkuEvents(e.shards, hash, sku));
      && (rebuilt == live <==> fills == 0)
      && |rebuilt.backorders| == |live.backorders| + fills
      && rebuilt.onHand == live.onHand
  {
    RunKeeps(hash, steps);
    RunCountsFills(hash, steps, sku);
    RebuiltIff(RunFrom(NewEngine(), hash, steps), hash, sku);
  }

  // ----- The 32-bit cast -----

  /** What a call may take: the units available, none if there are none, and at most what is asked. */
  function Rightful(available: int, want: nat): nat {
    if available < 0 then 0 else if available < want then available else want
  }

  /** When the cast to 32 bits does no harm: the count fits, or its low 32 bits still lead to the right answer. */
  predicate CastHarmless(available: int, want: nat) {
    if available < 0 then want == 0 || available % U32 == 0 else available < U32 || available % U32 >= want
  }

  /** A call takes what it may, for every count and every request, if and only if the cast is harmless. */
  lemma {:induction false} ReservesRightfulIff(available: int, want: nat)
    ensures Reservable(available, want) == Rightful(available, want) <==> CastHarmless(available, want)
  {
    if 0 <= available < U32 {
      assert available % U32 == available;
    } else if available >= U32 {
      assert available % U32 < available;
    }
  }

  /** Too little is taken from a large count, too much from a negative one; never the other way. */
  lemma {:induction false} CastErrsOneWay(available: int, want: nat)
    ensures available >= 0 ==> Reservable(available, want) <= Rightful(available, want)
    ensures available < 0 ==> Reservable(available, want) >= Rightful(available, want)
    ensures 0 - U32 < available < 0 && want <= U32 + available ==> Reservable(available, want) == want
  {
    if available >= 0 { assert available % U32 <= available; }
    if 0 - U32 < available < 0 { assert available % U32 == available + U32; }
  }

  // ----- The two lock sections taken apart -----

  /**
   * Two calls that both read five units available before either writes its hold: each then holds
   * five, and the pool is five short.
   */
  lemma {:induction false} InterleavedSectionsOversell(hash: SkuId -> nat)
    ensures var e := RunFrom(NewEngine(), hash, [ReceiveStep(1, 5)]);
      var readByFirst := Reservable(Available(StateOf(e.shards, hash, 1)), 5);
      var readBySecond := Reservable(Available(StateOf(e.shards, hash, 1)), 5);
      var after := PlaceHold(PlaceHold(e, hash, 1, readByFirst), hash, 1, readBySecond);
      Available(StateOf(after.shards, hash, 1)) == -5
  {
    var e := RunFrom(NewEngine(), hash, [ReceiveStep(1, 5)]);
    assert [ReceiveStep(1, 5)][..0] == [];
    var st := StateOf(e.shards, hash, 1);
    assert st == SkuState(5, 0, map[], map[]);
    var once := PlaceHold(e, hash, 1, 5);
    TotalInsert(st.holds, e.nextId, 5);
    var held := StateOf(once.shards, hash, 1).holds;
    assert held == map[e.nextId := 5];
    TotalInsert(held, once.nextId, 5);
  }
}
